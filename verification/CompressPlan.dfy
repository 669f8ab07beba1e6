/** How a compress window treats one request, given what its form holds right now. */
module CompressPlan {
  import opened Wrappers
  import opened LeaseQueue

  datatype Phase = Form | Running | Finished

  /** What the window tells about itself: the screen it shows, the inputs in its form, whether a job is under way. */
  datatype Host = Host(phase: Phase, inputs: seq<string>, busy: bool)

  datatype Mode = BatchMode | AutoMode | FormMode

  datatype Plan =
    | Ignore
    | Hold
    | Apply(reset: bool, mode: Mode, paths: seq<string>, batch: seq<BatchItem>,
            format: Option<string>, output: Option<string>)

  /** An absent value and an empty string both mean that nothing was given. */
  function NonEmpty(o: Option<string>): Option<string> {
    if o.Some? && o.value != "" then o else None
  }

  predicate IsFormDirty(host: Host) {
    host.phase.Form? && |host.inputs| > 0
  }

  predicate IsStandalone(launch: Launch) {
    |launch.batch| > 0 || (launch.autoStart && NonEmpty(launch.output).Some? && |launch.inputs| > 0)
  }

  predicate IsEmpty(launch: Launch) {
    |launch.inputs| == 0 && |launch.batch| == 0
  }

  function PlanLaunch(host: Host, launch: Launch): Plan {
    if IsEmpty(launch) then Ignore
    else if IsStandalone(launch) && IsFormDirty(host) then Hold
    else
      Apply(
        IsStandalone(launch) || host.phase.Finished?,
        if |launch.batch| > 0 then BatchMode else if IsStandalone(launch) then AutoMode else FormMode,
        launch.inputs,
        launch.batch,
        NonEmpty(launch.format),
        NonEmpty(launch.output))
  }

  /**
   A plan resets the form only when that loses no input the user has not started yet, a job is only
   started by a request that names its own output or batch, and such a request always gets a reset form.
   */
  lemma PlansRespectTheForm(host: Host, launch: Launch)
    ensures var plan := PlanLaunch(host, launch);
      && (plan.Ignore? <==> IsEmpty(launch))
      && (plan.Apply? && plan.reset ==> !IsFormDirty(host))
      && (plan.Apply? && !plan.mode.FormMode? ==> plan.reset && IsStandalone(launch))
      && (plan.Apply? && plan.mode.AutoMode? ==> plan.output.Some? && |plan.paths| > 0)
      && (plan.Apply? && plan.mode.BatchMode? ==> |plan.batch| > 0)
      && (plan.Hold? ==> IsFormDirty(host) && PlanLaunch(host.(inputs := []), launch).Apply?)
  {
  }
}
