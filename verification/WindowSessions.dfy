/**
 Which session each window label stands for. Labels are used again after a window dies; sessions never are.
 */
module WindowSessions {
  import opened Wrappers
  import opened Decimals

  type Label = string

  type Session = string

  /** `issued` counts the sessions handed out so far. */
  datatype Sessions = Sessions(issued: nat, current: map<Label, Session>)

  const NO_SESSIONS := Sessions(0, map[])

  function Name(window: Label, n: nat): Session {
    window + "#" + Show(n)
  }

  function BeginSession(st: Sessions, window: Label): (Sessions, Session) {
    var s := Name(window, st.issued + 1);
    (Sessions(st.issued + 1, st.current[window := s]), s)
  }

  function CurrentSession(st: Sessions, window: Label): Session {
    if window in st.current then st.current[window] else window
  }

  function EndSession(st: Sessions, window: Label, session: Session): Sessions {
    if window in st.current && st.current[window] == session then st.(current := st.current - {window}) else st
  }

  /** The owner a call from `window` acts for; a call that claims a session must still have it. */
  function ResolveSession(st: Sessions, window: Label, claimed: Option<Session>): Option<Session> {
    if claimed.Some? && claimed.value != CurrentSession(st, window) then None else Some(CurrentSession(st, window))
  }

  /** A session names its label and its number. */
  lemma NamesAreDistinct(window: Label, n: nat, window': Label, n': nat)
    requires Name(window, n) == Name(window', n')
    ensures window == window' && n == n'
  {
    LastCutIsUnique(window, Show(n), window', Show(n'), '#');
    ValueOfShow(n);
    ValueOfShow(n');
  }

  /** The sessions handed out by `st`. */
  ghost predicate WasIssued(st: Sessions, s: Session) {
    exists window, n: nat :: 1 <= n <= st.issued && s == Name(window, n)
  }

  /** A new session was never handed out before, for any label. */
  lemma BeginIsFresh(st: Sessions, window: Label)
    ensures !WasIssued(st, BeginSession(st, window).1) && WasIssued(BeginSession(st, window).0, BeginSession(st, window).1)
    ensures forall s :: WasIssued(st, s) ==> WasIssued(BeginSession(st, window).0, s)
  {
    if WasIssued(st, BeginSession(st, window).1) {
      var l, n: nat :| 1 <= n <= st.issued && BeginSession(st, window).1 == Name(l, n);
      NamesAreDistinct(window, st.issued + 1, l, n);
    }
  }

  class SessionTable {
    var issued: nat
    var map_: map<Label, Session>

    function View(): Sessions
      reads this
    {
      Sessions(issued, map_)
    }

    constructor ()
      ensures View() == NO_SESSIONS
    {
      issued, map_ := 0, map[];
    }

    method Begin(window: Label) returns (session: Session)
      modifies this
      ensures (View(), session) == BeginSession(old(View()), window)
    {
      issued := issued + 1;
      session := Name(window, issued);
      map_ := map_[window := session];
    }

    method Current(window: Label) returns (session: Session)
      ensures session == CurrentSession(View(), window)
    {
      session := if window in map_ then map_[window] else window;
    }

    method End(window: Label, session: Session)
      modifies this
      ensures View() == EndSession(old(View()), window, session)
    {
      if window in map_ && map_[window] == session {
        map_ := map_ - {window};
      }
    }

    method IsLive(window: Label) returns (b: bool)
      ensures b <==> window in map_
    {
      b := window in map_;
    }

    method Resolve(window: Label, claimed: Option<Session>) returns (owner: Option<Session>)
      ensures owner == ResolveSession(View(), window, claimed)
    {
      var now := Current(window);
      match claimed {
        case Some(c) =>
          if c != now {
            return None;
          }
        case None =>
      }
      owner := Some(now);
    }
  }
}
