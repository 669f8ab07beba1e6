/** The one-entry zip that the big-file path leaves: sections 4.3.7, 4.3.12 and 4.3.16 of PKWARE APPNOTE.TXT. */
module Containers {
  import opened Wrappers
  import opened FlatFile
  import opened LittleEndian

  /** A number cast to 32 bits. */
  function Low32(n: nat): nat {
    n % 0x1_0000_0000
  }

  const STUB: byte := 0x61

  const LOCAL_LEN := 31
  const CENTRAL_LEN := 47
  const END_LEN := 22

  const LOCAL_SIGNATURE := 0x0403_4b50
  const CENTRAL_SIGNATURE := 0x0201_4b50
  const END_SIGNATURE := 0x0605_4b50

  datatype Entry = Entry(csize: nat, raw: nat, crc: nat, time: nat, date: nat)

  /** What the local header and the central one have in common. */
  function Common(e: Entry): seq<Field> {
    [Field(20, 2), Field(0, 2), Field(8, 2), Field(e.time, 2), Field(e.date, 2), Field(e.crc, 4), Field(e.csize, 4),
     Field(e.raw, 4), Field(1, 2), Field(0, 2)]
  }

  const LOCAL_HEAD := [Field(LOCAL_SIGNATURE, 4)]
  const CENTRAL_HEAD := [Field(CENTRAL_SIGNATURE, 4), Field(20, 2)]
  const CENTRAL_TAIL := [Field(0, 2), Field(0, 2), Field(0, 2), Field(0, 4), Field(0, 4)]

  function LocalHeader(e: Entry): seq<byte> {
    Record(LOCAL_HEAD) + Record(Common(e)) + [STUB]
  }

  function CentralHeader(e: Entry): seq<byte> {
    Record(CENTRAL_HEAD) + Record(Common(e)) + Record(CENTRAL_TAIL) + [STUB]
  }

  function EndFields(cdLen: nat, cdOff: nat): seq<Field> {
    [Field(END_SIGNATURE, 4), Field(0, 2), Field(0, 2), Field(1, 2), Field(1, 2), Field(cdLen, 4), Field(cdOff, 4),
     Field(0, 2)]
  }

  function EndRecord(cdLen: nat, cdOff: nat): seq<byte> {
    Record(EndFields(cdLen, cdOff))
  }

  /** The whole file for an entry and its compressed bytes. */
  function Archive(e: Entry, body: seq<byte>): seq<byte> {
    LocalHeader(e) + body + CentralHeader(e) + EndRecord(CENTRAL_LEN, LOCAL_LEN + e.csize)
  }

  /** Bytes `at` to `at + n`, if they are there. */
  function Part(s: seq<byte>, at: nat, n: nat): Option<seq<byte>> {
    if at + n <= |s| then Some(s[at..at + n]) else None
  }

  const END_WIDTHS: seq<nat> := [4, 2, 2, 2, 2, 4, 4, 2]

  const COMMON_WIDTHS: seq<nat> := [2, 2, 2, 2, 2, 4, 4, 4, 2, 2]

  /** What a reader finds: the entry by its central header, and the bytes that its local header leads to. */
  datatype Found = Found(entry: Entry, data: seq<byte>)

  function EntryOf(v: seq<nat>): Entry
    requires |v| == 10
  {
    Entry(v[6], v[7], v[5], v[3], v[4])
  }

  /** The end record, if the file ends in one for a single entry: how long the central header is, and where. */
  function ReadEnd(s: seq<byte>): Option<(nat, nat)> {
    if |s| < END_LEN then None
    else
      var v := Fetched(s[|s| - END_LEN..], END_WIDTHS);
      if |v| == 8 && v[0] == END_SIGNATURE && v[3] == 1 && v[4] == 1 then Some((v[5], v[6])) else None
  }

  /** The central header at `at`: the entry, and where its local header is. */
  function ReadCentral(s: seq<byte>, at: nat, len: nat): Option<(Entry, nat)> {
    if at + len > |s| || len < 46 then None
    else
      var v := Fetched(s[at..at + len], [4, 2] + COMMON_WIDTHS + [2, 2, 2, 4, 4]);
      if |v| == 17 && v[0] == CENTRAL_SIGNATURE && len == 46 + v[10] + v[11] + v[12] then
        Some((EntryOf(v[2..12]), v[16]))
      else None
  }

  /** The local header at `at`: the entry, and where its bytes start. */
  function ReadLocal(s: seq<byte>, at: nat): Option<(Entry, nat)> {
    if at > |s| then None
    else
      var v := Fetched(s[at..], [4] + COMMON_WIDTHS);
      if |v| == 11 && v[0] == LOCAL_SIGNATURE then Some((EntryOf(v[1..11]), at + 30 + v[9] + v[10])) else None
  }

  /** Read a one-entry zip from its end: end record, central header, local header, data. */
  function Read(s: seq<byte>): Option<Found> {
    match ReadEnd(s)
    case None => None
    case Some((len, off)) =>
      match ReadCentral(s, off, len)
      case None => None
      case Some((entry, at)) =>
        match ReadLocal(s, at)
        case None => None
        case Some((again, start)) =>
          if again != entry then None
          else match Part(s, start, entry.csize)
               case None => None
               case Some(data) => Some(Found(entry, data))
  }

  lemma Ranges()
    ensures Range(2) == 0x1_0000 && Range(4) == 0x1_0000_0000
  {
    assert Range(2) == 256 * Range(1) == 256 * 256;
    assert Range(4) == 256 * Range(3) == 256 * (256 * Range(2));
  }

  predicate Fits(e: Entry) {
    e.csize < 0x1_0000_0000 && e.raw < 0x1_0000_0000 && e.crc < 0x1_0000_0000 && e.time < 0x1_0000 && e.date < 0x1_0000
  }

  lemma CommonWidths(e: Entry)
    ensures Widths(Common(e)) == COMMON_WIDTHS && |Record(Common(e))| == 26
  {
    RecordWidth(Common(e));
    assert Widths(Common(e)) == COMMON_WIDTHS;
    assert Total([2, 2, 2, 2, 2, 4, 4, 4, 2, 2]) == 26;
  }

  lemma CommonReads(e: Entry)
    requires Fits(e)
    ensures Values(Common(e)) == [20, 0, 8, e.time, e.date, e.crc, e.csize, e.raw, 1, 0]
  {
    Ranges();
    BelowIsItself(e.time, Range(2));
    BelowIsItself(e.date, Range(2));
    BelowIsItself(e.crc, Range(4));
    BelowIsItself(e.csize, Range(4));
    BelowIsItself(e.raw, Range(4));
    BelowIsItself(20, Range(2));
    BelowIsItself(8, Range(2));
    BelowIsItself(1, Range(2));
    BelowIsItself(0, Range(2));
  }

  lemma HeadsAndTails()
    ensures Widths(LOCAL_HEAD) == [4] && Values(LOCAL_HEAD) == [LOCAL_SIGNATURE] && |Record(LOCAL_HEAD)| == 4
    ensures Widths(CENTRAL_HEAD) == [4, 2] && Values(CENTRAL_HEAD) == [CENTRAL_SIGNATURE, 20]
    ensures |Record(CENTRAL_HEAD)| == 6
    ensures Widths(CENTRAL_TAIL) == [2, 2, 2, 4, 4] && Values(CENTRAL_TAIL) == [0, 0, 0, 0, 0]
    ensures |Record(CENTRAL_TAIL)| == 14
  {
    Ranges();
    RecordWidth(LOCAL_HEAD);
    RecordWidth(CENTRAL_HEAD);
    RecordWidth(CENTRAL_TAIL);
    assert Widths(LOCAL_HEAD) == [4] && Total([4]) == 4;
    assert Widths(CENTRAL_HEAD) == [4, 2] && Total([4, 2]) == 6;
    assert Widths(CENTRAL_TAIL) == [2, 2, 2, 4, 4] && Total([2, 2, 2, 4, 4]) == 14;
    BelowIsItself(LOCAL_SIGNATURE, Range(4));
    BelowIsItself(CENTRAL_SIGNATURE, Range(4));
    BelowIsItself(20, Range(2));
    BelowIsItself(0, Range(2));
    BelowIsItself(0, Range(4));
  }

  lemma EndLength(cdLen: nat, cdOff: nat)
    ensures |EndRecord(cdLen, cdOff)| == END_LEN && Widths(EndFields(cdLen, cdOff)) == END_WIDTHS
  {
    var f := EndFields(cdLen, cdOff);
    RecordWidth(f);
    assert Widths(f) == END_WIDTHS;
    assert Total([4, 2, 2, 2, 2, 4, 4, 2]) == 22;
  }

  lemma EndValues(cdLen: nat, cdOff: nat)
    requires cdLen < 0x1_0000_0000
    ensures Values(EndFields(cdLen, cdOff)) == [END_SIGNATURE, 0, 0, 1, 1, cdLen, Low32(cdOff), 0]
  {
    Ranges();
    BelowIsItself(END_SIGNATURE, Range(4));
    BelowIsItself(1, Range(2));
    BelowIsItself(0, Range(2));
    BelowIsItself(cdLen, Range(4));
  }

  lemma EndReads(s: seq<byte>, cdLen: nat, cdOff: nat)
    requires cdLen < 0x1_0000_0000 && |s| >= END_LEN && s[|s| - END_LEN..] == EndRecord(cdLen, cdOff)
    ensures ReadEnd(s) == Some((cdLen, Low32(cdOff)))
  {
    var f := EndFields(cdLen, cdOff);
    EndLength(cdLen, cdOff);
    EndValues(cdLen, cdOff);
    RecordReadsBack(f, []);
    assert Record(f) + [] == Record(f);
  }

  /** The end record is found whatever is in front of it. */
  lemma EndIsFound(front: seq<byte>, cdLen: nat, cdOff: nat)
    requires cdLen < 0x1_0000_0000
    ensures ReadEnd(front + EndRecord(cdLen, cdOff)) == Some((cdLen, Low32(cdOff)))
  {
    EndLength(cdLen, cdOff);
    var s := front + EndRecord(cdLen, cdOff);
    assert s[|s| - END_LEN..] == EndRecord(cdLen, cdOff);
    EndReads(s, cdLen, cdOff);
  }

  lemma CentralReads(e: Entry)
    requires Fits(e)
    ensures |CentralHeader(e)| == CENTRAL_LEN
    ensures ReadCentral(CentralHeader(e), 0, CENTRAL_LEN) == Some((e, 0))
  {
    HeadsAndTails();
    CommonWidths(e);
    CommonReads(e);
    ThreeReadBack(CENTRAL_HEAD, Common(e), CENTRAL_TAIL, [STUB]);
    var s := CentralHeader(e);
    assert s[0..CENTRAL_LEN] == s;
    assert [2, 2, 2, 4, 4] == Widths(CENTRAL_TAIL);
    var v := Values(CENTRAL_HEAD) + Values(Common(e)) + Values(CENTRAL_TAIL);
    assert v[2..12] == Values(Common(e));
  }

  /** The central header is found wherever it is. */
  lemma CentralIsFound(front: seq<byte>, e: Entry, rest: seq<byte>)
    requires Fits(e)
    ensures ReadCentral(front + CentralHeader(e) + rest, |front|, CENTRAL_LEN) == Some((e, 0))
  {
    CentralReads(e);
    var s := front + CentralHeader(e) + rest;
    assert s[|front|..|front| + CENTRAL_LEN] == CentralHeader(e) == CentralHeader(e)[0..CENTRAL_LEN];
  }

  lemma LocalReads(e: Entry, rest: seq<byte>)
    requires Fits(e)
    ensures |LocalHeader(e)| == LOCAL_LEN
    ensures ReadLocal(LocalHeader(e) + rest, 0) == Some((e, LOCAL_LEN))
  {
    HeadsAndTails();
    CommonWidths(e);
    CommonReads(e);
    ThreeReadBack(LOCAL_HEAD, Common(e), [], [STUB] + rest);
    var s := LocalHeader(e) + rest;
    assert s[0..] == s == Record(LOCAL_HEAD) + Record(Common(e)) + Record([]) + ([STUB] + rest);
    assert [4] + COMMON_WIDTHS == Widths(LOCAL_HEAD) + Widths(Common(e)) + Widths([]);
    var v := Values(LOCAL_HEAD) + Values(Common(e)) + Values([]);
    assert v[1..11] == Values(Common(e));
  }

  lemma LocalLength(e: Entry)
    requires Fits(e)
    ensures |LocalHeader(e)| == LOCAL_LEN
  {
    LocalReads(e, []);
  }

  lemma CentralLength(e: Entry)
    requires Fits(e)
    ensures |CentralHeader(e)| == CENTRAL_LEN
  {
    CentralReads(e);
  }

  lemma FourParts(a: seq<byte>, b: seq<byte>, c: seq<byte>, d: seq<byte>)
    ensures |a + b + c + d| == |a| + |b| + |c| + |d|
  {
  }

  /** The file is exactly its four parts long. */
  lemma ArchiveLength(e: Entry, body: seq<byte>)
    requires Fits(e)
    ensures |Archive(e, body)| == LOCAL_LEN + |body| + CENTRAL_LEN + END_LEN
  {
    LocalLength(e);
    CentralLength(e);
    EndLength(CENTRAL_LEN, LOCAL_LEN + e.csize);
    FourParts(LocalHeader(e), body, CentralHeader(e), EndRecord(CENTRAL_LEN, LOCAL_LEN + e.csize));
  }

  /** The recorded place of the central header is where it is, exactly for sizes that leave room for it in 32 bits. */
  lemma PlaceIsRightExactlyBelow(e: Entry, body: seq<byte>)
    requires Fits(e) && |body| == e.csize
    ensures ReadEnd(Archive(e, body)).Some? && ReadEnd(Archive(e, body)).value.0 == CENTRAL_LEN
    ensures ReadEnd(Archive(e, body)).value.1 == Low32(LOCAL_LEN + e.csize)
    ensures ReadEnd(Archive(e, body)).value.1 == |LocalHeader(e) + body| <==> e.csize + LOCAL_LEN < 0x1_0000_0000
  {
    LocalLength(e);
    EndIsFound(LocalHeader(e) + body + CentralHeader(e), CENTRAL_LEN, LOCAL_LEN + e.csize);
    BelowIsItself(LOCAL_LEN + e.csize, 0x1_0000_0000);
  }

  lemma ReadsBackFrom(s: seq<byte>, e: Entry, local: seq<byte>, body: seq<byte>, rest: seq<byte>)
    requires s == local + body + rest && |local| == LOCAL_LEN && |body| == e.csize
    requires ReadEnd(s) == Some((CENTRAL_LEN, |local + body|))
    requires ReadCentral(s, |local + body|, CENTRAL_LEN) == Some((e, 0)) && ReadLocal(s, 0) == Some((e, LOCAL_LEN))
    ensures Read(s) == Some(Found(e, body))
  {
    assert s[LOCAL_LEN..LOCAL_LEN + e.csize] == body;
  }

  lemma Regroup(a: seq<byte>, b: seq<byte>, c: seq<byte>, d: seq<byte>)
    ensures a + b + c + d == a + b + (c + d) && a + b + c + d == a + (b + c + d)
  {
  }

  /** Below that, the file reads back: the same sizes, checksum and time, and the body byte for byte. */
  lemma ArchiveReadsBack(e: Entry, body: seq<byte>)
    requires Fits(e) && |body| == e.csize && e.csize + LOCAL_LEN < 0x1_0000_0000
    ensures Read(Archive(e, body)) == Some(Found(e, body))
  {
    var local, central, end := LocalHeader(e), CentralHeader(e), EndRecord(CENTRAL_LEN, LOCAL_LEN + e.csize);
    PlaceIsRightExactlyBelow(e, body);
    CentralIsFound(local + body, e, end);
    LocalReads(e, body + central + end);
    Regroup(local, body, central, end);
    ReadsBackFrom(Archive(e, body), e, local, body, central + end);
  }

  lemma LowestByte(s: seq<byte>)
    requires s != []
    ensures Number(s) % 256 == NatOf(s[0])
  {
    DivisionIsUnique(Number(s), 256, Number(s[1..]), NatOf(s[0]));
  }

  lemma StubIsNoSignature()
    ensures NatOf(STUB) == 0x61
  {
  }

  /** Nothing that starts with the stub's name is a central header. */
  lemma NoCentralAt(s: seq<byte>, at: nat, len: nat)
    requires at < |s| && s[at] == STUB
    ensures ReadCentral(s, at, len) == None
  {
    StubIsNoSignature();
    if at + len <= |s| && len >= 46 {
      var t := s[at..at + len];
      var widths := [4, 2] + COMMON_WIDTHS + [2, 2, 2, 4, 4];
      assert widths[0] == 4 && t[..4][0] == STUB;
      LowestByte(t[..4]);
      assert Fetched(t, widths)[0] == Number(t[..4]);
    }
  }

  /** The stub's name ends the local header. */
  lemma StubIsLast(e: Entry) returns (front: seq<byte>)
    requires Fits(e)
    ensures LocalHeader(e) == front + [STUB] && |front| == LOCAL_LEN - 1
  {
    LocalLength(e);
    front := Record(LOCAL_HEAD) + Record(Common(e));
  }

  lemma StubLeadsNowhere(s: seq<byte>, front: seq<byte>, rest: seq<byte>, place: nat)
    requires s == front + [STUB] + rest && |front| == LOCAL_LEN - 1
    requires ReadEnd(s) == Some((CENTRAL_LEN, place)) && place == LOCAL_LEN - 1
    ensures Read(s) == None
  {
    NoCentralAt(s, place, CENTRAL_LEN);
    NoCentralNoZip(s, CENTRAL_LEN, place);
  }

  lemma NoCentralNoZip(s: seq<byte>, len: nat, off: nat)
    requires ReadEnd(s) == Some((len, off)) && ReadCentral(s, off, len) == None
    ensures Read(s) == None
  {
  }

  lemma StubIsInside(e: Entry, body: seq<byte>) returns (front: seq<byte>, rest: seq<byte>)
    requires Fits(e)
    ensures Archive(e, body) == front + [STUB] + rest && |front| == LOCAL_LEN - 1
  {
    front := StubIsLast(e);
    var central, end := CentralHeader(e), EndRecord(CENTRAL_LEN, LOCAL_LEN + e.csize);
    rest := body + central + end;
    Regroup(front + [STUB], body, central, end);
  }

  /** A file whose recorded place points at the stub's name does not read back. */
  lemma StubPlaceIsLost(e: Entry, body: seq<byte>)
    requires Fits(e) && |body| == e.csize && Low32(LOCAL_LEN + e.csize) == LOCAL_LEN - 1
    ensures Read(Archive(e, body)) == None
  {
    PlaceIsRightExactlyBelow(e, body);
    var front, rest := StubIsInside(e, body);
    StubLeadsNowhere(Archive(e, body), front, rest, LOCAL_LEN - 1);
  }

  /** The largest size that the guard lets through is one of the others: its file does not read back. */
  lemma LargestSizeIsLost(e: Entry, body: seq<byte>)
    requires Fits(e) && e.csize == 0xFFFF_FFFF == |body|
    ensures Read(Archive(e, body)) == None
  {
    StubPlaceIsLost(e, body);
  }
}
