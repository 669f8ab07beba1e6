/** Numbers as bytes, the lowest byte first, and records of such numbers. */
module LittleEndian {
  import opened FlatFile

  function ByteOf(n: nat): byte
    requires n < 256
  {
    n as bv8
  }

  function NatOf(b: byte): (n: nat)
    ensures n < 256
  {
    b as int
  }

  lemma ByteKeepsNumber(n: nat)
    requires n < 256
    ensures NatOf(ByteOf(n)) == n
  {
    CastsBack(n);
  }

  /** The byte that is `n` steps above zero. */
  ghost function Stepped(n: nat): byte
    decreases n
  {
    if n == 0 then 0 else Stepped(n - 1) + 1
  }

  lemma OneStep(b: byte)
    requires b as int < 255
    ensures (b + 1) as int == b as int + 1
  {
    assert b != 255;
  }

  lemma {:induction false} StepsCount(n: nat)
    requires n < 256
    ensures Stepped(n) as int == n
    decreases n
  {
    if n > 0 {
      StepsCount(n - 1);
      OneStep(Stepped(n - 1));
    }
  }

  lemma ThereAndBack(b: byte)
    ensures (b as int) as bv8 == b
  {
  }

  lemma CastsBack(n: int)
    requires 0 <= n < 256
    ensures (n as bv8) as int == n
  {
    StepsCount(n);
    ThereAndBack(Stepped(n));
  }

  /** 256 to the power of `k`. */
  function Range(k: nat): (r: nat)
    ensures r > 0
  {
    if k == 0 then 1 else 256 * Range(k - 1)
  }

  /** The lowest `k` bytes of a number. */
  function Bytes(n: nat, k: nat): (s: seq<byte>)
    ensures |s| == k
    decreases k
  {
    if k == 0 then [] else [ByteOf(n % 256)] + Bytes(n / 256, k - 1)
  }

  function Number(s: seq<byte>): (n: nat)
    ensures n < Range(|s|)
  {
    if s == [] then 0 else NatOf(s[0]) + 256 * Number(s[1..])
  }

  lemma ModInTwo(n: nat, m: nat)
    requires m > 0
    ensures n % 256 + 256 * (n / 256 % m) == n % (256 * m)
  {
    var q, r := n / 256, n % 256;
    var q2, r2 := q / m, q % m;
    assert q == m * q2 + r2;
    assert n == 256 * q + r == 256 * (m * q2 + r2) + r;
    assert 256 * (m * q2) == (256 * m) * q2;
    assert 0 <= 256 * r2 + r < 256 * m;
    DivisionIsUnique(n, 256 * m, q2, 256 * r2 + r);
  }

  lemma TimesMore(d: nat, a: int, b: int)
    requires a + 1 <= b
    ensures d * b >= d * a + d
  {
    assert d * b == d * (a + 1) + d * (b - a - 1);
    assert d * (b - a - 1) >= 0;
  }

  lemma DivisionIsUnique(n: nat, d: nat, q: nat, r: nat)
    requires n == d * q + r && r < d
    ensures n % d == r
  {
    var q' := n / d;
    if q > q' {
      TimesMore(d, q', q);
    } else if q < q' {
      TimesMore(d, q, q');
    }
  }

  /** `k` bytes hold a number modulo 256 to the power of `k`. */
  lemma {:induction false} BytesHold(n: nat, k: nat)
    ensures Number(Bytes(n, k)) == n % Range(k)
    decreases k
  {
    if k > 0 {
      BytesHold(n / 256, k - 1);
      ByteKeepsNumber(n % 256);
      assert Bytes(n, k)[1..] == Bytes(n / 256, k - 1);
      ModInTwo(n, Range(k - 1));
    }
  }

  /** So they give it back exactly if it is below that. */
  lemma BytesKeepExactlyBelow(n: nat, k: nat)
    ensures Number(Bytes(n, k)) == n <==> n < Range(k)
  {
    BytesHold(n, k);
    BelowIsItself(n, Range(k));
  }

  lemma BelowIsItself(n: nat, d: nat)
    requires d > 0
    ensures n % d == n <==> n < d
  {
    if n < d {
      DivisionIsUnique(n, d, 0, n);
    }
  }

  /** A field of a record: a number and how many bytes it takes. */
  datatype Field = Field(value: nat, width: nat)

  function Record(fields: seq<Field>): seq<byte> {
    if fields == [] then [] else Bytes(fields[0].value, fields[0].width) + Record(fields[1..])
  }

  function Widths(fields: seq<Field>): (w: seq<nat>)
    ensures |w| == |fields|
  {
    seq(|fields|, i requires 0 <= i < |fields| => fields[i].width)
  }

  function Total(widths: seq<nat>): nat {
    if widths == [] then 0 else widths[0] + Total(widths[1..])
  }

  lemma {:induction false} RecordWidth(fields: seq<Field>)
    ensures |Record(fields)| == Total(Widths(fields))
  {
    if fields != [] {
      RecordWidth(fields[1..]);
      assert Widths(fields)[1..] == Widths(fields[1..]);
    }
  }

  /** The numbers read from the front of `s`. */
  function Fetched(s: seq<byte>, widths: seq<nat>): seq<nat>
    decreases |widths|
  {
    if widths == [] then []
    else if widths[0] > |s| then []
    else [Number(s[..widths[0]])] + Fetched(s[widths[0]..], widths[1..])
  }

  /** What a record holds. */
  function Values(fields: seq<Field>): (v: seq<nat>)
    ensures |v| == |fields|
  {
    seq(|fields|, i requires 0 <= i < |fields| => fields[i].value % Range(fields[i].width))
  }

  lemma FirstFetched(first: seq<byte>, others: seq<byte>, w: nat, widths: seq<nat>)
    requires |first| == w
    ensures Fetched(first + others, [w] + widths) == [Number(first)] + Fetched(others, widths)
  {
    var s, ws := first + others, [w] + widths;
    assert s[..w] == first && s[w..] == others && ws[1..] == widths;
  }

  lemma FirstField(fields: seq<Field>)
    requires fields != []
    ensures Widths(fields) == [fields[0].width] + Widths(fields[1..])
    ensures Values(fields) == [fields[0].value % Range(fields[0].width)] + Values(fields[1..])
  {
  }

  /** Reading a record back gives its values, each cut to its width. */
  lemma {:induction false} RecordReadsBack(fields: seq<Field>, rest: seq<byte>)
    ensures Fetched(Record(fields) + rest, Widths(fields)) == Values(fields)
    decreases |fields|
  {
    if fields != [] {
      var f := fields[0];
      var first, others := Bytes(f.value, f.width), Record(fields[1..]);
      Regrouped(first, others, rest);
      FirstFetched(first, others + rest, f.width, Widths(fields[1..]));
      BytesHold(f.value, f.width);
      RecordReadsBack(fields[1..], rest);
      FirstField(fields);
    }
  }

  lemma {:induction false} RecordInTwo(a: seq<Field>, b: seq<Field>)
    ensures Record(a + b) == Record(a) + Record(b)
    decreases |a|
  {
    if a == [] {
      assert a + b == b;
    } else {
      assert (a + b)[1..] == a[1..] + b;
      RecordInTwo(a[1..], b);
    }
  }

  /** What a record is in three parts. */
  lemma RecordInThree(a: seq<Field>, b: seq<Field>, c: seq<Field>)
    ensures Record(a + b + c) == Record(a) + Record(b) + Record(c)
  {
    RecordInTwo(a + b, c);
    RecordInTwo(a, b);
  }

  lemma WidthsInThree(a: seq<Field>, b: seq<Field>, c: seq<Field>)
    ensures Widths(a + b + c) == Widths(a) + Widths(b) + Widths(c)
  {
  }

  lemma ValuesInThree(a: seq<Field>, b: seq<Field>, c: seq<Field>)
    ensures Values(a + b + c) == Values(a) + Values(b) + Values(c)
  {
  }

  /** A record in three parts reads back part by part. */
  lemma ThreeReadBack(a: seq<Field>, b: seq<Field>, c: seq<Field>, rest: seq<byte>)
    ensures Fetched(Record(a) + Record(b) + Record(c) + rest, Widths(a) + Widths(b) + Widths(c))
            == Values(a) + Values(b) + Values(c)
  {
    var all := a + b + c;
    RecordInThree(a, b, c);
    WidthsInThree(a, b, c);
    ValuesInThree(a, b, c);
    RecordReadsBack(all, rest);
  }
}
