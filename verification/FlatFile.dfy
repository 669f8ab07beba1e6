/** A file as one byte array, and the same bytes cut into pieces. */
module FlatFile {

  type byte = bv8

  /** The byte at `i` of a file with contents `s`: zero behind the end. */
  function ByteAt(s: seq<byte>, i: int): byte {
    if 0 <= i < |s| then s[i] else 0
  }

  /** `s` with zeros behind it up to length `n`, if it is shorter. */
  function PadTo(s: seq<byte>, n: nat): (r: seq<byte>)
    ensures |r| == (if |s| < n then n else |s|) && s <= r
  {
    seq(if |s| < n then n else |s|, i => ByteAt(s, i))
  }

  /** What writing `d` at position `p` makes of `s`: a hole in front of it reads as zeros. */
  function Written(s: seq<byte>, p: nat, d: seq<byte>): (r: seq<byte>)
    ensures |r| == (if |s| < p + |d| then p + |d| else |s|)
  {
    seq(if |s| < p + |d| then p + |d| else |s|, i => if p <= i < p + |d| then d[i - p] else ByteAt(s, i))
  }

  /** What setting the length to `n` makes of `s`. */
  function Resized(s: seq<byte>, n: nat): (r: seq<byte>)
    ensures |r| == n
  {
    seq(n, i => ByteAt(s, i))
  }

  function Concat(chunks: seq<seq<byte>>): seq<byte> {
    if chunks == [] then [] else chunks[0] + Concat(chunks[1..])
  }

  /** The pieces put together again. */
  function Flat(chunks: seq<seq<byte>>): seq<byte> {
    Concat(chunks)
  }

  /** Every piece but the last has exactly `size` bytes, and the last at most that. */
  predicate Cut(chunks: seq<seq<byte>>, size: nat) {
    forall i :: 0 <= i < |chunks| ==> if i < |chunks| - 1 then |chunks[i]| == size else |chunks[i]| <= size
  }

  lemma {:induction false} FlatOfConcat(a: seq<seq<byte>>, b: seq<seq<byte>>)
    ensures Flat(a + b) == Flat(a) + Flat(b)
  {
    if a == [] {
      assert a + b == b;
    } else {
      assert (a + b)[1..] == a[1..] + b;
      FlatOfConcat(a[1..], b);
    }
  }

  lemma FlatOfOne(c: seq<byte>)
    ensures Flat([c]) == c
  {
    assert Concat([c]) == c + Concat([c][1..]) == c + [] == c;
  }

  lemma {:induction false} FullLength(chunks: seq<seq<byte>>, size: nat)
    requires forall i :: 0 <= i < |chunks| ==> |chunks[i]| == size
    ensures |Flat(chunks)| == |chunks| * size
  {
    if chunks != [] {
      FullLength(chunks[1..], size);
      assert |chunks| * size == size + (|chunks| - 1) * size;
    }
  }

  /** The bytes before piece `i`. */
  function Before(chunks: seq<seq<byte>>, i: nat): seq<byte>
    requires i <= |chunks|
  {
    Flat(chunks[..i])
  }

  /** The pieces before piece `i` are full. */
  lemma BeforeLength(chunks: seq<seq<byte>>, i: nat, size: nat)
    requires i < |chunks| && Cut(chunks, size)
    ensures |Before(chunks, i)| == i * size
  {
    FullLength(chunks[..i], size);
  }

  lemma Regrouped(a: seq<byte>, b: seq<byte>, c: seq<byte>)
    ensures a + (b + c) == a + b + c
  {
  }

  /** One more piece at the end, behind something else. */
  lemma OnePieceBehind(start: seq<byte>, chunks: seq<seq<byte>>, c: seq<byte>)
    ensures Flat(chunks + [c]) == Flat(chunks) + c
    ensures start + Flat(chunks + [c]) == start + Flat(chunks) + c
  {
    FlatOfConcat(chunks, [c]);
    FlatOfOne(c);
    Regrouped(start, Flat(chunks), c);
  }

  /** The bytes before a piece, the piece, and the bytes behind it. */
  lemma FlatAround(chunks: seq<seq<byte>>, i: nat)
    requires i < |chunks|
    ensures Flat(chunks) == Before(chunks, i) + chunks[i] + Flat(chunks[i + 1..])
  {
    assert chunks == chunks[..i] + chunks[i..];
    FlatOfConcat(chunks[..i], chunks[i..]);
    assert chunks[i..][1..] == chunks[i + 1..];
    Regrouped(Before(chunks, i), chunks[i], Flat(chunks[i + 1..]));
  }

  lemma FlatAroundUpdate(chunks: seq<seq<byte>>, i: nat, c: seq<byte>)
    requires i < |chunks|
    ensures Flat(chunks[i := c]) == Before(chunks, i) + c + Flat(chunks[i + 1..])
    ensures Before(chunks[i := c], i) == Before(chunks, i)
  {
    var chunks' := chunks[i := c];
    assert chunks'[..i] == chunks[..i] && chunks'[i + 1..] == chunks[i + 1..];
    FlatAround(chunks', i);
  }

  /** The last piece ends the flat file. */
  lemma FlatEnds(chunks: seq<seq<byte>>)
    requires |chunks| > 0
    ensures var n := |chunks| - 1; Flat(chunks) == Before(chunks, n) + chunks[n]
  {
    FlatAround(chunks, |chunks| - 1);
    assert chunks[|chunks|..] == [];
    assert forall s: seq<byte> :: s + [] == s;
  }

  lemma WriteInMiddle(pre: seq<byte>, c: seq<byte>, post: seq<byte>, off: nat, d: seq<byte>)
    requires off + |d| <= |c|
    ensures pre + Written(c, off, d) + post == Written(pre + c + post, |pre| + off, d)
  {
    assert PadTo(c, off + |d|) == c;
    var s := pre + c + post;
    assert PadTo(s, |pre| + off + |d|) == s;
    assert s[..|pre| + off] == pre + c[..off];
    assert s[|pre| + off + |d|..] == c[off + |d|..] + post;
  }

  lemma WriteAtEnd(pre: seq<byte>, c: seq<byte>, off: nat, d: seq<byte>)
    ensures pre + Written(c, off, d) == Written(pre + c, |pre| + off, d)
  {
    var t, s := PadTo(c, off + |d|), PadTo(pre + c, |pre| + off + |d|);
    assert s == pre + t;
    assert s[..|pre| + off] == pre + t[..off];
    assert s[|pre| + off + |d|..] == t[off + |d|..];
  }

  lemma WriteInside(flat: seq<byte>, pre: seq<byte>, c: seq<byte>, post: seq<byte>, off: nat, d: seq<byte>, flat': seq<byte>)
    requires off + |d| <= |c| || post == []
    requires flat == pre + c + post && flat' == pre + Written(c, off, d) + post
    ensures flat' == Written(flat, |pre| + off, d)
  {
    if off + |d| <= |c| {
      WriteInMiddle(pre, c, post, off, d);
    } else {
      WriteAtEnd(pre, c, off, d);
      assert pre + Written(c, off, d) + post == pre + Written(c, off, d) && pre + c + post == pre + c;
    }
  }

  lemma NoneBehindTheLast(chunks: seq<seq<byte>>, i: nat)
    requires i == |chunks| - 1
    ensures Flat(chunks[i + 1..]) == []
  {
  }

  lemma CutStaysCut(chunks: seq<seq<byte>>, i: nat, size: nat, c: seq<byte>)
    requires i < |chunks| && Cut(chunks, size) && |c| <= size && (i < |chunks| - 1 ==> |c| == size)
    ensures Cut(chunks[i := c], size)
  {
  }

  /** Writing into one piece is writing into the flat file. */
  lemma WriteIntoPiece(
      chunks: seq<seq<byte>>, i: nat, size: nat, off: nat, d: seq<byte>, c: seq<byte>, chunks': seq<seq<byte>>)
    requires i < |chunks| && Cut(chunks, size) && off + |d| <= size
    requires c == Written(chunks[i], off, d) && chunks' == chunks[i := c]
    ensures Cut(chunks', size)
    ensures Flat(chunks') == Written(Flat(chunks), |Before(chunks, i)| + off, d)
  {
    CutStaysCut(chunks, i, size, c);
    assert Flat(chunks') == Written(Flat(chunks), |Before(chunks, i)| + off, d) by {
      if i == |chunks| - 1 {
        NoneBehindTheLast(chunks, i);
      }
      FlatAround(chunks, i);
      FlatAroundUpdate(chunks, i, c);
      WriteInside(Flat(chunks), Before(chunks, i), chunks[i], Flat(chunks[i + 1..]), off, d, Flat(chunks'));
    }
  }

  /** The pieces with the last one filled up. */
  function Filled(chunks: seq<seq<byte>>, size: nat): seq<seq<byte>> {
    if chunks == [] then [] else chunks[|chunks| - 1 := Resized(chunks[|chunks| - 1], size)]
  }

  /** Filling the last piece up and starting an empty one pads the flat file. */
  lemma OneMorePiece(chunks: seq<seq<byte>>, size: nat)
    requires Cut(chunks, size)
    ensures Cut(Filled(chunks, size) + [[]], size)
    ensures Flat(Filled(chunks, size) + [[]]) == PadTo(Flat(chunks), |chunks| * size)
  {
    var full := Filled(chunks, size);
    FlatOfConcat(full, [[]]);
    FlatOfOne([]);
    FullLength(full, size);
    assert Flat(full) + [] == Flat(full);
    if chunks != [] {
      var n := |chunks| - 1;
      FlatEnds(chunks);
      FlatEnds(full);
      FlatAroundUpdate(chunks, n, Resized(chunks[n], size));
      PadTheEnd(Before(chunks, n), chunks[n], size, |chunks| * size);
    }
  }

  lemma PadTheEnd(pre: seq<byte>, c: seq<byte>, size: nat, n: nat)
    requires |c| <= size && |pre| + size == n
    ensures pre + Resized(c, size) == PadTo(pre + c, n)
  {
  }

  lemma ResizeTheEnd(flat: seq<byte>, pre: seq<byte>, c: seq<byte>, post: seq<byte>, last: nat, kept: seq<byte>)
    requires last <= |c| || post == []
    requires flat == pre + c + post && kept == pre + Resized(c, last)
    ensures kept == Resized(flat, |pre| + last)
  {
    if last > |c| {
      assert pre + c + post == pre + c;
    }
  }

  /** Keeping `count` pieces and making the last of them `last` long resizes the flat file. */
  lemma FewerPieces(chunks: seq<seq<byte>>, size: nat, count: nat, last: nat)
    requires 0 < count <= |chunks| && Cut(chunks, size) && last <= size
    ensures var kept := chunks[..count][count - 1 := Resized(chunks[count - 1], last)];
      Cut(kept, size) && Flat(kept) == Resized(Flat(chunks), |Before(chunks, count - 1)| + last)
  {
    var k := count - 1;
    var kept := chunks[..count][k := Resized(chunks[k], last)];
    KeptIsCut(chunks, size, count, last);
    if count == |chunks| {
      NoneBehindTheLast(chunks, k);
    }
    FlatAround(chunks, k);
    KeptEnds(chunks, count, Resized(chunks[k], last));
    ResizeTheEnd(Flat(chunks), Before(chunks, k), chunks[k], Flat(chunks[k + 1..]), last, Flat(kept));
  }

  lemma KeptIsCut(chunks: seq<seq<byte>>, size: nat, count: nat, last: nat)
    requires 0 < count <= |chunks| && Cut(chunks, size) && last <= size
    ensures Cut(chunks[..count][count - 1 := Resized(chunks[count - 1], last)], size)
  {
  }

  lemma KeptEnds(chunks: seq<seq<byte>>, count: nat, c: seq<byte>)
    requires 0 < count <= |chunks|
    ensures Flat(chunks[..count][count - 1 := c]) == Before(chunks, count - 1) + c
  {
    var kept := chunks[..count][count - 1 := c];
    FlatEnds(kept);
    assert kept[..count - 1] == chunks[..count - 1];
  }

  lemma FirstPieces(chunks: seq<seq<byte>>, size: nat, count: nat)
    requires 0 < count <= |chunks| && Cut(chunks, size)
    ensures Cut(chunks[..count], size)
    ensures Flat(chunks[..count]) == Resized(Flat(chunks), |Before(chunks, count - 1)| + |chunks[count - 1]|)
  {
    FewerPieces(chunks, size, count, |chunks[count - 1]|);
    assert Resized(chunks[count - 1], |chunks[count - 1]|) == chunks[count - 1];
    assert chunks[..count][count - 1 := Resized(chunks[count - 1], |chunks[count - 1]|)] == chunks[..count];
  }

  lemma PadThenWrite(s: seq<byte>, m: nat, p: nat, d: seq<byte>)
    requires m <= p
    ensures Written(PadTo(s, m), p, d) == Written(s, p, d)
  {
    PadTwice(s, m, p + |d|);
  }

  lemma WriteTwice(s: seq<byte>, p: nat, a: seq<byte>, b: seq<byte>)
    ensures Written(Written(s, p, a), p + |a|, b) == Written(s, p, a + b)
  {
    var t, u := PadTo(s, p + |a|), PadTo(s, p + |a| + |b|);
    assert |a + b| == |a| + |b|;
    var w := Written(s, p, a);
    var x := PadTo(w, p + |a| + |b|);
    assert x[..p + |a|] == u[..p] + a;
    assert x[p + |a| + |b|..] == u[p + |a| + |b|..];
    assert u[..p] + a + b + u[p + |a| + |b|..] == u[..p] + (a + b) + u[p + |a| + |b|..];
  }

  lemma PadTwice(s: seq<byte>, m: nat, n: nat)
    requires m <= n
    ensures PadTo(PadTo(s, m), n) == PadTo(s, n)
  {
  }

  lemma PadThenResize(s: seq<byte>, m: nat, n: nat)
    requires m <= n || m <= |s|
    ensures Resized(PadTo(s, m), n) == Resized(s, n)
  {
    if m <= n {
      PadTwice(s, m, n);
    }
  }
}
