/** cmd/agent/buffer.go: the buffer that stops accepting output after `max` bytes. */
module CapBuffers {
  import opened Prelude

  /** Value of a buffer: what it holds and whether it has dropped something. */
  datatype Cap = Cap(buf: Bytes, full: bool)

  const EMPTY := Cap([], false)

  /** One Write. */
  function Write(max: int, b: Cap, p: Bytes): Cap {
    if b.full then b
    else
      var remain := max - |b.buf|;
      if remain <= 0 then b.(full := true)
      else if |p| > remain then Cap(b.buf + p[..remain], true)
      else b.(buf := b.buf + p)
  }

  /** A whole run of writes into a new buffer. */
  function WriteAll(max: int, ws: seq<Bytes>): Cap {
    if ws == [] then EMPTY else Write(max, WriteAll(max, ws[..|ws| - 1]), ws[|ws| - 1])
  }

  lemma WriteAllSnoc(max: int, ws: seq<Bytes>, p: Bytes)
    ensures WriteAll(max, ws + [p]) == Write(max, WriteAll(max, ws), p)
  {
    assert (ws + [p])[..|ws|] == ws;
  }

  /** Write number i found the buffer at its limit, or would have taken it past it. */
  ghost predicate Overflows(max: int, ws: seq<Bytes>, i: int)
    requires 0 <= i < |ws|
  {
    |Flatten(ws[..i])| >= max || |Flatten(ws[..i])| + |ws[i]| > max
  }

  /** One write on a buffer that holds the first max bytes of flat. */
  lemma WriteHolds(max: int, flat: Bytes, b: Cap, p: Bytes)
    requires b.buf == Take(flat, max) && (b.full ==> |flat| >= max)
    ensures Write(max, b, p).buf == Take(flat + p, max)
    ensures Write(max, b, p).full <==> b.full || |flat| >= max || |flat| + |p| > max
  {
    if !b.full && 0 < max && |flat| < max && |p| > max - |flat| {
      assert flat + p[..max - |flat|] == (flat + p)[..max];
    } else if 0 < max <= |flat| {
      assert (flat + p)[..max] == flat[..max];
    }
  }

  /** The buffer is full only once max bytes have been written. */
  lemma {:induction false} HoldsTaken(max: int, ws: seq<Bytes>)
    ensures WriteAll(max, ws).buf == Take(Flatten(ws), max)
    ensures WriteAll(max, ws).full ==> |Flatten(ws)| >= max
  {
    if ws != [] {
      var front, last := ws[..|ws| - 1], ws[|ws| - 1];
      HoldsTaken(max, front);
      WriteHolds(max, Flatten(front), WriteAll(max, front), last);
    }
  }

  lemma OverflowsEarlier(max: int, ws: seq<Bytes>, i: int)
    requires 0 <= i < |ws| - 1
    ensures Overflows(max, ws[..|ws| - 1], i) <==> Overflows(max, ws, i)
  {
    assert ws[..|ws| - 1][..i] == ws[..i];
  }

  lemma {:induction false} FullIffOverflows(max: int, ws: seq<Bytes>)
    ensures WriteAll(max, ws).full <==> exists i :: 0 <= i < |ws| && Overflows(max, ws, i)
  {
    hide Overflows, Write, Take;
    if ws != [] {
      var n := |ws| - 1;
      var front := ws[..n];
      FullIffOverflows(max, front);
      HoldsTaken(max, front);
      WriteHolds(max, Flatten(front), WriteAll(max, front), ws[n]);
      LastOverflows(max, ws);
      forall i | 0 <= i < n
        ensures Overflows(max, front, i) <==> Overflows(max, ws, i)
      {
        OverflowsEarlier(max, ws, i);
      }
      if i :| 0 <= i < |ws| && Overflows(max, ws, i) {
        assert i < n ==> Overflows(max, front, i);
      }
    }
  }

  lemma LastOverflows(max: int, ws: seq<Bytes>)
    requires ws != []
    ensures var flat := Flatten(ws[..|ws| - 1]);
            Overflows(max, ws, |ws| - 1) <==> |flat| >= max || |flat| + |ws[|ws| - 1]| > max
  {
  }

  /** What the buffer holds is the first max bytes of everything written; it is marked
      truncated exactly when some write reached past the limit. */
  lemma HoldsFirstBytes(max: int, ws: seq<Bytes>)
    ensures WriteAll(max, ws).buf == Take(Flatten(ws), max)
    ensures WriteAll(max, ws).full <==> exists i :: 0 <= i < |ws| && Overflows(max, ws, i)
  {
    HoldsTaken(max, ws);
    FullIffOverflows(max, ws);
  }

  lemma {:induction false} LengthMonotone(ws: seq<Bytes>, i: int)
    requires 0 <= i <= |ws|
    ensures |Flatten(ws[..i])| <= |Flatten(ws)|
    decreases |ws|
  {
    if i < |ws| {
      var front := ws[..|ws| - 1];
      LengthMonotone(front, i);
      assert front[..i] == ws[..i];
    } else {
      assert ws[..i] == ws;
    }
  }

  lemma {:induction false} FirstCrossing(max: int, ws: seq<Bytes>)
    requires 0 < max < |Flatten(ws)|
    ensures exists i :: 0 <= i < |ws| && Overflows(max, ws, i)
  {
    var front, last := ws[..|ws| - 1], ws[|ws| - 1];
    assert Flatten(ws) == Flatten(front) + last;
    assert Overflows(max, ws, |ws| - 1);
  }

  /** With no empty write, truncated means exactly that more than max bytes were written. */
  lemma TruncatedExactly(max: int, ws: seq<Bytes>)
    requires 0 < max
    requires [] !in ws
    ensures WriteAll(max, ws).full <==> |Flatten(ws)| > max
  {
    HoldsFirstBytes(max, ws);
    if WriteAll(max, ws).full {
      var i :| 0 <= i < |ws| && Overflows(max, ws, i);
      assert ws[i] in ws;
      assert ws[..i + 1] == ws[..i] + [ws[i]];
      FlattenSnoc(ws[..i], ws[i]);
      LengthMonotone(ws, i + 1);
    }
    if |Flatten(ws)| > max {
      FirstCrossing(max, ws);
    }
  }

  /** An empty write into a buffer that is exactly full does mark it truncated, so the
      condition on empty writes above cannot be dropped. */
  lemma EmptyWriteAtLimitTruncates()
    ensures var ws: seq<Bytes> := [['a'], []];
            WriteAll(1, ws).full && |Flatten(ws)| == 1
  {
    var ws: seq<Bytes> := [['a'], []];
    assert ws[..1] == [['a']];
    assert [['a']][..0] == [];
    assert WriteAll(1, [['a']]) == Cap(['a'], false);
    assert Flatten([['a']]) == ['a'];
  }

  class CapBuffer {
    const max: int
    var buf: Bytes
    var full: bool
    ghost var written: seq<Bytes>

    ghost predicate Valid()
      reads this
    {
      Cap(buf, full) == WriteAll(max, written)
    }

    constructor (max: int)
      ensures Valid() && this.max == max && written == []
    {
      this.max, buf, full, written := max, [], false, [];
    }

    /** Returns the count the source reports, which is short for the truncating write. */
    method Write(p: Bytes) returns (n: nat)
      requires Valid()
      modifies this
      ensures Valid() && written == old(written) + [p]
      ensures n == if !old(full) && 0 < max - |old(buf)| < |p| then max - |old(buf)| else |p|
    {
      hide WriteAll;
      WriteAllSnoc(max, written, p);
      written := written + [p];
      if full {
        return |p|;
      }
      var remain := max - |buf|;
      if remain <= 0 {
        full := true;
        return |p|;
      }
      var q := p;
      if |q| > remain {
        q := q[..remain];
        full := true;
      }
      buf := buf + q;
      n := |q|;
    }
  }
}
