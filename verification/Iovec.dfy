/** The scatter/gather copies between a flat buffer and a list of segments. The
    two skipping copies move the whole remainder of the segment in which the skip
    lands, even where that is more than the requested length; the contracts say
    exactly when that happens and what is then written. */
module Iovec {
  import opened Arith

  type byte = bv8

  /** `Overrun`: the copy would leave the flat buffer; C gives it no meaning. */
  datatype Copy = Copied(count: nat) | Invalid | Overrun

  ghost function Flat(segments: seq<seq<byte>>): seq<byte> {
    if segments == [] then [] else segments[0] + Flat(segments[1..])
  }

  /** `data` written over `s` from `at` on. */
  ghost function Splice(s: seq<byte>, at: nat, data: seq<byte>): seq<byte>
    requires at + |data| <= |s|
  {
    s[..at] + data + s[at + |data|..]
  }

  /** What is left, after the skip, of the segment in which the skip lands: the
      first whose end is not before it. */
  ghost function Rest(segments: seq<seq<byte>>, skip: nat): nat
    requires |Flat(segments)| >= skip
  {
    if segments == [] then 0
    else if |segments[0]| < skip then Rest(segments[1..], skip - |segments[0]|)
    else |segments[0]| - skip
  }

  lemma FlatNext(segments: seq<seq<byte>>, i: nat)
    requires i < |segments|
    ensures Flat(segments[i..]) == segments[i] + Flat(segments[i + 1..])
  {
    assert segments[i..][1..] == segments[i + 1..];
  }

  lemma FlatDone(segments: seq<seq<byte>>)
    ensures Flat(segments[|segments|..]) == []
  {
  }

  // ------------------------------------------------------------------ gather

  method Move(buf: array<byte>, at: nat, data: seq<byte>)
    requires at + |data| <= buf.Length
    modifies buf
    ensures buf[..] == Splice(old(buf[..]), at, data)
  {
    forall k | 0 <= k < |data| {
      buf[at + k] := data[k];
    }
  }

  /** Moves the next `count` bytes, a part of `segment`, behind those in place. */
  method MoveOn(buf: array<byte>, at: nat, segment: seq<byte>, count: nat, copied: nat,
                ghost before: seq<byte>, ghost flat: seq<byte>, ghost rest: seq<byte>)
    requires count <= |segment| && at + copied + count <= buf.Length && |before| == buf.Length
    requires copied <= |flat| && flat[copied..] == segment + rest && buf[..] == Splice(before, at, flat[..copied])
    modifies buf
    ensures copied + count <= |flat| && buf[..] == Splice(before, at, flat[..copied + count])
    ensures count == |segment| ==> flat[copied + count..] == rest
  {
    Appended(before, at, flat, copied, segment, rest, count);
    Move(buf, at + copied, segment[..count]);
  }

  /** Fills `buf` from `at` on with up to `len` bytes of the segments. */
  method Gather(buf: array<byte>, at: nat, len: nat, iovs: seq<seq<byte>>) returns (copied: nat)
    requires at + len <= buf.Length
    modifies buf
    ensures copied == Min(len, |Flat(iovs)|)
    ensures buf[..] == Splice(old(buf[..]), at, Flat(iovs)[..copied])
  {
    copied := 0;
    ghost var flat, before := Flat(iovs), buf[..];
    assert before == Splice(before, at, flat[..0]);
    if |iovs| == 0 || len == 0 {
      return;
    }
    var i := 0;
    var left := len;
    assert iovs[0..] == iovs;
    while i < |iovs| && left > 0
      invariant i <= |iovs| && copied + left == len && 0 <= left
      invariant copied <= |flat| && (left > 0 ==> flat[copied..] == Flat(iovs[i..]))
      invariant buf[..] == Splice(before, at, flat[..copied])
    {
      FlatNext(iovs, i);
      var count := if left > |iovs[i]| then |iovs[i]| else left;
      if count != 0 {
        MoveOn(buf, at, iovs[i], count, copied, before, flat, Flat(iovs[i + 1..]));
        copied, left := copied + count, left - count;
      }
      i := i + 1;
    }
    FlatDone(iovs);
  }

  /** Writing the next bytes of `flat` behind those already written. */
  lemma Appended(s: seq<byte>, at: nat, flat: seq<byte>, done: nat, segment: seq<byte>, rest: seq<byte>, count: nat)
    requires done <= |flat| && flat[done..] == segment + rest && count <= |segment| && at + done + count <= |s|
    ensures done + count <= |flat|
    ensures Splice(Splice(s, at, flat[..done]), at + done, segment[..count]) == Splice(s, at, flat[..done + count])
    ensures count == |segment| ==> flat[done + count..] == rest
  {
    assert flat[..done + count] == flat[..done] + segment[..count];
    assert flat[done + |segment|..] == flat[done..][|segment|..];
  }

  // ------------------------------------------------------------ with a skip

  /** Finds the segment in which the skip lands, and how much of it is left. */
  method Land(iovs: seq<seq<byte>>, skip: nat) returns (i: nat, rest: nat)
    requires skip > 0
    ensures i <= |iovs| && (i < |iovs| <==> |Flat(iovs)| >= skip)
    ensures i < |iovs| ==>
              && rest == Rest(iovs, skip) <= |iovs[i]|
              && Flat(iovs)[skip..] == iovs[i][|iovs[i]| - rest..] + Flat(iovs[i + 1..])
  {
    i, rest := 0, 0;
    var skipped: nat := 0;
    ghost var flat := Flat(iovs);
    assert iovs[0..] == iovs;
    while i < |iovs|
      invariant i <= |iovs| && skipped < skip && skipped <= |flat| && flat[skipped..] == Flat(iovs[i..])
      invariant |flat| >= skip ==> Rest(iovs, skip) == Rest(iovs[i..], skip - skipped)
    {
      FlatNext(iovs, i);
      assert iovs[i..][1..] == iovs[i + 1..];
      if skipped + |iovs[i]| < skip {
        assert flat[skipped + |iovs[i]|..] == flat[skipped..][|iovs[i]|..];
        skipped, i := skipped + |iovs[i]|, i + 1;
      } else {
        rest := skipped + |iovs[i]| - skip;
        assert flat[skip..] == flat[skipped..][skip - skipped..];
        return;
      }
    }
    FlatDone(iovs);
  }

  /** How many bytes a skipping copy moves: the requested ones that exist, or the
      whole rest of the landing segment where that is more. */
  ghost function Moved(iovs: seq<seq<byte>>, skip: nat, len: nat): nat
    requires |Flat(iovs)| >= skip
  {
    if skip > 0 && Rest(iovs, skip) > len then Rest(iovs, skip) else Min(len, |Flat(iovs)| - skip)
  }

  lemma {:induction false} RestExists(iovs: seq<seq<byte>>, skip: nat)
    requires |Flat(iovs)| >= skip
    ensures Rest(iovs, skip) <= |Flat(iovs)| - skip
    decreases |iovs|
  {
    if iovs != [] && |iovs[0]| < skip {
      RestExists(iovs[1..], skip - |iovs[0]|);
    }
  }

  /** The copy from the landing segment on: all that is `first`, then the rest. */
  method GatherFrom(buf: array<byte>, len: nat, first: seq<byte>, others: seq<seq<byte>>) returns (n: nat)
    requires len <= buf.Length && |first| <= buf.Length
    modifies buf
    ensures n == Min(len, |first + Flat(others)|)
    ensures buf[..] == Splice(old(buf[..]), 0, (first + Flat(others))[..if |first| > len then |first| else n])
  {
    ghost var all, before := first + Flat(others), buf[..];
    assert first == all[..|first|];
    Move(buf, 0, first);
    if |first| >= len {
      return len;
    }
    n := Gather(buf, |first|, len - |first|, others);
    assert all[|first|..] == Flat(others);
    Joined(before, all, |first|, n);
    n := |first| + n;
  }

  /** Fills `buf` with `len` bytes of the segments from offset `skip` on. */
  method GatherSkip(buf: array<byte>, len: nat, iovs: seq<seq<byte>>, skip: nat) returns (r: Copy)
    requires len <= buf.Length
    modifies buf
    ensures iovs == [] || len == 0 ==> r == Copied(0) && buf[..] == old(buf[..])
    ensures iovs != [] && len > 0 ==>
              && (r.Invalid? <==> |Flat(iovs)| < skip)
              && (r.Overrun? <==> |Flat(iovs)| >= skip && Moved(iovs, skip, len) > buf.Length)
              && (r.Copied? ==>
                    && r.count == Min(len, |Flat(iovs)| - skip)
                    && Moved(iovs, skip, len) <= |Flat(iovs)| - skip
                    && buf[..] == Splice(old(buf[..]), 0, Flat(iovs)[skip..][..Moved(iovs, skip, len)]))
  {
    if skip == 0 {
      var n := Gather(buf, 0, len, iovs);
      assert Flat(iovs)[0..] == Flat(iovs);
      return Copied(n);
    }
    if |iovs| == 0 || len == 0 {
      return Copied(0);
    }
    var i, rest := Land(iovs, skip);
    if i == |iovs| {
      return Invalid;
    }
    RestExists(iovs, skip);
    if rest > buf.Length {
      return Overrun;
    }
    var n := GatherFrom(buf, len, iovs[i][|iovs[i]| - rest..], iovs[i + 1..]);
    r := Copied(n);
  }

  lemma Joined(s: seq<byte>, data: seq<byte>, first: nat, second: nat)
    requires first + second <= |data| && first + second <= |s|
    ensures Splice(Splice(s, 0, data[..first]), first, data[first..][..second]) == Splice(s, 0, data[..first + second])
  {
    assert data[..first + second] == data[..first] + data[first..][..second];
  }

  /** The buffer after a gather that was in `before`. */
  ghost function Gathered(before: seq<byte>, iovs: seq<seq<byte>>, skip: nat, len: nat): seq<byte>
    requires |Flat(iovs)| >= skip && Moved(iovs, skip, len) <= |before|
  {
    RestExists(iovs, skip);
    Splice(before, 0, Flat(iovs)[skip..][..Moved(iovs, skip, len)])
  }

  /** A gather leaves every buffer as it was past the requested bytes exactly when it
      skips nothing or all the rest of the landing segment is asked for. */
  lemma GatherIsSliceIff(iovs: seq<seq<byte>>, skip: nat, len: nat)
    requires |Flat(iovs)| >= skip
    ensures (forall before: seq<byte> | |before| >= Moved(iovs, skip, len) && |before| >= len ::
               Gathered(before, iovs, skip, len)[len..] == before[len..])
       <==> skip == 0 || Rest(iovs, skip) <= len
  {
    RestExists(iovs, skip);
    var n := Moved(iovs, skip, len);
    var data := Flat(iovs)[skip..][..n];
    if skip > 0 && Rest(iovs, skip) > len {
      var before := seq(n, k requires 0 <= k < n => data[k] + 1);
      assert Gathered(before, iovs, skip, len)[len..][0] != before[len..][0];
    } else {
      forall before: seq<byte> | |before| >= n && |before| >= len
        ensures Gathered(before, iovs, skip, len)[len..] == before[len..]
      {
        assert n <= len;
      }
    }
  }

  // ----------------------------------------------------------------- scatter

  /** The bytes now in the segments. */
  function Bytes(iovs: seq<array<byte>>): seq<seq<byte>>
    reads iovs
  {
    seq(|iovs|, k requires 0 <= k < |iovs| reads iovs => iovs[k][..])
  }

  ghost predicate Apart(iovs: seq<array<byte>>) {
    forall i, j :: 0 <= i < j < |iovs| ==> iovs[i] != iovs[j]
  }

  /** The bytes the segments from `i` on can take. */
  ghost function Room(iovs: seq<array<byte>>, i: nat): nat
    requires i <= |iovs|
    decreases |iovs| - i
  {
    if i == |iovs| then 0 else iovs[i].Length + Room(iovs, i + 1)
  }

  /** Where segment `i` starts in the flat view. */
  ghost function Offset(iovs: seq<array<byte>>, i: nat): (off: nat)
    requires i <= |iovs|
  {
    RoomShrinks(iovs, i);
    Room(iovs, 0) - Room(iovs, i)
  }

  lemma {:induction false} RoomShrinks(iovs: seq<array<byte>>, i: nat)
    requires i <= |iovs|
    ensures Room(iovs, i) <= Room(iovs, 0)
  {
    if i > 0 {
      RoomShrinks(iovs, i - 1);
    }
  }

  lemma OffsetNext(iovs: seq<array<byte>>, i: nat)
    requires i < |iovs|
    ensures Offset(iovs, i + 1) == Offset(iovs, i) + iovs[i].Length
  {
  }

  lemma {:induction false} FlatSize(segments: seq<seq<byte>>, iovs: seq<array<byte>>, i: nat)
    requires i <= |iovs| == |segments| && forall k :: 0 <= k < |iovs| ==> |segments[k]| == iovs[k].Length
    ensures |Flat(segments[i..])| == Room(iovs, i)
    decreases |iovs| - i
  {
    if i < |iovs| {
      FlatNext(segments, i);
      FlatSize(segments, iovs, i + 1);
    }
  }

  /** Writing inside one segment writes at its offset in the flat view. */
  lemma {:induction false} FlatWrite(segments: seq<seq<byte>>, i: nat, at: nat, data: seq<byte>)
    requires i < |segments| && at + |data| <= |segments[i]|
    ensures var off := |Flat(segments)| - |Flat(segments[i..])| + at;
            && 0 <= off && off + |data| <= |Flat(segments)|
            && Flat(segments[i := Splice(segments[i], at, data)]) == Splice(Flat(segments), off, data)
    decreases i
  {
    var segments' := segments[i := Splice(segments[i], at, data)];
    FlatNext(segments, i);
    if i == 0 {
      assert segments[0..] == segments && segments'[1..] == segments[1..];
    } else {
      var tail := segments[1..];
      FlatWrite(tail, i - 1, at, data);
      assert segments'[1..] == tail[i - 1 := Splice(tail[i - 1], at, data)];
      assert tail[i - 1..] == segments[i..];
    }
  }

  lemma FlatRoom(iovs: seq<array<byte>>, i: nat)
    requires i <= |iovs|
    ensures |Flat(Bytes(iovs))| == Room(iovs, 0) && |Flat(Bytes(iovs)[i..])| == Room(iovs, i)
  {
    FlatSize(Bytes(iovs), iovs, 0);
    FlatSize(Bytes(iovs), iovs, i);
    assert Bytes(iovs)[0..] == Bytes(iovs);
  }

  /** One copy into segment `i`, seen in the flat view. */
  method MoveInto(iovs: seq<array<byte>>, i: nat, at: nat, data: seq<byte>)
    requires Apart(iovs) && i < |iovs| && at + |data| <= iovs[i].Length
    modifies iovs[i]
    ensures Offset(iovs, i) + at + |data| <= |old(Flat(Bytes(iovs)))|
    ensures Flat(Bytes(iovs)) == Splice(old(Flat(Bytes(iovs))), Offset(iovs, i) + at, data)
  {
    ghost var before := Bytes(iovs);
    FlatRoom(iovs, i);
    FlatWrite(before, i, at, data);
    Move(iovs[i], at, data);
    assert Bytes(iovs) == before[i := Splice(before[i], at, data)];
  }

  /** Writing `second` right behind `first`. */
  lemma SpliceTwice(s: seq<byte>, at: nat, first: seq<byte>, second: seq<byte>)
    requires at + |first| + |second| <= |s|
    ensures Splice(Splice(s, at, first), at + |first|, second) == Splice(s, at, first + second)
  {
  }

  /** Writing `first` bytes of `src` and then `second` more, up to `len`. */
  lemma SpliceRest(s: seq<byte>, at: nat, src: seq<byte>, first: nat, len: nat, second: nat)
    requires first <= len <= |src| && first + second <= len && at + first + second <= |s|
    ensures Splice(Splice(s, at, src[..first]), at + first, src[first..len][..second])
         == Splice(s, at, src[..first + second])
  {
    SpliceTwice(s, at, src[..first], src[first..len][..second]);
    assert src[..first] + src[first..len][..second] == src[..first + second];
  }

  /** Segment `i` takes the next `count` bytes, those before being in place. */
  method MoveNext(iovs: seq<array<byte>>, i: nat, src: seq<byte>, copied: nat, count: nat,
                  ghost before: seq<byte>, ghost off: nat)
    requires Apart(iovs) && i < |iovs| && count <= iovs[i].Length && copied + count <= |src|
    requires Offset(iovs, i) == off + copied && off + copied + count <= |before|
    requires Flat(Bytes(iovs)) == Splice(before, off, src[..copied])
    modifies iovs[i]
    ensures Flat(Bytes(iovs)) == Splice(before, off, src[..copied + count])
  {
    SpliceTwice(before, off, src[..copied], src[copied..copied + count]);
    assert src[..copied] + src[copied..copied + count] == src[..copied + count];
    MoveInto(iovs, i, 0, src[copied..copied + count]);
  }

  /** `copied` bytes of `src` are in place when the loop reaches segment `i`. */
  ghost predicate Scattered(iovs: seq<array<byte>>, start: nat, i: nat, src: seq<byte>, copied: nat, before: seq<byte>)
    requires start <= i <= |iovs|
    reads iovs
  {
    && copied <= |src| && Offset(iovs, start) + copied <= |before| == Room(iovs, 0)
    && (copied < |src| ==> copied + Room(iovs, i) == Room(iovs, start))
    && Flat(Bytes(iovs)) == Splice(before, Offset(iovs, start), src[..copied])
  }

  lemma ScatteredStart(iovs: seq<array<byte>>, start: nat, src: seq<byte>)
    requires start <= |iovs|
    ensures Scattered(iovs, start, start, src, 0, Flat(Bytes(iovs)))
  {
    FlatRoom(iovs, start);
    var before := Flat(Bytes(iovs));
    assert before == Splice(before, Offset(iovs, start), src[..0]);
  }

  /** One turn of the loop below. */
  method ScatterNext(iovs: seq<array<byte>>, start: nat, i: nat, src: seq<byte>, copied: nat, ghost before: seq<byte>)
    returns (count: nat)
    requires Apart(iovs) && start <= i < |iovs| && copied < |src| && Scattered(iovs, start, i, src, copied, before)
    modifies iovs[i]
    ensures Scattered(iovs, start, i + 1, src, copied + count, before)
  {
    var left := |src| - copied;
    count := if left > iovs[i].Length then iovs[i].Length else left;
    if count != 0 {
      MoveNext(iovs, i, src, copied, count, before, Offset(iovs, start));
    }
  }

  /** Spreads `src` over the segments from `start` on. */
  method Scatter(iovs: seq<array<byte>>, start: nat, src: seq<byte>) returns (copied: nat)
    requires Apart(iovs) && start <= |iovs|
    modifies iovs
    ensures copied == Min(|src|, Room(iovs, start))
    ensures Offset(iovs, start) + copied <= |old(Flat(Bytes(iovs)))|
    ensures Flat(Bytes(iovs)) == Splice(old(Flat(Bytes(iovs))), Offset(iovs, start), src[..copied])
  {
    copied := 0;
    ghost var before := Flat(Bytes(iovs));
    ScatteredStart(iovs, start, src);
    var i := start;
    while i < |iovs| && copied < |src|
      invariant start <= i <= |iovs| && Scattered(iovs, start, i, src, copied, before)
    {
      var count := ScatterNext(iovs, start, i, src, copied, before);
      copied, i := copied + count, i + 1;
    }
  }

  /** The copy from the landing segment on: its whole `rest`, then the others. */
  method ScatterFrom(iovs: seq<array<byte>>, i: nat, rest: nat, src: seq<byte>, len: nat, ghost skip: nat)
    returns (n: nat)
    requires Apart(iovs) && i < |iovs| && rest <= iovs[i].Length && rest <= |src| && len <= |src|
    requires Offset(iovs, i) + iovs[i].Length == skip + rest
    modifies iovs
    ensures n == Min(len, rest + Room(iovs, i + 1))
    ensures skip + Max(rest, n) <= |old(Flat(Bytes(iovs)))|
    ensures Flat(Bytes(iovs)) == Splice(old(Flat(Bytes(iovs))), skip, src[..Max(rest, n)])
  {
    ghost var before := Flat(Bytes(iovs));
    MoveInto(iovs, i, iovs[i].Length - rest, src[..rest]);
    if rest >= len {
      return len;
    }
    OffsetNext(iovs, i);
    assert Offset(iovs, i + 1) == skip + rest;
    var m := Scatter(iovs, i + 1, src[rest..len]);
    SpliceRest(before, skip, src, rest, len, m);
    n := rest + m;
    assert Max(rest, n) == rest + m;
  }

  /** Spreads `len` bytes of `src` over the segments from offset `skip` on. */
  method ScatterSkip(iovs: seq<array<byte>>, src: seq<byte>, len: nat, skip: nat) returns (r: Copy)
    requires Apart(iovs) && len <= |src|
    modifies iovs
    ensures iovs == [] || len == 0 ==> r == Copied(0) && Flat(Bytes(iovs)) == old(Flat(Bytes(iovs)))
    ensures iovs != [] && len > 0 ==>
              && (r.Invalid? <==> old(|Flat(Bytes(iovs))| < skip))
              && (r.Overrun? <==> old(|Flat(Bytes(iovs))| >= skip && Moved(Bytes(iovs), skip, len) > |src|))
              && (r.Copied? ==>
                    && r.count == old(Min(len, |Flat(Bytes(iovs))| - skip))
                    && skip + old(Moved(Bytes(iovs), skip, len)) <= old(|Flat(Bytes(iovs))|)
                    && Flat(Bytes(iovs)) ==
                       Splice(old(Flat(Bytes(iovs))), skip, src[..old(Moved(Bytes(iovs), skip, len))]))
  {
    ghost var segments := Bytes(iovs);
    ghost var before := Flat(segments);
    FlatRoom(iovs, 0);
    if skip == 0 {
      var n := Scatter(iovs, 0, src[..len]);
      assert src[..len][..n] == src[..n];
      return Copied(n);
    }
    if |iovs| == 0 || len == 0 {
      return Copied(0);
    }
    var i, rest := LandIn(iovs, skip);
    if i == |iovs| {
      return Invalid;
    }
    RestExists(segments, skip);
    if rest > |src| {
      return Overrun;
    }
    var n := ScatterFrom(iovs, i, rest, src, len, skip);
    r := Copied(n);
  }

  /** `Land` for segments that are written. */
  method LandIn(iovs: seq<array<byte>>, skip: nat) returns (i: nat, rest: nat)
    requires skip > 0
    ensures i <= |iovs| && (i < |iovs| <==> |Flat(Bytes(iovs))| >= skip)
    ensures i < |iovs| ==>
              rest == Rest(Bytes(iovs), skip) <= iovs[i].Length && Offset(iovs, i) + iovs[i].Length == skip + rest
  {
    i, rest := 0, 0;
    var skipped: nat := 0;
    ghost var segments := Bytes(iovs);
    assert segments[0..] == segments;
    while i < |iovs|
      invariant i <= |iovs| && skipped < skip && skipped == Offset(iovs, i)
      invariant |Flat(segments)| >= skip ==>
                  |Flat(segments[i..])| >= skip - skipped && Rest(segments, skip) == Rest(segments[i..], skip - skipped)
    {
      FlatNext(segments, i);
      FlatRoom(iovs, i);
      assert segments[i..][1..] == segments[i + 1..];
      if skipped + iovs[i].Length < skip {
        skipped, i := skipped + iovs[i].Length, i + 1;
      } else {
        rest := skipped + iovs[i].Length - skip;
        return;
      }
    }
    FlatDone(segments);
  }

  // -------------------------------------------------------------- round trip

  ghost predicate SameShape(a: seq<seq<byte>>, b: seq<seq<byte>>) {
    |a| == |b| && forall k :: 0 <= k < |a| ==> |a[k]| == |b[k]|
  }

  lemma {:induction false} ShapeDecides(a: seq<seq<byte>>, b: seq<seq<byte>>, skip: nat)
    requires SameShape(a, b)
    ensures |Flat(a)| == |Flat(b)|
    ensures |Flat(a)| >= skip ==> Rest(a, skip) == Rest(b, skip)
    decreases |a|
  {
    if a != [] {
      ShapeDecides(a[1..], b[1..], if |a[0]| < skip then skip - |a[0]| else 0);
    }
  }

  /** Gathering what was scattered with the same skip gives back the bytes, for
      the whole of what the scatter moved. */
  lemma ScatterThenGather(a: seq<seq<byte>>, b: seq<seq<byte>>, src: seq<byte>, len: nat, skip: nat)
    requires SameShape(a, b) && |Flat(a)| >= skip && Moved(a, skip, len) <= |src|
    requires skip + Moved(a, skip, len) <= |Flat(a)|
    requires Flat(b) == Splice(Flat(a), skip, src[..Moved(a, skip, len)])
    ensures Moved(b, skip, len) == Moved(a, skip, len)
    ensures Flat(b)[skip..][..Moved(b, skip, len)] == src[..Moved(b, skip, len)]
  {
    ShapeDecides(a, b, skip);
  }

  /** Scattering and gathering back with the same length and skip: both report the same
      count and the buffer then starts with the bytes that were sent. */
  method RoundTrip(iovs: seq<array<byte>>, src: seq<byte>, len: nat, skip: nat, buf: array<byte>)
    returns (there: Copy, back: Copy)
    requires Apart(iovs) && buf !in iovs && len <= |src| && len <= buf.Length
    modifies iovs, buf
    ensures there.Invalid? <==> back.Invalid?
    ensures there.Copied? && back.Copied? ==>
              back.count == there.count <= len && buf[..there.count] == src[..there.count]
  {
    ghost var before := Bytes(iovs);
    there := ScatterSkip(iovs, src, len, skip);
    var now := Bytes(iovs);
    back := GatherSkip(buf, len, now, skip);
    assert SameShape(before, now);
    ShapeDecides(before, now, skip);
    if iovs != [] && len > 0 && there.Copied? && back.Copied? {
      ScatterThenGather(before, now, src, len, skip);
      assert buf[..there.count] == src[..Moved(now, skip, len)][..there.count];
    }
  }
}
