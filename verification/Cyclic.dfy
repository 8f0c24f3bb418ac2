/** Circular buffers as values: the stretch of a buffer that starts at an index and
    goes round the end at most once. */
module Cyclic {

  /** An index that has gone round at most once. */
  function Wrap(size: nat, i: nat): nat {
    if i < size then i else i - size
  }

  /** The `n` elements from `head` on, going round. */
  ghost function Window<T>(buf: seq<T>, head: nat, n: nat): seq<T>
    requires head < |buf| && n <= |buf|
  {
    seq(n, k requires 0 <= k < n => buf[Wrap(|buf|, head + k)])
  }

  /** `data` written over `buf` from `tail` on, going round. */
  ghost function Written<T>(buf: seq<T>, tail: nat, data: seq<T>): seq<T>
    requires tail < |buf| && |data| <= |buf|
  {
    seq(|buf|, j requires 0 <= j < |buf| =>
      var d := if j < tail then j - tail + |buf| else j - tail;
      if d < |data| then data[d] else buf[j])
  }

  /** Writing behind a window makes it longer and leaves it otherwise as it was. */
  lemma WindowGrows<T>(buf: seq<T>, head: nat, n: nat, data: seq<T>)
    requires head < |buf| && n + |data| <= |buf|
    ensures var tail := Wrap(|buf|, head + n);
            tail < |buf| && Window(Written(buf, tail, data), head, n + |data|) == Window(buf, head, n) + data
  {
    var buf', grown := Written(buf, Wrap(|buf|, head + n), data), Window(buf, head, n) + data;
    forall k | 0 <= k < n + |data|
      ensures buf'[Wrap(|buf|, head + k)] == grown[k]
    {
    }
  }

  lemma WindowSplits<T>(buf: seq<T>, head: nat, n: nat, m: nat)
    requires head < |buf| && m <= n <= |buf|
    ensures Window(buf, head, n)[..m] == Window(buf, head, m)
    ensures Wrap(|buf|, head + m) < |buf| && Window(buf, head, n)[m..] == Window(buf, Wrap(|buf|, head + m), n - m)
  {
    var rest := Window(buf, head, n)[m..];
    forall k | 0 <= k < n - m
      ensures rest[k] == buf[Wrap(|buf|, Wrap(|buf|, head + m) + k)]
    {
      assert rest[k] == Window(buf, head, n)[m + k] == buf[Wrap(|buf|, head + (m + k))];
    }
  }

  lemma WindowPieces<T>(buf: seq<T>, head: nat, n: nat)
    requires head < |buf| && n <= |buf|
    ensures head + n <= |buf| ==> Window(buf, head, n) == buf[head..head + n]
    ensures head + n > |buf| ==> Window(buf, head, n) == buf[head..] + buf[..head + n - |buf|]
  {
    var pieces := if head + n <= |buf| then buf[head..head + n] else buf[head..] + buf[..head + n - |buf|];
    forall k | 0 <= k < n
      ensures pieces[k] == buf[Wrap(|buf|, head + k)]
    {
    }
  }

  /** Writing one more element behind those already written. */
  lemma WriteNext<T>(buf: seq<T>, tail: nat, data: seq<T>, x: T)
    requires tail < |buf| && |data| < |buf|
    ensures var at := Wrap(|buf|, tail + |data|);
            at < |buf| && Written(buf, tail, data)[at := x] == Written(buf, tail, data + [x])
  {
  }
}
