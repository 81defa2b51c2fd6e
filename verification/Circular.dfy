/** Byte regions of a circular buffer: what one write, one publication and one consumption do to them. */
module Circular {
  import opened Bytes

  /** The index `j` places after `from`, around the end of a buffer of `n` slots. */
  function Slot(from: nat, j: nat, n: nat): (index: nat)
    requires from < n && j <= n
    ensures index < n
  {
    if from + j < n then from + j else from + j - n
  }

  /** `Slot` is the index that the ring computes with `%`. */
  lemma SlotIsModulo(from: nat, j: nat, n: nat)
    requires from < n && j <= n
    ensures (from + j) % n == Slot(from, j, n)
  {
    if from + j >= n {
      ModUnique(from + j, n, 1, from + j - n);
    }
  }

  /** How far `tail` is ahead of `head`, and how much room is left, as the ring computes them. */
  lemma DistanceIsModulo(head: nat, len: nat, n: nat)
    requires head < n && len < n
    ensures (Slot(head, len, n) + n - head) % n == len
    ensures (head + n - Slot(head, len, n) - 1) % n == n - 1 - len
    ensures head == Slot(head, len, n) <==> len == 0
  {
    var ahead, behind := Slot(head, len, n) + n - head, head + n - Slot(head, len, n) - 1;
    if head + len < n {
      assert ahead == n + len && behind == n - 1 - len;
      ModUnique(ahead, n, 1, len);
      ModUnique(behind, n, 0, behind);
    } else {
      assert ahead == len && behind == n + (n - 1 - len);
      ModUnique(ahead, n, 0, len);
      ModUnique(behind, n, 1, n - 1 - len);
    }
  }

  /** The bytes from slot `from` on are `s`. */
  ghost predicate Holds(buffer: seq<byte>, from: nat, s: seq<byte>)
    requires from < |buffer|
  {
    && |s| <= |buffer|
    && forall j :: 0 <= j < |s| ==> buffer[Slot(from, j, |buffer|)] == s[j]
  }

  /** A byte written behind the unread region `stored` and the part of `framed` already written damages neither. */
  lemma WriteExtends(buffer: seq<byte>, head: nat, stored: seq<byte>, tail: nat, framed: seq<byte>, i: nat)
    requires head < |buffer| && |stored| + |framed| < |buffer|
    requires tail == Slot(head, |stored|, |buffer|)
    requires i < |framed|
    requires Holds(buffer, head, stored) && Holds(buffer, tail, framed[..i])
    ensures var buffer' := buffer[Slot(tail, i, |buffer|) := framed[i]];
            Holds(buffer', head, stored) && Holds(buffer', tail, framed[..i + 1])
    ensures forall j :: 0 <= j < |stored| ==> Slot(head, j, |buffer|) != Slot(tail, i, |buffer|)
  {
  }

  lemma PublishAppends(buffer: seq<byte>, head: nat, stored: seq<byte>, tail: nat, framed: seq<byte>)
    requires head < |buffer| && |stored| + |framed| < |buffer|
    requires tail == Slot(head, |stored|, |buffer|)
    requires Holds(buffer, head, stored) && Holds(buffer, tail, framed)
    ensures Holds(buffer, head, stored + framed)
    ensures Slot(tail, |framed|, |buffer|) == Slot(head, |stored + framed|, |buffer|)
  {
  }

  lemma ConsumeDrops(buffer: seq<byte>, head: nat, stored: seq<byte>, n: nat)
    requires head < |buffer| && n <= |stored| < |buffer|
    requires Holds(buffer, head, stored)
    ensures Holds(buffer, Slot(head, n, |buffer|), stored[n..])
    ensures Slot(Slot(head, n, |buffer|), |stored| - n, |buffer|) == Slot(head, |stored|, |buffer|)
  {
  }
}
