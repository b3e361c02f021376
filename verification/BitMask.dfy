/** Python's integer masks: `0x1 << i` and `|` on non-negative integers, and
    the set of robots that a mask stands for (DSR_util2.py, lines 30-39, 62-67). */
module BitMask {

  /** 0x1 << i */
  function Pow2(i: nat): (p: nat)
    ensures p >= 1
  {
    if i == 0 then 1 else 2 * Pow2(i - 1)
  }

  /** a | b, one binary digit at a time. */
  function Or(a: nat, b: nat): nat
    decreases a + b
  {
    if a == 0 then b
    else if b == 0 then a
    else (if a % 2 == 1 || b % 2 == 1 then 1 else 0) + 2 * Or(a / 2, b / 2)
  }

  /** The number whose binary digit i is 1 exactly when `seen[i]`. */
  function Mask(seen: seq<bool>): nat {
    if seen == [] then 0 else (if seen[0] then 1 else 0) + 2 * Mask(seen[1..])
  }

  /** The first k of n members. */
  function FirstOf(n: nat, k: nat): (s: seq<bool>)
    ensures |s| == n && forall i :: 0 <= i < n ==> s[i] == (i < k)
  {
    seq(n, i => i < k)
  }

  lemma OrDigits(a: nat, b: nat)
    ensures Or(a, b) == (if a % 2 == 1 || b % 2 == 1 then 1 else 0) + 2 * Or(a / 2, b / 2)
  {
  }

  /** OR-ing in `0x1 << i` adds member i to the set and touches no other. */
  lemma {:induction false} OrAddsMember(seen: seq<bool>, i: nat)
    requires i < |seen|
    ensures Or(Mask(seen), Pow2(i)) == Mask(seen[i := true])
  {
    var m, tail := Mask(seen), seen[1..];
    OrDigits(m, Pow2(i));
    assert m / 2 == Mask(tail);
    if i == 0 {
      assert seen[0 := true][1..] == tail;
      assert Or(m / 2, 0) == m / 2;
    } else {
      OrAddsMember(tail, i - 1);
      assert seen[i := true][1..] == tail[i - 1 := true];
    }
  }

  /** Different sets of robots have different masks. */
  lemma {:induction false} MaskInjective(a: seq<bool>, b: seq<bool>)
    requires |a| == |b| && Mask(a) == Mask(b)
    ensures a == b
  {
    if a != [] {
      assert Mask(a) % 2 == Mask(b) % 2;
      assert a[0] == b[0];
      MaskInjective(a[1..], b[1..]);
      assert a == [a[0]] + a[1..] && b == [b[0]] + b[1..];
    }
  }

  lemma {:induction false} MaskEmpty(n: nat)
    ensures Mask(FirstOf(n, 0)) == 0
  {
    if n > 0 {
      assert FirstOf(n, 0)[1..] == FirstOf(n - 1, 0);
      MaskEmpty(n - 1);
    }
  }

  /** The mask of all n robots is 2^n - 1. */
  lemma {:induction false} MaskFull(n: nat)
    ensures Mask(FirstOf(n, n)) == Pow2(n) - 1
  {
    if n > 0 {
      assert FirstOf(n, n)[1..] == FirstOf(n - 1, n - 1);
      MaskFull(n - 1);
    }
  }

  /** A mask over n robots equals 2^n - 1 exactly when every robot is in it. */
  lemma FullExactlyWhenAllSeen(seen: seq<bool>)
    ensures Mask(seen) == Pow2(|seen|) - 1 <==> forall i :: 0 <= i < |seen| ==> seen[i]
  {
    MaskFull(|seen|);
    if Mask(seen) == Pow2(|seen|) - 1 {
      MaskInjective(seen, FirstOf(|seen|, |seen|));
    }
    if forall i :: 0 <= i < |seen| ==> seen[i] {
      assert seen == FirstOf(|seen|, |seen|);
    }
  }
}
