/** Selections of a sequence by index: what a client that saw only some of a series holds of it. */
module Picks {
  import opened Seqs

  function Range(lo: nat, hi: nat): (r: set<nat>)
    ensures forall i :: i in r <==> lo <= i < hi
    decreases hi
  {
    if lo >= hi then {} else Range(lo, hi - 1) + {hi - 1}
  }

  // The elements of s at the indices in held, in order.
  ghost function Pick<T>(s: seq<T>, held: set<nat>): seq<T> {
    if |s| == 0 then []
    else Pick(s[..|s| - 1], held) + if |s| - 1 in held then [s[|s| - 1]] else []
  }

  lemma {:induction false} PickSame<T>(s: seq<T>, a: set<nat>, b: set<nat>)
    requires forall i: nat :: i < |s| ==> (i in a <==> i in b)
    ensures Pick(s, a) == Pick(s, b)
  {
    if |s| == 0 {
    } else {
      PickSame(s[..|s| - 1], a, b);
    }
  }

  lemma {:induction false} PickGrow<T>(s: seq<T>, t: seq<T>, held: set<nat>)
    requires forall i :: i in held ==> i < |s|
    ensures Pick(s + t, held) == Pick(s, held)
  {
    if |t| == 0 {
      assert s + t == s;
    } else {
      assert (s + t)[..|s + t| - 1] == s + t[..|t| - 1];
      PickGrow(s, t[..|t| - 1], held);
    }
  }

  lemma {:induction false} PickAppend<T>(s: seq<T>, held: set<nat>, j: nat)
    requires j <= |s| && forall i :: i in held ==> i < j
    ensures Pick(s, held + Range(j, |s|)) == Pick(s, held) + s[j..]
    decreases |s|
  {
    if j == |s| {
      assert held + Range(j, |s|) == held;
    } else {
      var init := s[..|s| - 1];
      PickSame(init, held + Range(j, |s|), held + Range(j, |init|));
      PickAppend(init, held, j);
      assert s[j..] == init[j..] + [s[|s| - 1]];
    }
  }

  lemma {:induction false} PickNothing<T>(s: seq<T>)
    ensures Pick(s, {}) == []
  {
    if |s| == 0 {
    } else {
      PickNothing(s[..|s| - 1]);
    }
  }

  lemma PickRange<T>(s: seq<T>, j: nat)
    requires j <= |s|
    ensures Pick(s, Range(j, |s|)) == s[j..]
  {
    PickNothing(s);
    PickAppend(s, {}, j);
    assert {} + Range(j, |s|) == Range(j, |s|);
  }

  ghost function Keeping<T>(s: seq<T>, held: set<nat>, keep: T -> bool): set<nat> {
    set i | i in held && i < |s| && keep(s[i])
  }

  lemma {:induction false} PickFilter<T>(s: seq<T>, held: set<nat>, keep: T -> bool)
    ensures Filter(Pick(s, held), keep) == Pick(s, Keeping(s, held, keep))
  {
    if |s| == 0 {
    } else {
      var init, last := s[..|s| - 1], s[|s| - 1];
      PickFilter(init, held, keep);
      PickSame(init, Keeping(init, held, keep), Keeping(s, held, keep));
      FilterAppend(Pick(init, held), if |s| - 1 in held then [last] else [], keep);
      FilterOne(last, keep);
    }
  }

  // A pick holds nothing but elements of the sequence, at the indices picked.
  lemma {:induction false} PickMember<T>(s: seq<T>, held: set<nat>, x: T)
    ensures x in Pick(s, held) <==> exists i :: i in held && i < |s| && s[i] == x
  {
    if |s| == 0 {
    } else {
      var init := s[..|s| - 1];
      PickMember(init, held, x);
      if x in Pick(s, held) && x !in Pick(init, held) {
        assert |s| - 1 in held && s[|s| - 1] == x;
      }
      if i :| i in held && i < |s| && s[i] == x {
        if i < |init| {
          assert init[i] == x;
        }
      }
    }
  }
}
