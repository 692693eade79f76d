/** Time-based filtering of stored series: the binary search behind ?since= and behind the import window. */
module Trim {
  import opened Seqs
  import opened HistoryData

  type Keep = HistoryPoint -> bool

  // sort.Search: the index binary search settles on between i and j.
  function Search(ps: Points, keep: Keep, i: nat, j: nat): (k: nat)
    requires i <= j <= |ps|
    ensures i <= k <= j
    decreases j - i
  {
    if i == j then i
    else
      var h := (i + j) / 2;
      if !keep(ps[h]) then Search(ps, keep, h + 1, j) else Search(ps, keep, i, h)
  }

  function Suffix(ps: Points, keep: Keep): Points {
    ps[Search(ps, keep, 0, |ps|)..]
  }

  method DropPrefix(ps: Points, keep: Keep) returns (r: Points)
    ensures r == Suffix(ps, keep)
  {
    var i, j := 0, |ps|;
    while i < j
      invariant 0 <= i <= j <= |ps|
      invariant Search(ps, keep, i, j) == Search(ps, keep, 0, |ps|)
    {
      var h := (i + j) / 2;
      if !keep(ps[h]) {
        i := h + 1;
      } else {
        j := h;
      }
    }
    r := ps[i..];
  }

  // False for the oldest points, true from some point onwards.
  ghost predicate Monotone(ps: Points, keep: Keep) {
    forall i, j :: 0 <= i <= j < |ps| && keep(ps[i]) ==> keep(ps[j])
  }

  lemma {:induction false} SearchBoundary(ps: Points, keep: Keep, i: nat, j: nat)
    requires i <= j <= |ps| && Monotone(ps, keep)
    requires forall k :: 0 <= k < i ==> !keep(ps[k])
    requires forall k :: j <= k < |ps| ==> keep(ps[k])
    ensures var b := Search(ps, keep, i, j);
            (forall k :: 0 <= k < b ==> !keep(ps[k])) && (forall k :: b <= k < |ps| ==> keep(ps[k]))
    decreases j - i
  {
    if i == j {
    } else {
      var h := (i + j) / 2;
      if !keep(ps[h]) {
        SearchBoundary(ps, keep, h + 1, j);
      } else {
        SearchBoundary(ps, keep, i, h);
      }
    }
  }

  lemma {:induction false} FilterSplit(ps: Points, keep: Keep, b: nat)
    requires b <= |ps|
    requires forall k :: 0 <= k < b ==> !keep(ps[k])
    requires forall k :: b <= k < |ps| ==> keep(ps[k])
    ensures Filter(ps, keep) == ps[b..]
    decreases |ps|
  {
    if |ps| == 0 {
      assert ps[b..] == [];
    } else {
      var init, last := ps[..|ps| - 1], ps[|ps| - 1];
      assert forall k :: 0 <= k < |init| ==> init[k] == ps[k];
      if b == |ps| {
        FilterSplit(init, keep, b - 1);
        assert init[b - 1..] == [] && ps[b..] == [] && !keep(last);
      } else {
        FilterSplit(init, keep, b);
        assert ps[b..] == init[b..] + [last] && keep(last);
      }
    }
  }

  // On series stored oldest first the search keeps exactly the points that should be kept.
  lemma SuffixIsFilter(ps: Points, keep: Keep)
    requires Monotone(ps, keep)
    ensures Suffix(ps, keep) == Filter(ps, keep)
  {
    SearchBoundary(ps, keep, 0, |ps|);
    FilterSplit(ps, keep, Search(ps, keep, 0, |ps|));
  }

  // ------------------------------------------------------------------------------------------
  // ?since=

  function After(t: int): Keep {
    (p: HistoryPoint) => p.at > t
  }

  function NotBefore(t: int): Keep {
    (p: HistoryPoint) => p.at >= t
  }

  ghost function SuffixMap(m: map<Key, Points>, keep: Keep): map<Key, Points> {
    map k | k in m && Suffix(m[k], keep) != [] :: Suffix(m[k], keep)
  }

  // The delta for a client that holds everything up to t; the zero time (None) asks for the full window.
  ghost function Since(h: History, t: Option<int>): (d: History)
    requires h.Valid()
    ensures d.Valid()
  {
    if t.None? then h
    else History(seq(SCALARS, k requires 0 <= k < SCALARS => Suffix(h.scalar[k], After(t.value))),
                 seq(DEVICES, d requires 0 <= d < DEVICES => SuffixMap(h.device[d], After(t.value))))
  }

  method FilterDevices(src: map<Key, Points>, keep: Keep) returns (dst: map<Key, Points>)
    ensures dst == SuffixMap(src, keep)
  {
    dst := map[];
    var todo := src.Keys;
    while todo != {}
      invariant todo <= src.Keys
      invariant forall k :: k in dst <==> k in src && k !in todo && Suffix(src[k], keep) != []
      invariant forall k :: k in dst ==> dst[k] == Suffix(src[k], keep)
    {
      var k :| k in todo;
      todo := todo - {k};
      var points := DropPrefix(src[k], keep);
      if |points| > 0 {
        dst := dst[k := points];
      }
    }
  }

  method SinceDelta(h: History, t: Option<int>) returns (d: History)
    requires h.Valid()
    ensures d == Since(h, t)
  {
    if t.None? {
      return h;
    }
    var scalar: seq<Points>, device: seq<map<Key, Points>> := [], [];
    for k := 0 to SCALARS
      invariant |scalar| == k && forall i :: 0 <= i < k ==> scalar[i] == Suffix(h.scalar[i], After(t.value))
    {
      var points := DropPrefix(h.scalar[k], After(t.value));
      scalar := scalar + [points];
    }
    for k := 0 to DEVICES
      invariant |device| == k && forall i :: 0 <= i < k ==> device[i] == SuffixMap(h.device[i], After(t.value))
    {
      var filtered := FilterDevices(h.device[k], After(t.value));
      device := device + [filtered];
    }
    d := History(scalar, device);
  }

  ghost predicate SortedHistory(h: History)
    requires h.Valid()
  {
    && (forall k :: 0 <= k < SCALARS ==> Sorted(h.scalar[k]))
    && (forall d, k :: 0 <= d < DEVICES && k in h.device[d] ==> Sorted(h.device[d][k]))
  }

  // On a history stored oldest first the delta is exactly the points strictly newer than t, and no empty device;
  // without a time it is the whole history.
  lemma SinceIsExact(h: History, t: int)
    requires h.Valid() && SortedHistory(h)
    ensures Since(h, None) == h
    ensures forall k :: 0 <= k < SCALARS ==> Since(h, Some(t)).scalar[k] == Filter(h.scalar[k], After(t))
    ensures forall d, k :: 0 <= d < DEVICES ==>
              (k in Since(h, Some(t)).device[d] <==> k in h.device[d] && Filter(h.device[d][k], After(t)) != [])
    ensures forall d, k :: 0 <= d < DEVICES && k in Since(h, Some(t)).device[d] ==>
              Since(h, Some(t)).device[d][k] == Filter(h.device[d][k], After(t))
  {
    forall k | 0 <= k < SCALARS
      ensures Suffix(h.scalar[k], After(t)) == Filter(h.scalar[k], After(t))
    {
      SuffixIsFilter(h.scalar[k], After(t));
    }
    forall d, k | 0 <= d < DEVICES && k in h.device[d]
      ensures Suffix(h.device[d][k], After(t)) == Filter(h.device[d][k], After(t))
    {
      SuffixIsFilter(h.device[d][k], After(t));
    }
  }
}
