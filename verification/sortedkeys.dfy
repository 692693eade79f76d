/** Sorting of map keys in byte order, which makes the history file deterministic. */
module SortedKeys {
  import opened HistoryData

  // Lexicographic byte order.
  predicate Less(a: Key, b: Key) {
    |b| > 0 && (|a| == 0 || a[0] < b[0] || (a[0] == b[0] && Less(a[1..], b[1..])))
  }

  lemma LessTransitive(a: Key, b: Key, c: Key)
    requires Less(a, b) && Less(b, c)
    ensures Less(a, c)
  {
  }

  lemma LessTotal(a: Key, b: Key)
    ensures a == b || Less(a, b) || Less(b, a)
  {
    if |a| > 0 && |b| > 0 && a[0] == b[0] {
      LessTotal(a[1..], b[1..]);
      assert a == [a[0]] + a[1..] && b == [b[0]] + b[1..];
    }
  }

  lemma LessIrreflexive(a: Key)
    ensures !Less(a, a)
  {
  }

  ghost predicate StrictlySorted(ks: seq<Key>) {
    forall i, j :: 0 <= i < j < |ks| ==> Less(ks[i], ks[j])
  }

  function Insert(ks: seq<Key>, k: Key): (r: seq<Key>)
    ensures |r| == |ks| + 1
  {
    if |ks| == 0 || Less(k, ks[0]) then [k] + ks else [ks[0]] + Insert(ks[1..], k)
  }

  lemma {:induction false} InsertContents(ks: seq<Key>, k: Key)
    ensures forall x :: x in Insert(ks, k) <==> x == k || x in ks
  {
    if !(|ks| == 0 || Less(k, ks[0])) {
      InsertContents(ks[1..], k);
      assert ks == [ks[0]] + ks[1..];
    }
  }

  lemma {:induction false} InsertSorted(ks: seq<Key>, k: Key)
    requires StrictlySorted(ks) && k !in ks
    ensures StrictlySorted(Insert(ks, k))
  {
    var r := Insert(ks, k);
    if |ks| == 0 {
    } else if Less(k, ks[0]) {
      forall j | 0 < j < |r|
        ensures Less(r[0], r[j])
      {
        if j > 1 {
          LessTransitive(k, ks[0], ks[j - 1]);
        }
      }
    } else {
      LessTotal(k, ks[0]);
      InsertSorted(ks[1..], k);
      InsertContents(ks[1..], k);
      forall j | 0 < j < |r|
        ensures Less(r[0], r[j])
      {
        assert r[j] == Insert(ks[1..], k)[j - 1] && r[j] in Insert(ks[1..], k);
      }
    }
  }

  // The elements of s in ascending order.
  ghost function Sort(s: set<Key>): (ks: seq<Key>)
    ensures StrictlySorted(ks)
    ensures forall k :: k in ks <==> k in s
  {
    if s == {} then []
    else
      var k :| k in s;
      var rest := Sort(s - {k});
      InsertContents(rest, k);
      InsertSorted(rest, k);
      Insert(rest, k)
  }

  // There is only one ascending order.
  lemma {:induction false} SortedUnique(a: seq<Key>, b: seq<Key>)
    requires StrictlySorted(a) && StrictlySorted(b)
    requires forall k :: k in a <==> k in b
    ensures a == b
  {
    HeadIn(b);
    if |a| == 0 {
      assert b == [];
    } else {
      assert a[0] in b && |b| > 0 && b[0] in a;
      HeadLeast(a, b[0]);
      HeadLeast(b, a[0]);
      if Less(a[0], b[0]) && Less(b[0], a[0]) {
        LessTransitive(a[0], b[0], a[0]);
      }
      LessIrreflexive(a[0]);
      assert a[0] == b[0];
      TailContents(a);
      TailContents(b);
      SortedUnique(a[1..], b[1..]);
      assert a == [a[0]] + a[1..] && b == [b[0]] + b[1..];
    }
  }

  lemma HeadIn(b: seq<Key>)
    ensures |b| > 0 ==> b[0] in b
  {
  }

  lemma HeadLeast(a: seq<Key>, k: Key)
    requires StrictlySorted(a) && k in a
    ensures |a| > 0 && (k == a[0] || Less(a[0], k))
  {
  }

  lemma TailContents(a: seq<Key>)
    requires StrictlySorted(a) && |a| > 0
    ensures forall k :: k in a[1..] <==> k in a && k != a[0]
    ensures StrictlySorted(a[1..])
  {
    LessIrreflexive(a[0]);
    assert forall k :: k in a[1..] ==> k in a && Less(a[0], k);
  }
}
