/** A per-device map of ring buffers, as the collector holds five of. */
module SeriesMaps {
  import opened Seqs
  import opened HistoryData
  import opened Ring
  import opened Devices

  type Buffer = RingBuffer<HistoryPoint>

  class SeriesMap {
    const capacity: nat
    var bufs: map<Key, Buffer>
    ghost var Repr: set<object>
    ghost var keyOf: map<object, Key>  // which device each buffer and its array belong to: no two devices share one

    ghost predicate Owns(k: Key, b: Buffer)
      reads this, b
    {
      && b.data in Repr && b.Valid() && b.capacity == capacity
      && b in keyOf && keyOf[b] == k && b.data in keyOf && keyOf[b.data] == k
    }

    ghost predicate Valid()
      reads this, Repr
      ensures Valid() ==> this in Repr
    {
      && this in Repr
      && keyOf.Keys <= Repr
      && (forall k :: k in bufs ==> bufs[k] in Repr && Owns(k, bufs[k]))
    }

    ghost function Contents(): SeriesByKey
      requires Valid()
      reads this, Repr
    {
      map k | k in bufs :: bufs[k].Contents()
    }

    lemma ContentsKeys()
      requires Valid()
      ensures Contents().Keys == bufs.Keys
    {
    }

    constructor (capacity: nat)
      requires capacity >= 1
      ensures Valid() && fresh(Repr) && this.capacity == capacity && Contents() == map[]
    {
      this.capacity := capacity;
      bufs := map[];
      Repr := {this};
      keyOf := map[];
    }

    ghost method Adopt(k: Key, b: Buffer)
      requires Valid() && b !in Repr && b.data !in Repr
      modifies this`Repr, this`keyOf
      ensures Valid() && Contents() == old(Contents())
      ensures Repr == old(Repr) + {b, b.data} && keyOf == old(keyOf)[b := k][b.data := k]
    {
      Repr := Repr + {b, b.data};
      keyOf := keyOf[b := k][b.data := k];
    }

    method Install(k: Key, b: Buffer)
      requires Valid() && b in Repr && Owns(k, b)
      modifies this`bufs
      ensures Valid() && bufs == old(bufs)[k := b]
      ensures Contents() == old(Contents())[k := b.Contents()]
    {
      bufs := bufs[k := b];
    }

    // The device gets a buffer when it is first seen.
    method Ensure(k: Key)
      requires Valid() && capacity >= 1
      modifies this
      ensures Valid() && fresh(Repr - old(Repr)) && k in bufs && bufs[k] in Repr && bufs[k].data in Repr
      ensures Contents() == old(Contents())[k := Get(old(Contents()), k)]
    {
      if k !in bufs {
        var b := new RingBuffer(capacity);
        Adopt(k, b);
        Install(k, b);
      }
    }

    method AddTo(k: Key, p: HistoryPoint)
      requires Valid() && k in bufs
      modifies bufs[k], bufs[k].data
      ensures Valid() && Repr == old(Repr)
      ensures Contents() == old(Contents())[k := LastN(old(Contents())[k] + [p], capacity)]
    {
      hide RingBuffer.Valid, RingBuffer.Contents, LastN;
      bufs[k].Add(p);
    }

    method AddReport(r: Report, now: int)
      requires Valid() && capacity >= 1
      modifies Repr
      ensures Valid() && fresh(Repr - old(Repr))
      ensures Contents() == Record(old(Contents()), r, now, capacity)
    {
      hide Valid, Contents;
      Ensure(r.key);
      AddTo(r.key, HistoryPoint(now, r.bits));
    }

    method Remove(k: Key)
      requires Valid() && k in bufs
      modifies this`bufs
      ensures Valid()
      ensures Contents() == old(Contents()) - {k}
    {
      bufs := bufs - {k};
    }

    // A device that never reported, or not within the window.
    method IsStale(k: Key, now: int, window: int) returns (stale: bool)
      requires Valid() && k in bufs
      ensures k in Contents()
      ensures var ps := Contents()[k]; stale <==> |ps| == 0 || now - ps[|ps| - 1].at > window
    {
      var newest := bufs[k].Newest();
      stale := newest.None? || now - newest.value.at > window;
    }

    method EvictOne(k: Key, current: set<Key>, now: int, window: int)
      requires Valid() && k in bufs
      modifies this`bufs
      ensures Valid()
      ensures Contents()
           == if Kept(k, old(Contents())[k], current, now, window) then old(Contents()) else old(Contents()) - {k}
    {
      hide Valid, Contents;
      var stale := IsStale(k, now, window);
      if k in current {
        return;
      }
      if stale {
        Remove(k);
      }
    }

    method EvictStaleSeries(current: set<Key>, now: int, window: int)
      requires Valid()
      modifies this`bufs
      ensures Valid()
      ensures Contents() == Evict(old(Contents()), current, now, window)
    {
      hide Valid, Contents, Kept;
      if window <= 0 {
        return;
      }
      ghost var before := Contents();
      ContentsKeys();
      var todo := bufs.Keys;
      while todo != {}
        invariant Valid()
        invariant todo <= before.Keys && Contents() == Remaining(before, todo, current, now, window)
      {
        var k :| k in todo;
        RemainingNext(before, todo, current, now, window, k);
        assert k in Remaining(before, todo, current, now, window);
        ContentsKeys();
        EvictOne(k, current, now, window);
        todo := todo - {k};
      }
    }

    method Filled(points: Points) returns (b: Buffer)
      requires capacity >= 1
      ensures fresh(b) && fresh(b.data) && b.Valid() && b.capacity == capacity
      ensures b.Contents() == LastN(points, capacity)
    {
      b := new RingBuffer(capacity);
      b.Fill(points);
    }

    // Replaces or creates the buffer of k.
    method ImportSeries(k: Key, points: Points)
      requires Valid() && capacity >= 1
      modifies this
      ensures Valid() && fresh(Repr - old(Repr))
      ensures Contents() == old(Contents())[k := LastN(points, capacity)]
    {
      hide Valid, Contents, LastN, RingBuffer.Valid, RingBuffer.Contents;
      var b := Filled(points);
      Adopt(k, b);
      Install(k, b);
    }

    method Snapshot() returns (m: SeriesByKey)
      requires Valid()
      ensures m == Contents()
    {
      ghost var all := Contents();
      m := map[];
      var todo := bufs.Keys;
      while todo != {}
        invariant todo <= all.Keys
        invariant m.Keys == all.Keys - todo && forall k :: k in m ==> m[k] == all[k]
      {
        var k :| k in todo;
        var points := bufs[k].Snapshot();
        m := m[k := points];
        todo := todo - {k};
      }
    }
  }

  ghost function Remaining(m: SeriesByKey, todo: set<Key>, current: set<Key>, now: int, window: int): SeriesByKey {
    map k | k in m && (k in todo || Kept(k, m[k], current, now, window)) :: m[k]
  }

  lemma RemainingNext(m: SeriesByKey, todo: set<Key>, current: set<Key>, now: int, window: int, k: Key)
    requires k in todo && k in m
    ensures Remaining(m, todo - {k}, current, now, window)
         == if Kept(k, m[k], current, now, window) then Remaining(m, todo, current, now, window)
            else Remaining(m, todo, current, now, window) - {k}
  {
  }
}
