/** The fixed-capacity circular buffer every metric series is kept in. */
module Ring {
  import opened Seqs

  // The only use made of % here: an index at most one lap past the end.
  lemma Wrap(x: nat, capacity: nat)
    requires x < 2 * capacity
    ensures x % capacity == if x < capacity then x else x - capacity
  {
    if x >= capacity {
      assert x == 1 * capacity + (x - capacity);
    }
  }

  method CopyInto<T>(data: array<T>, values: seq<T>)
    requires |values| <= data.Length
    modifies data
    ensures data[..|values|] == values
  {
    for i := 0 to |values|
      invariant data[..i] == values[..i]
    {
      data[i] := values[i];
    }
  }

  class RingBuffer<T(0)> {
    const capacity: nat
    var data: array<T>
    var next: nat
    var size: nat

    ghost predicate Valid()
      reads this
    {
      && 1 <= capacity == data.Length
      && next < capacity
      && size <= capacity
      && (size < capacity ==> next == size)
    }

    // The buffered values, oldest first.
    ghost function Contents(): (s: seq<T>)
      requires Valid()
      reads this, data
      ensures |s| == size <= capacity
    {
      if size < capacity then data[..size] else data[next..] + data[..next]
    }

    constructor (capacity: int)
      ensures Valid() && fresh(this) && fresh(data)
      ensures this.capacity == if capacity < 1 then 1 else capacity
      ensures Contents() == []
    {
      var cap: nat := if capacity < 1 then 1 else capacity;
      this.capacity := cap;
      data := new T[cap];
      next := 0;
      size := 0;
    }

    method Add(v: T)
      requires Valid()
      modifies this`next, this`size, data
      ensures Valid() && data == old(data)
      ensures Contents() == LastN(old(Contents()) + [v], capacity)
    {
      ghost var before := Contents();
      ghost var at := next;
      Wrap(next + 1, capacity);
      data[next] := v;
      next := (next + 1) % capacity;
      if size < capacity {
        size := size + 1;
      }
      if |before| < capacity {
        assert before + [v] == data[..at + 1];
      } else {
        assert (before + [v])[1..] == before[1..] + [v];
        assert data[..at + 1] == data[..at] + [v];
        assert at + 1 < capacity ==> before[1..] + [v] == data[at + 1..] + data[..at + 1];
      }
    }

    method Fill(values: seq<T>)
      requires Valid()
      modifies this
      ensures Valid() && fresh(data)
      ensures Contents() == LastN(values, capacity)
    {
      var kept := if |values| > capacity then values[|values| - capacity..] else values;
      data := new T[capacity];
      CopyInto(data, kept);
      size := |kept|;
      Wrap(size, capacity);
      next := size % capacity;
      assert size == capacity ==> data[..] == kept;
    }

    method Snapshot() returns (out: seq<T>)
      requires Valid()
      ensures out == Contents()
    {
      if size < capacity {
        return data[..size];
      }
      out := data[next..];
      out := out + data[..next];
    }

    method Newest() returns (v: Option<T>)
      requires Valid()
      ensures v == if Contents() == [] then None else Some(Contents()[|Contents()| - 1])
    {
      if size == 0 {
        return None;
      }
      Wrap(next - 1 + capacity, capacity);
      var idx := (next - 1 + capacity) % capacity;
      v := Some(data[idx]);
    }
  }

  datatype Op<T> = Add(v: T) | Fill(values: seq<T>)

  // What the class methods do to the contents, operation by operation.
  ghost function Run<T>(ops: seq<Op<T>>, capacity: nat): seq<T> {
    if |ops| == 0 then []
    else match ops[|ops| - 1]
      case Add(v) => LastN(Run(ops[..|ops| - 1], capacity) + [v], capacity)
      case Fill(values) => LastN(values, capacity)
  }

  // The unbounded sequence a user of the buffer has in mind: everything since the last Fill.
  ghost function Log<T>(ops: seq<Op<T>>): seq<T> {
    if |ops| == 0 then []
    else match ops[|ops| - 1]
      case Add(v) => Log(ops[..|ops| - 1]) + [v]
      case Fill(values) => values
  }

  // After any interleaving of Add and Fill the buffer holds the newest `capacity` elements of that sequence.
  lemma {:induction false} RunIsLastOfLog<T>(ops: seq<Op<T>>, capacity: nat)
    ensures Run(ops, capacity) == LastN(Log(ops), capacity)
  {
    if |ops| == 0 {
    } else {
      var before := ops[..|ops| - 1];
      RunIsLastOfLog(before, capacity);
      match ops[|ops| - 1] {
        case Add(v) => LastNAppend(Log(before), [v], capacity);
        case Fill(_) =>
      }
    }
  }
}
