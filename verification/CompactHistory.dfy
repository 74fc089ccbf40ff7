/** The chronological observation store of one HMM stream: two parallel arrays that grow by doubling and
    are pruned in place. Spare capacity is not part of its contents.
 */
module CompactHistory {
  import opened Options

  /** One stored row: a value (or a missing one) per column. */
  type Row = seq<Option<real>>

  datatype Obs = Obs(time: int, row: Row)

  ghost predicate Chronological(rows: seq<Obs>) {
    forall i, j :: 0 <= i < j < |rows| ==> rows[i].time < rows[j].time
  }

  /** The number of rows before `time`: numpy's searchsorted, side "left". */
  function LowerBound(rows: seq<Obs>, time: int): (p: nat)
    ensures p <= |rows|
  {
    if rows == [] || rows[0].time >= time then 0 else 1 + LowerBound(rows[1..], time)
  }

  lemma {:induction false} LowerBoundSplits(rows: seq<Obs>, time: int)
    requires Chronological(rows)
    ensures forall k :: 0 <= k < LowerBound(rows, time) ==> rows[k].time < time
    ensures forall k :: LowerBound(rows, time) <= k < |rows| ==> rows[k].time >= time
  {
    if rows != [] && rows[0].time < time {
      LowerBoundSplits(rows[1..], time);
      assert forall k :: 1 <= k < |rows| ==> rows[k] == rows[1..][k - 1];
    }
  }

  lemma {:induction false} LowerBoundUnique(rows: seq<Obs>, time: int, p: nat)
    requires p <= |rows|
    requires forall k :: 0 <= k < p ==> rows[k].time < time
    requires forall k :: p <= k < |rows| ==> rows[k].time >= time
    ensures LowerBound(rows, time) == p
  {
    if p > 0 {
      LowerBoundUnique(rows[1..], time, p - 1);
    }
  }

  class History {
    var capacity: nat
    var size: nat
    var timestamps: array<int>
    var values: array<Row>
    ghost var contents: seq<Obs>  // the stored rows; spare capacity is not part of them

    ghost predicate Valid()
      reads this, timestamps, values
    {
      && 1 <= capacity && size <= capacity
      && timestamps.Length == capacity && values.Length == capacity
      && |contents| == size
      && forall i :: 0 <= i < size ==> contents[i] == Obs(timestamps[i], values[i])
    }

    constructor (initialCapacity: int)
      ensures Valid() && contents == []
      ensures capacity == if initialCapacity >= 1 then initialCapacity else 1
      ensures fresh(timestamps) && fresh(values)
    {
      var n := if initialCapacity >= 1 then initialCapacity else 1;
      capacity := n;
      size := 0;
      contents := [];
      timestamps := new int[n];
      values := new Row[n];
    }

    method Append(time: int, row: Row)
      requires Valid()
      modifies this, timestamps, values
      ensures Valid() && contents == old(contents) + [Obs(time, row)]
      ensures capacity == if old(size) == old(capacity) then old(capacity) * 2 else old(capacity)
      ensures timestamps == old(timestamps) || fresh(timestamps)
      ensures values == old(values) || fresh(values)
    {
      if size == capacity {
        Grow(capacity * 2);
      }
      timestamps[size] := time;
      values[size] := row;
      size := size + 1;
      contents := contents + [Obs(time, row)];
    }

    /** Moves the contents into larger arrays. */
    method Grow(required: nat)
      requires Valid() && required >= size && required >= 1
      modifies this
      ensures Valid() && capacity == required && contents == old(contents)
      ensures fresh(timestamps) && fresh(values)
    {
      var ts := new int[required];
      var vs := new Row[required];
      forall i | 0 <= i < size {
        ts[i] := timestamps[i];
      }
      forall i | 0 <= i < size {
        vs[i] := values[i];
      }
      timestamps, values, capacity := ts, vs, required;
    }

    /** Preallocates a known length; never discards a stored row. */
    method Reserve(rows: int)
      requires Valid()
      modifies this
      ensures Valid() && contents == old(contents)
      ensures timestamps == old(timestamps) || fresh(timestamps)
      ensures values == old(values) || fresh(values)
      ensures old(size) == 0 || rows > old(capacity) ==> capacity == if rows >= 1 then rows else 1
    {
      var required := if rows >= 1 then rows else 1;
      if required == capacity || (required < capacity && size != 0) {
        return;
      }
      Grow(required);
    }

    /** Takes over the arrays of a store filled with these rows one by one. */
    method ReplaceRecords(rows: seq<Obs>)
      requires Valid()
      modifies this
      ensures Valid() && contents == rows && fresh(timestamps) && fresh(values)
      ensures capacity == if |rows| >= 1 then |rows| else 1
    {
      var replacement := new History(|rows|);
      for i := 0 to |rows|
        invariant replacement.Valid() && replacement.contents == rows[..i]
        invariant replacement.capacity == if |rows| >= 1 then |rows| else 1
        invariant fresh(replacement) && fresh(replacement.timestamps) && fresh(replacement.values)
      {
        replacement.Append(rows[i].time, rows[i].row);
      }
      assert rows[..|rows|] == rows;
      timestamps, values := replacement.timestamps, replacement.values;
      capacity, size, contents := replacement.capacity, replacement.size, replacement.contents;
    }

    method SearchLeft(time: int) returns (p: nat)
      requires Valid() && Chronological(contents)
      ensures p == LowerBound(contents, time)
    {
      var lo, hi := 0, size;
      while lo < hi
        invariant 0 <= lo <= hi <= size
        invariant forall k :: 0 <= k < lo ==> contents[k].time < time
        invariant forall k :: hi <= k < size ==> contents[k].time >= time
      {
        var mid := (lo + hi) / 2;
        assert contents[mid].time == timestamps[mid];
        if timestamps[mid] < time {
          lo := mid + 1;
        } else {
          hi := mid;
        }
      }
      LowerBoundUnique(contents, time, lo);
      p := lo;
    }

    /** Drops every row before `time`, shifting the rest to the front. */
    method RetainFrom(time: int)
      requires Valid() && Chronological(contents)
      modifies this, timestamps, values
      ensures Valid() && contents == old(contents)[LowerBound(old(contents), time)..]
      ensures timestamps == old(timestamps) && values == old(values)
    {
      var first := SearchLeft(time);
      if first != 0 {
        var remaining := size - first;
        forall i | 0 <= i < remaining {
          timestamps[i] := timestamps[first + i];
        }
        forall i | 0 <= i < remaining {
          values[i] := values[first + i];
        }
        size := remaining;
        contents := contents[first..];
      }
    }

    /** The rows with positions in [start, stop). */
    method Slice(start: nat, stop: nat) returns (rows: seq<Obs>)
      requires Valid() && start <= stop <= size
      ensures rows == contents[start..stop]
    {
      rows := seq(stop - start, i requires 0 <= i < stop - start reads this, timestamps, values
                                  requires Valid() && stop <= size =>
        Obs(timestamps[start + i], values[start + i]));
    }

    /** The checkpoint payload: the stored rows and nothing of the spare capacity. */
    method Payload() returns (rows: seq<Obs>)
      requires Valid()
      ensures rows == contents
    {
      rows := Slice(0, size);
    }

    constructor FromPayload(rows: seq<Obs>)
      ensures Valid() && contents == rows
      ensures capacity == if |rows| >= 1 then |rows| else 1
      ensures fresh(timestamps) && fresh(values)
    {
      var n := if |rows| >= 1 then |rows| else 1;
      capacity := n;
      size := |rows|;
      contents := rows;
      timestamps := new int[n](i requires 0 <= i < n => if i < |rows| then rows[i].time else 0);
      values := new Row[n](i requires 0 <= i < n => if i < |rows| then rows[i].row else []);
    }
  }
}
