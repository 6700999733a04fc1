/** The ring buffer of internal/boundedlist: a fixed array in which new entries overwrite the oldest. */
module BoundedList {
  /** The last n elements of s, or all of them. */
  function Last<T>(s: seq<T>, n: nat): seq<T> { if |s| <= n then s else s[|s| - n..] }

  /** The ring a with its next write position, read from the oldest entry to the newest. */
  function View<T>(a: seq<T>, idx: nat, isFull: bool): seq<T>
    requires idx <= |a|
  {
    if isFull then a[idx..] + a[..idx] else a[..idx]
  }

  /** Writing at the next position appends, and drops the oldest entry of a full ring. */
  lemma {:induction false} WriteAppends<T>(a: seq<T>, idx: nat, isFull: bool, entry: T)
    requires idx < |a|
    ensures var next := if idx + 1 == |a| then 0 else idx + 1;
            View(a[idx := entry], next, isFull || next == 0) == Last(View(a, idx, isFull) + [entry], |a|)
  {
    var a' := a[idx := entry];
    assert a' == a[..idx] + [entry] + a[idx + 1..];
    if isFull {
      assert View(a, idx, true) + [entry] == [a[idx]] + (a[idx + 1..] + a[..idx] + [entry]);
      if idx + 1 == |a| {
        assert a'[0..] + a'[..0] == a[..idx] + [entry];
      } else {
        assert a'[idx + 1..] == a[idx + 1..] && a'[..idx + 1] == a[..idx] + [entry];
      }
    } else if idx + 1 == |a| {
      assert a'[0..] + a'[..0] == a[..idx] + [entry];
    } else {
      assert a'[..idx + 1] == a[..idx] + [entry];
    }
  }

  class List<T> {
    const size: nat
    const zero: T
    var entries: array<T>
    var idx: nat
    var isFull: bool

    /** A list of size 0 can be made and read, but adding to it is out of range. */
    ghost predicate Valid()
      reads this
    {
      && entries.Length == size
      && (if size == 0 then idx == 0 && !isFull else idx < size)
    }

    /** The entries from the oldest to the newest. */
    function Contents(): seq<T>
      requires Valid()
      reads this, entries
    {
      View(entries[..], idx, isFull)
    }

    /** zero is the value that Go gives to unset elements. */
    constructor (size: nat, zero: T)
      ensures Valid() && fresh(entries) && this.size == size && this.zero == zero
      ensures Contents() == []
    {
      this.size := size;
      this.zero := zero;
      entries := new T[size](_ => zero);
      idx, isFull := 0, false;
    }

    method Add(entry: T)
      requires Valid() && size > 0
      modifies this`idx, this`isFull, entries
      ensures Valid()
      ensures Contents() == Last(old(Contents()) + [entry], size)
    {
      WriteAppends(entries[..], idx, isFull, entry);
      ghost var before := entries[..];
      entries[idx] := entry;
      assert entries[..] == before[idx := entry];
      Wrapped(idx, 1, size);
      idx := (idx + 1) % size;
      if idx == 0 { isFull := true; }
    }

    function Len(): (n: nat)
      requires Valid()
      reads this, entries
      ensures n == |Contents()|
    {
      if isFull then size else idx
    }

    function Item(i: nat): (entry: T)
      requires Valid()
      reads this, entries
      ensures entry == if i < |Contents()| then Contents()[i] else zero
    {
      if i >= Len() then zero
      else if isFull then
        Wrapped(idx, i, size);
        entries[(idx + i) % size]
      else entries[i]
    }

    method All() returns (list: array<T>)
      requires Valid()
      ensures fresh(list) && list[..] == Contents()
    {
      var n := Len();
      list := new T[n](_ => zero);
      for i := 0 to n
        invariant forall k | 0 <= k < i :: list[k] == Contents()[k]
      {
        list[i] := Item(i);
      }
    }

    method Reset()
      requires Valid()
      modifies this
      ensures Valid() && fresh(entries) && Contents() == []
    {
      isFull := false;
      idx := 0;
      entries := new T[size](_ => zero);
    }
  }

  lemma Wrapped(idx: nat, i: nat, size: nat)
    requires idx < size && i <= size
    ensures (idx + i) % size == if idx + i < size then idx + i else idx + i - size
  {
    if idx + i >= size { assert (idx + i) % size == (idx + i - size) % size; }
  }

  // ---------- Whole traces ----------

  datatype Op<T> = Add(entry: T) | Reset

  /** What the list holds after a trace of operations, as Add and Reset define it. */
  function Run<T>(size: nat, ops: seq<Op<T>>): seq<T> {
    if ops == [] then []
    else
      match ops[|ops| - 1]
      case Add(entry) => Last(Run(size, ops[..|ops| - 1]) + [entry], size)
      case Reset => []
  }

  /** The entries added since the last Reset. */
  function AddedSinceReset<T>(ops: seq<Op<T>>): seq<T> {
    if ops == [] then []
    else
      match ops[|ops| - 1]
      case Add(entry) => AddedSinceReset(ops[..|ops| - 1]) + [entry]
      case Reset => []
  }

  /** The list holds exactly the last size entries added since the last Reset, oldest first. */
  lemma {:induction false} HoldsLastEntries<T>(size: nat, ops: seq<Op<T>>)
    ensures Run(size, ops) == Last(AddedSinceReset(ops), size)
  {
    if ops != [] {
      HoldsLastEntries(size, ops[..|ops| - 1]);
    }
  }

  /** Driving a list by a trace. */
  method Replay<T>(list: List<T>, ops: seq<Op<T>>)
    requires list.Valid() && list.size > 0 && list.Contents() == []
    modifies list, list.entries
    ensures list.Valid() && list.Contents() == Last(AddedSinceReset(ops), list.size)
  {
    for i := 0 to |ops|
      invariant list.Valid() && (list.entries == old(list.entries) || fresh(list.entries))
      invariant list.Contents() == Run(list.size, ops[..i])
    {
      assert ops[..i + 1][..i] == ops[..i];
      match ops[i]
      case Add(entry) => list.Add(entry);
      case Reset => list.Reset();
    }
    assert ops[..|ops|] == ops;
    HoldsLastEntries(list.size, ops);
  }
}
