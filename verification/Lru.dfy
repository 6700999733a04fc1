/** The least-recently-used cache of internal/lru: a lookup table plus a recency list, most recent first. */
module Lru {
  import opened Sequences

  datatype Cache<K, V> = Cache(ring: seq<K>, table: map<K, V>)

  datatype Op<K, V> = Get(key: K) | Put(key: K, value: V)

  /** The table and the list hold the same keys, none twice, and no more than the capacity. */
  ghost predicate Consistent<K(!new), V>(c: Cache<K, V>, capacity: nat) {
    && NoDuplicates(c.ring)
    && c.table.Keys == Members(c.ring)
    && |c.ring| <= capacity
  }

  /** The recency list after key has been used: key first, then the others in order as far as they fit. */
  function Touch<K(==,!new)>(ring: seq<K>, key: K, capacity: nat): seq<K> {
    if capacity == 0 then [] else [key] + Take(Without(ring, key), capacity - 1)
  }

  function AfterGet<K(==,!new), V>(c: Cache<K, V>, capacity: nat, key: K): Cache<K, V> {
    if key in c.table then c.(ring := Touch(c.ring, key, capacity)) else c
  }

  function Kept<K(!new), V>(table: map<K, V>, keys: set<K>): map<K, V> {
    table - (table.Keys - keys)
  }

  ghost function AfterPut<K(!new), V>(c: Cache<K, V>, capacity: nat, key: K, value: V): Cache<K, V>
    requires Consistent(c, capacity)
  {
    var ring := Touch(c.ring, key, capacity);
    Cache(ring, Kept(c.table[key := value], Members(ring)))
  }

  class Handle<K(==,!new), V> {
    var lookupTable: map<K, V>
    var ring: seq<K>
    const capacity: nat

    function State(): Cache<K, V>
      reads this
    {
      Cache(ring, lookupTable)
    }

    ghost predicate Valid()
      reads this
    {
      Consistent(State(), capacity)
    }

    constructor (capacity: nat)
      ensures Valid() && this.capacity == capacity && State() == Cache([], map[])
    {
      this.capacity := capacity;
      lookupTable, ring := map[], [];
    }

    method Get(key: K) returns (value: Option<V>)
      requires Valid()
      modifies this
      ensures Valid()
      ensures State() == AfterGet(old(State()), capacity, key)
      ensures value == if key in old(lookupTable) then Some(old(lookupTable)[key]) else None
    {
      if key in lookupTable {
        WithoutNoDuplicates(ring, key);
        StepConsistent(State(), capacity, Op<K, V>.Get(key));
        ring := [key] + Without(ring, key);
        return Some(lookupTable[key]);
      }
      return None;
    }

    /** With capacity 0 the code dereferences the back of an empty list. */
    method Put(key: K, value: V)
      requires Valid() && capacity > 0
      modifies this
      ensures State() == AfterPut(old(State()), capacity, key, value)
      ensures Valid()
    {
      MembersSize(ring);
      ghost var after := AfterPut(State(), capacity, key, value);
      assert Consistent(after, capacity) by { StepConsistent(State(), capacity, Op.Put(key, value)); }
      PutForms(State(), capacity, key, value);
      if key in lookupTable {
        lookupTable := lookupTable[key := value];
        ring := [key] + Without(ring, key);
      } else {
        if capacity == |lookupTable| {
          var back := ring[|ring| - 1];
          ring := ring[..|ring| - 1];
          lookupTable := lookupTable - {back};
        }
        lookupTable := lookupTable[key := value];
        ring := [key] + ring;
      }
      assert State() == after;
    }

    method Len() returns (n: nat)
      requires Valid()
      ensures n == |ring|
    {
      MembersSize(ring);
      n := |lookupTable|;
    }
  }

  /** What the cut in Touch amounts to: nothing, or the loss of the last key. */
  lemma TouchForms<K(!new)>(ring: seq<K>, capacity: nat, key: K)
    requires NoDuplicates(ring) && |ring| <= capacity && capacity > 0
    ensures Touch(ring, key, capacity) == [key] + (
              if key in ring then Without(ring, key)
              else if |ring| < capacity then ring
              else ring[..capacity - 1])
  {
    WithoutSize(ring, key);
    if key !in ring { WithoutAbsent(ring, key); }
  }

  lemma MembersCons<K(!new)>(x: K, s: seq<K>)
    ensures Members([x] + s) == {x} + Members(s)
  {
  }

  lemma DropLastKeys<K(!new)>(ring: seq<K>)
    requires NoDuplicates(ring) && ring != []
    ensures Members(ring[..|ring| - 1]) == Members(ring) - {ring[|ring| - 1]}
  {
    var front, back := ring[..|ring| - 1], ring[|ring| - 1];
    assert ring == front + [back];
  }

  lemma MovedToFrontMembers<K(!new)>(s: seq<K>, x: K)
    ensures Members([x] + Without(s, x)) == Members(s) + {x}
  {
    WithoutMembers(s, x);
    MembersCons(x, Without(s, x));
  }

  /** The three branches of Put, as values. */
  lemma PutForms<K(!new), V>(c: Cache<K, V>, capacity: nat, key: K, value: V)
    requires Consistent(c, capacity) && capacity > 0
    ensures AfterPut(c, capacity, key, value) ==
            if key in c.table then Cache([key] + Without(c.ring, key), c.table[key := value])
            else if |c.ring| < capacity then Cache([key] + c.ring, c.table[key := value])
            else Cache([key] + c.ring[..capacity - 1], (c.table - {c.ring[capacity - 1]})[key := value])
  {
    TouchForms(c.ring, capacity, key);
    var ring, table := Touch(c.ring, key, capacity), c.table[key := value];
    if key in c.table || |c.ring| < capacity {
      MovedToFrontMembers(c.ring, key);
      if key !in c.table { WithoutAbsent(c.ring, key); }
      assert Members(ring) == table.Keys;
      assert Kept(table, Members(ring)) == table;
    } else {
      DropLastKeys(c.ring);
      var back := c.ring[capacity - 1];
      MembersCons(key, c.ring[..capacity - 1]);
      assert table.Keys - Members(ring) == {back};
      assert Kept(table, Members(ring)) == (c.table - {back})[key := value];
    }
  }

  // ---------- Whole traces ----------

  ghost function Step<K(!new), V>(c: Cache<K, V>, capacity: nat, op: Op<K, V>): Cache<K, V>
    requires Consistent(c, capacity)
  {
    match op
    case Get(key) => AfterGet(c, capacity, key)
    case Put(key, value) => AfterPut(c, capacity, key, value)
  }

  lemma {:induction false} TakeKeeps<K(!new)>(s: seq<K>, n: nat)
    requires NoDuplicates(s)
    ensures NoDuplicates(Take(s, n)) && forall x | x in Take(s, n) :: x in s
  {
  }

  lemma TouchNoDuplicates<K(!new)>(ring: seq<K>, capacity: nat, key: K)
    requires NoDuplicates(ring)
    ensures NoDuplicates(Touch(ring, key, capacity)) && |Touch(ring, key, capacity)| <= capacity
    ensures forall x | x in Touch(ring, key, capacity) :: x in ring || x == key
  {
    if capacity > 0 {
      WithoutNoDuplicates(ring, key);
      WithoutMembers(ring, key);
      TakeKeeps(Without(ring, key), capacity - 1);
      NoDuplicatesCons(key, Take(Without(ring, key), capacity - 1));
    }
  }

  lemma StepConsistent<K(!new), V>(c: Cache<K, V>, capacity: nat, op: Op<K, V>)
    requires Consistent(c, capacity) && capacity > 0
    ensures Consistent(Step(c, capacity, op), capacity)
  {
    TouchNoDuplicates(c.ring, capacity, op.key);
    if op.key in c.table {
      MovedToFrontMembers(c.ring, op.key);
      TouchForms(c.ring, capacity, op.key);
    }
  }

  /** The cache that a trace of operations leaves behind, starting empty. */
  ghost function Run<K(!new), V>(capacity: nat, ops: seq<Op<K, V>>): (c: Cache<K, V>)
    requires capacity > 0
    ensures Consistent(c, capacity)
  {
    if ops == [] then Cache([], map[])
    else
      var before := Run(capacity, ops[..|ops| - 1]);
      StepConsistent(before, capacity, ops[|ops| - 1]);
      Step(before, capacity, ops[|ops| - 1])
  }

  /** The smaller cache holds a part of what the larger one holds, in the same order. */
  ghost predicate Included<K(!new), V>(small: Cache<K, V>, m: nat, large: Cache<K, V>) {
    && IsSubsequence(small.ring, large.ring)
    && |small.ring| == Min(m, |large.ring|)
    && forall k | k in small.table :: k in large.table && small.table[k] == large.table[k]
  }

  lemma {:induction false} TouchIncluded<K(!new)>(a: seq<K>, m: nat, b: seq<K>, n: nat, key: K)
    requires 1 <= m <= n && NoDuplicates(a) && NoDuplicates(b) && |b| <= n
    requires IsSubsequence(a, b) && |a| == Min(m, |b|)
    ensures IsSubsequence(Touch(a, key, m), Touch(b, key, n))
    ensures |Touch(a, key, m)| == Min(m, |Touch(b, key, n)|)
  {
    var x, y := Without(a, key), Without(b, key);
    SubsequenceWithout(a, b, key);
    SubsequenceMembers(a, b);
    WithoutNoDuplicates(a, key);
    WithoutNoDuplicates(b, key);
    var x', y' := Take(x, m - 1), Take(y, n - 1);
    if |y| > n - 1 {
      SubsequenceDropLast(x, y);
      assert x' == x[..|x| - 1] && y' == y[..|y| - 1];
    } else {
      SubsequencePrefix(x, |x'|, y);
      assert x' == x[..|x'|] && y' == y;
    }
    SubsequenceCons(key, x', y');
  }

  lemma StepIncluded<K(!new), V>(a: Cache<K, V>, m: nat, b: Cache<K, V>, n: nat, op: Op<K, V>)
    requires 1 <= m <= n && Consistent(a, m) && Consistent(b, n) && Included(a, m, b)
    ensures Included(Step(a, m, op), m, Step(b, n, op))
  {
    SubsequenceMembers(a.ring, b.ring);
    TouchIncluded(a.ring, m, b.ring, n, op.key);
    SubsequenceMembers(Touch(a.ring, op.key, m), Touch(b.ring, op.key, n));
    if op.Get? && op.key !in a.table && op.key in b.table {
      // A hit in the larger cache only: the smaller one is full and keeps its order.
      SubsequenceWithout(a.ring, b.ring, op.key);
      WithoutAbsent(a.ring, op.key);
      SubsequenceSkip(a.ring, Without(b.ring, op.key), op.key);
      WithoutNoDuplicates(b.ring, op.key);
    }
  }

  /** Inclusion: after any trace, a smaller cache holds an ordered part of a larger one, with equal values. */
  lemma {:induction false} InclusionOverTraces<K(!new), V>(m: nat, n: nat, ops: seq<Op<K, V>>)
    requires 1 <= m <= n
    ensures Included(Run(m, ops), m, Run(n, ops))
  {
    if ops != [] {
      InclusionOverTraces(m, n, ops[..|ops| - 1]);
      StepIncluded(Run(m, ops[..|ops| - 1]), m, Run(n, ops[..|ops| - 1]), n, ops[|ops| - 1]);
    }
  }

  // ---------- What is stored ----------

  /** The value of the last Put for k; None when there was none. */
  function LastPut<K(!new, ==), V>(ops: seq<Op<K, V>>, k: K): Option<V> {
    if ops == [] then None
    else
      var last := ops[|ops| - 1];
      if last.Put? && last.key == k then Some(last.value) else LastPut(ops[..|ops| - 1], k)
  }

  /** A cached key holds the value that was put last. */
  lemma {:induction false} StoredIsLastPut<K(!new), V>(capacity: nat, ops: seq<Op<K, V>>, k: K)
    requires capacity > 0
    ensures k in Run(capacity, ops).table ==> LastPut(ops, k) == Some(Run(capacity, ops).table[k])
  {
    if ops != [] { StoredIsLastPut(capacity, ops[..|ops| - 1], k); }
  }

  // ---------- When does a key stay cached? ----------

  /** A Put and a successful Get use their key; a missed Get changes nothing. */
  ghost predicate Uses<K(!new), V>(c: Cache<K, V>, op: Op<K, V>) {
    op.Put? || op.key in c.table
  }

  /** The keys other than k used since k was last used; None when k was never used. */
  ghost function UsedSince<K(!new), V>(capacity: nat, ops: seq<Op<K, V>>, k: K): Option<set<K>>
    requires capacity > 0
  {
    if ops == [] then None
    else
      var op, before := ops[|ops| - 1], ops[..|ops| - 1];
      var earlier := UsedSince(capacity, before, k);
      if !Uses(Run(capacity, before), op) then earlier
      else if op.key == k then Some({})
      else if earlier.Some? then Some(earlier.value + {op.key})
      else None
  }

  /** Where k stands in the list is exactly what has been used since k. */
  ghost predicate Placed<K(!new)>(ring: seq<K>, capacity: nat, k: K, since: Option<set<K>>) {
    if k in ring then
      since.Some? && exists i | 0 <= i < |ring| :: ring[i] == k && since.value == Members(ring[..i])
    else
      since.Some? ==> |since.value| >= capacity
  }

  lemma TakeConcat<K(!new)>(a: seq<K>, b: seq<K>, n: nat)
    ensures n <= |a| ==> Take(a + b, n) == Take(a, n)
    ensures n >= |a| ==> Take(a + b, n) == a + Take(b, n - |a|)
  {
  }

  /** Moving x to the front of p + [k] + q leaves p, with x, in front of k. */
  lemma FrontMoves<K(!new)>(p: seq<K>, k: K, q: seq<K>, x: K)
    requires x != k
    ensures [x] + Without(p + ([k] + q), x) == ([x] + Without(p, x)) + ([k] + Without(q, x))
  {
    WithoutConcat(p, [k] + q, x);
    assert ([k] + q)[1..] == q;
  }

  lemma FrontSize<K(!new)>(p: seq<K>, x: K)
    requires NoDuplicates(p)
    ensures var front := [x] + Without(p, x);
            Members(front) == Members(p) + {x} && |front| == |Members(front)|
  {
    MovedToFrontMembers(p, x);
    WithoutMembers(p, x);
    WithoutNoDuplicates(p, x);
    NoDuplicatesCons(x, Without(p, x));
    MembersSize([x] + Without(p, x));
  }

  /** The list after using x, split at k = ring[i]: front holds what is now before k. */
  lemma TouchSplit<K(!new)>(ring: seq<K>, capacity: nat, i: nat, x: K) returns (front: seq<K>, rest: seq<K>)
    requires NoDuplicates(ring) && i < |ring| <= capacity && x != ring[i]
    ensures Members(front) == Members(ring[..i]) + {x} && |front| == |Members(front)|
    ensures rest != [] && rest[0] == ring[i]
    ensures Touch(ring, x, capacity)
         == if |front| < capacity then front + Take(rest, capacity - |front|) else Take(front, capacity)
  {
    assert ring == ring[..i] + ([ring[i]] + ring[i + 1..]);
    FrontMoves(ring[..i], ring[i], ring[i + 1..], x);
    FrontSize(ring[..i], x);
    front, rest := [x] + Without(ring[..i], x), [ring[i]] + Without(ring[i + 1..], x);
    TakeConcat([x], Without(ring, x), capacity);
    TakeConcat(front, rest, capacity);
  }

  lemma ConcatAt<K(!new)>(front: seq<K>, k: K, tail: seq<K>)
    requires tail != [] && tail[0] == k
    ensures |front| < |front + tail| && (front + tail)[|front|] == k && (front + tail)[..|front|] == front
  {
  }

  /** Using x moves k = ring[i] one place back or leaves it where it is, while there is room. */
  lemma TouchKeeps<K(!new)>(ring: seq<K>, capacity: nat, i: nat, x: K)
    requires NoDuplicates(ring) && i < |ring| <= capacity && x != ring[i]
    requires |Members(ring[..i]) + {x}| < capacity
    ensures var before := Members(ring[..i]) + {x};
            var after := Touch(ring, x, capacity);
            |before| < |after| && after[|before|] == ring[i] && Members(after[..|before|]) == before
  {
    var front, rest := TouchSplit(ring, capacity, i, x);
    ConcatAt(front, ring[i], Take(rest, capacity - |front|));
  }

  /** When there is none, k falls out of the list. */
  lemma TouchDrops<K(!new)>(ring: seq<K>, capacity: nat, i: nat, x: K)
    requires NoDuplicates(ring) && i < |ring| <= capacity && x != ring[i]
    requires |Members(ring[..i]) + {x}| >= capacity
    ensures ring[i] !in Touch(ring, x, capacity)
  {
    var front, rest := TouchSplit(ring, capacity, i, x);
    assert ring[i] !in Members(ring[..i]);
    assert ring[i] !in Members(front);
    TakeKeepsMembers(front, capacity);
  }

  lemma TakeKeepsMembers<K(!new)>(s: seq<K>, n: nat)
    ensures Members(Take(s, n)) <= Members(s)
  {
  }

  lemma TouchPlaced<K(!new)>(ring: seq<K>, capacity: nat, k: K, since: Option<set<K>>, x: K)
    requires NoDuplicates(ring) && |ring| <= capacity && capacity > 0
    requires Placed(ring, capacity, k, since)
    ensures Placed(Touch(ring, x, capacity), capacity, k,
                   if x == k then Some({}) else if since.Some? then Some(since.value + {x}) else None)
  {
    var after := Touch(ring, x, capacity);
    if x == k {
      assert after[0] == k && Members(after[..0]) == {};
    } else if k in ring {
      var i :| 0 <= i < |ring| && ring[i] == k && since.value == Members(ring[..i]);
      if |since.value + {x}| < capacity { TouchKeeps(ring, capacity, i, x); } else { TouchDrops(ring, capacity, i, x); }
    } else {
      WithoutMembers(ring, x);
      if since.Some? { SubsetSize(since.value, since.value + {x}); }
    }
  }

  lemma SubsetSize<K(!new)>(a: set<K>, b: set<K>)
    requires a <= b
    ensures |a| <= |b|
  {
    assert b == a + (b - a);
  }

  lemma {:induction false} PlacedOverTraces<K(!new), V>(capacity: nat, ops: seq<Op<K, V>>, k: K)
    requires capacity > 0
    ensures Placed(Run(capacity, ops).ring, capacity, k, UsedSince(capacity, ops, k))
  {
    if ops != [] {
      var op, before := ops[|ops| - 1], ops[..|ops| - 1];
      PlacedOverTraces(capacity, before, k);
      var c := Run(capacity, before);
      if Uses(c, op) {
        TouchPlaced(c.ring, capacity, k, UsedSince(capacity, before, k), op.key);
      }
    }
  }

  /** A key is cached exactly when it was used and fewer than capacity other keys were used since. */
  lemma {:induction false} CachedExactlyWhenRecent<K(!new), V>(capacity: nat, ops: seq<Op<K, V>>, k: K)
    requires capacity > 0
    ensures k in Run(capacity, ops).table <==>
            UsedSince(capacity, ops, k).Some? && |UsedSince(capacity, ops, k).value| < capacity
  {
    PlacedOverTraces(capacity, ops, k);
    var ring := Run(capacity, ops).ring;
    if k in ring {
      var i :| 0 <= i < |ring| && ring[i] == k && UsedSince(capacity, ops, k).value == Members(ring[..i]);
      MembersSize(ring[..i]);
    }
  }
}
