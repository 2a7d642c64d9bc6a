/**
 * The two collection primitives the aggregation is built from, stated over
 * any element type: `Array.prototype.filter` and lodash's `_.groupBy` read
 * back through `Object.keys`. Beside each stands an independent description
 * and the lemma that connects the two.
 */
module Collections {

  lemma MultisetOfSnoc<T>(s: seq<T>)
    requires |s| > 0
    ensures multiset(s) == multiset(s[..|s| - 1]) + multiset{s[|s| - 1]}
  {
    assert s == s[..|s| - 1] + [s[|s| - 1]];
  }

  // ---------------------------------------------------------------------
  // Array.prototype.filter
  // ---------------------------------------------------------------------

  /** `xs.filter(keep)`: the elements `keep` accepts, in their order. */
  function Where<T>(xs: seq<T>, keep: T -> bool): seq<T>
    decreases |xs|
  {
    if |xs| == 0 then []
    else
      var last := xs[|xs| - 1];
      Where(xs[..|xs| - 1], keep) + (if keep(last) then [last] else [])
  }

  /** Filtering keeps every accepted element as often as it occurs, and
      nothing else. */
  lemma {:induction false} WhereCounts<T>(xs: seq<T>, keep: T -> bool)
    ensures forall x {:trigger multiset(Where(xs, keep))[x]} ::
      multiset(Where(xs, keep))[x] == if keep(x) then multiset(xs)[x] else 0
    decreases |xs|
  {
    if |xs| > 0 {
      WhereCounts(xs[..|xs| - 1], keep);
      MultisetOfSnoc(xs);
    }
  }

  /** Filtering keeps the input order: it distributes over concatenation. */
  lemma {:induction false} WhereConcat<T>(a: seq<T>, b: seq<T>, keep: T -> bool)
    ensures Where(a + b, keep) == Where(a, keep) + Where(b, keep)
    decreases |b|
  {
    if |b| == 0 {
      assert a + b == a;
    } else {
      var front := b[..|b| - 1];
      assert (a + b)[..|a + b| - 1] == a + front;
      assert (a + b)[|a + b| - 1] == b[|b| - 1];
      WhereConcat(a, front, keep);
    }
  }

  /** With a callback that accepts everything, filtering changes nothing. */
  lemma {:induction false} WhereAll<T>(xs: seq<T>, keep: T -> bool)
    requires forall x :: keep(x)
    ensures Where(xs, keep) == xs
    decreases |xs|
  {
    if |xs| > 0 {
      WhereAll(xs[..|xs| - 1], keep);
      assert xs == xs[..|xs| - 1] + [xs[|xs| - 1]];
    }
  }

  /** With a callback that rejects every element, filtering leaves nothing. */
  lemma {:induction false} WhereNone<T>(xs: seq<T>, keep: T -> bool)
    requires forall i :: 0 <= i < |xs| ==> !keep(xs[i])
    ensures Where(xs, keep) == []
    decreases |xs|
  {
    if |xs| > 0 {
      WhereNone(xs[..|xs| - 1], keep);
    }
  }

  /** The first element kept is the first element the callback accepts. */
  lemma {:induction false} WhereFirst<T>(xs: seq<T>, keep: T -> bool, i: nat)
    requires i < |xs| && keep(xs[i])
    requires forall j :: 0 <= j < i ==> !keep(xs[j])
    ensures |Where(xs, keep)| > 0 && Where(xs, keep)[0] == xs[i]
    decreases |xs|
  {
    var front := xs[..|xs| - 1];
    if i < |xs| - 1 {
      WhereFirst(front, keep, i);
    } else {
      WhereNone(front, keep);
    }
  }

  // ---------------------------------------------------------------------
  // Keys in order of first occurrence
  // ---------------------------------------------------------------------

  /** The key of every element, in input order. */
  function KeysOf<T, K>(xs: seq<T>, key: T -> K): (ks: seq<K>)
    ensures |ks| == |xs|
    ensures forall i :: 0 <= i < |xs| ==> ks[i] == key(xs[i])
    decreases |xs|
  {
    if |xs| == 0 then [] else KeysOf(xs[..|xs| - 1], key) + [key(xs[|xs| - 1])]
  }

  predicate NoDuplicates<K(==)>(s: seq<K>) {
    forall i, j :: 0 <= i < j < |s| ==> s[i] != s[j]
  }

  /** The distinct elements of `s`, each at the place it first occurs. */
  function Distinct<K(==,!new)>(s: seq<K>): (d: seq<K>)
    ensures forall x :: x in d <==> x in s
    ensures NoDuplicates(d)
    decreases |s|
  {
    if |s| == 0 then []
    else
      var x := s[|s| - 1];
      assert s == s[..|s| - 1] + [x];
      var prev := Distinct(s[..|s| - 1]);
      if x in prev then prev else prev + [x]
  }

  lemma DistinctSnoc<K(!new)>(s: seq<K>, x: K)
    ensures Distinct(s + [x]) == if x in s then Distinct(s) else Distinct(s) + [x]
  {
    assert (s + [x])[..|s|] == s;
  }

  /** The position where `x` first occurs in `s`. */
  function FirstIndex<K(==)>(s: seq<K>, x: K): (i: nat)
    requires x in s
    ensures i < |s| && s[i] == x
    ensures forall j :: 0 <= j < i ==> s[j] != x
    decreases |s|
  {
    var prefix := s[..|s| - 1];
    if x in prefix then FirstIndex(prefix, x) else |s| - 1
  }

  /** `Distinct` lists the elements in the order of their first occurrence. */
  lemma {:induction false} DistinctFollowsFirstOccurrence<K(!new)>(s: seq<K>, i: nat, j: nat)
    requires i < j < |Distinct(s)|
    ensures FirstIndex(s, Distinct(s)[i]) < FirstIndex(s, Distinct(s)[j])
    decreases |s|
  {
    var prefix := s[..|s| - 1];
    var x := s[|s| - 1];
    var d := Distinct(s);
    var prev := Distinct(prefix);
    assert d[i] in prefix by {
      if x in prev {
        assert d == prev;
      } else {
        assert d == prev + [x];
        assert d[i] == prev[i];
      }
    }
    if x in prev {
      DistinctFollowsFirstOccurrence(prefix, i, j);
    } else if j < |d| - 1 {
      DistinctFollowsFirstOccurrence(prefix, i, j);
    } else {
      assert d[j] == x && x !in prefix;
    }
  }

  /** A sequence without duplicates has as many elements as its set. */
  lemma {:induction false} NoDuplicatesCount<K>(s: seq<K>)
    requires NoDuplicates(s)
    ensures |set x | x in s| == |s|
    decreases |s|
  {
    if |s| > 0 {
      var prefix := s[..|s| - 1];
      var x := s[|s| - 1];
      assert s == prefix + [x];
      assert NoDuplicates(prefix);
      NoDuplicatesCount(prefix);
      assert x !in prefix;
      assert (set y | y in s) == (set y | y in prefix) + {x};
    }
  }

  // ---------------------------------------------------------------------
  // _.groupBy
  // ---------------------------------------------------------------------

  /** One own property of the object `_.groupBy` returns: a key and the
      elements collected under it. */
  datatype Group<T, K> = Group(key: K, members: seq<T>)

  function GroupKeys<T, K>(gs: seq<Group<T, K>>): (ks: seq<K>)
    ensures |ks| == |gs|
    ensures forall i :: 0 <= i < |gs| ==> ks[i] == gs[i].key
  {
    seq(|gs|, i requires 0 <= i < |gs| => gs[i].key)
  }

  /** All elements of all groups, group after group. */
  function Flatten<T, K>(gs: seq<Group<T, K>>): seq<T> {
    if |gs| == 0 then [] else gs[0].members + Flatten(gs[1..])
  }

  /** The groups `_.groupBy` can produce: keys are distinct, no group is
      empty, and every element sits under its own key. */
  predicate WellFormed<T, K(==)>(gs: seq<Group<T, K>>, key: T -> K) {
    && NoDuplicates(GroupKeys(gs))
    && (forall i :: 0 <= i < |gs| ==> |gs[i].members| > 0)
    && (forall i, j :: 0 <= i < |gs| && 0 <= j < |gs[i].members| ==> key(gs[i].members[j]) == gs[i].key)
  }

  /** One step of `_.groupBy`: push the element onto the group of its key if
      that key is already an own property, or else create the key, last,
      holding a one-element group. */
  function AddToGroup<T, K(==)>(gs: seq<Group<T, K>>, k: K, x: T): seq<Group<T, K>> {
    if |gs| == 0 then [Group(k, [x])]
    else if gs[0].key == k then [Group(k, gs[0].members + [x])] + gs[1..]
    else [gs[0]] + AddToGroup(gs[1..], k, x)
  }

  lemma {:induction false} AddToGroupShape<T, K>(gs: seq<Group<T, K>>, k: K, x: T)
    requires NoDuplicates(GroupKeys(gs))
    ensures k in GroupKeys(gs) ==>
      |AddToGroup(gs, k, x)| == |gs| &&
      forall i :: 0 <= i < |gs| ==>
        AddToGroup(gs, k, x)[i] == if gs[i].key == k then Group(k, gs[i].members + [x]) else gs[i]
    ensures k !in GroupKeys(gs) ==> AddToGroup(gs, k, x) == gs + [Group(k, [x])]
  {
    if |gs| > 0 {
      var tail := gs[1..];
      assert GroupKeys(gs) == [gs[0].key] + GroupKeys(tail);
      if gs[0].key != k {
        AddToGroupShape(tail, k, x);
      }
    }
  }

  lemma {:induction false} AddToGroupAddsOne<T, K>(gs: seq<Group<T, K>>, k: K, x: T)
    ensures multiset(Flatten(AddToGroup(gs, k, x))) == multiset(Flatten(gs)) + multiset{x}
  {
    var res := AddToGroup(gs, k, x);
    if |gs| == 0 {
      assert res[1..] == [];
    } else if gs[0].key == k {
      assert res[1..] == gs[1..];
    } else {
      assert res[1..] == AddToGroup(gs[1..], k, x);
      AddToGroupAddsOne(gs[1..], k, x);
    }
  }

  /** `_.groupBy(xs, key)` read back through `Object.keys`, for keys that are
      not array indices: the groups in key-creation order. */
  function GroupBy<T, K(==)>(xs: seq<T>, key: T -> K): seq<Group<T, K>>
    decreases |xs|
  {
    if |xs| == 0 then []
    else
      var last := xs[|xs| - 1];
      AddToGroup(GroupBy(xs[..|xs| - 1], key), key(last), last)
  }

  lemma {:induction false} GroupByWellFormed<T, K>(xs: seq<T>, key: T -> K)
    ensures WellFormed(GroupBy(xs, key), key)
    decreases |xs|
  {
    if |xs| > 0 {
      var prefix := xs[..|xs| - 1];
      var last := xs[|xs| - 1];
      GroupByWellFormed(prefix, key);
      AddToGroupShape(GroupBy(prefix, key), key(last), last);
    }
  }

  /** The elements of `xs` whose key is `k`, in input order. */
  function WithKey<T, K(==)>(xs: seq<T>, key: T -> K, k: K): seq<T>
    decreases |xs|
  {
    if |xs| == 0 then []
    else
      var last := xs[|xs| - 1];
      WithKey(xs[..|xs| - 1], key, k) + (if key(last) == k then [last] else [])
  }

  lemma {:induction false} WithKeyEmpty<T, K>(xs: seq<T>, key: T -> K, k: K)
    ensures WithKey(xs, key, k) == [] <==> k !in KeysOf(xs, key)
    decreases |xs|
  {
    if |xs| > 0 {
      var prefix := xs[..|xs| - 1];
      WithKeyEmpty(prefix, key, k);
      assert KeysOf(xs, key) == KeysOf(prefix, key) + [key(xs[|xs| - 1])];
    }
  }

  /** `_.groupBy` creates one group per distinct key, in the order in which
      the keys first occur. */
  lemma {:induction false} GroupByKeysFirstSeen<T, K(!new)>(xs: seq<T>, key: T -> K)
    ensures GroupKeys(GroupBy(xs, key)) == Distinct(KeysOf(xs, key))
    decreases |xs|
  {
    if |xs| > 0 {
      var prefix := xs[..|xs| - 1];
      var last := xs[|xs| - 1];
      var k := key(last);
      var prev := GroupBy(prefix, key);
      var gs := GroupBy(xs, key);
      assert gs == AddToGroup(prev, k, last);
      assert KeysOf(xs, key) == KeysOf(prefix, key) + [k];
      GroupByKeysFirstSeen(prefix, key);
      AddToGroupShape(prev, k, last);
      DistinctSnoc(KeysOf(prefix, key), k);
      if k in KeysOf(prefix, key) {
        assert GroupKeys(gs) == GroupKeys(prev);
      } else {
        assert GroupKeys(gs) == GroupKeys(prev) + [k];
      }
    }
  }

  /** Each group of `_.groupBy` holds exactly the elements with its key, in
      their input order. */
  lemma {:induction false} GroupByMembersInOrder<T, K(!new)>(xs: seq<T>, key: T -> K)
    ensures forall i :: 0 <= i < |GroupBy(xs, key)| ==>
      GroupBy(xs, key)[i].members == WithKey(xs, key, GroupBy(xs, key)[i].key)
    decreases |xs|
  {
    if |xs| > 0 {
      var prefix := xs[..|xs| - 1];
      var last := xs[|xs| - 1];
      var k := key(last);
      var prev := GroupBy(prefix, key);
      var gs := GroupBy(xs, key);
      assert gs == AddToGroup(prev, k, last);
      GroupByMembersInOrder(prefix, key);
      GroupByKeysFirstSeen(prefix, key);
      AddToGroupShape(prev, k, last);
      WithKeyEmpty(prefix, key, k);
    }
  }

  /** `_.groupBy` neither loses nor invents elements. */
  lemma {:induction false} GroupByIsPartition<T, K>(xs: seq<T>, key: T -> K)
    ensures multiset(Flatten(GroupBy(xs, key))) == multiset(xs)
    decreases |xs|
  {
    if |xs| > 0 {
      var prefix := xs[..|xs| - 1];
      var last := xs[|xs| - 1];
      GroupByIsPartition(prefix, key);
      AddToGroupAddsOne(GroupBy(prefix, key), key(last), last);
      MultisetOfSnoc(xs);
    }
  }

  /** The keys that occur among the elements. */
  function KeySet<T, K>(xs: seq<T>, key: T -> K): set<K> {
    set i | 0 <= i < |xs| :: key(xs[i])
  }

  /** There are as many groups as distinct keys. */
  lemma GroupByCount<T, K(!new)>(xs: seq<T>, key: T -> K)
    ensures |GroupBy(xs, key)| == |KeySet(xs, key)|
  {
    var keys := KeysOf(xs, key);
    GroupByKeysFirstSeen(xs, key);
    NoDuplicatesCount(Distinct(keys));
    assert KeySet(xs, key) == (set k | k in Distinct(keys)) by {
      forall k | k in Distinct(keys)
        ensures k in KeySet(xs, key)
      {
        var i :| 0 <= i < |keys| && keys[i] == k;
      }
    }
  }
}
