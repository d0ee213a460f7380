/** Entries of the virtual clock's pending queue, and the stable sort by
    scheduled time that `call_at` applies to the queue after every append. */
module TimeQueue {

  datatype Option<T> = None | Some(value: T)

  /** A callback is opaque: only its identity matters to the scheduler. */
  type CallbackId = nat

  /** A pending entry: `(when, callback, args, context)`. */
  datatype Entry = Entry(when: real, callback: CallbackId, args: seq<int>, context: Option<nat>)

  /** Ascending by scheduled time: each entry is due no earlier than the
      one before it (see SortedPairwise for any two entries). */
  ghost predicate Sorted(q: seq<Entry>) {
    forall i :: 0 < i < |q| ==> q[i - 1].when <= q[i].when
  }

  /** In a sorted queue every entry is due no earlier than any entry before it. */
  lemma {:induction false} SortedPairwise(q: seq<Entry>, i: nat, j: nat)
    requires Sorted(q) && i <= j < |q|
    ensures q[i].when <= q[j].when
    decreases j - i
  {
    if i < j {
      SortedPairwise(q, i, j - 1);
    }
  }

  /** Dropping entries from the head of a sorted queue keeps it sorted. */
  lemma SuffixSorted(q: seq<Entry>, n: nat)
    requires Sorted(q) && n <= |q|
    ensures Sorted(q[n..])
  {
    forall i | 0 < i < |q| - n
      ensures q[n..][i - 1].when <= q[n..][i].when
    {
      assert q[n..][i - 1] == q[n + i - 1] && q[n..][i] == q[n + i];
    }
  }

  /** A prefix of a sorted queue is sorted. */
  lemma PrefixSorted(q: seq<Entry>, n: nat)
    requires Sorted(q) && n <= |q|
    ensures Sorted(q[..n])
  {
    forall i | 0 < i < n
      ensures q[..n][i - 1].when <= q[..n][i].when
    {
      assert q[..n][i - 1] == q[i - 1] && q[..n][i] == q[i];
    }
  }

  /** The entries of `q` scheduled at exactly time `t`, in queue order. */
  function TiesOf(q: seq<Entry>, t: real): (r: seq<Entry>)
    ensures |r| <= |q|
  {
    if q == [] then []
    else TiesOf(q[..|q| - 1], t) + (if q[|q| - 1].when == t then [q[|q| - 1]] else [])
  }

  /** One insertion step of a stable insertion sort: `e` goes after every
      trailing element that is due no later than it, i.e. after all its ties. */
  function InsertAfterTies(q: seq<Entry>, e: Entry): (r: seq<Entry>)
    ensures |r| == |q| + 1
  {
    if q == [] then [e]
    else if q[|q| - 1].when <= e.when then q + [e]
    else InsertAfterTies(q[..|q| - 1], e) + [q[|q| - 1]]
  }

  /** A stable sort by scheduled time (the key of `list.sort(key=...)`). */
  function SortByTime(q: seq<Entry>): (r: seq<Entry>)
    ensures |r| == |q|
  {
    if q == [] then []
    else InsertAfterTies(SortByTime(q[..|q| - 1]), q[|q| - 1])
  }

  lemma Associative(a: seq<Entry>, b: seq<Entry>, c: seq<Entry>)
    ensures a + (b + c) == (a + b) + c
  {
  }

  /** Appending one entry adds it to its time's ties. */
  lemma TiesOfSnoc(q: seq<Entry>, x: Entry, t: real)
    ensures TiesOf(q + [x], t) == TiesOf(q, t) + (if x.when == t then [x] else [])
  {
    assert (q + [x])[..|q|] == q;
  }

  lemma LastSplit(q: seq<Entry>)
    requires q != []
    ensures q == q[..|q| - 1] + [q[|q| - 1]]
  {
  }

  /** Insertion keeps the order of every group of ties and puts `e` last
      in its own group: the stability of the sort. */
  lemma {:induction false} InsertAfterTiesTies(q: seq<Entry>, e: Entry, t: real)
    ensures TiesOf(InsertAfterTies(q, e), t) == TiesOf(q, t) + (if e.when == t then [e] else [])
  {
    if q == [] {
      TiesOfSnoc([], e, t);
    } else if q[|q| - 1].when <= e.when {
      TiesOfSnoc(q, e, t);
    } else {
      var init, last := q[..|q| - 1], q[|q| - 1];
      var ins := InsertAfterTies(init, e);
      InsertAfterTiesTies(init, e, t);
      TiesOfSnoc(ins, last, t);
      LastSplit(q);
      TiesOfSnoc(init, last, t);
      // `last` is due strictly after `e`, so at most one of them ties at `t`
      var x, eTie, lastTie := TiesOf(init, t), if e.when == t then [e] else [], if last.when == t then [last] else [];
      if e.when == t {
        assert lastTie == [];
        assert (x + eTie) + lastTie == (x + lastTie) + eTie;
      } else {
        assert eTie == [];
        assert (x + eTie) + lastTie == (x + lastTie) + eTie;
      }
    }
  }

  /** Where `InsertAfterTies` puts an entry due at `when`: after the last
      trailing entry that is due no later than it. */
  function InsertionPoint(q: seq<Entry>, when: real): (k: nat)
    ensures k <= |q|
  {
    if q == [] then 0
    else if q[|q| - 1].when <= when then |q|
    else InsertionPoint(q[..|q| - 1], when)
  }

  /** Every entry from the insertion point on is due strictly after `when`,
      and the entry right before it (if any) is due no later than `when`. */
  lemma {:induction false} InsertionPointBounds(q: seq<Entry>, when: real)
    ensures var k := InsertionPoint(q, when);
            (forall i :: k <= i < |q| ==> q[i].when > when)
            && (k > 0 ==> q[k - 1].when <= when)
  {
    if q != [] && q[|q| - 1].when > when {
      var init := q[..|q| - 1];
      InsertionPointBounds(init, when);
      var k := InsertionPoint(init, when);
      forall i | k <= i < |q|
        ensures q[i].when > when
      {
        if i < |init| {
          assert q[i] == init[i];
        }
      }
    }
  }

  /** `InsertAfterTies` puts `e` at the insertion point. */
  lemma {:induction false} InsertAfterTiesSplits(q: seq<Entry>, e: Entry)
    ensures var k := InsertionPoint(q, e.when);
            InsertAfterTies(q, e) == q[..k] + [e] + q[k..]
  {
    if q != [] && q[|q| - 1].when > e.when {
      var init, last := q[..|q| - 1], q[|q| - 1];
      var k := InsertionPoint(init, e.when);
      InsertAfterTiesSplits(init, e);
      assert q[..k] == init[..k];
      assert q[k..] == init[k..] + [last];
      Associative(init[..k] + [e], init[k..], [last]);
    }
  }

  /** The insertion shape: `e` lands between a prefix and a suffix of `q`,
      every suffix entry is due strictly later than `e`, and the entry right
      before `e` (if any) is due no later than `e`. */
  lemma InsertAfterTiesShape(q: seq<Entry>, e: Entry)
    ensures var k := InsertionPoint(q, e.when);
            InsertAfterTies(q, e) == q[..k] + [e] + q[k..]
            && (forall i :: k <= i < |q| ==> q[i].when > e.when)
            && (k > 0 ==> q[k - 1].when <= e.when)
  {
    InsertAfterTiesSplits(q, e);
    InsertionPointBounds(q, e.when);
  }

  /** Inserting into a sorted queue keeps it sorted. */
  lemma InsertAfterTiesSorted(q: seq<Entry>, e: Entry)
    requires Sorted(q)
    ensures Sorted(InsertAfterTies(q, e))
  {
    InsertAfterTiesShape(q, e);
    var k := InsertionPoint(q, e.when);
    var r := InsertAfterTies(q, e);
    forall i | 0 < i < |r|
      ensures r[i - 1].when <= r[i].when
    {
      if i < k {
        assert r[i - 1] == q[i - 1] && r[i] == q[i];
      } else if i == k {
        assert r[i - 1] == q[k - 1] && r[i] == e;
      } else if i == k + 1 {
        assert r[i - 1] == e && r[i] == q[k];
      } else {
        assert r[i - 1] == q[i - 2] && r[i] == q[i - 1];
      }
    }
  }

  /** Inserting adds exactly `e` to the queue's contents. */
  lemma {:induction false} InsertAfterTiesPermutes(q: seq<Entry>, e: Entry)
    ensures multiset(InsertAfterTies(q, e)) == multiset(q) + multiset{e}
  {
    if q != [] && q[|q| - 1].when > e.when {
      var init, last := q[..|q| - 1], q[|q| - 1];
      InsertAfterTiesPermutes(init, e);
      LastSplit(q);
      assert multiset(q) == multiset(init) + multiset{last};
      assert multiset(InsertAfterTies(q, e)) == multiset(InsertAfterTies(init, e)) + multiset{last};
    }
  }

  /** Appending a late-enough entry to a sorted queue needs no move. */
  lemma InsertAfterTiesAtEnd(q: seq<Entry>, e: Entry)
    requires forall i :: 0 <= i < |q| ==> q[i].when <= e.when
    ensures InsertAfterTies(q, e) == q + [e]
  {
  }

  /** The sort's result is in ascending time order. */
  lemma {:induction false} SortByTimeSorted(q: seq<Entry>)
    ensures Sorted(SortByTime(q))
  {
    if q != [] {
      SortByTimeSorted(q[..|q| - 1]);
      InsertAfterTiesSorted(SortByTime(q[..|q| - 1]), q[|q| - 1]);
    }
  }

  /** The sort only reorders: it neither loses nor adds entries. */
  lemma {:induction false} SortByTimePermutes(q: seq<Entry>)
    ensures multiset(SortByTime(q)) == multiset(q)
  {
    if q != [] {
      SortByTimePermutes(q[..|q| - 1]);
      InsertAfterTiesPermutes(SortByTime(q[..|q| - 1]), q[|q| - 1]);
      LastSplit(q);
    }
  }

  /** The sort is stable: entries with equal times keep their relative order. */
  lemma {:induction false} SortByTimeStable(q: seq<Entry>, t: real)
    ensures TiesOf(SortByTime(q), t) == TiesOf(q, t)
  {
    if q != [] {
      SortByTimeStable(q[..|q| - 1], t);
      InsertAfterTiesTies(SortByTime(q[..|q| - 1]), q[|q| - 1], t);
    }
  }

  /** Sorting an already sorted queue leaves it as it is. */
  lemma {:induction false} SortByTimeOfSorted(q: seq<Entry>)
    requires Sorted(q)
    ensures SortByTime(q) == q
  {
    if q != [] {
      var init := q[..|q| - 1];
      assert Sorted(init);
      SortByTimeOfSorted(init);
      forall i | 0 <= i < |init|
        ensures init[i].when <= q[|q| - 1].when
      {
        SortedPairwise(q, i, |q| - 1);
      }
      InsertAfterTiesAtEnd(init, q[|q| - 1]);
      LastSplit(q);
    }
  }

  /** Appending to a sorted queue and re-sorting is a stable insertion. */
  lemma SortAfterAppend(q: seq<Entry>, e: Entry)
    requires Sorted(q)
    ensures SortByTime(q + [e]) == InsertAfterTies(q, e)
  {
    assert (q + [e])[..|q|] == q;
    SortByTimeOfSorted(q);
  }
}
