/** What it means to keep the best of a collection, whatever the algorithm: nothing dropped scores more than
    anything kept.  Ties are left open, as the programs leave them open. */
module Selection {

  ghost predicate KeepsBest<T(!new)>(score: T -> int, kept: multiset<T>, all: multiset<T>) {
    kept <= all &&
    forall x, y :: x in kept && y in all - kept ==> score(y) <= score(x)
  }

  /** How many entries of s score above t. */
  function CountAbove<T>(score: T -> int, t: int, s: seq<T>): (n: nat)
    ensures n <= |s|
  {
    if s == [] then 0 else (if score(s[0]) > t then 1 else 0) + CountAbove(score, t, s[1..])
  }

  lemma {:induction false} CountAppend<T>(score: T -> int, t: int, a: seq<T>, b: seq<T>)
    ensures CountAbove(score, t, a + b) == CountAbove(score, t, a) + CountAbove(score, t, b)
  {
    if a == [] {
      assert a + b == b;
    } else {
      assert (a + b)[1..] == a[1..] + b;
      CountAppend(score, t, a[1..], b);
    }
  }

  lemma {:induction false} CountAll<T>(score: T -> int, t: int, s: seq<T>)
    requires forall x :: x in s ==> score(x) > t
    ensures CountAbove(score, t, s) == |s|
  {
    if s != [] {
      CountAll(score, t, s[1..]);
    }
  }

  lemma {:induction false} CountNone<T>(score: T -> int, t: int, s: seq<T>)
    requires forall x :: x in s ==> score(x) <= t
    ensures CountAbove(score, t, s) == 0
  {
    if s != [] {
      CountNone(score, t, s[1..]);
    }
  }

  /** Indices that count, or do not, bound the count. */
  lemma CountAtLeast<T>(score: T -> int, t: int, s: seq<T>, n: nat)
    requires n <= |s| && forall i :: 0 <= i < n ==> score(s[i]) > t
    ensures CountAbove(score, t, s) >= n
  {
    assert s == s[..n] + s[n..];
    CountAll(score, t, s[..n]);
    CountAppend(score, t, s[..n], s[n..]);
  }

  lemma CountAtMost<T>(score: T -> int, t: int, s: seq<T>, n: nat)
    requires n <= |s| && forall i :: n <= i < |s| ==> score(s[i]) <= t
    ensures CountAbove(score, t, s) <= n
  {
    assert s == s[..n] + s[n..];
    CountNone(score, t, s[n..]);
    CountAppend(score, t, s[..n], s[n..]);
  }

  lemma CountSkips<T>(score: T -> int, t: int, s: seq<T>, i: nat)
    requires i < |s| && score(s[i]) <= t
    ensures CountAbove(score, t, s) <= i + CountAbove(score, t, s[i + 1..])
  {
    assert s == s[..i] + s[i..] && s[i..][1..] == s[i + 1..];
    CountAppend(score, t, s[..i], s[i..]);
  }

  lemma CountSkipsTwo<T>(score: T -> int, t: int, s: seq<T>, i: nat, k: nat)
    requires i < k < |s| && score(s[i]) <= t && score(s[k]) <= t
    ensures CountAbove(score, t, s) <= |s| - 2
  {
    CountSkips(score, t, s, i);
    CountSkips(score, t, s[i + 1..], k - i - 1);
  }

  lemma {:induction false} CountFull<T>(score: T -> int, t: int, s: seq<T>)
    requires CountAbove(score, t, s) == |s|
    ensures forall x :: x in s ==> score(x) > t
  {
    if s != [] {
      CountFull(score, t, s[1..]);
      assert s == [s[0]] + s[1..];
    }
  }

  lemma RemoveOne<T>(a: seq<T>, b: seq<T>, i: nat)
    requires |a| > 0 && i < |b| && b[i] == a[0] && multiset(a) == multiset(b)
    ensures multiset(a[1..]) == multiset(b[..i] + b[i + 1..])
    ensures b == b[..i] + ([b[i]] + b[i + 1..])
  {
    var one, before, after := multiset{a[0]}, b[..i], b[i + 1..];
    assert a == [a[0]] + a[1..];
    assert b == before + ([b[i]] + after);
    assert multiset(b) == multiset(before) + (one + multiset(after)) == multiset(before + after) + one;
    assert multiset(a) - one == multiset(a[1..]);
  }

  lemma {:induction false} CountPermutation<T>(score: T -> int, t: int, a: seq<T>, b: seq<T>)
    requires multiset(a) == multiset(b)
    ensures CountAbove(score, t, a) == CountAbove(score, t, b)
  {
    if a == [] {
      assert |b| == |multiset(b)| == |multiset(a)|;
    } else {
      assert a[0] in multiset(b);
      var i :| 0 <= i < |b| && b[i] == a[0];
      var before, after := b[..i], b[i + 1..];
      RemoveOne(a, b, i);
      CountPermutation(score, t, a[1..], before + after);
      CountAppend(score, t, before, [b[i]] + after);
      CountAppend(score, t, before, after);
      assert ([b[i]] + after)[1..] == after;
    }
  }

  /** The entries of a multiset in some order. */
  lemma {:induction false} Listing<T>(m: multiset<T>) returns (s: seq<T>)
    ensures multiset(s) == m
    decreases |m|
  {
    if m == multiset{} {
      s := [];
    } else {
      var x :| x in m;
      var rest := Listing(m - multiset{x});
      s := [x] + rest;
    }
  }

  /** Keeping the best decides, for every threshold, how many kept entries are above it: as many as there
      are at all, up to the number of places. */
  lemma {:induction false} BestByThreshold<T(!new)>(score: T -> int, t: int, kept: seq<T>, all: seq<T>)
    requires KeepsBest(score, multiset(kept), multiset(all))
    ensures CountAbove(score, t, kept) ==
            if CountAbove(score, t, all) < |kept| then CountAbove(score, t, all) else |kept|
  {
    var dropped := Listing(multiset(all) - multiset(kept));
    assert multiset(kept + dropped) == multiset(all);
    CountPermutation(score, t, kept + dropped, all);
    CountAppend(score, t, kept, dropped);
    if y :| y in dropped && score(y) > t {
      assert y in multiset(dropped);
      forall x | x in kept
        ensures score(x) > t
      {
        assert x in multiset(kept);
      }
      CountAll(score, t, kept);
    } else {
      CountNone(score, t, dropped);
    }
  }

  /** When equal scores mean equal entries, there is only one best selection of a given size. */
  lemma {:induction false} BestIsUnique<T(!new)>(score: T -> int, a: multiset<T>, b: multiset<T>, all: multiset<T>)
    requires KeepsBest(score, a, all) && KeepsBest(score, b, all) && |a| == |b|
    requires forall x, y :: x in all && y in all && score(x) == score(y) ==> x == y
    ensures a == b
  {
    if a != b {
      SameSizeDiffer(a, b);
      SameSizeDiffer(b, a);
      var x :| x in a && a[x] > b[x];
      var y :| y in b && b[y] > a[y];
      if !(y in all - a && x in all - b && score(x) == score(y)) {
        assert false;
      }
    }
  }

  lemma SameSizeDiffer<T>(a: multiset<T>, b: multiset<T>)
    requires a != b && |a| == |b|
    ensures exists x :: x in a && a[x] > b[x]
  {
    if forall x :: x in a ==> a[x] <= b[x] {
      var extra := b - a;
      if b == a + extra && |b| == |a| + |extra| && extra != multiset{} {
        assert false;
      }
    }
  }

  // ---- keeping the best in a sequence sorted by score ----

  ghost predicate SortedBy<T>(score: T -> int, s: seq<T>) {
    forall i, j :: 0 <= i <= j < |s| ==> score(s[i]) <= score(s[j])
  }

  /** The first n items are in ascending order and score no more than any item behind them. */
  ghost predicate LeadsInOrder<T>(score: T -> int, s: seq<T>, n: int) {
    forall i, j :: 0 <= i < n && i <= j < |s| ==> score(s[i]) <= score(s[j])
  }

  /** The place where score x splits a table in ascending order. */
  ghost predicate Splits<T>(score: T -> int, table: seq<T>, x: int, where: int) {
    && -1 <= where < |table|
    && (forall j :: 0 <= j <= where ==> score(table[j]) < x)
    && (forall j :: where < j < |table| ==> x <= score(table[j]))
  }

  /** The newcomer goes to place where, the items up to there move down by one, item 0 falls out. */
  function Inserted<T>(items: seq<T>, item: T, where: nat): (r: seq<T>)
    requires where < |items|
    ensures |r| == |items|
  {
    seq(|items|, i requires 0 <= i < |items| =>
                   if i < where then items[i + 1] else if i == where then item else items[i])
  }

  lemma InsertedParts<T>(items: seq<T>, item: T, where: nat)
    requires where < |items|
    ensures Inserted(items, item, where) == items[1..where + 1] + ([item] + items[where + 1..])
    ensures items[1..] == items[1..where + 1] + items[where + 1..]
  {
  }

  lemma InsertedAt<T>(items: seq<T>, item: T, where: nat, i: nat)
    requires where < |items| && i < |items|
    ensures Inserted(items, item, where)[i] ==
            if i < where then items[i + 1] else if i == where then item else items[i]
  {
  }

  lemma InsertedStaysSorted<T>(score: T -> int, items: seq<T>, item: T, where: nat)
    requires SortedBy(score, items) && Splits(score, items, score(item), where)
    ensures SortedBy(score, Inserted(items, item, where))
  {
  }

  /** What an insertion changes: the newcomer comes in, row 0 goes out. */
  lemma InsertedContents<T>(items: seq<T>, item: T, where: nat)
    requires where < |items|
    ensures multiset(Inserted(items, item, where)) == multiset(items) - multiset{items[0]} + multiset{item}
  {
    InsertedParts(items, item, where);
    assert items == [items[0]] + items[1..];
  }

  lemma InsertedCounts<T>(score: T -> int, t: int, items: seq<T>, item: T, where: nat)
    requires where < |items|
    ensures CountAbove(score, t, Inserted(items, item, where)) ==
            CountAbove(score, t, items) - (if score(items[0]) > t then 1 else 0) + (if score(item) > t then 1 else 0)
  {
    var up, rest := items[1..where + 1], items[where + 1..];
    CountAppend(score, t, up, [item] + rest);
    CountAppend(score, t, up, rest);
    InsertedParts(items, item, where);
    assert ([item] + rest)[1..] == rest;
  }

  lemma InsertedKeepsBest<T(!new)>(score: T -> int, items: seq<T>, item: T, where: nat, all: multiset<T>)
    requires where < |items| && LeadsInOrder(score, items, 1) && score(items[0]) <= score(item)
    requires KeepsBest(score, multiset(items), all)
    ensures KeepsBest(score, multiset(Inserted(items, item, where)), all + multiset{item})
  {
    var kept, kept' := multiset(items), multiset(Inserted(items, item, where));
    InsertedContents(items, item, where);
    assert items[0] in kept;
    assert (all + multiset{item}) - kept' == (all - kept) + multiset{items[0]};
    forall x | x in kept'
      ensures score(items[0]) <= score(x)
    {
      if x in kept {
        var i :| 0 <= i < |items| && items[i] == x;
      }
    }
  }

  lemma RejectedKeepsBest<T(!new)>(score: T -> int, items: seq<T>, item: T, all: multiset<T>)
    requires forall i :: 0 <= i < |items| ==> score(item) <= score(items[i])
    requires KeepsBest(score, multiset(items), all)
    ensures KeepsBest(score, multiset(items), all + multiset{item})
  {
  }

  /** In ascending order the entries above a threshold are the last ones. */
  lemma AboveAreLast<T>(score: T -> int, t: int, s: seq<T>, i: nat)
    requires SortedBy(score, s) && i < |s|
    ensures score(s[i]) > t <==> |s| - CountAbove(score, t, s) <= i
  {
    if score(s[i]) > t {
      assert s[..i] + s[i..] == s;
      CountAll(score, t, s[i..]);
      CountAppend(score, t, s[..i], s[i..]);
    } else {
      assert s[..i + 1] + s[i + 1..] == s;
      CountNone(score, t, s[..i + 1]);
      CountAppend(score, t, s[..i + 1], s[i + 1..]);
    }
  }

  lemma SameCountsSameScores<T>(score: T -> int, a: seq<T>, b: seq<T>)
    requires SortedBy(score, a) && SortedBy(score, b) && |a| == |b|
    requires forall t :: CountAbove(score, t, a) == CountAbove(score, t, b)
    ensures forall i :: 0 <= i < |a| ==> score(a[i]) == score(b[i])
  {
    forall i | 0 <= i < |a|
      ensures score(a[i]) == score(b[i])
    {
      AboveAreLast(score, score(a[i]), a, i);
      AboveAreLast(score, score(a[i]), b, i);
      AboveAreLast(score, score(b[i]), a, i);
      AboveAreLast(score, score(b[i]), b, i);
    }
  }
}
