/** The bubble passes of the host key generator on sequences of anything with a score, the better the higher.  A
    pass carries the front item back past the items that score less, and stops at the first that does not. */
module Bubbling {
  import opened Selection

  ghost predicate StopsAt<T>(score: T -> int, s: seq<T>, limit: int, p: nat) {
    && p < |s|
    && (p == 0 || p <= limit)
    && (forall j :: 1 <= j <= p ==> score(s[j]) < score(s[0]))
    && (p < limit && p + 1 < |s| ==> score(s[p + 1]) >= score(s[0]))
  }

  /** How many items the front item passes, having passed p, when it may go no further than index limit. */
  function Passed<T>(score: T -> int, s: seq<T>, limit: int, p: nat): (r: nat)
    requires p < |s| && (p == 0 || p <= limit)
    requires forall j :: 1 <= j <= p ==> score(s[j]) < score(s[0])
    ensures StopsAt(score, s, limit, r)
    decreases |s| - p
  {
    if p < limit && p + 1 < |s| && score(s[p + 1]) < score(s[0]) then Passed(score, s, limit, p + 1) else p
  }

  /** A pass that has reached index i: swap while the front item is the better of the two. */
  function BubbleFrom<T>(score: T -> int, s: seq<T>, i: nat, limit: int): (r: seq<T>)
    ensures |r| == |s|
    decreases |s| - i
  {
    if i < limit && i + 1 < |s| && score(s[i + 1]) < score(s[i]) then
      BubbleFrom(score, s[i := s[i + 1]][i + 1 := s[i]], i + 1, limit)
    else s
  }

  function Bubbled<T>(score: T -> int, s: seq<T>, limit: int): (r: seq<T>)
    ensures |r| == |s|
  {
    BubbleFrom(score, s, 0, limit)
  }

  lemma SwapInserts<T>(s: seq<T>, i: nat)
    requires i + 1 < |s|
    ensures var r := Inserted(s, s[0], i);
            r[i := r[i + 1]][i + 1 := r[i]] == Inserted(s, s[0], i + 1)
  {
  }

  lemma {:induction false} BubbleFromInserts<T>(score: T -> int, s: seq<T>, i: nat, limit: int)
    requires i < |s| && (i == 0 || i <= limit)
    requires forall j :: 1 <= j <= i ==> score(s[j]) < score(s[0])
    ensures BubbleFrom(score, Inserted(s, s[0], i), i, limit) == Inserted(s, s[0], Passed(score, s, limit, i))
    decreases |s| - i
  {
    if i < limit && i + 1 < |s| {
      InsertedAt(s, s[0], i, i);
      InsertedAt(s, s[0], i, i + 1);
      if score(s[i + 1]) < score(s[0]) {
        SwapInserts(s, i);
        BubbleFromInserts(score, s, i + 1, limit);
      }
    }
  }

  /** A pass takes the front item out and puts it back behind all that it passes. */
  lemma PassInserts<T>(score: T -> int, s: seq<T>, limit: int)
    requires |s| > 0
    ensures Bubbled(score, s, limit) == Inserted(s, s[0], Passed(score, s, limit, 0))
  {
    assert Inserted(s, s[0], 0) == s;
    BubbleFromInserts(score, s, 0, limit);
  }

  lemma BubbledPermutes<T>(score: T -> int, s: seq<T>, limit: int)
    ensures multiset(Bubbled(score, s, limit)) == multiset(s)
  {
    if s != [] {
      PassInserts(score, s, limit);
      InsertedContents(s, s[0], Passed(score, s, limit, 0));
    }
  }

  /** After a pass that may move at all, some item behind the front is at least as good as the front. */
  lemma FrontIsNotBest<T>(score: T -> int, s: seq<T>, limit: int)
    requires |s| >= 2 && limit >= 1
    ensures var b := Bubbled(score, s, limit);
            exists j :: 1 <= j < |b| && score(b[j]) >= score(b[0])
  {
    var p, b := Passed(score, s, limit, 0), Bubbled(score, s, limit);
    PassInserts(score, s, limit);
    InsertedAt(s, s[0], p, 0);
    InsertedAt(s, s[0], p, p);
    InsertedAt(s, s[0], p, 1);
    assert score(b[if p == 0 then 1 else p]) >= score(b[0]);
  }

  // ---- the sort: passes over ever shorter ranges ----

  function SortFrom<T>(score: T -> int, s: seq<T>, i: nat): (r: seq<T>)
    ensures |r| == |s|
    decreases |s| - i
  {
    if i < |s| then SortFrom(score, Bubbled(score, s, |s| - i - 1), i + 1) else s
  }

  lemma {:induction false} SortPermutes<T>(score: T -> int, s: seq<T>, i: nat)
    ensures multiset(SortFrom(score, s, i)) == multiset(s)
    decreases |s| - i
  {
    if i < |s| {
      var b := Bubbled(score, s, |s| - i - 1);
      BubbledPermutes(score, s, |s| - i - 1);
      SortPermutes(score, b, i + 1);
      assert SortFrom(score, s, i) == SortFrom(score, b, i + 1);
    }
  }

  lemma StuckStays<T>(score: T -> int, s: seq<T>, limit: int)
    requires limit <= 0 || |s| <= 1 || score(s[0]) <= score(s[1])
    ensures Bubbled(score, s, limit) == s
  {
  }

  lemma {:induction false} StuckForGood<T>(score: T -> int, s: seq<T>, i: nat)
    requires |s| - i - 1 <= 0 || |s| <= 1 || score(s[0]) <= score(s[1])
    ensures SortFrom(score, s, i) == s
    decreases |s| - i
  {
    if i < |s| {
      StuckStays(score, s, |s| - i - 1);
      StuckForGood(score, s, i + 1);
    }
  }

  lemma LastPass<T>(score: T -> int, s: seq<T>)
    requires |s| >= 2 && score(s[0]) > score(s[1])
    ensures score(Bubbled(score, s, 1)[0]) <= score(Bubbled(score, s, 1)[1])
  {
    PassInserts(score, s, 1);
    InsertedAt(s, s[0], 1, 0);
    InsertedAt(s, s[0], 1, 1);
  }

  /** The sort always ends with a front item that is no better than the next. */
  lemma {:induction false} SortFrontIsWorse<T>(score: T -> int, s: seq<T>, i: nat)
    requires |s| >= 2 && i <= |s| - 2
    ensures score(SortFrom(score, s, i)[0]) <= score(SortFrom(score, s, i)[1])
    decreases |s| - i
  {
    var limit := |s| - i - 1;
    if score(s[0]) <= score(s[1]) {
      StuckForGood(score, s, i);
    } else {
      var b := Bubbled(score, s, limit);
      assert SortFrom(score, s, i) == SortFrom(score, b, i + 1);
      if limit == 1 {
        LastPass(score, s);
        StuckForGood(score, b, i + 1);
      } else {
        SortFrontIsWorse(score, b, i + 1);
      }
    }
  }

  predicate Rises<T>(score: T -> int, s: seq<T>, k: nat)
    requires k + 1 < |s|
  {
    score(s[k]) <= score(s[k + 1])
  }

  /** Falling strictly at first and never falling again once it has not: the sequences that the sort sorts. */
  ghost predicate Valley<T>(score: T -> int, s: seq<T>) {
    forall i: nat, j: nat :: i <= j && j + 1 < |s| && Rises(score, s, i) ==> Rises(score, s, j)
  }

  lemma {:induction false} RisingIsSorted<T>(score: T -> int, s: seq<T>, i: nat, j: nat)
    requires i <= j < |s| && forall k: nat :: k + 1 < |s| ==> Rises(score, s, k)
    ensures score(s[i]) <= score(s[j])
    decreases j
  {
    if i < j {
      RisingIsSorted(score, s, i, j - 1);
      assert Rises(score, s, j - 1);
    }
  }

  // ---- what the sort does to items that are out of place ----

  /** Item k comes after a rise and, from there on, after an item that scores more: no pass will bring it down. */
  ghost predicate Misplaced<T>(score: T -> int, s: seq<T>, k: nat) {
    exists a: nat, i: nat :: a + 1 <= i < k < |s| && Rises(score, s, a) && score(s[i]) > score(s[k])
  }

  lemma ValleyHasNoneMisplaced<T>(score: T -> int, s: seq<T>)
    ensures Valley(score, s) <==> forall k: nat :: k < |s| ==> !Misplaced(score, s, k)
  {
    if Valley(score, s) {
      if k: nat, a: nat, i: nat :| a + 1 <= i < k < |s| && Rises(score, s, a) && score(s[i]) > score(s[k]) {
        forall n: nat | n + 1 < |s[i..]|
          ensures Rises(score, s[i..], n)
        {
          assert Rises(score, s, i + n);
        }
        RisingIsSorted(score, s[i..], 0, k - i);
      }
    } else {
      var a: nat, j: nat :| a <= j && j + 1 < |s| && Rises(score, s, a) && !Rises(score, s, j);
      assert Misplaced(score, s, j + 1);
    }
  }

  /** Where an unlimited pass puts the item at index k. */
  function Moved(k: nat, p: nat): (place: nat) {
    if k == 0 then p else if k <= p then k - 1 else k
  }

  lemma MovedBy<T>(s: seq<T>, p: nat, k: nat)
    requires p < |s| && k < |s|
    ensures Moved(k, p) < |s| && Inserted(s, s[0], p)[Moved(k, p)] == s[k]
  {
    InsertedAt(s, s[0], p, Moved(k, p));
  }

  /** What is out of place before an unlimited pass is so after it. */
  lemma StaysMisplaced<T>(score: T -> int, s: seq<T>, p: nat, k: nat)
    requires StopsAt(score, s, |s| - 1, p) && p >= 1 && Misplaced(score, s, k)
    ensures Misplaced(score, Inserted(s, s[0], p), Moved(k, p))
  {
    var b := Inserted(s, s[0], p);
    var a: nat, i: nat :| a + 1 <= i < k < |s| && Rises(score, s, a) && score(s[i]) > score(s[k]);
    assert a >= 1;
    MovedBy(s, p, i);
    MovedBy(s, p, k);
    if i <= p {
      MovedBy(s, p, a);
      MovedBy(s, p, a + 1);
      assert Rises(score, b, a - 1) && i - 1 < Moved(k, p);
    } else {
      MovedBy(s, p, p);
      MovedBy(s, p, 0);
      assert Rises(score, b, p - 1) && p <= i < k;
    }
  }

  /** What is out of place after an unlimited pass was so before it. */
  lemma WasMisplaced<T>(score: T -> int, s: seq<T>, p: nat, k: nat)
    requires StopsAt(score, s, |s| - 1, p) && p >= 1 && k < |s|
    requires Misplaced(score, Inserted(s, s[0], p), Moved(k, p))
    ensures Misplaced(score, s, k)
  {
    var b, k' := Inserted(s, s[0], p), Moved(k, p);
    var a: nat, i: nat :| a + 1 <= i < k' < |s| && Rises(score, b, a) && score(b[i]) > score(b[k']);
    MovedBy(s, p, k);
    InsertedAt(s, s[0], p, i);
    InsertedAt(s, s[0], p, a);
    InsertedAt(s, s[0], p, a + 1);
    if i < p {
      assert Rises(score, s, a + 1) && a + 2 <= i + 1 < k;
    } else {
      assert p + 1 <= k && Rises(score, s, p);
      assert score(s[if i == p then p + 1 else i]) > score(s[k]);
    }
  }

  /** Each item with whether it is out of place. */
  ghost function Marks<T>(score: T -> int, s: seq<T>): (marks: seq<(T, bool)>)
    ensures |marks| == |s|
    ensures forall k :: 0 <= k < |s| ==> marks[k] == (s[k], Misplaced(score, s, k))
  {
    seq(|s|, k requires 0 <= k < |s| => (s[k], Misplaced(score, s, k)))
  }

  function InPlaceUpTo<T>(score: T -> int, t: int): (weight: ((T, bool)) -> int) {
    (mark: (T, bool)) => if !mark.1 && score(mark.0) <= t then 1 else 0
  }

  ghost predicate Enough<T>(score: T -> int, marks: seq<(T, bool)>, m: int) {
    forall mark: (T, bool) :: mark in marks && mark.1 ==> CountAbove(InPlaceUpTo(score, score(mark.0)), 0, marks) > m
  }

  /** For every item out of place, more than m items that are in place score no more than it does. */
  ghost predicate EnoughInPlace<T>(score: T -> int, s: seq<T>, m: int) {
    Enough(score, Marks(score, s), m)
  }

  lemma EnoughPermutes<T>(score: T -> int, a: seq<(T, bool)>, b: seq<(T, bool)>, m: int)
    requires multiset(a) == multiset(b) && Enough(score, a, m)
    ensures Enough(score, b, m)
  {
    forall mark | mark in b && mark.1
      ensures CountAbove(InPlaceUpTo(score, score(mark.0)), 0, b) > m
    {
      assert mark in multiset(a);
      CountPermutation(InPlaceUpTo(score, score(mark.0)), 0, a, b);
    }
  }

  /** An unlimited pass moves the marks with the items. */
  lemma MarksMove<T>(score: T -> int, s: seq<T>, p: nat)
    requires StopsAt(score, s, |s| - 1, p) && p >= 1
    ensures multiset(Marks(score, Inserted(s, s[0], p))) == multiset(Marks(score, s))
  {
    var marks, marks' := Marks(score, s), Marks(score, Inserted(s, s[0], p));
    forall k | 0 <= k < |s|
      ensures marks'[Moved(k, p)] == marks[k]
    {
      MovedBy(s, p, k);
      if Misplaced(score, s, k) {
        StaysMisplaced(score, s, p, k);
      } else if Misplaced(score, Inserted(s, s[0], p), Moved(k, p)) {
        WasMisplaced(score, s, p, k);
      }
    }
    forall j | 0 <= j < |s|
      ensures marks'[j] == Inserted(marks, marks[0], p)[j]
    {
      InsertedAt(marks, marks[0], p, j);
      assert j == Moved(if j < p then j + 1 else if j == p then 0 else j, p);
    }
    assert marks' == Inserted(marks, marks[0], p);
    InsertedContents(marks, marks[0], p);
  }

  lemma PassKeepsEnough<T>(score: T -> int, s: seq<T>, p: nat, m: int)
    requires StopsAt(score, s, |s| - 1, p) && p >= 1
    ensures EnoughInPlace(score, Inserted(s, s[0], p), m) <==> EnoughInPlace(score, s, m)
  {
    var b := Inserted(s, s[0], p);
    MarksMove(score, s, p);
    if EnoughInPlace(score, s, m) {
      EnoughPermutes(score, Marks(score, s), Marks(score, b), m);
    }
    if EnoughInPlace(score, b, m) {
      EnoughPermutes(score, Marks(score, b), Marks(score, s), m);
    }
  }

  /** With room for all but two items, none may be out of place. */
  lemma EnoughForAll<T>(score: T -> int, s: seq<T>, m: int)
    requires m >= |s| - 2
    ensures EnoughInPlace(score, s, m) <==> Valley(score, s)
  {
    var marks := Marks(score, s);
    ValleyHasNoneMisplaced(score, s);
    if k: nat :| k < |s| && Misplaced(score, s, k) {
      var a: nat, i: nat :| a + 1 <= i < k < |s| && Rises(score, s, a) && score(s[i]) > score(s[k]);
      var weight := InPlaceUpTo(score, score(s[k]));
      CountSkipsTwo(weight, 0, marks, i, k);
      assert marks[k] in marks;
    }
  }

  /** When the front item is no better than the next, there are enough in place exactly when the first m + 1 items
      are in order and no better than any behind them. */
  lemma EnoughLeads<T>(score: T -> int, s: seq<T>, m: nat)
    requires |s| >= 2 ==> Rises(score, s, 0)
    ensures EnoughInPlace(score, s, m) <==> LeadsInOrder(score, s, m + 1)
  {
    if LeadsInOrder(score, s, m + 1) {
      forall mark | mark in Marks(score, s) && mark.1
        ensures CountAbove(InPlaceUpTo(score, score(mark.0)), 0, Marks(score, s)) > m
      {
        var k: nat :| k < |s| && Marks(score, s)[k] == mark;
        LeadersAreInPlace(score, s, m, k);
      }
    } else {
      var i, k :| 0 <= i < m + 1 && i <= k < |s| && score(s[i]) > score(s[k]);
      FewInPlace(score, s, i, k);
      assert Marks(score, s)[k] in Marks(score, s);
    }
  }

  lemma OneOfThreeMisplaced<T>(score: T -> int, s: seq<T>)
    requires |s| == 3 && score(s[0]) < score(s[2]) < score(s[1])
    ensures !Valley(score, s) && EnoughInPlace(score, s, 0) && !EnoughInPlace(score, s, 1)
  {
    EnoughLeads(score, s, 0);
    EnoughLeads(score, s, 1);
    EnoughForAll(score, s, 1);
  }

  lemma LeadersAreInPlace<T>(score: T -> int, s: seq<T>, m: nat, k: nat)
    requires LeadsInOrder(score, s, m + 1) && k < |s| && Misplaced(score, s, k)
    ensures CountAbove(InPlaceUpTo(score, score(s[k])), 0, Marks(score, s)) > m
  {
    var marks, weight := Marks(score, s), InPlaceUpTo(score, score(s[k]));
    assert k > m;
    forall i | 0 <= i < m + 1
      ensures weight(marks[i]) > 0
    {
      assert score(s[i]) <= score(s[k]) && !Misplaced(score, s, i);
    }
    CountAtLeast(weight, 0, marks, m + 1);
  }

  lemma FewInPlace<T>(score: T -> int, s: seq<T>, i: nat, k: nat)
    requires i < k < |s| && score(s[i]) > score(s[k]) && Rises(score, s, 0)
    ensures Misplaced(score, s, k)
    ensures CountAbove(InPlaceUpTo(score, score(s[k])), 0, Marks(score, s)) <= i
  {
    var marks, weight := Marks(score, s), InPlaceUpTo(score, score(s[k]));
    var x := if i == 0 then 1 else i;
    assert k > x && score(s[x]) > score(s[k]);
    forall q | i <= q < |s|
      ensures weight(marks[q]) <= 0
    {
      if score(s[q]) <= score(s[k]) {
        assert q > x && score(s[x]) > score(s[q]);
      }
    }
    CountAtMost(weight, 0, marks, i);
  }

  /** Pass number k, which may not reach the last k items, stops short of them of its own accord. */
  lemma RangeSuffices<T>(score: T -> int, s: seq<T>, k: nat)
    requires k < |s| && CountAbove(score, score(s[0]), s) >= k
    ensures StopsAt(score, s, |s| - 1, Passed(score, s, |s| - k - 1, 0))
  {
    var p, t := Passed(score, s, |s| - k - 1, 0), score(s[0]);
    if p == |s| - k - 1 && k > 0 {
      var before, after := s[..p + 1], s[p + 1..];
      assert s == before + after;
      CountAppend(score, t, before, after);
      CountNone(score, t, before);
      CountFull(score, t, after);
      assert s[p + 1] == after[0];
    }
  }

  lemma {:induction false} CountMonotone<T>(score: T -> int, low: int, high: int, s: seq<T>)
    requires low <= high
    ensures CountAbove(score, high, s) <= CountAbove(score, low, s)
  {
    if s != [] {
      CountMonotone(score, low, high, s[1..]);
    }
  }

  /** When a pass moves the front item, one more item is better than the new front than was than the old. */
  lemma NewFront<T>(score: T -> int, s: seq<T>, limit: int)
    requires |s| >= 2 && limit >= 1 && score(s[1]) < score(s[0])
    ensures var b := Bubbled(score, s, limit);
            CountAbove(score, score(b[0]), b) >= CountAbove(score, score(s[0]), s) + 1
  {
    var b, p := Bubbled(score, s, limit), Passed(score, s, limit, 0);
    PassInserts(score, s, limit);
    InsertedAt(s, s[0], p, 0);
    BubbledPermutes(score, s, limit);
    CountPermutation(score, score(s[1]), b, s);
    CountMonotone(score, score(s[1]), score(s[0]), s[1..]);
  }

  /** The state between passes: the front item is stuck, or k items are better than it. */
  ghost predicate Underway<T>(score: T -> int, s: seq<T>, k: nat) {
    |s| <= 1 || score(s[0]) <= score(s[1]) || CountAbove(score, score(s[0]), s) >= k
  }

  lemma PassStaysUnderway<T>(score: T -> int, s: seq<T>, k: nat, m: int)
    requires k < |s| && Underway(score, s, k)
    ensures var b := Bubbled(score, s, |s| - k - 1);
            (EnoughInPlace(score, b, m) <==> EnoughInPlace(score, s, m)) &&
            (|s| - k - 1 >= 1 ==> Underway(score, b, k + 1))
  {
    var limit := |s| - k - 1;
    if limit <= 0 || |s| <= 1 || score(s[0]) <= score(s[1]) {
      StuckStays(score, s, limit);
    } else {
      var p := Passed(score, s, limit, 0);
      PassInserts(score, s, limit);
      RangeSuffices(score, s, k);
      PassKeepsEnough(score, s, p, m);
      NewFront(score, s, limit);
    }
  }

  lemma {:induction false} SortKeepsEnough<T>(score: T -> int, s: seq<T>, k: nat, m: int)
    requires |s| - k - 1 >= 1 ==> Underway(score, s, k)
    ensures EnoughInPlace(score, SortFrom(score, s, k), m) <==> EnoughInPlace(score, s, m)
    decreases |s| - k
  {
    if |s| - k - 1 <= 0 {
      StuckForGood(score, s, k);
    } else {
      var b := Bubbled(score, s, |s| - k - 1);
      PassStaysUnderway(score, s, k, m);
      SortKeepsEnough(score, b, k + 1, m);
    }
  }

  /** The sort puts the m + 1 lowest items in order at the front exactly when enough items are in place. */
  lemma SortLeadsExactly<T>(score: T -> int, s: seq<T>, m: nat)
    ensures LeadsInOrder(score, SortFrom(score, s, 0), m + 1) <==> EnoughInPlace(score, s, m)
  {
    SortKeepsEnough(score, s, 0, m);
    if |s| >= 2 {
      SortFrontIsWorse(score, s, 0);
    }
    EnoughLeads(score, SortFrom(score, s, 0), m);
  }

  /** The sort sorts exactly the valleys. */
  lemma SortsExactlyValleys<T>(score: T -> int, s: seq<T>)
    ensures SortedBy(score, SortFrom(score, s, 0)) <==> Valley(score, s)
  {
    SortLeadsExactly(score, s, |s|);
    EnoughForAll(score, s, |s|);
  }

  /** In particular it leaves sorted sequences alone. */
  lemma SortKeepsSorted<T>(score: T -> int, s: seq<T>)
    requires SortedBy(score, s)
    ensures SortFrom(score, s, 0) == s
  {
    StuckForGood(score, s, 0);
  }

  // ---- the main loop: a new item overwrites the front and is carried back ----

  function Replaced<T>(score: T -> int, s: seq<T>, x: T): (r: seq<T>)
    requires |s| > 0
    ensures |r| == |s|
  {
    Bubbled(score, s[0 := x], |s| - 1)
  }

  function Kept<T>(score: T -> int, s: seq<T>, xs: seq<T>): (r: seq<T>)
    requires |s| > 0
    ensures |r| == |s|
    decreases |xs|
  {
    if xs == [] then s else Kept(score, Replaced(score, s, xs[0]), xs[1..])
  }

  /** A round that carries the newcomer past nothing leaves the items behind the front alone. */
  lemma NotPlaced<T>(score: T -> int, s: seq<T>, x: T)
    requires |s| >= 2 && Passed(score, s[0 := x], |s| - 1, 0) == 0
    ensures Replaced(score, s, x) == s[0 := x]
  {
  }

  /** A round that carries it past p items inserts it among the items behind the front. */
  lemma {:induction false} Placed<T>(score: T -> int, s: seq<T>, x: T, p: nat)
    requires |s| >= 2 && p == Passed(score, s[0 := x], |s| - 1, 0) > 0
    ensures Replaced(score, s, x)[1..] == Inserted(s[1..], x, p - 1)
  {
    ReplacedInserts(score, s, x);
    assert s[0 := x][1..] == s[1..];
  }

  lemma {:induction false} ReplacedInserts<T>(score: T -> int, s: seq<T>, x: T)
    requires |s| >= 2
    ensures Replaced(score, s, x) == Inserted(s[0 := x], x, Passed(score, s[0 := x], |s| - 1, 0))
  {
    PassInserts(score, s[0 := x], |s| - 1);
  }

  /** A round never leaves fewer items above a threshold behind the front, whatever the arrangement. */
  lemma RoundNeverWorsens<T>(score: T -> int, t: int, s: seq<T>, x: T)
    requires |s| >= 2
    ensures CountAbove(score, t, Replaced(score, s, x)[1..]) >= CountAbove(score, t, s[1..])
  {
    var p := Passed(score, s[0 := x], |s| - 1, 0);
    if p > 0 {
      Placed(score, s, x, p);
      InsertedCounts(score, t, s[1..], x, p - 1);
      assert score(s[0 := x][1]) < score(x);
    } else {
      NotPlaced(score, s, x);
      assert s[0 := x][1..] == s[1..];
    }
  }

  lemma {:induction false} KeptNeverWorsens<T>(score: T -> int, t: int, s: seq<T>, xs: seq<T>)
    requires |s| >= 2
    ensures CountAbove(score, t, Kept(score, s, xs)[1..]) >= CountAbove(score, t, s[1..])
    decreases |xs|
  {
    if xs != [] {
      RoundNeverWorsens(score, t, s, xs[0]);
      KeptNeverWorsens(score, t, Replaced(score, s, xs[0]), xs[1..]);
    }
  }

  /** Some item behind the front is at least as good as everything in all. */
  ghost predicate HasBest<T>(score: T -> int, s: seq<T>, all: seq<T>) {
    exists j :: 1 <= j < |s| && forall i :: 0 <= i < |all| ==> score(s[j]) >= score(all[i])
  }

  lemma RoundKeepsBest<T>(score: T -> int, s: seq<T>, x: T, all: seq<T>)
    requires |s| >= 2 && HasBest(score, s, all)
    ensures HasBest(score, Replaced(score, s, x), all + [x])
  {
    var p, r := Passed(score, s[0 := x], |s| - 1, 0), Replaced(score, s, x);
    var j :| 1 <= j < |s| && forall i :: 0 <= i < |all| ==> score(s[j]) >= score(all[i]);
    assert p + 1 < |s| ==> score(s[0 := x][p + 1]) >= score(x);
    if p == 0 {
      NotPlaced(score, s, x);
      var k := if score(s[j]) >= score(x) then j else 1;
      assert score(r[k]) >= score(s[j]) && score(r[k]) >= score(x);
    } else {
      Placed(score, s, x, p);
      InsertedAt(s[1..], x, p - 1, p - 1);
      assert r[p] == r[1..][p - 1] == x;
      if j > p {
        InsertedAt(s[1..], x, p - 1, j - 1);
        assert r[j] == r[1..][j - 1] == s[j];
        var k := if score(s[j]) >= score(x) then j else p;
        assert score(r[k]) >= score(s[j]) && score(r[k]) >= score(x);
      } else {
        assert score(s[0 := x][j]) < score(x);
        assert score(r[p]) >= score(s[j]);
      }
    }
  }

  lemma {:induction false} KeptHasBest<T>(score: T -> int, s: seq<T>, xs: seq<T>, all: seq<T>)
    requires |s| >= 2 && HasBest(score, s, all)
    ensures HasBest(score, Kept(score, s, xs), all + xs)
    decreases |xs|
  {
    if xs == [] {
      assert all + xs == all;
    } else {
      RoundKeepsBest(score, s, xs[0], all);
      KeptHasBest(score, Replaced(score, s, xs[0]), xs[1..], all + [xs[0]]);
      assert all + xs == (all + [xs[0]]) + xs[1..];
    }
  }

  lemma {:induction false} SomeBest<T>(score: T -> int, s: seq<T>) returns (j: nat)
    requires |s| > 0
    ensures j < |s| && forall i :: 0 <= i < |s| ==> score(s[j]) >= score(s[i])
  {
    j := 0;
    for k := 0 to |s|
      invariant j < |s| && forall i :: 0 <= i < k ==> score(s[j]) >= score(s[i])
    {
      if score(s[k]) > score(s[j]) {
        j := k;
      }
    }
  }

  /** The best item ever seen is never lost, although the sort need not sort. */
  lemma BestIsNeverLost<T>(score: T -> int, first: seq<T>, xs: seq<T>)
    requires |first| >= 2
    ensures HasBest(score, Kept(score, SortFrom(score, first, 0), xs), first + xs)
  {
    var s := SortFrom(score, first, 0);
    SortPermutes(score, first, 0);
    SortFrontIsWorse(score, first, 0);
    var j := SomeBest(score, s);
    var k := if j == 0 then 1 else j;
    forall i | 0 <= i < |first|
      ensures score(s[k]) >= score(first[i])
    {
      assert first[i] in multiset(s);
    }
    assert HasBest(score, s, first);
    KeptHasBest(score, s, xs, first);
  }

  // ---- when exactly the best ones are kept ----

  lemma PassAt<T>(score: T -> int, t: seq<T>, i: nat)
    requires i < |t|
    ensures var p := Passed(score, t, |t| - 1, 0);
            Bubbled(score, t, |t| - 1)[i] == if i < p then t[i + 1] else if i == p then t[0] else t[i]
  {
    PassInserts(score, t, |t| - 1);
    InsertedAt(t, t[0], Passed(score, t, |t| - 1, 0), i);
  }

  /** A round puts the newcomer in its place among the leading items behind the front. */
  lemma RoundLeadsInOrder<T>(score: T -> int, s: seq<T>, x: T, n: nat)
    requires |s| >= 2 && LeadsInOrder(score, s[1..], n)
    ensures LeadsInOrder(score, Replaced(score, s, x), n)
  {
    var t, r := s[0 := x], Replaced(score, s, x);
    var p := Passed(score, t, |t| - 1, 0);
    forall i, j | 0 <= i < n && i <= j < |s|
      ensures score(r[i]) <= score(r[j])
    {
      PassAt(score, t, i);
      PassAt(score, t, j);
      assert forall k :: 0 <= k < |s| - 1 ==> s[1..][k] == t[k + 1];
      if i == p < j {
        assert score(t[0]) <= score(t[p + 1]) && score(s[1..][p]) <= score(s[1..][j - 1]);
      }
    }
  }

  /** Once the items behind the front are sorted, a round leaves the whole slice sorted. */
  lemma RoundSorts<T>(score: T -> int, s: seq<T>, x: T)
    requires |s| >= 2 && SortedBy(score, s[1..])
    ensures SortedBy(score, Replaced(score, s, x))
  {
    RoundLeadsInOrder(score, s, x, |s| - 1);
  }

  lemma {:induction false} KeptStaysSorted<T>(score: T -> int, s: seq<T>, xs: seq<T>)
    requires |s| >= 2 && SortedBy(score, s)
    ensures SortedBy(score, Kept(score, s, xs))
    decreases |xs|
  {
    if xs != [] {
      RoundSorts(score, s, xs[0]);
      KeptStaysSorted(score, Replaced(score, s, xs[0]), xs[1..]);
    }
  }

  lemma RoundIsExact<T(!new)>(score: T -> int, s: seq<T>, x: T, all: multiset<T>)
    requires |s| >= 2 && LeadsInOrder(score, s[1..], 1) && KeepsBest(score, multiset(s[1..]), all)
    ensures KeepsBest(score, multiset(Replaced(score, s, x)[1..]), all + multiset{x})
  {
    var p := Passed(score, s[0 := x], |s| - 1, 0);
    assert s[1..][0] == s[0 := x][1];
    if p == 0 {
      RejectedKeepsBest(score, s[1..], x, all);
      NotPlaced(score, s, x);
      assert s[0 := x][1..] == s[1..];
    } else {
      Placed(score, s, x, p);
      InsertedKeepsBest(score, s[1..], x, p - 1, all);
    }
  }

  lemma FirstApart<T>(xs: seq<T>, all: multiset<T>)
    requires xs != []
    ensures all + multiset(xs) == (all + multiset{xs[0]}) + multiset(xs[1..])
  {
    assert xs == [xs[0]] + xs[1..];
  }

  /** While as many items lead in order behind the front as rounds are still to come, the items behind the front
      stay exactly the best of everything seen. */
  lemma {:induction false} KeptIsExact<T(!new)>(score: T -> int, s: seq<T>, xs: seq<T>, all: multiset<T>)
    requires |s| >= 2 && LeadsInOrder(score, s[1..], |xs|) && KeepsBest(score, multiset(s[1..]), all)
    ensures KeepsBest(score, multiset(Kept(score, s, xs)[1..]), all + multiset(xs))
    decreases |xs|
  {
    if xs == [] {
      assert all + multiset(xs) == all;
    } else {
      var r := Replaced(score, s, xs[0]);
      RoundLeadsInOrder(score, s, xs[0], |xs|);
      RoundIsExact(score, s, xs[0], all);
      FirstApart(xs, all);
      KeptIsExact(score, r, xs[1..], all + multiset{xs[0]});
    }
  }

  /** A front item that is no better than the others is rightly left out. */
  lemma WorstLeftOut<T(!new)>(score: T -> int, s: seq<T>)
    requires |s| >= 2 && LeadsInOrder(score, s, 1)
    ensures KeepsBest(score, multiset(s[1..]), multiset(s))
  {
    assert s == [s[0]] + s[1..];
    assert multiset(s) - multiset(s[1..]) == multiset{s[0]};
    forall x | x in multiset(s[1..])
      ensures score(s[0]) <= score(x)
    {
      var i :| 0 <= i < |s[1..]| && s[1..][i] == x;
    }
  }

  /** Rounds with an item w that beats nothing do not make up for a choice that went wrong: x kept, y dropped. */
  lemma {:induction false} StaysWrong<T(!new)>(score: T -> int, s: seq<T>, x: T, y: T, w: T, m: nat, all: multiset<T>)
    requires |s| >= 2 && x in s[1..] && y in all - multiset(s[1..]) && score(y) > score(x)
    requires score(w) <= score(s[1])
    ensures var xs := seq(m, _ => w);
            !KeepsBest(score, multiset(Kept(score, s, xs)[1..]), all + multiset(xs))
    decreases m
  {
    var xs := seq(m, _ => w);
    if m == 0 {
      assert x in multiset(s[1..]) && all + multiset(xs) == all;
    } else {
      StuckStays(score, s[0 := w], |s| - 1);
      assert s[0 := w][1..] == s[1..];
      StaysWrong(score, s[0 := w], x, y, w, m - 1, all + multiset{w});
      assert xs[1..] == seq(m - 1, _ => w);
      FirstApart(xs, all);
    }
  }

  /** A front item that beats one of the others is dropped wrongly. */
  lemma FrontLoses<T(!new)>(score: T -> int, s: seq<T>, k: nat, w: T, m: nat, all: multiset<T>)
    requires 0 < k < |s| && score(s[0]) > score(s[k]) && score(w) <= score(s[1]) && multiset(s) <= all
    ensures var xs := seq(m, _ => w);
            !KeepsBest(score, multiset(Kept(score, s, xs)[1..]), all + multiset(xs))
  {
    assert s == [s[0]] + s[1..];
    assert multiset(s) == multiset{s[0]} + multiset(s[1..]);
    assert s[1..][k - 1] == s[k];
    StaysWrong(score, s, s[k], s[0], w, m, all);
  }

  lemma ReplacedContents<T>(score: T -> int, s: seq<T>, z: T, all: multiset<T>)
    requires |s| >= 2 && multiset(s) <= all
    ensures multiset(Replaced(score, s, z)) <= all + multiset{z}
  {
    BubbledPermutes(score, s[0 := z], |s| - 1);
    assert s == [s[0]] + s[1..] && s[0 := z] == [z] + s[1..];
  }

  ghost predicate Between<T>(score: T -> int, s: seq<T>, w: T, z: T) {
    forall i :: 0 <= i < |s| ==> score(w) <= score(s[i]) <= score(z)
  }

  /** A round with an item that nothing beats moves a pair of items that is out of order closer to the front. */
  lemma PairMoves<T>(score: T -> int, s: seq<T>, i: nat, k: nat, w: T, z: T) returns (i': nat, k': nat)
    requires 0 < i < k < |s| && score(s[i]) > score(s[k]) && Between(score, s, w, z)
    ensures var r := Replaced(score, s, z);
            i' < i && i' < k' < |r| && score(r[i']) > score(r[k']) && Between(score, r, w, z)
  {
    var t, r := s[0 := z], Replaced(score, s, z);
    var p := Passed(score, t, |t| - 1, 0);
    i' := if i > p then p else i - 1;
    k' := if k <= p then k - 1 else k;
    PassAt(score, t, i');
    PassAt(score, t, k');
    forall j | 0 <= j < |s|
      ensures score(w) <= score(r[j]) <= score(z)
    {
      PassAt(score, t, j);
    }
  }

  /** If item i beats a later one, m >= i rounds can go wrong: at most i with an item z that nothing beats, and the
      rest with an item w that beats nothing. */
  lemma {:induction false} UnsortedLoses<T(!new)>(score: T -> int, s: seq<T>, i: nat, k: nat, w: T, z: T, m: nat,
                                                  all: multiset<T>)
    returns (xs: seq<T>)
    requires i < k < |s| && score(s[i]) > score(s[k]) && i <= m && multiset(s) <= all && Between(score, s, w, z)
    ensures |xs| == m && forall n :: 0 <= n < m ==> xs[n] == z || xs[n] == w
    ensures !KeepsBest(score, multiset(Kept(score, s, xs)[1..]), all + multiset(xs))
    decreases m
  {
    if i == 0 {
      xs := seq(m, _ => w);
      FrontLoses(score, s, k, w, m, all);
    } else {
      var i', k' := PairMoves(score, s, i, k, w, z);
      ReplacedContents(score, s, z, all);
      var rest := UnsortedLoses(score, Replaced(score, s, z), i', k', w, z, m - 1, all + multiset{z});
      xs := [z] + rest;
      FirstApart(xs, all);
      assert xs[1..] == rest;
    }
  }

  /** The items that m more rounds leave behind the front, once the first batch is sorted, and all there were. */
  ghost predicate KeptAreBest<T(!new)>(score: T -> int, first: seq<T>, xs: seq<T>)
    requires first != []
  {
    KeepsBest(score, multiset(Kept(score, SortFrom(score, first, 0), xs)[1..]), multiset(first + xs))
  }

  lemma EnoughIsExact<T(!new)>(score: T -> int, first: seq<T>, xs: seq<T>)
    requires |first| >= 2 && EnoughInPlace(score, first, |xs|)
    ensures KeptAreBest(score, first, xs)
  {
    var s := SortFrom(score, first, 0);
    SortLeadsExactly(score, first, |xs|);
    SortPermutes(score, first, 0);
    WorstLeftOut(score, s);
    KeptIsExact(score, s, xs, multiset(first));
    assert multiset(first + xs) == multiset(first) + multiset(xs);
  }

  lemma TooFewLose<T(!new)>(score: T -> int, first: seq<T>, m: nat, w: T, z: T) returns (xs: seq<T>)
    requires |first| >= 2 && !EnoughInPlace(score, first, m) && Between(score, first, w, z)
    ensures |xs| == m && forall n :: 0 <= n < m ==> xs[n] == z || xs[n] == w
    ensures !KeptAreBest(score, first, xs)
  {
    var s := SortFrom(score, first, 0);
    SortLeadsExactly(score, first, m);
    SortPermutes(score, first, 0);
    var i, k :| 0 <= i < m + 1 && i <= k < |s| && score(s[i]) > score(s[k]);
    forall j | 0 <= j < |s|
      ensures score(w) <= score(s[j]) <= score(z)
    {
      assert s[j] in multiset(first);
    }
    xs := UnsortedLoses(score, s, i, k, w, z, m, multiset(first));
    assert multiset(first + xs) == multiset(first) + multiset(xs);
  }

  /** m rounds after the sort of the first batch, the items behind the front are the best of everything seen,
      whatever the m newcomers are, exactly when enough items of the first batch are in place.  w is an item that
      beats nothing, z one that nothing beats; newcomers of these two kinds decide it. */
  lemma ExactWhateverComes<T(!new)>(score: T -> int, first: seq<T>, m: nat, w: T, z: T)
    requires |first| >= 2 && Between(score, first, w, z)
    ensures EnoughInPlace(score, first, m) ==> forall xs :: |xs| == m ==> KeptAreBest(score, first, xs)
    ensures !EnoughInPlace(score, first, m) ==>
              exists xs :: |xs| == m && (forall n :: 0 <= n < m ==> xs[n] == z || xs[n] == w) &&
                !KeptAreBest(score, first, xs)
  {
    if EnoughInPlace(score, first, m) {
      forall xs | |xs| == m
        ensures KeptAreBest(score, first, xs)
      {
        EnoughIsExact(score, first, xs);
      }
    } else {
      var xs := TooFewLose(score, first, m, w, z);
    }
  }
}
