/** The table of best keys: rows in ascending hash order, the worst in row 0.  A new hash that beats row 0
    pushes the rows below it down by one, so row 0 falls out. */
module KeyTable {
  import opened ByteStrings
  import opened Selection

  /** What the parallel arrays hold at one index: a hash, and the keys it came from. */
  datatype Entry<T> = Entry(payload: T, hash: Bytes)

  function Hashes<T>(table: seq<Entry<T>>): (rows: seq<Bytes>)
    ensures |rows| == |table|
    ensures forall i :: 0 <= i < |table| ==> rows[i] == table[i].hash
  {
    seq(|table|, i requires 0 <= i < |table| => table[i].hash)
  }

  ghost predicate Ascending(rows: seq<Bytes>) {
    forall i, j :: 0 <= i < j < |rows| ==> !Less(rows[j], rows[i])
  }

  ghost predicate HaveWidth<T>(table: seq<Entry<T>>, width: nat) {
    forall i :: 0 <= i < |table| ==> |table[i].hash| == width
  }

  ghost predicate IsSlot(where: int, hash: Bytes, rows: seq<Bytes>) {
    && -1 <= where < |rows|
    && (forall j :: 0 <= j <= where ==> Less(rows[j], hash))
    && (where + 1 < |rows| ==> !Less(rows[where + 1], hash))
  }

  /** The row a hash belongs in, or -1 when it beats no row. */
  function Slot(hash: Bytes, rows: seq<Bytes>): (where: int)
    ensures -1 <= where < |rows|
  {
    if rows == [] || !Less(rows[0], hash) then -1 else 1 + Slot(hash, rows[1..])
  }

  lemma {:induction false} SlotIsSlot(hash: Bytes, rows: seq<Bytes>)
    ensures IsSlot(Slot(hash, rows), hash, rows)
  {
    if rows != [] && Less(rows[0], hash) {
      SlotIsSlot(hash, rows[1..]);
      assert rows == [rows[0]] + rows[1..];
    }
  }

  lemma SlotIsUnique(where: int, hash: Bytes, rows: seq<Bytes>)
    requires IsSlot(where, hash, rows)
    ensures where == Slot(hash, rows)
  {
    SlotIsSlot(hash, rows);
    if where != Slot(hash, rows) {
      assert false;
    }
  }

  method FindWhere(hash: Bytes, best: array<Bytes>) returns (where: int)
    ensures -1 <= where < best.Length
    ensures forall j :: 0 <= j <= where ==> Less(best[j], hash)
    ensures where + 1 < best.Length ==> !Less(best[where + 1], hash)
    ensures where == Slot(hash, best[..])
  {
    where := -1;
    for j := 0 to best.Length
      invariant where == j - 1
      invariant forall k :: 0 <= k < j ==> Less(best[k], hash)
    {
      if Less(best[j], hash) {
        where := where + 1;
      } else {
        break;
      }
    }
    SlotIsUnique(where, hash, best[..]);
  }

  /** insert_32 and insert_64: the same shift over rows of either width. */
  method Insert<T>(items: array<T>, item: T, where: nat)
    requires where < items.Length
    modifies items
    ensures items[..] == Inserted(old(items[..]), item, where)
  {
    for j := 0 to where
      invariant forall k :: 0 <= k < j ==> items[k] == old(items[k + 1])
      invariant forall k :: j <= k < items.Length ==> items[k] == old(items[k])
    {
      items[j] := items[j + 1];
    }
    items[where] := item;
  }

  /** One round of the search on whole entries. */
  function Offer<T>(table: seq<Entry<T>>, e: Entry<T>): (r: seq<Entry<T>>)
    ensures |r| == |table|
  {
    var where := Slot(e.hash, Hashes(table));
    if where < 0 then table else Inserted(table, e, where)
  }

  /** An entry goes to the last row of those at the front that its hash beats, the rows up to there move down, and
      row 0 falls out; if it does not beat row 0, nothing changes. */
  lemma OfferPlaces<T>(table: seq<Entry<T>>, e: Entry<T>, where: int)
    requires -1 <= where < |table|
    requires forall j :: 0 <= j <= where ==> Less(table[j].hash, e.hash)
    requires where + 1 < |table| ==> !Less(table[where + 1].hash, e.hash)
    ensures |Offer(table, e)| == |table|
    ensures forall i :: 0 <= i < |table| ==>
              Offer(table, e)[i] == if i < where then table[i + 1] else if i == where then e else table[i]
  {
    SlotIsUnique(where, e.hash, Hashes(table));
    if where >= 0 {
      forall i | 0 <= i < |table| {
        InsertedAt(table, e, where, i);
      }
    }
  }

  function OfferAll<T>(table: seq<Entry<T>>, es: seq<Entry<T>>): (r: seq<Entry<T>>)
    ensures |r| == |table|
    decreases |es|
  {
    if es == [] then table else Offer(OfferAll(table, es[..|es| - 1]), es[|es| - 1])
  }

  function Score<T>(e: Entry<T>): (v: int) {
    BigEndian(e.hash)
  }

  lemma AscendingIsSorted<T>(table: seq<Entry<T>>, width: nat)
    requires HaveWidth(table, width)
    ensures SortedBy(Score, table) <==> Ascending(Hashes(table))
  {
    var rows := Hashes(table);
    forall i, j | 0 <= i < |table| && 0 <= j < |table|
      ensures Less(rows[j], rows[i]) <==> Score(table[j]) < Score(table[i])
    {
      LessIffBigEndian(rows[j], rows[i]);
    }
  }

  lemma SlotSplits<T>(table: seq<Entry<T>>, e: Entry<T>, width: nat)
    requires HaveWidth(table, width) && |e.hash| == width && SortedBy(Score, table)
    ensures Splits(Score, table, Score(e), Slot(e.hash, Hashes(table)))
  {
    var rows := Hashes(table);
    forall j | 0 <= j < |table|
      ensures Less(rows[j], e.hash) <==> Score(table[j]) < Score(e)
    {
      LessIffBigEndian(rows[j], e.hash);
    }
    SlotIsSlot(e.hash, rows);
    var w := Slot(e.hash, rows);
    assert w + 1 < |table| ==> forall j :: w < j < |table| ==> Score(table[w + 1]) <= Score(table[j]);
  }

  lemma OfferKeepsBest<T(!new)>(table: seq<Entry<T>>, e: Entry<T>, width: nat, all: multiset<Entry<T>>)
    requires HaveWidth(table, width) && |e.hash| == width && SortedBy(Score, table)
    requires KeepsBest(Score, multiset(table), all)
    ensures HaveWidth(Offer(table, e), width) && SortedBy(Score, Offer(table, e))
    ensures KeepsBest(Score, multiset(Offer(table, e)), all + multiset{e})
  {
    SlotSplits(table, e, width);
    var w := Slot(e.hash, Hashes(table));
    if w >= 0 {
      InsertedStaysSorted(Score, table, e, w);
      InsertedKeepsBest(Score, table, e, w, all);
      forall i | 0 <= i < |table|
        ensures |Inserted(table, e, w)[i].hash| == width
      {
        InsertedAt(table, e, w, i);
      }
    } else {
      RejectedKeepsBest(Score, table, e, all);
    }
  }

  lemma OneMore<T>(a: seq<T>, b: seq<T>)
    requires |b| > 0
    ensures multiset(a + b) == multiset(a + b[..|b| - 1]) + multiset{b[|b| - 1]}
  {
    assert a + b == (a + b[..|b| - 1]) + [b[|b| - 1]];
  }

  lemma {:induction false} OfferAllKeepsBest<T(!new)>(table: seq<Entry<T>>, es: seq<Entry<T>>, width: nat)
    requires HaveWidth(table, width) && HaveWidth(es, width) && SortedBy(Score, table)
    ensures HaveWidth(OfferAll(table, es), width) && SortedBy(Score, OfferAll(table, es))
    ensures KeepsBest(Score, multiset(OfferAll(table, es)), multiset(table + es))
    decreases |es|
  {
    if es == [] {
      assert table + es == table;
    } else {
      var butLast, last := es[..|es| - 1], es[|es| - 1];
      OfferAllKeepsBest(table, butLast, width);
      OfferKeepsBest(OfferAll(table, butLast), last, width, multiset(table + butLast));
      OneMore(table, es);
    }
  }

  /** The whole run, ties and duplicates included: from any table in ascending order, after any sequence of
      entries, the table is in ascending order and holds the best of its first contents and all the entries. */
  lemma WholeRunKeepsBest<T(!new)>(table: seq<Entry<T>>, es: seq<Entry<T>>, width: nat)
    requires HaveWidth(table, width) && HaveWidth(es, width) && Ascending(Hashes(table))
    ensures Ascending(Hashes(OfferAll(table, es)))
    ensures KeepsBest(Score, multiset(OfferAll(table, es)), multiset(table + es))
  {
    AscendingIsSorted(table, width);
    OfferAllKeepsBest(table, es, width);
    AscendingIsSorted(OfferAll(table, es), width);
  }

  /** The hash column at the end does not depend on the order in which the entries were tried. */
  lemma {:induction false} OrderOfTriesDoesNotMatter<T(!new)>(table: seq<Entry<T>>, es: seq<Entry<T>>,
                                                             fs: seq<Entry<T>>, width: nat)
    requires HaveWidth(table, width) && HaveWidth(es, width) && HaveWidth(fs, width) && Ascending(Hashes(table))
    requires multiset(es) == multiset(fs)
    ensures Hashes(OfferAll(table, es)) == Hashes(OfferAll(table, fs))
  {
    var a, b := OfferAll(table, es), OfferAll(table, fs);
    AscendingIsSorted(table, width);
    OfferAllKeepsBest(table, es, width);
    OfferAllKeepsBest(table, fs, width);
    forall t
      ensures CountAbove(Score, t, a) == CountAbove(Score, t, b)
    {
      BestByThreshold(Score, t, a, table + es);
      BestByThreshold(Score, t, b, table + fs);
      CountPermutation(Score, t, table + es, table + fs);
    }
    SameCountsSameScores(Score, a, b);
    forall i | 0 <= i < |a|
      ensures a[i].hash == b[i].hash
    {
      LessIffBigEndian(a[i].hash, b[i].hash);
    }
  }

  /** The table a search starts from: every row the zeroed placeholder. */
  function Blank<T>(payload: T, width: nat, rows: nat): (table: seq<Entry<T>>)
    ensures |table| == rows && HaveWidth(table, width)
  {
    seq(rows, _ => Entry(payload, Zeros(width)))
  }

  lemma BlankIsAscending<T>(payload: T, width: nat, rows: nat)
    ensures Ascending(Hashes(Blank(payload, width, rows)))
  {
  }

  /** Each hash above zero drains one placeholder: after some entries, n of them with a hash above zero, the
      zero rows are exactly the first rows - n, and none is left once n reaches the number of rows. */
  lemma PlaceholdersDrain<T(!new)>(payload: T, width: nat, rows: nat, es: seq<Entry<T>>)
    requires HaveWidth(es, width)
    ensures var table := OfferAll(Blank(payload, width, rows), es);
            forall i :: 0 <= i < rows ==>
              (table[i].hash == Zeros(width) <==> i < rows - CountAbove(Score, 0, es))
  {
    var blank := Blank(payload, width, rows);
    var table := OfferAll(blank, es);
    BlankIsAscending(payload, width, rows);
    AscendingIsSorted(blank, width);
    OfferAllKeepsBest(blank, es, width);
    ZerosAreLeast(width);
    BestByThreshold(Score, 0, table, blank + es);
    CountNone(Score, 0, blank);
    CountAppend(Score, 0, blank, es);
    forall i | 0 <= i < rows
      ensures table[i].hash == Zeros(width) <==> i < rows - CountAbove(Score, 0, es)
    {
      AboveAreLast(Score, 0, table, i);
      LessIffBigEndian(table[i].hash, Zeros(width));
    }
  }

  /** A row whose hash is zero is a placeholder still, whatever has been offered. */
  lemma {:induction false} ZeroRowsAreBlank<T>(payload: T, width: nat, rows: nat, es: seq<Entry<T>>, row: Entry<T>)
    requires row in OfferAll(Blank(payload, width, rows), es) && row.hash == Zeros(width)
    ensures row == Entry(payload, Zeros(width))
    decreases |es|
  {
    if es != [] {
      var butLast, e := es[..|es| - 1], es[|es| - 1];
      OfferAddsNoZero(OfferAll(Blank(payload, width, rows), butLast), e, width);
      ZeroRowsAreBlank(payload, width, rows, butLast, row);
    }
  }

  lemma OfferAddsNoZero<T>(table: seq<Entry<T>>, e: Entry<T>, width: nat)
    ensures forall row :: row in Offer(table, e) && row.hash == Zeros(width) ==> row in table
  {
    var where := Slot(e.hash, Hashes(table));
    SlotIsSlot(e.hash, Hashes(table));
    forall row | row in Offer(table, e) && row.hash == Zeros(width)
      ensures row in table
    {
      if where >= 0 {
        assert Less(Hashes(table)[0], e.hash);
        var i :| 0 <= i < |table| && Inserted(table, e, where)[i] == row;
        InsertedAt(table, e, where, i);
      }
    }
  }

  /** The placeholders that are left are exactly the first rows - n, when n of the entries have a hash above zero. */
  lemma {:induction false} BlankRowsAreFirst<T(!new)>(payload: T, width: nat, rows: nat, es: seq<Entry<T>>, i: nat)
    requires HaveWidth(es, width) && i < rows
    ensures OfferAll(Blank(payload, width, rows), es)[i] == Entry(payload, Zeros(width)) <==>
            i < rows - CountAbove(Score, 0, es)
  {
    PlaceholdersDrain(payload, width, rows, es);
    var row := OfferAll(Blank(payload, width, rows), es)[i];
    if row.hash == Zeros(width) {
      ZeroRowsAreBlank(payload, width, rows, es, row);
    }
  }

  lemma {:induction false} CountNonZero<T>(width: nat, es: seq<Entry<T>>)
    requires HaveWidth(es, width) && forall e :: e in es ==> e.hash != Zeros(width)
    ensures CountAbove(Score, 0, es) == |es|
  {
    forall e | e in es
      ensures Score(e) > 0
    {
      ZerosAreLeast(width);
      LessIffBigEndian(Zeros(width), e.hash);
    }
    CountAll(Score, 0, es);
  }

  // ---- the hash column ----

  function Value(hash: Bytes): (v: int) {
    BigEndian(hash)
  }

  lemma HashesOfSum<T>(a: seq<Entry<T>>, b: seq<Entry<T>>)
    ensures Hashes(a + b) == Hashes(a) + Hashes(b)
  {
  }

  lemma HashesAround<T>(before: seq<Entry<T>>, e: Entry<T>, after: seq<Entry<T>>)
    ensures multiset(Hashes(before + ([e] + after))) == multiset(Hashes(before + after)) + multiset{e.hash}
  {
    HashesOfSum(before, [e] + after);
    HashesOfSum([e], after);
    HashesOfSum(before, after);
  }

  lemma {:induction false} HashesPermute<T>(a: seq<Entry<T>>, b: seq<Entry<T>>)
    requires multiset(a) == multiset(b)
    ensures multiset(Hashes(a)) == multiset(Hashes(b))
    decreases |a|
  {
    if a == [] {
      assert |b| == |multiset(b)| == |multiset(a)|;
    } else {
      assert a[0] in multiset(b);
      var i :| 0 <= i < |b| && b[i] == a[0];
      RemoveOne(a, b, i);
      HashesPermute(a[1..], b[..i] + b[i + 1..]);
      HashesAround(b[..i], b[i], b[i + 1..]);
      HashesAround([], a[0], a[1..]);
      assert a == [] + ([a[0]] + a[1..]) && [] + a[1..] == a[1..];
    }
  }

  lemma HashesKeepBest<T(!new)>(kept: seq<Entry<T>>, all: seq<Entry<T>>)
    requires KeepsBest(Score, multiset(kept), multiset(all))
    ensures KeepsBest(Value, multiset(Hashes(kept)), multiset(Hashes(all)))
  {
    var dropped := Listing(multiset(all) - multiset(kept));
    assert multiset(kept + dropped) == multiset(all);
    HashesPermute(kept + dropped, all);
    HashesOfSum(kept, dropped);
    assert multiset(Hashes(all)) - multiset(Hashes(kept)) == multiset(Hashes(dropped));
    forall e | e in dropped
      ensures e in multiset(all) - multiset(kept)
    {
      assert e in multiset(dropped);
    }
    HashesApart(kept, dropped);
  }

  lemma HashesApart<T>(kept: seq<Entry<T>>, dropped: seq<Entry<T>>)
    requires forall e, f :: e in multiset(kept) && f in dropped ==> Score(f) <= Score(e)
    ensures forall x, y :: x in multiset(Hashes(kept)) && y in multiset(Hashes(dropped)) ==> Value(y) <= Value(x)
  {
    forall x, y | x in multiset(Hashes(kept)) && y in multiset(Hashes(dropped))
      ensures Value(y) <= Value(x)
    {
      var i :| 0 <= i < |kept| && Hashes(kept)[i] == x;
      var j :| 0 <= j < |dropped| && Hashes(dropped)[j] == y;
      assert kept[i] in multiset(kept) && Score(dropped[j]) <= Score(kept[i]);
    }
  }

  /** The hash column at the end is the only best selection of its size from the first hashes and all that have
      been tried. */
  lemma {:induction false} HashColumnIsUnique<T(!new)>(table: seq<Entry<T>>, es: seq<Entry<T>>, width: nat,
                                                      other: multiset<Bytes>)
    requires HaveWidth(table, width) && HaveWidth(es, width) && Ascending(Hashes(table)) && |other| == |table|
    ensures KeepsBest(Value, other, multiset(Hashes(table + es))) <==>
            other == multiset(Hashes(OfferAll(table, es)))
  {
    var column, all := Hashes(OfferAll(table, es)), Hashes(table + es);
    WholeRunKeepsBest(table, es, width);
    HashesKeepBest(OfferAll(table, es), table + es);
    forall x, y | x in multiset(all) && y in multiset(all) && Value(x) == Value(y)
      ensures x == y
    {
      assert x in all && y in all;
      LessIffBigEndian(x, y);
    }
    if KeepsBest(Value, other, multiset(all)) {
      BestIsUnique(Value, other, multiset(column), multiset(all));
    }
  }
}
