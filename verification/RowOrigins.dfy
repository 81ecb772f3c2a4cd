/** Where the rows of a table come from: every row that is not there from the start was tried in a round of the
    search, and no two of them after the same draw. */
module RowOrigins {
  import opened ByteStrings
  import opened Selection
  import opened KeyTable
  import opened Mining
  import opened Options

  /** For each row of the table the number of the entry that is there, -1 for a row that is there from the start. */
  ghost function Origins<T>(table: seq<Entry<T>>, es: seq<Entry<T>>): (o: seq<int>)
    ensures |o| == |table|
    decreases |es|
  {
    if es == [] then seq(|table|, _ => -1)
    else
      var n := |es| - 1;
      var where := Slot(es[n].hash, Hashes(OfferAll(table, es[..n])));
      if where < 0 then Origins(table, es[..n]) else Inserted(Origins(table, es[..n]), n, where)
  }

  /** Row r is entry o[r], which made it into the table when it was offered. */
  ghost predicate ComesFrom<T>(table: seq<Entry<T>>, es: seq<Entry<T>>, row: Entry<T>, origin: int) {
    if origin < 0 then row in table
    else origin < |es| && row == es[origin] && Hit(es[origin], OfferAll(table, es[..origin]))
  }

  lemma ComesFromStill<T>(table: seq<Entry<T>>, es: seq<Entry<T>>, e: Entry<T>, row: Entry<T>, origin: int)
    requires ComesFrom(table, es, row, origin)
    ensures ComesFrom(table, es + [e], row, origin)
  {
    if origin >= 0 {
      assert (es + [e])[..origin] == es[..origin];
    }
  }

  lemma {:induction false} OriginsAreRight<T>(table: seq<Entry<T>>, es: seq<Entry<T>>)
    ensures forall r :: 0 <= r < |table| ==> ComesFrom(table, es, OfferAll(table, es)[r], Origins(table, es)[r])
    ensures forall r, q :: 0 <= r < q < |table| && Origins(table, es)[r] >= 0 ==>
              Origins(table, es)[r] != Origins(table, es)[q]
    decreases |es|
  {
    if es != [] {
      var n := |es| - 1;
      var butLast, e := es[..n], es[n];
      var rows, o := OfferAll(table, butLast), Origins(table, butLast);
      var where := Slot(e.hash, Hashes(rows));
      OriginsAreRight(table, butLast);
      assert es == butLast + [e];
      forall r | 0 <= r < |table|
        ensures ComesFrom(table, es, OfferAll(table, es)[r], Origins(table, es)[r])
      {
        ComesFromStill(table, butLast, e, rows[r], o[r]);
        if 0 <= where {
          InsertedAt(rows, e, where, r);
          InsertedAt(o, n, where, r);
          if r < where {
            ComesFromStill(table, butLast, e, rows[r + 1], o[r + 1]);
          }
        }
      }
      forall r | 0 <= r < |table|
        ensures o[r] < n
      {
        assert ComesFrom(table, butLast, rows[r], o[r]);
      }
    }
  }

  lemma {:induction false} RoundsAreCounted<T>(tool: Tool<T>, hits: Hits<T>, n: nat)
    requires Rounds(tool, hits, n).Some?
    ensures |Rounds(tool, hits, n).value.tried| == |Rounds(tool, hits, n).value.entries| == n
    ensures Rounds(tool, hits, n).value.draws >= 1
  {
    if n > 0 {
      RoundsAreCounted(tool, hits, n - 1);
    }
  }

  /** A longer search has the shorter one behind it. */
  lemma {:induction false} EarlierRounds<T>(tool: Tool<T>, hits: Hits<T>, i: nat, n: nat)
    requires i <= n && Rounds(tool, hits, n).Some?
    ensures Rounds(tool, hits, i).Some?
    ensures Rounds(tool, hits, i).value.entries <= Rounds(tool, hits, n).value.entries
    ensures Rounds(tool, hits, i).value.tried <= Rounds(tool, hits, n).value.tried
    ensures |Rounds(tool, hits, i).value.entries| == |Rounds(tool, hits, i).value.tried| == i
    decreases n
  {
    RoundsAreCounted(tool, hits, n);
    if i < n {
      EarlierRounds(tool, hits, i, n - 1);
    }
  }

  /** The secret at any time is its last draw, counted up a number of times. */
  lemma {:induction false} SecretOfADraw<T>(tool: Tool<T>, hits: Hits<T>, n: nat) returns (k: nat)
    requires Rounds(tool, hits, n).Some?
    ensures var st := Rounds(tool, hits, n).value;
            st.draws >= 1 && st.secret == Iterated(tool.next, tool.drawn(st.draws - 1), k)
  {
    k := 0;
    if n > 0 {
      var st := Rounds(tool, hits, n - 1).value;
      var before := SecretOfADraw(tool, hits, n - 1);
      var hit := hits(tool.derive(st.secret).value, st.entries);
      assert Iterated(tool.next, tool.drawn(st.draws), 0) == tool.drawn(st.draws);
      k := if hit then 1 else before + 1;
    }
  }

  lemma Tried<T>(tool: Tool<T>, table: seq<Entry<T>>, n: nat, i: nat)
    requires i < n && Run(tool, table, n).Some?
    ensures Run(tool, table, i).Some?
    ensures |Run(tool, table, n).value.tried| == |Run(tool, table, n).value.entries| == n
    ensures Run(tool, table, n).value.tried[i] == Run(tool, table, i).value.secret
    ensures tool.derive(Run(tool, table, i).value.secret) == Some(Run(tool, table, n).value.entries[i])
  {
    RoundsAreCounted(tool, HitsIn(table), n);
    EarlierRounds(tool, HitsIn(table), i + 1, n);
    EarlierRounds(tool, HitsIn(table), i, i + 1);
    var st, next, last := Run(tool, table, i).value, Run(tool, table, i + 1).value, Run(tool, table, n).value;
    RunGoesOn(tool, table, i);
    assert next.tried[i] == last.tried[i] && next.entries[i] == last.entries[i];
  }

  /** A secret that leads to the row, counted up k times from draw d. */
  ghost predicate FromDraw<T>(tool: Tool<T>, row: Entry<T>, secret: Bytes, d: nat, k: nat) {
    tool.derive(secret) == Some(row) && secret == Iterated(tool.next, tool.drawn(d), k)
  }

  /** The secret tried in round i: its draw, and how often it had been counted up. */
  lemma TriedInRound<T>(tool: Tool<T>, table: seq<Entry<T>>, n: nat, i: nat) returns (x: Bytes, d: nat, k: nat)
    requires i < n && Run(tool, table, n).Some?
    ensures |Run(tool, table, n).value.entries| == n
    ensures Run(tool, table, i).Some? && Run(tool, table, i).value.draws == d + 1
    ensures FromDraw(tool, Run(tool, table, n).value.entries[i], x, d, k)
  {
    Tried(tool, table, n, i);
    k := SecretOfADraw(tool, HitsIn(table), i);
    x, d := Run(tool, table, i).value.secret, Run(tool, table, i).value.draws - 1;
  }

  lemma HitDraws<T>(tool: Tool<T>, table: seq<Entry<T>>, n: nat, i: nat)
    requires i < n && Run(tool, table, n).Some? && i < |Run(tool, table, n).value.entries|
    requires var entries := Run(tool, table, n).value.entries; Hit(entries[i], OfferAll(table, entries[..i]))
    ensures Run(tool, table, i).Some? && Run(tool, table, i + 1).Some?
    ensures Run(tool, table, i + 1).value.draws == Run(tool, table, i).value.draws + 1
  {
    Tried(tool, table, n, i);
    EarlierRounds(tool, HitsIn(table), i, n);
    assert Run(tool, table, n).value.entries[..i] == Run(tool, table, i).value.entries;
    RunGoesOn(tool, table, i);
  }

  lemma DrawsNeverFall<T>(tool: Tool<T>, table: seq<Entry<T>>, m: nat, n: nat)
    requires m <= n && Run(tool, table, n).Some?
    ensures Run(tool, table, m).Some? && Run(tool, table, m).value.draws <= Run(tool, table, n).value.draws
  {
    BetweenDraws(tool, HitsIn(table), m, n - m);
  }

  /** An entry that made it into the table ended its draw. */
  lemma HitEndsDraw<T>(tool: Tool<T>, table: seq<Entry<T>>, n: nat, i: nat, j: nat)
    requires i < j < n && Run(tool, table, n).Some? && i < |Run(tool, table, n).value.entries|
    requires var entries := Run(tool, table, n).value.entries; Hit(entries[i], OfferAll(table, entries[..i]))
    ensures Run(tool, table, i).Some? && Run(tool, table, j).Some?
    ensures Run(tool, table, i).value.draws < Run(tool, table, j).value.draws
  {
    HitDraws(tool, table, n, i);
    DrawsNeverFall(tool, table, j, n);
    DrawsNeverFall(tool, table, i + 1, j);
  }

  /** Any two rows of a run's table that are not from its start were tried after different draws. */
  lemma RowsFromDifferentDraws<T>(tool: Tool<T>, table: seq<Entry<T>>, n: nat, r: nat, q: nat)
    returns (i: nat, j: nat)
    requires Run(tool, table, n).Some? && r < |table| && q < |table| && r != q
    ensures |Run(tool, table, n).value.entries| == n
    ensures var entries := Run(tool, table, n).value.entries;
            var rows := OfferAll(table, entries);
            rows[r] !in table && rows[q] !in table ==>
              && i < n && entries[i] == rows[r] && Run(tool, table, i).Some?
              && j < n && entries[j] == rows[q] && Run(tool, table, j).Some?
              && Run(tool, table, i).value.draws != Run(tool, table, j).value.draws
  {
    var entries := Run(tool, table, n).value.entries;
    var rows, o := OfferAll(table, entries), Origins(table, entries);
    RoundsAreCounted(tool, HitsIn(table), n);
    OriginsAreRight(table, entries);
    assert ComesFrom(table, entries, rows[r], o[r]);
    assert ComesFrom(table, entries, rows[q], o[q]);
    i, j := 0, 0;
    if rows[r] !in table && rows[q] !in table {
      i, j := o[r], o[q];
      if i < j {
        HitEndsDraw(tool, table, n, i, j);
      } else {
        HitEndsDraw(tool, table, n, j, i);
      }
    }
  }

  lemma DrawsOfRows<T>(tool: Tool<T>, table: seq<Entry<T>>, n: nat, r: nat, q: nat)
    returns (x: Bytes, d: nat, k: nat, y: Bytes, e: nat, l: nat)
    requires Run(tool, table, n).Some? && r < |table| && q < |table| && r != q
    ensures var rows := OfferAll(table, Run(tool, table, n).value.entries);
            rows[r] !in table && rows[q] !in table ==>
              d != e && FromDraw(tool, rows[r], x, d, k) && FromDraw(tool, rows[q], y, e, l)
  {
    var i, j := RowsFromDifferentDraws(tool, table, n, r, q);
    x, d, k, y, e, l := [], 0, 0, [], 0, 0;
    var rows := OfferAll(table, Run(tool, table, n).value.entries);
    if rows[r] !in table && rows[q] !in table {
      x, d, k := TriedInRound(tool, table, n, i);
      y, e, l := TriedInRound(tool, table, n, j);
    }
  }
}
