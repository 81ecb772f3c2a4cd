/** The search loop of both brute-force tools: derive the keys of a secret, offer them to the table, draw a new
    secret after a hit, count the secret up.  The generic part is a step function on whole table entries; the
    tools' parallel arrays refine it. */
module Mining {
  import opened ByteStrings
  import opened Selection
  import opened KeyTable
  import opened SecretCounter
  import opened Options

  /** What differs between the tools.  derive is None where the library call fails; drawn(i) is the secret made
      from the i-th block of random bytes; next counts a secret up. */
  datatype Tool<!T> = Tool(derive: Bytes -> Option<Entry<T>>, drawn: nat -> Bytes, next: Bytes -> Bytes)

  ghost predicate Proper<T(!new)>(tool: Tool<T>, length: nat, width: nat) {
    && (forall i :: |tool.drawn(i)| == length)
    && (forall s :: |s| == length ==> |tool.next(s)| == length)
    && (forall s :: tool.derive(s).Some? ==> |tool.derive(s).value.hash| == width)
  }

  /** Every block of random bytes has the given length. */
  ghost predicate BlocksOf(random: nat -> Bytes, length: nat) {
    forall i :: |random(i)| == length
  }

  /** The running search: the secret to try next, the number of draws so far, and what has been tried. */
  datatype State<T> = State(secret: Bytes, draws: nat, tried: seq<Bytes>, entries: seq<Entry<T>>)

  /** Whether an entry makes it into the table. */
  predicate Hit<T>(e: Entry<T>, table: seq<Entry<T>>) {
    Slot(e.hash, Hashes(table)) >= 0
  }

  /** It does exactly when it beats row 0. */
  lemma HitExactly<T>(e: Entry<T>, table: seq<Entry<T>>)
    ensures Hit(e, table) <==> table != [] && Less(table[0].hash, e.hash)
  {
  }

  function Advance<T>(tool: Tool<T>, st: State<T>, e: Entry<T>, hit: bool): (next: State<T>) {
    State(tool.next(if hit then tool.drawn(st.draws) else st.secret),
          if hit then st.draws + 1 else st.draws,
          st.tried + [st.secret],
          st.entries + [e])
  }

  /** Whether an entry makes it into the table, given the entries before it. */
  type Hits<!T> = (Entry<T>, seq<Entry<T>>) -> bool

  function HitsIn<T>(table: seq<Entry<T>>): (hits: Hits<T>) {
    (e, entries) => Hit(e, OfferAll(table, entries))
  }

  /** The search state after n rounds; None once the library has failed. */
  function Rounds<T>(tool: Tool<T>, hits: Hits<T>, n: nat): (st: Option<State<T>>) {
    if n == 0 then Some(State(tool.drawn(0), 1, [], []))
    else
      match Rounds(tool, hits, n - 1)
      case None => None
      case Some(st) =>
        match tool.derive(st.secret)
        case None => None
        case Some(e) => Some(Advance(tool, st, e, hits(e, st.entries)))
  }

  /** The same for a search that starts from a given table. */
  function Run<T>(tool: Tool<T>, table: seq<Entry<T>>, n: nat): (r: Option<State<T>>) {
    Rounds(tool, HitsIn(table), n)
  }

  lemma NextRound<T>(tool: Tool<T>, table: seq<Entry<T>>, n: nat, st: State<T>, e: Entry<T>)
    requires Run(tool, table, n) == Some(st) && tool.derive(st.secret) == Some(e)
    ensures var next := Advance(tool, st, e, Hit(e, OfferAll(table, st.entries)));
            Run(tool, table, n + 1) == Some(next) &&
            OfferAll(table, next.entries) == Offer(OfferAll(table, st.entries), e)
  {
  }

  /** A search starts with the first draw. */
  lemma RunStarts<T>(tool: Tool<T>, table: seq<Entry<T>>)
    ensures Run(tool, table, 0) == Some(State(tool.drawn(0), 1, [], []))
  {
  }

  /** One more round succeeds exactly when all rounds so far have and the library does.  The secret is replaced by a
      new draw exactly when its hash beats row 0 of the table of everything tried before; then it is counted up. */
  lemma RunGoesOn<T>(tool: Tool<T>, table: seq<Entry<T>>, n: nat)
    ensures Run(tool, table, n + 1).Some? <==>
            Run(tool, table, n).Some? && tool.derive(Run(tool, table, n).value.secret).Some?
    ensures Run(tool, table, n + 1).Some? ==>
              var st, st' := Run(tool, table, n).value, Run(tool, table, n + 1).value;
              var e, rows := tool.derive(st.secret).value, OfferAll(table, st.entries);
              && st'.tried == st.tried + [st.secret] && st'.entries == st.entries + [e]
              && (if rows != [] && Less(rows[0].hash, e.hash)
                  then st'.draws == st.draws + 1 && st'.secret == tool.next(tool.drawn(st.draws))
                  else st'.draws == st.draws && st'.secret == tool.next(st.secret))
  {
  }

  /** Every entry comes from the secret tried in the same round. */
  ghost predicate Explained<T>(tool: Tool<T>, st: State<T>, length: nat, n: nat) {
    && |st.secret| == length
    && |st.tried| == |st.entries| == n
    && forall i :: 0 <= i < n ==> |st.tried[i]| == length && tool.derive(st.tried[i]) == Some(st.entries[i])
  }

  lemma {:induction false} RoundsAreExplained<T(!new)>(tool: Tool<T>, hits: Hits<T>, length: nat, width: nat, n: nat)
    requires Proper(tool, length, width) && Rounds(tool, hits, n).Some?
    ensures Explained(tool, Rounds(tool, hits, n).value, length, n)
    ensures HaveWidth(Rounds(tool, hits, n).value.entries, width)
  {
    if n > 0 {
      var st := Rounds(tool, hits, n - 1).value;
      RoundsAreExplained(tool, hits, length, width, n - 1);
      var e := tool.derive(st.secret).value;
    }
  }

  lemma RunIsExplained<T(!new)>(tool: Tool<T>, table: seq<Entry<T>>, length: nat, width: nat, n: nat)
    requires Proper(tool, length, width) && Run(tool, table, n).Some?
    ensures Explained(tool, Run(tool, table, n).value, length, n)
    ensures HaveWidth(Run(tool, table, n).value.entries, width)
  {
    RoundsAreExplained(tool, HitsIn(table), length, width, n);
  }

  /** After any number of rounds the table is in ascending hash order and holds the best of its first rows and
      of everything tried. */
  lemma RunKeepsBest<T(!new)>(tool: Tool<T>, table: seq<Entry<T>>, length: nat, width: nat, n: nat)
    requires Proper(tool, length, width) && HaveWidth(table, width) && Ascending(Hashes(table))
    requires Run(tool, table, n).Some?
    ensures var entries := Run(tool, table, n).value.entries;
            Ascending(Hashes(OfferAll(table, entries))) &&
            KeepsBest(Score, multiset(OfferAll(table, entries)), multiset(table + entries))
  {
    RunIsExplained(tool, table, length, width, n);
    WholeRunKeepsBest(table, Run(tool, table, n).value.entries, width);
  }

  /** Rows are aligned: each row is still as it was, or all of it comes from one secret that was tried. */
  lemma RowsAreAligned<T(!new)>(tool: Tool<T>, table: seq<Entry<T>>, length: nat, width: nat, n: nat, r: nat)
    requires Proper(tool, length, width) && HaveWidth(table, width) && Ascending(Hashes(table))
    requires Run(tool, table, n).Some? && r < |table|
    ensures var st := Run(tool, table, n).value;
            var row := OfferAll(table, st.entries)[r];
            row in table || exists i :: 0 <= i < |st.tried| && tool.derive(st.tried[i]) == Some(row)
  {
    RunKeepsBest(tool, table, length, width, n);
    RunIsExplained(tool, table, length, width, n);
    var st := Run(tool, table, n).value;
    var row := OfferAll(table, st.entries)[r];
    assert row in multiset(OfferAll(table, st.entries));
    assert row in multiset(table + st.entries);
    if row !in table {
      var i :| 0 <= i < |st.entries| && st.entries[i] == row;
      assert tool.derive(st.tried[i]) == Some(row);
    }
  }

  /** The rows still blank are exactly the first rows - k, when k of the hashes tried are above zero. */
  lemma BlankRowsOfARun<T(!new)>(tool: Tool<T>, payload: T, length: nat, width: nat, rows: nat, n: nat, r: nat)
    requires Proper(tool, length, width) && Run(tool, Blank(payload, width, rows), n).Some? && r < rows
    ensures var entries := Run(tool, Blank(payload, width, rows), n).value.entries;
            && |entries| == n
            && (OfferAll(Blank(payload, width, rows), entries)[r] == Entry(payload, Zeros(width)) <==>
                r < rows - CountAbove(Score, 0, entries))
            && ((forall e :: e in entries ==> e.hash != Zeros(width)) ==> CountAbove(Score, 0, entries) == n)
  {
    var blank := Blank(payload, width, rows);
    RunIsExplained(tool, blank, length, width, n);
    var entries := Run(tool, blank, n).value.entries;
    BlankRowsAreFirst(payload, width, rows, entries, r);
    if forall e :: e in entries ==> e.hash != Zeros(width) {
      CountNonZero(width, entries);
    }
  }

  /** A property of secrets that every draw has and counting keeps holds of every secret tried. */
  lemma {:induction false} SecretsKeep<T>(tool: Tool<T>, hits: Hits<T>, n: nat, good: Bytes -> bool)
    requires Rounds(tool, hits, n).Some?
    requires forall i :: good(tool.drawn(i))
    requires forall s :: good(s) ==> good(tool.next(s))
    ensures var st := Rounds(tool, hits, n).value;
            good(st.secret) && forall i :: 0 <= i < |st.tried| ==> good(st.tried[i])
  {
    if n > 0 {
      SecretsKeep(tool, hits, n - 1, good);
    }
  }

  function Iterated(next: Bytes -> Bytes, s: Bytes, n: nat): (r: Bytes) {
    if n == 0 then s else next(Iterated(next, s, n - 1))
  }

  /** Between two draws the secret only counts up. */
  lemma {:induction false} BetweenDraws<T>(tool: Tool<T>, hits: Hits<T>, m: nat, k: nat)
    requires Rounds(tool, hits, m + k).Some?
    ensures Rounds(tool, hits, m).Some?
    ensures Rounds(tool, hits, m).value.draws <= Rounds(tool, hits, m + k).value.draws
    ensures Rounds(tool, hits, m).value.draws == Rounds(tool, hits, m + k).value.draws ==>
              Rounds(tool, hits, m + k).value.secret == Iterated(tool.next, Rounds(tool, hits, m).value.secret, k)
    decreases k
  {
    if k > 0 {
      BetweenDraws(tool, hits, m, k - 1);
    }
  }

  // ---- counting secrets ----

  /** The increment of both tools; their secrets have 32 bytes, so the other case never arises. */
  function CountUp(s: Bytes): (r: Bytes)
    ensures |r| == |s|
  {
    if |s| >= 2 then NextSecret(s) else s
  }

  lemma {:induction false} IteratedIsAdvanced(s: Bytes, n: nat)
    requires |s| >= 2
    ensures Iterated(CountUp, s, n) == Advanced(s, n)
  {
    if n > 0 {
      IteratedIsAdvanced(s, n - 1);
    }
  }

  /** Counting does not come back to where it was in fewer than period steps. */
  ghost predicate NoReturn(next: Bytes -> Bytes, length: nat, period: nat) {
    forall s: Bytes, k: nat :: |s| == length && 0 < k < period ==> Iterated(next, s, k) != s
  }

  /** For the 32-byte secrets the period is 256^30. */
  lemma CountUpNoReturn(length: nat)
    requires length >= 2
    ensures NoReturn(CountUp, length, Power256(length - 2))
  {
    forall s: Bytes, k: nat | |s| == length && 0 < k < Power256(length - 2)
      ensures Iterated(CountUp, s, k) != s
    {
      IteratedIsAdvanced(s, k);
      SecretsRecurExactlyByPeriod(s, 0, k);
    }
  }

  /** With no draw in between, no secret is tried twice within a period. */
  lemma NoSecretTwice<T(!new)>(tool: Tool<T>, table: seq<Entry<T>>, length: nat, width: nat, period: nat,
                               m: nat, k: nat)
    requires Proper(tool, length, width) && NoReturn(tool.next, length, period)
    requires 0 < k < period && Run(tool, table, m).Some? && Run(tool, table, m + k).Some?
    requires Run(tool, table, m).value.draws == Run(tool, table, m + k).value.draws
    ensures Run(tool, table, m).value.secret != Run(tool, table, m + k).value.secret
  {
    RunIsExplained(tool, table, length, width, m);
    BetweenDraws(tool, HitsIn(table), m, k);
  }
}
