/** yggdrasil-brute-multi-curve25519: clamped secrets, three parallel arrays.  Scalar multiplication, SHA-512,
    the random bytes and the clock are arguments. */
module Curve25519Tool {
  import opened ByteStrings
  import opened Selection
  import opened KeyTable
  import opened SecretCounter
  import opened Mining
  import opened RowOrigins
  import opened SearchTime
  import opened Options
  import opened Address

  datatype Keys = Keys(secret: Bytes, public: Bytes)

  function DrawSecret(random: Bytes): (r: Bytes)
    ensures |r| == |random|
  {
    if |random| >= 2 then Clamp(random) else random
  }

  function Curve25519(mult: Bytes -> Option<Bytes>, sha: Bytes -> Bytes, random: nat -> Bytes): (tool: Tool<Keys>) {
    Tool((sk: Bytes) => match mult(sk)
               case None => None
               case Some(pk) => Some(Entry(Keys(sk, pk), sha(pk))),
         (i: nat) => DrawSecret(random(i)),
         CountUp)
  }

  function BlankKeys(length: nat): (keys: Keys) {
    Keys(Zeros(length), Zeros(length))
  }

  /** The three arrays hold one table, column by column. */
  ghost predicate Columns(table: seq<Entry<Keys>>, sks: seq<Bytes>, pks: seq<Bytes>, hashes: seq<Bytes>) {
    && |sks| == |pks| == |hashes| == |table|
    && forall i :: 0 <= i < |table| ==> table[i] == Entry(Keys(sks[i], pks[i]), hashes[i])
  }

  lemma ColumnsInserted(table: seq<Entry<Keys>>, sks: seq<Bytes>, pks: seq<Bytes>, hashes: seq<Bytes>,
                        e: Entry<Keys>, where: nat)
    requires Columns(table, sks, pks, hashes) && where < |table|
    ensures Columns(Inserted(table, e, where), Inserted(sks, e.payload.secret, where),
                    Inserted(pks, e.payload.public, where), Inserted(hashes, e.hash, where))
  {
  }

  /** Four different arrays. */
  predicate Apart(sk: array<bv8>, sks: array<Bytes>, pks: array<Bytes>, hashes: array<Bytes>) {
    if sks == pks || pks == hashes || sks == hashes then false
    else sk as object !in {sks as object, pks, hashes}
  }

  /** One pass of the inner loop, after the keys of sk have been computed. */
  method TryKeys(sk: array<bv8>, pk: Bytes, hash: Bytes, sks: array<Bytes>, pks: array<Bytes>, hashes: array<Bytes>,
                 random: Bytes, ghost table: seq<Entry<Keys>>)
    returns (hit: bool)
    requires sk.Length == |random| >= 2
    requires Apart(sk, sks, pks, hashes)
    requires Columns(table, sks[..], pks[..], hashes[..])
    modifies sk, sks, pks, hashes
    ensures hit <==> hashes.Length > 0 && Less(old(hashes[..])[0], hash)
    ensures hit == Hit(Entry(Keys(old(sk[..]), pk), hash), table)
    ensures Columns(Offer(table, Entry(Keys(old(sk[..]), pk), hash)), sks[..], pks[..], hashes[..])
    ensures sk[..] == NextSecret(if hit then Clamp(random) else old(sk[..]))
    ensures sk[..] == CountUp(if hit then DrawSecret(random) else old(sk[..]))
  {
    ghost var e := Entry(Keys(sk[..], pk), hash);
    assert Hashes(table) == hashes[..];
    var where := FindWhere(hash, hashes);
    hit := where >= 0;
    if hit {
      ColumnsInserted(table, sks[..], pks[..], hashes[..], e, where);
      assert Offer(table, e) == Inserted(table, e, where);
      Insert(sks, sk[..], where);
      Insert(pks, pk, where);
      Insert(hashes, hash, where);
      Seed(sk, random);
    }
    Increment(sk);
  }

  /** The variables of main after n rounds, against the run they stand for. */
  ghost predicate Stands(tool: Tool<Keys>, blank: seq<Entry<Keys>>, n: nat, draws: nat, sk: Bytes,
                         sks: seq<Bytes>, pks: seq<Bytes>, hashes: seq<Bytes>) {
    exists st :: Run(tool, blank, n) == Some(st) && draws == st.draws && sk == st.secret &&
      Columns(OfferAll(blank, st.entries), sks, pks, hashes)
  }

  /** What the tool does with a secret, with random bytes, and to count up. */
  lemma Derives(mult: Bytes -> Option<Bytes>, sha: Bytes -> Bytes, random: nat -> Bytes, sk: Bytes, i: nat)
    ensures var tool := Curve25519(mult, sha, random);
            && tool.derive(sk) == (match mult(sk) case None => None case Some(pk) => Some(Entry(Keys(sk, pk), sha(pk))))
            && (|random(i)| >= 2 ==> tool.drawn(i) == Clamp(random(i)))
            && (|sk| >= 2 ==> tool.next(sk) == NextSecret(sk)) && tool.next == CountUp
  {
  }

  /** One round of the inner loop. */
  method Round(mult: Bytes -> Option<Bytes>, sha: Bytes -> Bytes, random: nat -> Bytes, draws: nat,
               sk: array<bv8>, sks: array<Bytes>, pks: array<Bytes>, hashes: array<Bytes>,
               ghost tool: Tool<Keys>, ghost blank: seq<Entry<Keys>>, ghost n: nat)
    returns (ok: bool, draws': nat)
    requires tool == Curve25519(mult, sha, random)
    requires sk.Length >= 2 && BlocksOf(random, sk.Length)
    requires Apart(sk, sks, pks, hashes)
    requires Stands(tool, blank, n, draws, sk[..], sks[..], pks[..], hashes[..])
    modifies sk, sks, pks, hashes
    ensures if ok then Stands(tool, blank, n + 1, draws', sk[..], sks[..], pks[..], hashes[..])
            else mult(sk[..]) == None && Stands(tool, blank, n, draws', sk[..], sks[..], pks[..], hashes[..])
  {
    ghost var st := Run(tool, blank, n).value;
    Derives(mult, sha, random, sk[..], draws);
    draws' := draws;
    var result := mult(sk[..]);
    if result == None {
      return false, draws;
    }
    var pk := result.value;
    var hash := sha(pk);
    NextRound(tool, blank, n, st, Entry(Keys(sk[..], pk), hash));
    var hit := TryKeys(sk, pk, hash, sks, pks, hashes, random(draws), OfferAll(blank, st.entries));
    if hit {
      draws' := draws + 1;
    }
    ok := true;
  }

  /** The inner loop. */
  method Batch(mult: Bytes -> Option<Bytes>, sha: Bytes -> Bytes, random: nat -> Bytes, batch: nat, draws: nat,
               sk: array<bv8>, sks: array<Bytes>, pks: array<Bytes>, hashes: array<Bytes>,
               ghost tool: Tool<Keys>, ghost blank: seq<Entry<Keys>>, n: nat)
    returns (ok: bool, draws': nat, runs: nat)
    requires tool == Curve25519(mult, sha, random)
    requires sk.Length >= 2 && BlocksOf(random, sk.Length)
    requires Apart(sk, sks, pks, hashes)
    requires Stands(tool, blank, n, draws, sk[..], sks[..], pks[..], hashes[..])
    modifies sk, sks, pks, hashes
    ensures if ok then runs == n + batch else n <= runs < n + batch && mult(sk[..]) == None
    ensures Stands(tool, blank, runs, draws', sk[..], sks[..], pks[..], hashes[..])
  {
    draws', runs, ok := draws, n, true;
    for i := 0 to batch
      invariant ok && runs == n + i
      invariant Stands(tool, blank, runs, draws', sk[..], sks[..], pks[..], hashes[..])
    {
      ok, draws' := Round(mult, sha, random, draws', sk, sks, pks, hashes, tool, blank, runs);
      if !ok {
        return;
      }
      runs := runs + 1;
    }
  }

  /** The outer loop: after each batch a reading of the clock, the last of them the first that has reached the limit
      with numKeys rounds done. */
  method OuterLoop(mult: Bytes -> Option<Bytes>, sha: Bytes -> Bytes, random: nat -> Bytes, batch: nat, numKeys: nat,
                   elapsed: nat -> int, limit: int,
                   sk: array<bv8>, sks: array<Bytes>, pks: array<Bytes>, hashes: array<Bytes>,
                   ghost tool: Tool<Keys>, ghost blank: seq<Entry<Keys>>, ghost patience: nat)
    returns (ok: bool, draws: nat, runs: nat, last: nat, ghost done: Batches)
    requires tool == Curve25519(mult, sha, random) && batch > 0
    requires sk.Length >= 2 && BlocksOf(random, sk.Length)
    requires PassesBy(elapsed, limit, patience)
    requires Apart(sk, sks, pks, hashes)
    requires Stands(tool, blank, 0, 1, sk[..], sks[..], pks[..], hashes[..])
    modifies sk, sks, pks, hashes
    ensures Stands(tool, blank, runs, draws, sk[..], sks[..], pks[..], hashes[..])
    ensures WentOn(done, batch, elapsed, limit, numKeys) && last == Number(done)
    ensures if ok then runs == RoundsOf(done) + batch && TimeIsUp(elapsed, limit, numKeys, last, runs)
            else RoundsOf(done) <= runs < RoundsOf(done) + batch && mult(sk[..]) == None
  {
    draws, runs, last, done := 1, 0, 0, Begun;
    while true
      invariant Stands(tool, blank, runs, draws, sk[..], sks[..], pks[..], hashes[..])
      invariant WentOn(done, batch, elapsed, limit, numKeys) && last == Number(done) && runs == RoundsOf(done)
      decreases StillToGo(done, patience, numKeys)
    {
      ok, draws, runs := Batch(mult, sha, random, batch, draws, sk, sks, pks, hashes, tool, blank, runs);
      if !ok {
        return;
      }
      var stop := IsTimeUp(elapsed, limit, numKeys, last, batch, runs, done, patience);
      if stop {
        return;
      }
      last, done := last + 1, Later(done, runs);
    }
  }

  /** main up to the output.  elapsed(k) is the reading of the seconds since the start after batch k; the clock passes
      the requested time at some reading.  The last reading is the first at which the requested time is over and
      there have been numKeys rounds; then the arrays hold the table of the run.  Or the multiplication fails in the
      batch before it, after runs rounds. */
  method Search(mult: Bytes -> Option<Bytes>, sha: Bytes -> Bytes, random: nat -> Bytes, length: nat, width: nat,
                numKeys: nat, batch: nat, elapsed: nat -> int, requested: int, ghost patience: nat)
    returns (ok: bool, sks: seq<Bytes>, pks: seq<Bytes>, hashes: seq<Bytes>, runs: nat, last: nat)
    requires length >= 2 && batch > 0 && forall i :: |random(i)| == length
    requires forall k :: k >= patience ==> elapsed(k) >= 0 && elapsed(k) >= requested
    ensures Ended(elapsed, requested, batch, numKeys, ok, runs, last)
    ensures var tool, blank := Curve25519(mult, sha, random), Blank(BlankKeys(length), width, numKeys);
            && Run(tool, blank, runs).Some?
            && Columns(OfferAll(blank, Run(tool, blank, runs).value.entries), sks, pks, hashes)
            && (!ok ==> mult(Run(tool, blank, runs).value.secret) == None)
  {
    ghost var tool := Curve25519(mult, sha, random);
    ghost var blank := Blank(BlankKeys(length), width, numKeys);
    var bestsklist := new Bytes[numKeys](_ => Zeros(length));
    var bestpklist := new Bytes[numKeys](_ => Zeros(length));
    var besthashlist := new Bytes[numKeys](_ => Zeros(width));
    var sk := new bv8[length];
    Seed(sk, random(0));
    assert OfferAll(blank, []) == blank && Run(tool, blank, 0) == Some(State(sk[..], 1, [], []));
    var draws;
    ghost var done;
    var limit := if requested < 0 then 0 else requested;
    ok, draws, runs, last, done := OuterLoop(mult, sha, random, batch, numKeys, elapsed, limit,
                                             sk, bestsklist, bestpklist, besthashlist, tool, blank, patience);
    LoopEnded(done, batch, elapsed, requested, limit, numKeys, ok, runs, last);
    return ok, bestsklist[..], bestpklist[..], besthashlist[..], runs, last;
  }

  // ---- what the rows of a run are ----

  ghost predicate Widths(sha: Bytes -> Bytes, random: nat -> Bytes, length: nat, width: nat) {
    length >= 2 && (forall i :: |random(i)| == length) && forall x :: |sha(x)| == width
  }

  lemma ToolIsProper(mult: Bytes -> Option<Bytes>, sha: Bytes -> Bytes, random: nat -> Bytes, length: nat, width: nat)
    requires Widths(sha, random, length, width)
    ensures Proper(Curve25519(mult, sha, random), length, width)
  {
  }

  predicate GoodSecret(secret: Bytes, length: nat) {
    |secret| == length >= 2 && Clamped(secret)
  }

  lemma CountingKeepsGoodSecrets(secret: Bytes, length: nat)
    requires GoodSecret(secret, length)
    ensures GoodSecret(CountUp(secret), length)
  {
  }

  /** One round after another: a round succeeds exactly when the multiplication does; the secret is replaced by clamped
      random bytes exactly when its hash beats row 0 of the table of everything tried before; then it is counted
      up. */
  lemma RoundsOfARun(mult: Bytes -> Option<Bytes>, sha: Bytes -> Bytes, random: nat -> Bytes,
                     length: nat, width: nat, table: seq<Entry<Keys>>, n: nat)
    requires Widths(sha, random, length, width) && Run(Curve25519(mult, sha, random), table, n).Some?
    ensures var tool := Curve25519(mult, sha, random);
            var st := Run(tool, table, n).value;
            && |st.secret| == length
            && (n == 0 ==> st == State(Clamp(random(0)), 1, [], []))
            && (Run(tool, table, n + 1).Some? <==> mult(st.secret).Some?)
            && (mult(st.secret).Some? ==>
                  var st', pk := Run(tool, table, n + 1).value, mult(st.secret).value;
                  var rows := OfferAll(table, st.entries);
                  && st'.tried == st.tried + [st.secret]
                  && st'.entries == st.entries + [Entry(Keys(st.secret, pk), sha(pk))]
                  && if rows != [] && Less(rows[0].hash, sha(pk))
                     then st'.draws == st.draws + 1 && st'.secret == NextSecret(Clamp(random(st.draws)))
                     else st'.draws == st.draws && st'.secret == NextSecret(st.secret))
  {
    var tool := Curve25519(mult, sha, random);
    var st := Run(tool, table, n).value;
    ToolIsProper(mult, sha, random, length, width);
    RunIsExplained(tool, table, length, width, n);
    RunStarts(tool, table);
    RunGoesOn(tool, table, n);
    Derives(mult, sha, random, st.secret, st.draws);
    Derives(mult, sha, random, tool.drawn(st.draws), 0);
  }

  /** Every secret that is ever tried is clamped. */
  lemma AllSecretsAreClamped(mult: Bytes -> Option<Bytes>, sha: Bytes -> Bytes, random: nat -> Bytes,
                             length: nat, width: nat, table: seq<Entry<Keys>>, n: nat)
    requires Widths(sha, random, length, width) && Run(Curve25519(mult, sha, random), table, n).Some?
    ensures var tried := Run(Curve25519(mult, sha, random), table, n).value.tried;
            forall i :: 0 <= i < |tried| ==> GoodSecret(tried[i], length)
  {
    var tool := Curve25519(mult, sha, random);
    forall i
      ensures GoodSecret(tool.drawn(i), length)
    {
      ClampClamps(random(i));
    }
    forall s | GoodSecret(s, length)
      ensures GoodSecret(tool.next(s), length)
    {
      CountingKeepsGoodSecrets(s, length);
    }
    SecretsKeep(tool, HitsIn(table), n, s => GoodSecret(s, length));
  }

  /** All of a row comes from one clamped secret. */
  ghost predicate FromOneSecret(mult: Bytes -> Option<Bytes>, sha: Bytes -> Bytes, length: nat, row: Entry<Keys>) {
    && GoodSecret(row.payload.secret, length)
    && mult(row.payload.secret) == Some(row.payload.public)
    && row.hash == sha(row.payload.public)
  }

  /** Every row of every run is blank in all three arrays or belongs to one clamped secret. */
  lemma RowsOfARun(mult: Bytes -> Option<Bytes>, sha: Bytes -> Bytes, random: nat -> Bytes,
                   length: nat, width: nat, rows: nat, n: nat, r: nat)
    requires Widths(sha, random, length, width) && r < rows
    requires Run(Curve25519(mult, sha, random), Blank(BlankKeys(length), width, rows), n).Some?
    ensures var blank := Blank(BlankKeys(length), width, rows);
            var row := OfferAll(blank, Run(Curve25519(mult, sha, random), blank, n).value.entries)[r];
            row == Entry(BlankKeys(length), Zeros(width)) || FromOneSecret(mult, sha, length, row)
  {
    var tool, blank := Curve25519(mult, sha, random), Blank(BlankKeys(length), width, rows);
    ToolIsProper(mult, sha, random, length, width);
    BlankIsAscending(BlankKeys(length), width, rows);
    RowsAreAligned(tool, blank, length, width, n, r);
    AllSecretsAreClamped(mult, sha, random, length, width, blank, n);
    var st := Run(tool, blank, n).value;
    var row := OfferAll(blank, st.entries)[r];
    if row !in blank {
      var i :| 0 <= i < |st.tried| && tool.derive(st.tried[i]) == Some(row);
      Derives(mult, sha, random, st.tried[i], 0);
    }
  }

  /** The rows still blank are exactly the first ones, one for each row that lacks a hash above zero among those
      tried; every other row belongs to one clamped secret. */
  lemma BlankRows(mult: Bytes -> Option<Bytes>, sha: Bytes -> Bytes, random: nat -> Bytes,
                  length: nat, width: nat, rows: nat, n: nat, r: nat)
    requires Widths(sha, random, length, width) && r < rows
    requires Run(Curve25519(mult, sha, random), Blank(BlankKeys(length), width, rows), n).Some?
    ensures var blank := Blank(BlankKeys(length), width, rows);
            var entries := Run(Curve25519(mult, sha, random), blank, n).value.entries;
            var row := OfferAll(blank, entries)[r];
            if r < rows - CountAbove(Score, 0, entries) then row == Entry(BlankKeys(length), Zeros(width))
            else FromOneSecret(mult, sha, length, row)
  {
    ToolIsProper(mult, sha, random, length, width);
    BlankRowsOfARun(Curve25519(mult, sha, random), BlankKeys(length), length, width, rows, n, r);
    RowsOfARun(mult, sha, random, length, width, rows, n, r);
  }

  /** When none of the hashes tried is zero, a run of at least as many rounds as there are rows leaves no row
      blank. */
  lemma NoRowStaysBlank(mult: Bytes -> Option<Bytes>, sha: Bytes -> Bytes, random: nat -> Bytes,
                        length: nat, width: nat, rows: nat, n: nat, r: nat)
    requires Widths(sha, random, length, width) && r < rows <= n
    requires Run(Curve25519(mult, sha, random), Blank(BlankKeys(length), width, rows), n).Some?
    requires var entries := Run(Curve25519(mult, sha, random), Blank(BlankKeys(length), width, rows), n).value.entries;
             forall e :: e in entries ==> e.hash != Zeros(width)
    ensures var blank := Blank(BlankKeys(length), width, rows);
            var row := OfferAll(blank, Run(Curve25519(mult, sha, random), blank, n).value.entries)[r];
            FromOneSecret(mult, sha, length, row)
  {
    ToolIsProper(mult, sha, random, length, width);
    BlankRowsOfARun(Curve25519(mult, sha, random), BlankKeys(length), length, width, rows, n, r);
    BlankRows(mult, sha, random, length, width, rows, n, r);
  }

  /** Without a draw in between, no secret is tried twice in fewer than 256^(length - 2) rounds. */
  lemma NoSecretTriedTwice(mult: Bytes -> Option<Bytes>, sha: Bytes -> Bytes, random: nat -> Bytes,
                           length: nat, width: nat, table: seq<Entry<Keys>>, m: nat, k: nat)
    requires Widths(sha, random, length, width) && 0 < k < Power256(length - 2)
    requires Run(Curve25519(mult, sha, random), table, m).Some?
    requires Run(Curve25519(mult, sha, random), table, m + k).Some?
    requires Run(Curve25519(mult, sha, random), table, m).value.draws ==
             Run(Curve25519(mult, sha, random), table, m + k).value.draws
    ensures Run(Curve25519(mult, sha, random), table, m).value.secret !=
            Run(Curve25519(mult, sha, random), table, m + k).value.secret
  {
    ToolIsProper(mult, sha, random, length, width);
    CountUpNoReturn(length);
    NoSecretTwice(Curve25519(mult, sha, random), table, length, width, Power256(length - 2), m, k);
  }

  /** Any two rows that are not blank have secrets counted up from different draws. */
  lemma RowsFromDifferentSeeds(mult: Bytes -> Option<Bytes>, sha: Bytes -> Bytes, random: nat -> Bytes,
                               length: nat, width: nat, rows: nat, n: nat, r: nat, q: nat)
    returns (d: nat, k: nat, e: nat, l: nat)
    requires Widths(sha, random, length, width) && r < rows && q < rows && r != q
    requires Run(Curve25519(mult, sha, random), Blank(BlankKeys(length), width, rows), n).Some?
    requires var blank := Blank(BlankKeys(length), width, rows);
             var table := OfferAll(blank, Run(Curve25519(mult, sha, random), blank, n).value.entries);
             table[r].hash != Zeros(width) && table[q].hash != Zeros(width)
    ensures d != e
    ensures var blank := Blank(BlankKeys(length), width, rows);
            var table := OfferAll(blank, Run(Curve25519(mult, sha, random), blank, n).value.entries);
            && table[r].payload.secret == Advanced(Clamp(random(d)), k)
            && table[q].payload.secret == Advanced(Clamp(random(e)), l)
  {
    var tool, blank := Curve25519(mult, sha, random), Blank(BlankKeys(length), width, rows);
    var x, y;
    x, d, k, y, e, l := DrawsOfRows(tool, blank, n, r, q);
    var table := OfferAll(blank, Run(tool, blank, n).value.entries);
    SecretOfRow(mult, sha, random, length, table[r], x, d, k);
    SecretOfRow(mult, sha, random, length, table[q], y, e, l);
  }

  lemma {:induction false} SecretOfRow(mult: Bytes -> Option<Bytes>, sha: Bytes -> Bytes, random: nat -> Bytes,
                                      length: nat, row: Entry<Keys>, x: Bytes, d: nat, k: nat)
    requires length >= 2 && |random(d)| == length && FromDraw(Curve25519(mult, sha, random), row, x, d, k)
    ensures row.payload.secret == Advanced(Clamp(random(d)), k)
  {
    Derives(mult, sha, random, x, d);
    IteratedIsAdvanced(Clamp(random(d)), k);
  }

  // ---- output ----

  datatype Line = Line(addr: Bytes, secret: Bytes, public: Bytes)

  /** The output loop: one line a row, with one address buffer for all of them. */
  method PrintRows(sks: seq<Bytes>, pks: seq<Bytes>, hashes: seq<Bytes>) returns (lines: seq<Line>)
    requires |sks| == |pks| == |hashes| && forall i :: 0 <= i < |hashes| ==> Fits(hashes[i])
    ensures |lines| == |hashes|
    ensures forall i :: 0 <= i < |lines| ==> lines[i] == Line(AddressOf(hashes[i]), sks[i], pks[i])
  {
    var addr := new bv8[16];
    lines := [];
    for i := 0 to |hashes|
      invariant |lines| == i
      invariant forall k :: 0 <= k < i ==> lines[k] == Line(AddressOf(hashes[k]), sks[k], pks[k])
    {
      MakeAddr(addr, hashes[i]);
      lines := lines + [Line(addr[..16], sks[i], pks[i])];
    }
  }

  lemma ZerosFit(width: nat)
    requires width >= 15
    ensures Fits(Zeros(width)) && Ones(Zeros(width)) == 0
  {
    BitAt(Zeros(width), 0, 0);
    OnesIs(Zeros(width), 0);
  }

  /** Two rows of a table get addresses in their order, if the count of ones of the higher one fits its byte. */
  lemma LinesAscend(hashes: seq<Bytes>, width: nat, i: nat, j: nat)
    requires Ascending(hashes) && i < j < |hashes| && Ones(hashes[j]) <= 255
    requires forall k :: 0 <= k < |hashes| ==> |hashes[k]| == width && Fits(hashes[k])
    ensures !Less(AddressOf(hashes[j]), AddressOf(hashes[i]))
  {
    NoMoreOnes(hashes[i], hashes[j]);
    OrderWithinBlock(hashes[i], hashes[j]);
  }

  /** A line of a row that no hash has reached. */
  ghost predicate BlankLine(length: nat, width: nat, line: Line) {
    Fits(Zeros(width)) && line == Line(AddressOf(Zeros(width)), Zeros(length), Zeros(length))
  }

  /** A clamped secret with its own public key and that key's address. */
  ghost predicate TrueLine(mult: Bytes -> Option<Bytes>, sha: Bytes -> Bytes, length: nat, line: Line) {
    && GoodSecret(line.secret, length)
    && mult(line.secret) == Some(line.public)
    && Fits(sha(line.public)) && line.addr == AddressOf(sha(line.public))
  }

  /** Line r of the table of a search: blank as long as hashes above zero are lacking, true otherwise. */
  ghost predicate LineShows(mult: Bytes -> Option<Bytes>, sha: Bytes -> Bytes, length: nat, width: nat, rows: nat,
                            entries: seq<Entry<Keys>>, r: nat, line: Line) {
    if r < rows - CountAbove(Score, 0, entries) then BlankLine(length, width, line)
    else TrueLine(mult, sha, length, line)
  }

  /** The lines show the table of a run of n rounds. */
  ghost predicate Shows(tool: Tool<Keys>, blank: seq<Entry<Keys>>, n: nat, lines: seq<Line>) {
    && Run(tool, blank, n).Some? && |lines| == |blank|
    && var table := OfferAll(blank, Run(tool, blank, n).value.entries);
       forall i :: 0 <= i < |lines| ==>
         Fits(table[i].hash) &&
         lines[i] == Line(AddressOf(table[i].hash), table[i].payload.secret, table[i].payload.public)
  }

  lemma LinesAreTrue(mult: Bytes -> Option<Bytes>, sha: Bytes -> Bytes, random: nat -> Bytes,
                     length: nat, width: nat, rows: nat, n: nat, lines: seq<Line>, r: nat)
    requires Widths(sha, random, length, width) && r < rows
    requires Shows(Curve25519(mult, sha, random), Blank(BlankKeys(length), width, rows), n, lines)
    ensures var entries := Run(Curve25519(mult, sha, random), Blank(BlankKeys(length), width, rows), n).value.entries;
            LineShows(mult, sha, length, width, rows, entries, r, lines[r])
  {
    BlankRows(mult, sha, random, length, width, rows, n, r);
  }

  /** make_addr can read every hash. */
  ghost predicate AllFit<T>(entries: seq<Entry<T>>) {
    forall i :: 0 <= i < |entries| ==> Fits(entries[i].hash)
  }

  lemma HashesOfARun(mult: Bytes -> Option<Bytes>, sha: Bytes -> Bytes, random: nat -> Bytes,
                     length: nat, width: nat, rows: nat, n: nat)
    requires Widths(sha, random, length, width) && width >= 15
    requires Run(Curve25519(mult, sha, random), Blank(BlankKeys(length), width, rows), n).Some?
    requires AllFit(Run(Curve25519(mult, sha, random), Blank(BlankKeys(length), width, rows), n).value.entries)
    ensures var blank := Blank(BlankKeys(length), width, rows);
            var table := OfferAll(blank, Run(Curve25519(mult, sha, random), blank, n).value.entries);
            Ascending(Hashes(table)) &&
            forall r :: 0 <= r < rows ==> |table[r].hash| == width && Fits(table[r].hash)
  {
    var blank := Blank(BlankKeys(length), width, rows);
    var entries := Run(Curve25519(mult, sha, random), blank, n).value.entries;
    ToolIsProper(mult, sha, random, length, width);
    BlankIsAscending(BlankKeys(length), width, rows);
    RunIsExplained(Curve25519(mult, sha, random), blank, length, width, n);
    RunKeepsBest(Curve25519(mult, sha, random), blank, length, width, n);
    ZerosFit(width);
    forall r | 0 <= r < rows {
      RowIsKnown(blank, entries, OfferAll(blank, entries)[r]);
    }
  }

  lemma {:induction false} RowIsKnown(table: seq<Entry<Keys>>, entries: seq<Entry<Keys>>, row: Entry<Keys>)
    requires KeepsBest(Score, multiset(OfferAll(table, entries)), multiset(table + entries))
    requires row in OfferAll(table, entries)
    ensures row in table || row in entries
  {
    assert row in multiset(OfferAll(table, entries));
    assert row in multiset(table + entries);
  }

  /** Of two printed addresses the second is no lower, if the count of ones of its hash fits a byte. */
  lemma AddressesAscend(mult: Bytes -> Option<Bytes>, sha: Bytes -> Bytes, random: nat -> Bytes,
                        length: nat, width: nat, rows: nat, n: nat, lines: seq<Line>, i: nat, j: nat)
    requires Widths(sha, random, length, width) && width >= 15 && i < j < rows
    requires Shows(Curve25519(mult, sha, random), Blank(BlankKeys(length), width, rows), n, lines)
    requires var blank := Blank(BlankKeys(length), width, rows);
             var entries := Run(Curve25519(mult, sha, random), blank, n).value.entries;
             AllFit(entries) && Ones(OfferAll(blank, entries)[j].hash) <= 255
    ensures !Less(lines[j].addr, lines[i].addr)
  {
    var blank := Blank(BlankKeys(length), width, rows);
    var table := OfferAll(blank, Run(Curve25519(mult, sha, random), blank, n).value.entries);
    HashesOfARun(mult, sha, random, length, width, rows, n);
    LinesAscend(Hashes(table), width, i, j);
  }

  lemma CanBeRead(tool: Tool<Keys>, blank: seq<Entry<Keys>>, elapsed: nat -> int, requested: int, batch: nat,
                  numKeys: nat, runs: nat, last: nat)
    requires forall n: nat ::
               Run(tool, blank, n).Some? &&
               (forall j: nat :: batch * (j + 1) < n ==> GoesOn(elapsed, requested, batch, numKeys, j)) ==>
               AllFit(Run(tool, blank, n).value.entries)
    requires Ended(elapsed, requested, batch, numKeys, true, runs, last) && Run(tool, blank, runs).Some?
    ensures AllFit(Run(tool, blank, runs).value.entries)
  {
    forall j: nat | batch * (j + 1) < batch * (last + 1)
      ensures GoesOn(elapsed, requested, batch, numKeys, j)
    {
      if j >= last {
        BatchesGrow(batch, last, j);
      }
    }
  }

  /** The whole program, as long as make_addr can read the hashes that are computed up to the last round the clock
      allows.  It goes on until the first reading of the clock at which the requested time is over and there have been
      numKeys rounds, and shows the table of that run.  The first lines are blank, one for each hash above zero that
      this run lacks; every other line holds one clamped secret, its public key and that key's address.  A line whose
      hash has at most 255 leading ones has an address no lower than those before it. */
  method Main25519(mult: Bytes -> Option<Bytes>, sha: Bytes -> Bytes, random: nat -> Bytes, length: nat, width: nat,
                   numKeys: nat, batch: nat, elapsed: nat -> int, requested: int, ghost patience: nat)
    returns (out: Option<seq<Line>>, runs: nat, last: nat)
    requires length >= 2 && width >= 15 && batch > 0
    requires (forall i :: |random(i)| == length) && forall x :: |sha(x)| == width
    requires forall k :: k >= patience ==> elapsed(k) >= 0 && elapsed(k) >= requested
    requires forall n: nat ::
               Run(Curve25519(mult, sha, random), Blank(BlankKeys(length), width, numKeys), n).Some? &&
               (forall j: nat :: batch * (j + 1) < n ==> GoesOn(elapsed, requested, batch, numKeys, j)) ==>
               AllFit(Run(Curve25519(mult, sha, random), Blank(BlankKeys(length), width, numKeys), n).value.entries)
    ensures Ended(elapsed, requested, batch, numKeys, out.Some?, runs, last)
    ensures var tool, blank := Curve25519(mult, sha, random), Blank(BlankKeys(length), width, numKeys);
            && Run(tool, blank, runs).Some?
            && (out == None ==> mult(Run(tool, blank, runs).value.secret) == None)
            && (out.Some? ==> Shows(tool, blank, runs, out.value))
    ensures var blank := Blank(BlankKeys(length), width, numKeys);
            var run := Run(Curve25519(mult, sha, random), blank, runs);
            out.Some? ==>
              && (forall r :: 0 <= r < numKeys ==>
                    LineShows(mult, sha, length, width, numKeys, run.value.entries, r, out.value[r]))
              && (forall i, j :: 0 <= i < j < numKeys && Ones(OfferAll(blank, run.value.entries)[j].hash) <= 255 ==>
                    !Less(out.value[j].addr, out.value[i].addr))
  {
    assert Widths(sha, random, length, width);
    var ok, sks, pks, hashes;
    ok, sks, pks, hashes, runs, last :=
      Search(mult, sha, random, length, width, numKeys, batch, elapsed, requested, patience);
    if !ok {
      return None, runs, last;
    }
    CanBeRead(Curve25519(mult, sha, random), Blank(BlankKeys(length), width, numKeys), elapsed, requested, batch,
              numKeys, runs, last);
    HashesOfARun(mult, sha, random, length, width, numKeys, runs);
    var lines := PrintRows(sks, pks, hashes);
    out := Some(lines);
    forall r | 0 <= r < numKeys {
      LinesAreTrue(mult, sha, random, length, width, numKeys, runs, lines, r);
    }
    ghost var blank := Blank(BlankKeys(length), width, numKeys);
    ghost var table := OfferAll(blank, Run(Curve25519(mult, sha, random), blank, runs).value.entries);
    forall i, j | 0 <= i < j < numKeys && Ones(table[j].hash) <= 255 {
      AddressesAscend(mult, sha, random, length, width, numKeys, runs, lines, i, j);
    }
  }
}
