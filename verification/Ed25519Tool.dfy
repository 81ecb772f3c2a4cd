/** yggdrasil-brute-multi-ed25519: seeds that are hashed before use, two parallel arrays.  What is stored and
    printed as the seed is the first half of the hash of the seed, followed by the public key. */
module Ed25519Tool {
  import opened ByteStrings
  import opened Selection
  import opened KeyTable
  import opened SecretCounter
  import opened Mining
  import opened RowOrigins
  import opened SearchTime
  import opened Options

  /** The 64-byte buffer of main: the hash of the seed with its second half overwritten by the public key. */
  function KeyBuffer(half: nat, hashed: Bytes, pk: Bytes): (buffer: Bytes) {
    if half <= |hashed| then hashed[..half] + pk else pk
  }

  function Ed25519(mult: Bytes -> Option<Bytes>, sha: Bytes -> Bytes, random: nat -> Bytes,
                   half: nat): (tool: Tool<Bytes>)
  {
    Tool((seed: Bytes) => match mult(sha(seed))
                          case None => None
                          case Some(pk) => Some(Entry(KeyBuffer(half, sha(seed), pk), sha(pk))),
         random,
         CountUp)
  }

  /** What the tool does with a seed, with random bytes, and to count up. */
  lemma Derives(mult: Bytes -> Option<Bytes>, sha: Bytes -> Bytes, random: nat -> Bytes, half: nat, seed: Bytes, i: nat)
    ensures var tool := Ed25519(mult, sha, random, half);
            && (half <= |sha(seed)| ==>
                  tool.derive(seed) == match mult(sha(seed))
                                       case None => None
                                       case Some(pk) => Some(Entry(sha(seed)[..half] + pk, sha(pk))))
            && tool.drawn(i) == random(i)
            && (|seed| >= 2 ==> tool.next(seed) == NextSecret(seed)) && tool.next == CountUp
  {
  }

  ghost predicate Columns(table: seq<Entry<Bytes>>, sks: seq<Bytes>, hashes: seq<Bytes>) {
    && |sks| == |hashes| == |table|
    && forall i :: 0 <= i < |table| ==> table[i] == Entry(sks[i], hashes[i])
  }

  /** Three different arrays. */
  predicate Apart(seed: array<bv8>, sks: array<Bytes>, hashes: array<Bytes>) {
    if sks == hashes then false else seed as object !in {sks as object, hashes}
  }

  ghost predicate HashesReach(sha: Bytes -> Bytes, length: nat) {
    forall x :: |sha(x)| >= length
  }

  method TryKeys(seed: array<bv8>, sk: Bytes, hash: Bytes, sks: array<Bytes>, hashes: array<Bytes>,
                 random: Bytes, ghost table: seq<Entry<Bytes>>)
    returns (hit: bool)
    requires seed.Length == |random| >= 2
    requires Apart(seed, sks, hashes)
    requires Columns(table, sks[..], hashes[..])
    modifies seed, sks, hashes
    ensures hit <==> hashes.Length > 0 && Less(old(hashes[..])[0], hash)
    ensures hit == Hit(Entry(sk, hash), table)
    ensures Columns(Offer(table, Entry(sk, hash)), sks[..], hashes[..])
    ensures seed[..] == NextSecret(if hit then random else old(seed[..]))
    ensures seed[..] == CountUp(if hit then random else old(seed[..]))
  {
    ghost var e := Entry(sk, hash);
    assert Hashes(table) == hashes[..];
    var where := FindWhere(hash, hashes);
    hit := where >= 0;
    if hit {
      assert Offer(table, e) == Inserted(table, e, where);
      Insert(sks, sk, where);
      Insert(hashes, hash, where);
      forall i | 0 <= i < seed.Length {
        seed[i] := random[i];
      }
      assert seed[..] == random;
    }
    Increment(seed);
  }

  /** The variables of main after n rounds, against the run they stand for. */
  ghost predicate Stands(tool: Tool<Bytes>, blank: seq<Entry<Bytes>>, n: nat, draws: nat, seed: Bytes,
                         sks: seq<Bytes>, hashes: seq<Bytes>) {
    exists st :: Run(tool, blank, n) == Some(st) && draws == st.draws && seed == st.secret &&
      Columns(OfferAll(blank, st.entries), sks, hashes)
  }

  method Round(mult: Bytes -> Option<Bytes>, sha: Bytes -> Bytes, random: nat -> Bytes, draws: nat,
               seed: array<bv8>, sks: array<Bytes>, hashes: array<Bytes>,
               ghost tool: Tool<Bytes>, ghost blank: seq<Entry<Bytes>>, ghost n: nat)
    returns (ok: bool, draws': nat)
    requires tool == Ed25519(mult, sha, random, seed.Length)
    requires seed.Length >= 2 && BlocksOf(random, seed.Length) && HashesReach(sha, seed.Length)
    requires Apart(seed, sks, hashes)
    requires Stands(tool, blank, n, draws, seed[..], sks[..], hashes[..])
    modifies seed, sks, hashes
    ensures if ok then Stands(tool, blank, n + 1, draws', seed[..], sks[..], hashes[..])
            else mult(sha(seed[..])) == None && Stands(tool, blank, n, draws', seed[..], sks[..], hashes[..])
  {
    ghost var st := Run(tool, blank, n).value;
    Derives(mult, sha, random, seed.Length, seed[..], draws);
    draws' := draws;
    var sk := sha(seed[..]);
    var result := mult(sk);
    if result == None {
      return false, draws;
    }
    var pk := result.value;
    sk := sk[..seed.Length] + pk;
    var hash := sha(pk);
    NextRound(tool, blank, n, st, Entry(sk, hash));
    var hit := TryKeys(seed, sk, hash, sks, hashes, random(draws), OfferAll(blank, st.entries));
    if hit {
      draws' := draws + 1;
    }
    ok := true;
  }

  /** The inner loop. */
  method Batch(mult: Bytes -> Option<Bytes>, sha: Bytes -> Bytes, random: nat -> Bytes, batch: nat, draws: nat,
               seed: array<bv8>, sks: array<Bytes>, hashes: array<Bytes>,
               ghost tool: Tool<Bytes>, ghost blank: seq<Entry<Bytes>>, n: nat)
    returns (ok: bool, draws': nat, runs: nat)
    requires tool == Ed25519(mult, sha, random, seed.Length)
    requires seed.Length >= 2 && BlocksOf(random, seed.Length) && HashesReach(sha, seed.Length)
    requires Apart(seed, sks, hashes)
    requires Stands(tool, blank, n, draws, seed[..], sks[..], hashes[..])
    modifies seed, sks, hashes
    ensures if ok then runs == n + batch else n <= runs < n + batch && mult(sha(seed[..])) == None
    ensures Stands(tool, blank, runs, draws', seed[..], sks[..], hashes[..])
  {
    draws', runs, ok := draws, n, true;
    for i := 0 to batch
      invariant ok && runs == n + i
      invariant Stands(tool, blank, runs, draws', seed[..], sks[..], hashes[..])
    {
      ok, draws' := Round(mult, sha, random, draws', seed, sks, hashes, tool, blank, runs);
      if !ok {
        return;
      }
      runs := runs + 1;
    }
  }

  /** The outer loop, as that of the other tool. */
  method OuterLoop(mult: Bytes -> Option<Bytes>, sha: Bytes -> Bytes, random: nat -> Bytes, batch: nat, numKeys: nat,
                   elapsed: nat -> int, limit: int, seed: array<bv8>, sks: array<Bytes>, hashes: array<Bytes>,
                   ghost tool: Tool<Bytes>, ghost blank: seq<Entry<Bytes>>, ghost patience: nat)
    returns (ok: bool, draws: nat, runs: nat, last: nat, ghost done: Batches)
    requires tool == Ed25519(mult, sha, random, seed.Length) && batch > 0
    requires seed.Length >= 2 && BlocksOf(random, seed.Length) && HashesReach(sha, seed.Length)
    requires PassesBy(elapsed, limit, patience)
    requires Apart(seed, sks, hashes)
    requires Stands(tool, blank, 0, 1, seed[..], sks[..], hashes[..])
    modifies seed, sks, hashes
    ensures Stands(tool, blank, runs, draws, seed[..], sks[..], hashes[..])
    ensures WentOn(done, batch, elapsed, limit, numKeys) && last == Number(done)
    ensures if ok then runs == RoundsOf(done) + batch && TimeIsUp(elapsed, limit, numKeys, last, runs)
            else RoundsOf(done) <= runs < RoundsOf(done) + batch && mult(sha(seed[..])) == None
  {
    draws, runs, last, done := 1, 0, 0, Begun;
    while true
      invariant Stands(tool, blank, runs, draws, seed[..], sks[..], hashes[..])
      invariant WentOn(done, batch, elapsed, limit, numKeys) && last == Number(done) && runs == RoundsOf(done)
      decreases StillToGo(done, patience, numKeys)
    {
      ok, draws, runs := Batch(mult, sha, random, batch, draws, seed, sks, hashes, tool, blank, runs);
      if !ok {
        return;
      }
      var stop := IsTimeUp(elapsed, limit, numKeys, last, batch, runs, done, patience);
      if stop {
        return;
      }
      last, done := last + 1, Later(done, runs);
    }
  }

  /** main up to the output.  The last reading of the clock is the first at which the requested time is over and there
      have been numKeys rounds; then the arrays hold the table of the run.  Or the multiplication fails in the batch
      before it, after runs rounds. */
  method Search(mult: Bytes -> Option<Bytes>, sha: Bytes -> Bytes, random: nat -> Bytes, length: nat, width: nat,
                numKeys: nat, batch: nat, elapsed: nat -> int, requested: int, ghost patience: nat)
    returns (ok: bool, sks: seq<Bytes>, hashes: seq<Bytes>, runs: nat, last: nat)
    requires 2 <= length <= width && batch > 0
    requires (forall i :: |random(i)| == length) && forall x :: |sha(x)| == width
    requires forall k :: k >= patience ==> elapsed(k) >= 0 && elapsed(k) >= requested
    ensures Ended(elapsed, requested, batch, numKeys, ok, runs, last)
    ensures var tool, blank := Ed25519(mult, sha, random, length), Blank(Zeros(width), width, numKeys);
            && Run(tool, blank, runs).Some?
            && Columns(OfferAll(blank, Run(tool, blank, runs).value.entries), sks, hashes)
            && (!ok ==> mult(sha(Run(tool, blank, runs).value.secret)) == None)
  {
    ghost var tool := Ed25519(mult, sha, random, length);
    ghost var blank := Blank(Zeros(width), width, numKeys);
    var bestsklist := new Bytes[numKeys](_ => Zeros(width));
    var besthashlist := new Bytes[numKeys](_ => Zeros(width));
    var first := random(0);
    var seed := new bv8[length](i requires 0 <= i < length => first[i]);
    assert seed[..] == first;
    assert OfferAll(blank, []) == blank && Run(tool, blank, 0) == Some(State(seed[..], 1, [], []));
    var draws;
    ghost var done;
    var limit := if requested < 0 then 0 else requested;
    ok, draws, runs, last, done := OuterLoop(mult, sha, random, batch, numKeys, elapsed, limit,
                                             seed, bestsklist, besthashlist, tool, blank, patience);
    LoopEnded(done, batch, elapsed, requested, limit, numKeys, ok, runs, last);
    return ok, bestsklist[..], besthashlist[..], runs, last;
  }

  // ---- what the rows of a run are ----

  ghost predicate Widths(sha: Bytes -> Bytes, random: nat -> Bytes, length: nat, width: nat) {
    2 <= length <= width && (forall i :: |random(i)| == length) && forall x :: |sha(x)| == width
  }

  lemma ToolIsProper(mult: Bytes -> Option<Bytes>, sha: Bytes -> Bytes, random: nat -> Bytes, length: nat, width: nat)
    requires Widths(sha, random, length, width)
    ensures Proper(Ed25519(mult, sha, random, length), length, width)
  {
  }

  /** One round after another: a round succeeds exactly when the multiplication does; the seed is replaced by random
      bytes exactly when its hash beats row 0 of the table of everything tried before; then it is counted up. */
  lemma RoundsOfARun(mult: Bytes -> Option<Bytes>, sha: Bytes -> Bytes, random: nat -> Bytes,
                     length: nat, width: nat, table: seq<Entry<Bytes>>, n: nat)
    requires Widths(sha, random, length, width) && Run(Ed25519(mult, sha, random, length), table, n).Some?
    ensures var tool := Ed25519(mult, sha, random, length);
            var st := Run(tool, table, n).value;
            && |st.secret| == length
            && (n == 0 ==> st == State(random(0), 1, [], []))
            && (Run(tool, table, n + 1).Some? <==> mult(sha(st.secret)).Some?)
            && (mult(sha(st.secret)).Some? ==>
                  var st', pk := Run(tool, table, n + 1).value, mult(sha(st.secret)).value;
                  var rows := OfferAll(table, st.entries);
                  && st'.tried == st.tried + [st.secret]
                  && st'.entries == st.entries + [Entry(sha(st.secret)[..length] + pk, sha(pk))]
                  && if rows != [] && Less(rows[0].hash, sha(pk))
                     then st'.draws == st.draws + 1 && st'.secret == NextSecret(random(st.draws))
                     else st'.draws == st.draws && st'.secret == NextSecret(st.secret))
  {
    var tool := Ed25519(mult, sha, random, length);
    var st := Run(tool, table, n).value;
    ToolIsProper(mult, sha, random, length, width);
    RunIsExplained(tool, table, length, width, n);
    RunStarts(tool, table);
    RunGoesOn(tool, table, n);
    Derives(mult, sha, random, length, st.secret, st.draws);
    Derives(mult, sha, random, length, tool.drawn(st.draws), 0);
  }

  /** Half of the seed's hash and the public key it leads to, beside the hash of that public key. */
  ghost predicate FromSeed(mult: Bytes -> Option<Bytes>, sha: Bytes -> Bytes, length: nat, row: Entry<Bytes>,
                           seed: Bytes) {
    && |seed| == length <= |sha(seed)| && length <= |row.payload|
    && row.payload[..length] == sha(seed)[..length]
    && mult(sha(seed)) == Some(row.payload[length..])
    && row.hash == sha(row.payload[length..])
  }

  /** Every row of every run is blank in both arrays, or all of it comes from one seed that was tried. */
  lemma RowsOfARun(mult: Bytes -> Option<Bytes>, sha: Bytes -> Bytes, random: nat -> Bytes,
                   length: nat, width: nat, rows: nat, n: nat, r: nat)
    requires Widths(sha, random, length, width) && r < rows
    requires Run(Ed25519(mult, sha, random, length), Blank(Zeros(width), width, rows), n).Some?
    ensures var blank := Blank(Zeros(width), width, rows);
            var st := Run(Ed25519(mult, sha, random, length), blank, n).value;
            var row := OfferAll(blank, st.entries)[r];
            row == Entry(Zeros(width), Zeros(width)) ||
            exists i :: 0 <= i < |st.tried| && FromSeed(mult, sha, length, row, st.tried[i])
  {
    var tool, blank := Ed25519(mult, sha, random, length), Blank(Zeros(width), width, rows);
    ToolIsProper(mult, sha, random, length, width);
    BlankIsAscending(Zeros(width), width, rows);
    RowsAreAligned(tool, blank, length, width, n, r);
    RunIsExplained(tool, blank, length, width, n);
    var st := Run(tool, blank, n).value;
    var row := OfferAll(blank, st.entries)[r];
    if row !in blank {
      var i :| 0 <= i < |st.tried| && tool.derive(st.tried[i]) == Some(row);
    }
  }

  /** The rows still blank are exactly the first ones, one for each row that lacks a hash above zero among those
      tried; every other row comes from one seed that was tried. */
  lemma BlankRows(mult: Bytes -> Option<Bytes>, sha: Bytes -> Bytes, random: nat -> Bytes,
                  length: nat, width: nat, rows: nat, n: nat, r: nat)
    requires Widths(sha, random, length, width) && r < rows
    requires Run(Ed25519(mult, sha, random, length), Blank(Zeros(width), width, rows), n).Some?
    ensures var blank := Blank(Zeros(width), width, rows);
            var st := Run(Ed25519(mult, sha, random, length), blank, n).value;
            var row := OfferAll(blank, st.entries)[r];
            if r < rows - CountAbove(Score, 0, st.entries) then row == Entry(Zeros(width), Zeros(width))
            else exists i :: 0 <= i < |st.tried| && FromSeed(mult, sha, length, row, st.tried[i])
  {
    ToolIsProper(mult, sha, random, length, width);
    BlankRowsOfARun(Ed25519(mult, sha, random, length), Zeros(width), length, width, rows, n, r);
    RowsOfARun(mult, sha, random, length, width, rows, n, r);
  }

  /** When none of the hashes tried is zero, a run of at least as many rounds as there are rows leaves no row
      blank. */
  lemma NoRowStaysBlank(mult: Bytes -> Option<Bytes>, sha: Bytes -> Bytes, random: nat -> Bytes,
                        length: nat, width: nat, rows: nat, n: nat, r: nat)
    requires Widths(sha, random, length, width) && r < rows <= n
    requires Run(Ed25519(mult, sha, random, length), Blank(Zeros(width), width, rows), n).Some?
    requires forall e :: e in Run(Ed25519(mult, sha, random, length), Blank(Zeros(width), width, rows), n).value.entries
               ==> e.hash != Zeros(width)
    ensures var blank := Blank(Zeros(width), width, rows);
            var st := Run(Ed25519(mult, sha, random, length), blank, n).value;
            exists i :: 0 <= i < |st.tried| &&
              FromSeed(mult, sha, length, OfferAll(blank, st.entries)[r], st.tried[i])
  {
    ToolIsProper(mult, sha, random, length, width);
    BlankRowsOfARun(Ed25519(mult, sha, random, length), Zeros(width), length, width, rows, n, r);
    BlankRows(mult, sha, random, length, width, rows, n, r);
  }

  /** Without a draw in between, no seed is tried twice in fewer than 256^(length - 2) rounds. */
  lemma NoSeedTriedTwice(mult: Bytes -> Option<Bytes>, sha: Bytes -> Bytes, random: nat -> Bytes,
                         length: nat, width: nat, table: seq<Entry<Bytes>>, m: nat, k: nat)
    requires Widths(sha, random, length, width) && 0 < k < Power256(length - 2)
    requires Run(Ed25519(mult, sha, random, length), table, m).Some?
    requires Run(Ed25519(mult, sha, random, length), table, m + k).Some?
    requires Run(Ed25519(mult, sha, random, length), table, m).value.draws ==
             Run(Ed25519(mult, sha, random, length), table, m + k).value.draws
    ensures Run(Ed25519(mult, sha, random, length), table, m).value.secret !=
            Run(Ed25519(mult, sha, random, length), table, m + k).value.secret
  {
    ToolIsProper(mult, sha, random, length, width);
    CountUpNoReturn(length);
    NoSecretTwice(Ed25519(mult, sha, random, length), table, length, width, Power256(length - 2), m, k);
  }

  /** Any two rows that are not blank come from seeds counted up from different draws. */
  lemma RowsFromDifferentSeeds(mult: Bytes -> Option<Bytes>, sha: Bytes -> Bytes, random: nat -> Bytes,
                               length: nat, width: nat, rows: nat, n: nat, r: nat, q: nat)
    returns (d: nat, k: nat, e: nat, l: nat)
    requires Widths(sha, random, length, width) && r < rows && q < rows && r != q
    requires Run(Ed25519(mult, sha, random, length), Blank(Zeros(width), width, rows), n).Some?
    requires var blank := Blank(Zeros(width), width, rows);
             var table := OfferAll(blank, Run(Ed25519(mult, sha, random, length), blank, n).value.entries);
             table[r].hash != Zeros(width) && table[q].hash != Zeros(width)
    ensures d != e
    ensures var blank := Blank(Zeros(width), width, rows);
            var table := OfferAll(blank, Run(Ed25519(mult, sha, random, length), blank, n).value.entries);
            && FromSeed(mult, sha, length, table[r], Advanced(random(d), k))
            && FromSeed(mult, sha, length, table[q], Advanced(random(e), l))
  {
    var tool, blank := Ed25519(mult, sha, random, length), Blank(Zeros(width), width, rows);
    var x, y;
    x, d, k, y, e, l := DrawsOfRows(tool, blank, n, r, q);
    var table := OfferAll(blank, Run(tool, blank, n).value.entries);
    SeedOfRow(mult, sha, random, length, width, table[r], x, d, k);
    SeedOfRow(mult, sha, random, length, width, table[q], y, e, l);
  }

  lemma SeedOfRow(mult: Bytes -> Option<Bytes>, sha: Bytes -> Bytes, random: nat -> Bytes, length: nat, width: nat,
                  row: Entry<Bytes>, x: Bytes, d: nat, k: nat)
    requires Widths(sha, random, length, width) && FromDraw(Ed25519(mult, sha, random, length), row, x, d, k)
    ensures FromSeed(mult, sha, length, row, Advanced(random(d), k))
  {
    Derives(mult, sha, random, length, x, d);
    IteratedIsAdvanced(random(d), k);
  }

  /** The hash column is in ascending order and keeps the best of everything tried. */
  lemma HashesOfARun(mult: Bytes -> Option<Bytes>, sha: Bytes -> Bytes, random: nat -> Bytes,
                     length: nat, width: nat, rows: nat, n: nat)
    requires Widths(sha, random, length, width)
    requires Run(Ed25519(mult, sha, random, length), Blank(Zeros(width), width, rows), n).Some?
    ensures var blank := Blank(Zeros(width), width, rows);
            var entries := Run(Ed25519(mult, sha, random, length), blank, n).value.entries;
            && Ascending(Hashes(OfferAll(blank, entries)))
            && KeepsBest(Score, multiset(OfferAll(blank, entries)), multiset(blank + entries))
  {
    ToolIsProper(mult, sha, random, length, width);
    BlankIsAscending(Zeros(width), width, rows);
    RunKeepsBest(Ed25519(mult, sha, random, length), Blank(Zeros(width), width, rows), length, width, n);
  }

  // ---- output ----

  /** What is printed of a row: the first five bytes of its hash, and the two halves of the buffer. */
  datatype Line = Line(hash: Bytes, seed: Bytes, public: Bytes)

  method PrintRows(sks: seq<Bytes>, hashes: seq<Bytes>, half: nat) returns (lines: seq<Line>)
    requires |sks| == |hashes|
    requires forall i :: 0 <= i < |sks| ==> |sks[i]| == 2 * half && |hashes[i]| >= 5
    ensures |lines| == |hashes|
    ensures forall i :: 0 <= i < |lines| ==> lines[i] == Line(hashes[i][..5], sks[i][..half], sks[i][half..])
  {
    lines := [];
    for i := 0 to |hashes|
      invariant |lines| == i
      invariant forall k :: 0 <= k < i ==> lines[k] == Line(hashes[k][..5], sks[k][..half], sks[k][half..])
    {
      lines := lines + [Line(hashes[i][..5], sks[i][..half], sks[i][half..])];
    }
  }

  /** Half of the hash of a seed, the public key it leads to, and the first bytes of that key's hash. */
  ghost predicate TrueLine(mult: Bytes -> Option<Bytes>, sha: Bytes -> Bytes, length: nat, line: Line, seed: Bytes) {
    && |seed| == length <= |sha(seed)| && |sha(line.public)| >= 5
    && line.seed == sha(seed)[..length]
    && mult(sha(seed)) == Some(line.public)
    && line.hash == sha(line.public)[..5]
  }

  /** Line r of the table of a search: blank as long as hashes above zero are lacking, true of a seed that was tried
      otherwise. */
  ghost predicate LineShows(mult: Bytes -> Option<Bytes>, sha: Bytes -> Bytes, length: nat, rows: nat,
                            st: State<Bytes>, r: nat, line: Line) {
    if r < rows - CountAbove(Score, 0, st.entries) then line == Line(Zeros(5), Zeros(length), Zeros(length))
    else exists i :: 0 <= i < |st.tried| && TrueLine(mult, sha, length, line, st.tried[i])
  }

  ghost predicate PublicKeysFit(mult: Bytes -> Option<Bytes>, length: nat) {
    forall x :: mult(x).Some? ==> |mult(x).value| == length
  }

  /** Rows of a run have buffers of twice the length when public keys have the length of seeds. */
  lemma RowWidths(mult: Bytes -> Option<Bytes>, sha: Bytes -> Bytes, random: nat -> Bytes,
                  length: nat, width: nat, rows: nat, n: nat, r: nat)
    requires Widths(sha, random, length, width) && width == 2 * length && PublicKeysFit(mult, length) && r < rows
    requires Run(Ed25519(mult, sha, random, length), Blank(Zeros(width), width, rows), n).Some?
    ensures var blank := Blank(Zeros(width), width, rows);
            var row := OfferAll(blank, Run(Ed25519(mult, sha, random, length), blank, n).value.entries)[r];
            |row.payload| == |row.hash| == width
  {
    RowsOfARun(mult, sha, random, length, width, rows, n, r);
  }

  lemma PrefixesAscend(a: Bytes, b: Bytes, n: nat)
    requires n <= |a| && n <= |b| && Less(b[..n], a[..n])
    ensures Less(b, a)
  {
    var k :| 0 <= k < n && b[..n][..k] == a[..n][..k] && b[..n][k] < a[..n][k];
    assert b[..k] == b[..n][..k] && a[..k] == a[..n][..k];
  }

  /** The whole program.  It goes on until the first reading of the clock at which the requested time is over and there
      have been numKeys rounds, and shows the table of that run in ascending order of the hashes.  The first lines are
      blank, one for each hash above zero that this run lacks; every other line holds what belongs to one seed. */
  method MainEd25519(mult: Bytes -> Option<Bytes>, sha: Bytes -> Bytes, random: nat -> Bytes, length: nat, width: nat,
                     numKeys: nat, batch: nat, elapsed: nat -> int, requested: int, ghost patience: nat)
    returns (out: Option<seq<Line>>, runs: nat, last: nat)
    requires length >= 3 && width == 2 * length && batch > 0
    requires (forall i :: |random(i)| == length) && forall x :: |sha(x)| == width
    requires forall x :: mult(x).Some? ==> |mult(x).value| == length
    requires forall k :: k >= patience ==> elapsed(k) >= 0 && elapsed(k) >= requested
    ensures Ended(elapsed, requested, batch, numKeys, out.Some?, runs, last)
    ensures var tool, blank := Ed25519(mult, sha, random, length), Blank(Zeros(width), width, numKeys);
            && Run(tool, blank, runs).Some?
            && (out == None ==> mult(sha(Run(tool, blank, runs).value.secret)) == None)
            && (out.Some? ==> |out.value| == numKeys)
    ensures out.Some? ==>
              forall i, j :: 0 <= i < j < numKeys ==> !Less(out.value[j].hash, out.value[i].hash)
    ensures var st := Run(Ed25519(mult, sha, random, length), Blank(Zeros(width), width, numKeys), runs).value;
            out.Some? ==>
              forall r :: 0 <= r < numKeys ==>
                LineShows(mult, sha, length, numKeys, st, r, out.value[r])
  {
    assert Widths(sha, random, length, width) && PublicKeysFit(mult, length);
    var ok, sks, hashes;
    ok, sks, hashes, runs, last :=
      Search(mult, sha, random, length, width, numKeys, batch, elapsed, requested, patience);
    if !ok {
      return None, runs, last;
    }
    ColumnWidths(mult, sha, random, length, width, numKeys, runs, sks, hashes);
    var lines := PrintRows(sks, hashes, length);
    out := Some(lines);
    LinesAreTrue(mult, sha, random, length, width, numKeys, runs, sks, hashes, lines);
    LinesInOrder(mult, sha, random, length, width, numKeys, runs, sks, hashes, lines);
  }

  lemma ColumnWidths(mult: Bytes -> Option<Bytes>, sha: Bytes -> Bytes, random: nat -> Bytes,
                     length: nat, width: nat, rows: nat, n: nat, sks: seq<Bytes>, hashes: seq<Bytes>)
    requires Widths(sha, random, length, width) && width == 2 * length && PublicKeysFit(mult, length)
    requires Run(Ed25519(mult, sha, random, length), Blank(Zeros(width), width, rows), n).Some?
    requires var blank := Blank(Zeros(width), width, rows);
             Columns(OfferAll(blank, Run(Ed25519(mult, sha, random, length), blank, n).value.entries), sks, hashes)
    ensures |sks| == |hashes| == rows
    ensures forall r :: 0 <= r < rows ==> |sks[r]| == |hashes[r]| == width
  {
    forall r | 0 <= r < rows {
      RowWidths(mult, sha, random, length, width, rows, n, r);
    }
  }

  lemma LinesAreTrue(mult: Bytes -> Option<Bytes>, sha: Bytes -> Bytes, random: nat -> Bytes,
                     length: nat, width: nat, rows: nat, n: nat, sks: seq<Bytes>, hashes: seq<Bytes>, lines: seq<Line>)
    requires Widths(sha, random, length, width) && width == 2 * length >= 5
    requires Run(Ed25519(mult, sha, random, length), Blank(Zeros(width), width, rows), n).Some?
    requires var blank := Blank(Zeros(width), width, rows);
             Columns(OfferAll(blank, Run(Ed25519(mult, sha, random, length), blank, n).value.entries), sks, hashes)
    requires |lines| == |sks| == |hashes| == rows
    requires forall r :: 0 <= r < rows ==> |sks[r]| == |hashes[r]| == width
    requires forall r :: 0 <= r < rows ==> lines[r] == Line(hashes[r][..5], sks[r][..length], sks[r][length..])
    ensures var st := Run(Ed25519(mult, sha, random, length), Blank(Zeros(width), width, rows), n).value;
            forall r :: 0 <= r < rows ==>
              LineShows(mult, sha, length, rows, st, r, lines[r])
  {
    forall r | 0 <= r < rows {
      LineIsTrue(mult, sha, random, length, width, rows, n, sks, hashes, lines, r);
    }
  }

  lemma LinesInOrder(mult: Bytes -> Option<Bytes>, sha: Bytes -> Bytes, random: nat -> Bytes,
                     length: nat, width: nat, rows: nat, n: nat, sks: seq<Bytes>, hashes: seq<Bytes>, lines: seq<Line>)
    requires Widths(sha, random, length, width)
    requires Run(Ed25519(mult, sha, random, length), Blank(Zeros(width), width, rows), n).Some?
    requires var blank := Blank(Zeros(width), width, rows);
             Columns(OfferAll(blank, Run(Ed25519(mult, sha, random, length), blank, n).value.entries), sks, hashes)
    requires |lines| == |hashes| == rows
    requires forall r :: 0 <= r < rows ==> |hashes[r]| >= 5 && lines[r].hash == hashes[r][..5]
    ensures forall i, j :: 0 <= i < j < rows ==> !Less(lines[j].hash, lines[i].hash)
  {
    HashesOfARun(mult, sha, random, length, width, rows, n);
    forall i, j | 0 <= i < j < rows
      ensures !Less(lines[j].hash, lines[i].hash)
    {
      if Less(hashes[j][..5], hashes[i][..5]) {
        PrefixesAscend(hashes[i], hashes[j], 5);
      }
    }
  }

  /** Line by line: blank as long as hashes above zero are lacking, true otherwise. */
  lemma LineIsTrue(mult: Bytes -> Option<Bytes>, sha: Bytes -> Bytes, random: nat -> Bytes,
                   length: nat, width: nat, rows: nat, n: nat, sks: seq<Bytes>, hashes: seq<Bytes>, lines: seq<Line>,
                   r: nat)
    requires Widths(sha, random, length, width) && width == 2 * length >= 5 && r < rows
    requires Run(Ed25519(mult, sha, random, length), Blank(Zeros(width), width, rows), n).Some?
    requires var blank := Blank(Zeros(width), width, rows);
             Columns(OfferAll(blank, Run(Ed25519(mult, sha, random, length), blank, n).value.entries), sks, hashes)
    requires |lines| == rows && length <= |sks[r]| && |hashes[r]| >= 5
    requires lines[r] == Line(hashes[r][..5], sks[r][..length], sks[r][length..])
    ensures var st := Run(Ed25519(mult, sha, random, length), Blank(Zeros(width), width, rows), n).value;
            LineShows(mult, sha, length, rows, st, r, lines[r])
  {
    var blank := Blank(Zeros(width), width, rows);
    var st := Run(Ed25519(mult, sha, random, length), blank, n).value;
    var row := OfferAll(blank, st.entries)[r];
    BlankRows(mult, sha, random, length, width, rows, n, r);
    if r >= rows - CountAbove(Score, 0, st.entries) {
      var i :| 0 <= i < |st.tried| && FromSeed(mult, sha, length, row, st.tried[i]);
    }
  }
}
