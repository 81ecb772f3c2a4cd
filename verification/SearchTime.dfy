/** How long the outer loop of both brute-force tools runs. */
module SearchTime {
  /** How far a counter is from its goal; no distance once it is past. */
  function Left(from: nat, to: nat): (n: nat) {
    if from < to then to - from else 0
  }

  /** After batch k the loop goes on: the requested time is not over, or the rounds are too few. */
  predicate GoesOn(elapsed: nat -> int, requested: int, batch: nat, numKeys: nat, k: nat) {
    elapsed(k) < 0 || elapsed(k) < requested || batch * (k + 1) < numKeys
  }

  /** How a search ends: after batch last, which is the first after which the loop does not go on; or, when the
      library fails, in that batch, with runs rounds done. */
  ghost predicate Ended(elapsed: nat -> int, requested: int, batch: nat, numKeys: nat, ok: bool, runs: nat, last: nat) {
    && (forall k: nat :: k < last ==> GoesOn(elapsed, requested, batch, numKeys, k))
    && if ok then runs == batch * (last + 1) && !GoesOn(elapsed, requested, batch, numKeys, last)
       else batch * last <= runs < batch * (last + 1)
  }

  /** In plain terms: a search that ends well has gone on to the first reading of the clock at which the requested
      time is over and there have been numKeys rounds; there is only one such reading. */
  lemma EndsOnce(elapsed: nat -> int, requested: int, batch: nat, numKeys: nat, ok: bool, runs: nat, last: nat, k: nat)
    requires Ended(elapsed, requested, batch, numKeys, ok, runs, last)
    ensures ok ==> runs == batch * (last + 1) && runs >= numKeys && elapsed(last) >= 0 && elapsed(last) >= requested
    ensures !ok ==> batch * last <= runs < batch * (last + 1)
    ensures k < last ==> elapsed(k) < 0 || elapsed(k) < requested || batch * (k + 1) < numKeys
    ensures ok && elapsed(k) >= 0 && elapsed(k) >= requested && batch * (k + 1) >= numKeys ==> last <= k
  {
    assert k < last ==> GoesOn(elapsed, requested, batch, numKeys, k);
  }

  /** From some reading on the clock has passed the limit. */
  ghost predicate PassesBy(elapsed: nat -> int, limit: int, patience: nat) {
    forall k: nat :: k >= patience ==> elapsed(k) >= limit
  }

  /** The batches after which the outer loop went on, each with the number of rounds so far. */
  datatype Batches = Begun | Later(earlier: Batches, rounds: nat)

  function Number(done: Batches): (n: nat) {
    match done
    case Begun => 0
    case Later(earlier, _) => Number(earlier) + 1
  }

  function RoundsOf(done: Batches): (n: nat) {
    if done.Begun? then 0 else done.rounds
  }

  ghost predicate WentOn(done: Batches, batch: nat, elapsed: nat -> int, limit: int, numKeys: nat) {
    match done
    case Begun => true
    case Later(earlier, rounds) =>
      && WentOn(earlier, batch, elapsed, limit, numKeys)
      && rounds == RoundsOf(earlier) + batch
      && !TimeIsUp(elapsed, limit, numKeys, Number(earlier), rounds)
  }

  ghost predicate TimeIsUp(elapsed: nat -> int, limit: int, numKeys: nat, last: nat, runs: nat) {
    elapsed(last) >= limit && runs >= numKeys
  }

  /** A bound on the batches still to come. */
  function StillToGo(done: Batches, patience: nat, numKeys: nat): (n: nat) {
    Left(Number(done), patience) + Left(RoundsOf(done), numKeys)
  }

  /** The condition at the end of the outer loop, with the reading of the clock after batch last. */
  method IsTimeUp(elapsed: nat -> int, limit: int, numKeys: nat, last: nat, batch: nat, runs: nat,
                  ghost done: Batches, ghost patience: nat)
    returns (stop: bool)
    requires WentOn(done, batch, elapsed, limit, numKeys) && last == Number(done)
    requires batch > 0 && runs == RoundsOf(done) + batch && PassesBy(elapsed, limit, patience)
    ensures stop <==> TimeIsUp(elapsed, limit, numKeys, last, runs)
    ensures !stop ==> WentOn(Later(done, runs), batch, elapsed, limit, numKeys)
    ensures !stop ==> StillToGo(Later(done, runs), patience, numKeys) < StillToGo(done, patience, numKeys)
  {
    stop := !(elapsed(last) < limit || runs < numKeys);
  }

  lemma {:induction false} WentOnUntil(done: Batches, batch: nat, elapsed: nat -> int, limit: int, numKeys: nat)
    requires WentOn(done, batch, elapsed, limit, numKeys)
    ensures RoundsOf(done) == batch * Number(done)
    ensures forall k: nat :: k < Number(done) ==> elapsed(k) < limit || batch * (k + 1) < numKeys
  {
    if done.Later? {
      WentOnUntil(done.earlier, batch, elapsed, limit, numKeys);
      var n := Number(done.earlier);
      assert batch * (n + 1) == batch * n + batch;
      assert elapsed(n) < limit || batch * (n + 1) < numKeys;
    }
  }

  lemma LoopEnded(done: Batches, batch: nat, elapsed: nat -> int, requested: int, limit: int, numKeys: nat,
                  ok: bool, runs: nat, last: nat)
    requires WentOn(done, batch, elapsed, limit, numKeys) && last == Number(done)
    requires limit == if requested < 0 then 0 else requested
    requires if ok then runs == RoundsOf(done) + batch && TimeIsUp(elapsed, limit, numKeys, last, runs)
             else RoundsOf(done) <= runs < RoundsOf(done) + batch
    ensures Ended(elapsed, requested, batch, numKeys, ok, runs, last)
  {
    WentOnUntil(done, batch, elapsed, limit, numKeys);
    forall j: nat | j < last
      ensures GoesOn(elapsed, requested, batch, numKeys, j)
    {
      assert elapsed(j) < limit || batch * (j + 1) < numKeys;
    }
    assert batch * (last + 1) == batch * last + batch;
  }

  lemma BatchesGrow(batch: nat, last: nat, j: nat)
    requires last <= j
    ensures batch * (last + 1) <= batch * (j + 1)
  {
    assert batch * (j + 1) == batch * (last + 1) + batch * (j - last);
  }
}
