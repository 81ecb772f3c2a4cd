/** The concurrent key search: workers generate keys and send those that improve on their own best through a
    bounded FIFO channel; a collector prints those that improve on the best it has received.  Here a smaller
    public key is the better one. */
module GenKeys {
  import opened ByteStrings
  import opened Options

  datatype KeySet = KeySet(priv: Bytes, pub: Bytes)

  method IsBetter(oldPub: Bytes, newPub: Bytes) returns (better: bool)
    requires |oldPub| <= |newPub|
    ensures better <==> Less(newPub, oldPub)
  {
    var idx := 0;
    while idx < |oldPub|
      invariant idx <= |oldPub| && newPub[..idx] == oldPub[..idx]
    {
      if newPub[idx] < oldPub[idx] {
        return true;
      }
      if newPub[idx] > oldPub[idx] {
        break;
      }
      idx := idx + 1;
    }
    if idx < |oldPub| {
      DiffersAbove(newPub, oldPub, idx);
    } else {
      EqualPrefix(newPub, oldPub);
    }
    return false;
  }

  // ---- the loops on their own ----

  /** bestKey of a worker after it has generated these keys. */
  function WorkerBest(width: nat, generated: seq<KeySet>): (best: Bytes)
    decreases |generated|
  {
    if generated == [] then AllOnes(width)
    else
      var before := WorkerBest(width, generated[..|generated| - 1]);
      var key := generated[|generated| - 1];
      if Less(key.pub, before) then key.pub else before
  }

  /** What a worker sends, in order. */
  function Sends(width: nat, generated: seq<KeySet>): (sent: seq<KeySet>)
    decreases |generated|
  {
    if generated == [] then []
    else
      var butLast := generated[..|generated| - 1];
      var key := generated[|generated| - 1];
      Sends(width, butLast) + if Less(key.pub, WorkerBest(width, butLast)) then [key] else []
  }

  /** currentBest of the collector after it has received these keys; empty before the first. */
  function CurrentBest(received: seq<KeySet>): (best: Bytes)
    decreases |received|
  {
    if received == [] then []
    else
      var before := CurrentBest(received[..|received| - 1]);
      var key := received[|received| - 1];
      if Less(key.pub, before) || before == [] then key.pub else before
  }

  function Printed(received: seq<KeySet>): (keys: seq<KeySet>)
    decreases |received|
  {
    if received == [] then []
    else
      var butLast := received[..|received| - 1];
      var key := received[|received| - 1];
      Printed(butLast) +
      if Less(key.pub, CurrentBest(butLast)) || CurrentBest(butLast) == [] then [key] else []
  }

  ghost predicate HaveWidth(keys: seq<KeySet>, width: nat) {
    forall i :: 0 <= i < |keys| ==> |keys[i].pub| == width
  }

  lemma {:induction false} WorkerBestWidth(width: nat, generated: seq<KeySet>)
    requires HaveWidth(generated, width)
    ensures |WorkerBest(width, generated)| == width
    decreases |generated|
  {
    if generated != [] {
      WorkerBestWidth(width, generated[..|generated| - 1]);
    }
  }

  lemma {:induction false} CurrentBestWidth(width: nat, received: seq<KeySet>)
    requires HaveWidth(received, width)
    ensures received != [] ==> |CurrentBest(received)| == width
    decreases |received|
  {
    if received != [] {
      CurrentBestWidth(width, received[..|received| - 1]);
    }
  }

  lemma OneMore<T>(s: seq<T>, i: nat)
    requires i < |s|
    ensures s[..i + 1] == s[..i] + [s[i]] && s[..i + 1][..i] == s[..i]
  {
  }

  /** The worker's loop over the keys it happens to generate. */
  method DoKeys(generated: seq<KeySet>, width: nat) returns (sent: seq<KeySet>)
    requires HaveWidth(generated, width)
    ensures sent == Sends(width, generated)
  {
    var bestKey := AllOnes(width);
    sent := [];
    for n := 0 to |generated|
      invariant bestKey == WorkerBest(width, generated[..n])
      invariant sent == Sends(width, generated[..n])
    {
      var key := generated[n];
      OneMore(generated, n);
      WorkerBestWidth(width, generated[..n]);
      var better := IsBetter(bestKey, key.pub);
      if !better {
        continue;
      }
      bestKey := key.pub;
      sent := sent + [key];
    }
    assert generated[..|generated|] == generated;
  }

  /** The collector's loop over the keys it happens to receive. */
  method Collect(received: seq<KeySet>, width: nat) returns (currentBest: Bytes, printed: seq<KeySet>)
    requires HaveWidth(received, width)
    ensures currentBest == CurrentBest(received) && printed == Printed(received)
  {
    currentBest, printed := [], [];
    for n := 0 to |received|
      invariant currentBest == CurrentBest(received[..n]) && printed == Printed(received[..n])
    {
      var newKey := received[n];
      OneMore(received, n);
      CurrentBestWidth(width, received[..n]);
      var better := IsBetter(currentBest, newKey.pub);
      if better || |currentBest| == 0 {
        currentBest := newKey.pub;
        printed := printed + [newKey];
      }
    }
    assert received[..|received|] == received;
  }

  // ---- what the loops achieve, in terms of the keys as numbers ----

  function Rank(key: KeySet): (v: nat) {
    BigEndian(key.pub)
  }

  ghost predicate Improving(keys: seq<KeySet>) {
    forall i, j :: 0 <= i < j < |keys| ==> Rank(keys[j]) < Rank(keys[i])
  }

  /** A worker's best is no worse than anything it generated, nor than its start value. */
  lemma {:induction false} WorkerBestIsBound(width: nat, generated: seq<KeySet>)
    requires HaveWidth(generated, width)
    ensures |WorkerBest(width, generated)| == width
    ensures BigEndian(WorkerBest(width, generated)) <= BigEndian(AllOnes(width))
    ensures forall i :: 0 <= i < |generated| ==> BigEndian(WorkerBest(width, generated)) <= Rank(generated[i])
    decreases |generated|
  {
    if generated != [] {
      var butLast, key := generated[..|generated| - 1], generated[|generated| - 1];
      var before, after := WorkerBest(width, butLast), WorkerBest(width, generated);
      WorkerBestIsBound(width, butLast);
      LessIffBigEndian(key.pub, before);
      assert BigEndian(after) <= BigEndian(before) && BigEndian(after) <= Rank(key);
      forall i | 0 <= i < |generated|
        ensures BigEndian(after) <= Rank(generated[i])
      {
        if i < |butLast| {
          assert generated[i] == butLast[i];
        }
      }
    }
  }

  /** It is the last key the worker sent, or the start value if it sent none. */
  lemma {:induction false} WorkerBestIsLastSent(width: nat, generated: seq<KeySet>)
    ensures var sent, best := Sends(width, generated), WorkerBest(width, generated);
            if sent == [] then best == AllOnes(width) else best == sent[|sent| - 1].pub
    decreases |generated|
  {
    if generated != [] {
      WorkerBestIsLastSent(width, generated[..|generated| - 1]);
    }
  }

  /** A worker sends keys it generated, each better than the one before and none of them the start value. */
  lemma {:induction false} SendsImprove(width: nat, generated: seq<KeySet>)
    requires HaveWidth(generated, width)
    ensures var sent := Sends(width, generated);
            && Improving(sent)
            && forall i :: 0 <= i < |sent| ==>
                 sent[i] in generated && Rank(sent[i]) < BigEndian(AllOnes(width)) &&
                 BigEndian(WorkerBest(width, generated)) <= Rank(sent[i])
    decreases |generated|
  {
    if generated != [] {
      var butLast, key := generated[..|generated| - 1], generated[|generated| - 1];
      SendsImprove(width, butLast);
      WorkerBestIsBound(width, butLast);
      LessIffBigEndian(key.pub, WorkerBest(width, butLast));
      var prior, sent := Sends(width, butLast), Sends(width, generated);
      forall i | 0 <= i < |sent|
        ensures sent[i] in generated
      {
        if i < |prior| {
          assert sent[i] == prior[i] && prior[i] in butLast;
        }
      }
    }
  }

  /** The collector's best is the best of what it has received. */
  lemma {:induction false} CurrentBestIsBound(width: nat, received: seq<KeySet>)
    requires width > 0 && HaveWidth(received, width)
    ensures received != [] ==> |CurrentBest(received)| == width
    ensures forall i :: 0 <= i < |received| ==> BigEndian(CurrentBest(received)) <= Rank(received[i])
    decreases |received|
  {
    if received != [] {
      var butLast, key := received[..|received| - 1], received[|received| - 1];
      var before, after := CurrentBest(butLast), CurrentBest(received);
      CurrentBestIsBound(width, butLast);
      if butLast != [] {
        LessIffBigEndian(key.pub, before);
      }
      forall i | 0 <= i < |received|
        ensures BigEndian(after) <= Rank(received[i])
      {
        if i < |butLast| {
          assert received[i] == butLast[i];
        }
      }
    }
  }

  /** It is the last key printed; the printed keys were received, and each is better than the one before. */
  lemma {:induction false} PrintedImprove(width: nat, received: seq<KeySet>)
    requires width > 0 && HaveWidth(received, width)
    ensures var printed := Printed(received);
            && (received == [] <==> printed == [])
            && (printed != [] ==> CurrentBest(received) == printed[|printed| - 1].pub)
            && (forall i :: 0 <= i < |printed| ==> printed[i] in received)
            && (forall i :: 0 <= i < |printed| ==> BigEndian(CurrentBest(received)) <= Rank(printed[i]))
            && Improving(printed)
    decreases |received|
  {
    if received != [] {
      var butLast, key := received[..|received| - 1], received[|received| - 1];
      PrintedImprove(width, butLast);
      CurrentBestIsBound(width, butLast);
      if butLast != [] {
        LessIffBigEndian(key.pub, CurrentBest(butLast));
      }
      var prior, printed := Printed(butLast), Printed(received);
      forall i | 0 <= i < |printed|
        ensures printed[i] in received
      {
        if i < |prior| {
          assert printed[i] == prior[i] && prior[i] in butLast;
        }
      }
    }
  }

  /** sub is s with some entries left out. */
  ghost predicate Subsequence<T>(sub: seq<T>, s: seq<T>)
    decreases |s|
  {
    if s == [] then sub == []
    else
      Subsequence(sub, s[..|s| - 1]) ||
      (sub != [] && sub[|sub| - 1] == s[|s| - 1] && Subsequence(sub[..|sub| - 1], s[..|s| - 1]))
  }

  lemma {:induction false} PrintedInOrder(received: seq<KeySet>)
    ensures Subsequence(Printed(received), received)
    decreases |received|
  {
    if received != [] {
      var butLast := received[..|received| - 1];
      PrintedInOrder(butLast);
      var p := Printed(received);
      assert p != Printed(butLast) ==> p[..|p| - 1] == Printed(butLast);
    }
  }

  // ---- the system: any number of workers, one channel, one collector ----

  /** A worker between two steps; pending is the key its send is waiting to deliver. */
  datatype Worker = Worker(bestKey: Bytes, pending: Option<KeySet>)

  /** A key on its way, with the worker that sent it. */
  datatype Message = Message(sender: nat, key: KeySet)

  /** The last three parts are history: what each worker has generated, everything ever put into the channel,
      and how much of that has been received. */
  datatype State = State(workers: seq<Worker>, channel: seq<KeySet>, currentBest: Bytes, printed: seq<KeySet>,
                         generated: seq<seq<KeySet>>, log: seq<Message>, received: nat)

  datatype Action = Generate(worker: nat, key: KeySet) | Send(worker: nat) | Receive

  datatype Setup = Setup(threads: nat, width: nat, capacity: nat)

  function Initial(setup: Setup): (s: State) {
    State(seq(setup.threads, _ => Worker(AllOnes(setup.width), None)), [], [], [],
          seq(setup.threads, _ => []), [], 0)
  }

  predicate Enabled(setup: Setup, s: State, a: Action) {
    match a
    case Generate(i, key) =>
      i < |s.workers| && s.workers[i].pending == None && |key.pub| == setup.width && i < |s.generated|
    case Send(i) => i < |s.workers| && s.workers[i].pending.Some? && |s.channel| < setup.capacity
    case Receive => s.channel != []
  }

  function Next(setup: Setup, s: State, a: Action): (s': State)
    requires Enabled(setup, s, a)
  {
    match a
    case Generate(i, key) =>
      var better := Less(key.pub, s.workers[i].bestKey);
      s.(workers := if better then s.workers[i := Worker(key.pub, Some(key))] else s.workers,
         generated := s.generated[i := s.generated[i] + [key]])
    case Send(i) =>
      var key := s.workers[i].pending.value;
      s.(workers := s.workers[i := s.workers[i].(pending := None)],
         channel := s.channel + [key],
         log := s.log + [Message(i, key)])
    case Receive =>
      var key := s.channel[0];
      var better := Less(key.pub, s.currentBest) || s.currentBest == [];
      s.(channel := s.channel[1..],
         currentBest := if better then key.pub else s.currentBest,
         printed := if better then s.printed + [key] else s.printed,
         received := s.received + 1)
  }

  /** The state after an interleaving; None if some action could not happen when its turn came. */
  function Run(setup: Setup, actions: seq<Action>): (r: Option<State>)
    decreases |actions|
  {
    if actions == [] then Some(Initial(setup))
    else
      var last := actions[|actions| - 1];
      match Run(setup, actions[..|actions| - 1])
      case None => None
      case Some(s) => if Enabled(setup, s, last) then Some(Next(setup, s, last)) else None
  }

  function Keys(log: seq<Message>): (keys: seq<KeySet>)
    ensures |keys| == |log|
    ensures forall i :: 0 <= i < |log| ==> keys[i] == log[i].key
  {
    seq(|log|, i requires 0 <= i < |log| => log[i].key)
  }

  /** What worker i has put into the channel, in order. */
  function SentBy(log: seq<Message>, i: nat): (keys: seq<KeySet>)
    decreases |log|
  {
    if log == [] then []
    else
      var last := log[|log| - 1];
      SentBy(log[..|log| - 1], i) + if last.sender == i then [last.key] else []
  }

  function Pending(w: Worker): (keys: seq<KeySet>) {
    if w.pending.Some? then [w.pending.value] else []
  }

  /** Worker i is where its own loop would be after the keys it has generated. */
  ghost predicate WorkerInStep(setup: Setup, s: State, i: nat)
    requires i < |s.workers| && i < |s.generated|
  {
    && HaveWidth(s.generated[i], setup.width)
    && s.workers[i].bestKey == WorkerBest(setup.width, s.generated[i])
    && SentBy(s.log, i) + Pending(s.workers[i]) == Sends(setup.width, s.generated[i])
  }

  /** The collector is where its own loop would be after the messages received, and the rest is in the channel. */
  ghost predicate CollectorInStep(setup: Setup, s: State) {
    && s.received <= |s.log|
    && s.channel == Keys(s.log[s.received..])
    && |s.channel| <= setup.capacity
    && s.currentBest == CurrentBest(Keys(s.log[..s.received]))
    && s.printed == Printed(Keys(s.log[..s.received]))
  }

  ghost predicate InStep(setup: Setup, s: State) {
    && |s.workers| == |s.generated| == setup.threads
    && (forall i :: 0 <= i < setup.threads ==> WorkerInStep(setup, s, i))
    && CollectorInStep(setup, s)
    && (forall n :: 0 <= n < |s.log| ==> s.log[n].sender < setup.threads)
  }

  lemma SentByOneMore(log: seq<Message>, m: Message, i: nat)
    ensures SentBy(log + [m], i) == SentBy(log, i) + if m.sender == i then [m.key] else []
  {
  }

  lemma SendsOneMore(width: nat, generated: seq<KeySet>, key: KeySet)
    ensures WorkerBest(width, generated + [key]) ==
            if Less(key.pub, WorkerBest(width, generated)) then key.pub else WorkerBest(width, generated)
    ensures Sends(width, generated + [key]) ==
            Sends(width, generated) + if Less(key.pub, WorkerBest(width, generated)) then [key] else []
  {
  }

  lemma CollectorOneMore(received: seq<KeySet>, key: KeySet)
    ensures var better := Less(key.pub, CurrentBest(received)) || CurrentBest(received) == [];
            && CurrentBest(received + [key]) == (if better then key.pub else CurrentBest(received))
            && Printed(received + [key]) == Printed(received) + if better then [key] else []
  {
  }

  lemma GenerateStaysInStep(setup: Setup, s: State, i: nat, key: KeySet)
    requires InStep(setup, s) && Enabled(setup, s, Generate(i, key))
    ensures InStep(setup, Next(setup, s, Generate(i, key)))
  {
    var s' := Next(setup, s, Generate(i, key));
    SendsOneMore(setup.width, s.generated[i], key);
    forall k | 0 <= k < setup.threads
      ensures WorkerInStep(setup, s', k)
    {
      assert WorkerInStep(setup, s, k);
    }
  }

  lemma SendStaysInStep(setup: Setup, s: State, i: nat)
    requires InStep(setup, s) && Enabled(setup, s, Send(i))
    ensures InStep(setup, Next(setup, s, Send(i)))
  {
    var s' := Next(setup, s, Send(i));
    var m := Message(i, s.workers[i].pending.value);
    forall k | 0 <= k < setup.threads
      ensures WorkerInStep(setup, s', k)
    {
      assert WorkerInStep(setup, s, k);
      SentByOneMore(s.log, m, k);
    }
    assert s'.log[s'.received..] == s.log[s.received..] + [m];
    assert s'.log[..s'.received] == s.log[..s.received];
  }

  lemma ReceiveStaysInStep(setup: Setup, s: State)
    requires InStep(setup, s) && Enabled(setup, s, Receive)
    ensures InStep(setup, Next(setup, s, Receive))
  {
    var s' := Next(setup, s, Receive);
    forall k | 0 <= k < setup.threads
      ensures WorkerInStep(setup, s', k)
    {
      assert WorkerInStep(setup, s, k);
    }
    CollectorOneMore(Keys(s.log[..s.received]), s.channel[0]);
    assert Keys(s.log[..s.received]) + [s.channel[0]] == Keys(s'.log[..s'.received]);
    assert s'.channel == Keys(s'.log[s'.received..]);
  }

  /** Every interleaving keeps every worker and the collector in step with their loops on their own. */
  lemma {:induction false} RunStaysInStep(setup: Setup, actions: seq<Action>)
    requires Run(setup, actions).Some?
    ensures InStep(setup, Run(setup, actions).value)
    decreases |actions|
  {
    if actions != [] {
      var s, a := Run(setup, actions[..|actions| - 1]).value, actions[|actions| - 1];
      RunStaysInStep(setup, actions[..|actions| - 1]);
      match a
      case Generate(i, key) => GenerateStaysInStep(setup, s, i, key);
      case Send(i) => SendStaysInStep(setup, s, i);
      case Receive => ReceiveStaysInStep(setup, s);
    }
  }

  lemma {:induction false} SentIsLogged(log: seq<Message>, i: nat, key: KeySet) returns (n: nat)
    requires key in SentBy(log, i)
    ensures n < |log| && log[n] == Message(i, key)
    decreases |log|
  {
    var last := log[|log| - 1];
    if last == Message(i, key) {
      n := |log| - 1;
    } else {
      n := SentIsLogged(log[..|log| - 1], i, key);
    }
  }

  lemma {:induction false} LoggedWasSent(log: seq<Message>, n: nat)
    requires n < |log|
    ensures log[n].key in SentBy(log, log[n].sender)
    decreases |log|
  {
    if n < |log| - 1 {
      LoggedWasSent(log[..|log| - 1], n);
    }
  }

  /** A key at least as good is the current best, in the channel, or waiting to be sent. */
  ghost predicate Accounted(s: State, key: KeySet) {
    || (s.currentBest != [] && BigEndian(s.currentBest) <= Rank(key))
    || (exists n :: 0 <= n < |s.channel| && Rank(s.channel[n]) <= Rank(key))
    || (exists i :: 0 <= i < |s.workers| && s.workers[i].pending.Some? && Rank(s.workers[i].pending.value) <= Rank(key))
  }

  /** What a worker has sent, or waits to send, is a key of its own that beats the start value. */
  lemma SentWasGenerated(setup: Setup, s: State, i: nat, key: KeySet)
    requires InStep(setup, s) && i < setup.threads
    requires key in SentBy(s.log, i) + Pending(s.workers[i])
    ensures key in s.generated[i] && |key.pub| == setup.width && Less(key.pub, AllOnes(setup.width))
  {
    assert WorkerInStep(setup, s, i);
    SendsImprove(setup.width, s.generated[i]);
    LessIffBigEndian(key.pub, AllOnes(setup.width));
  }

  lemma LoggedWasGenerated(setup: Setup, s: State, n: nat)
    requires InStep(setup, s) && n < |s.log|
    ensures var key := s.log[n].key;
            key in s.generated[s.log[n].sender] && |key.pub| == setup.width && Less(key.pub, AllOnes(setup.width))
  {
    LoggedWasSent(s.log, n);
    SentWasGenerated(setup, s, s.log[n].sender, s.log[n].key);
  }

  lemma ReceivedHaveWidth(setup: Setup, s: State)
    requires InStep(setup, s)
    ensures HaveWidth(Keys(s.log[..s.received]), setup.width)
  {
    forall k | 0 <= k < s.received
      ensures |s.log[..s.received][k].key.pub| == setup.width
    {
      LoggedWasGenerated(setup, s, k);
    }
  }

  lemma LoggedIsAccounted(setup: Setup, s: State, n: nat, key: KeySet)
    requires InStep(setup, s) && setup.width > 0 && n < |s.log| && Rank(s.log[n].key) <= Rank(key)
    ensures Accounted(s, key)
  {
    if n < s.received {
      var received := Keys(s.log[..s.received]);
      assert received[n] == s.log[n].key;
      ReceivedHaveWidth(setup, s);
      CurrentBestIsBound(setup.width, received);
    } else {
      assert s.channel[n - s.received] == s.log[n].key;
    }
  }

  /** No improvement is lost: in every interleaving, every key generated that beats the workers' start value has
      a key at least as good in the collector, in the channel or in a pending send. */
  lemma NothingIsLost(setup: Setup, actions: seq<Action>, i: nat, key: KeySet)
    requires setup.width > 0 && Run(setup, actions).Some?
    requires i < setup.threads && i < |Run(setup, actions).value.generated|
    requires key in Run(setup, actions).value.generated[i] && Less(key.pub, AllOnes(setup.width))
    ensures Accounted(Run(setup, actions).value, key)
  {
    var s := Run(setup, actions).value;
    RunStaysInStep(setup, actions);
    assert WorkerInStep(setup, s, i);
    var sent, best := Sends(setup.width, s.generated[i]), WorkerBest(setup.width, s.generated[i]);
    WorkerBestIsBound(setup.width, s.generated[i]);
    WorkerBestIsLastSent(setup.width, s.generated[i]);
    LessIffBigEndian(key.pub, AllOnes(setup.width));
    assert sent != [];
    var last := sent[|sent| - 1];
    assert Rank(last) <= Rank(key);
    if s.workers[i].pending == None {
      var n := SentIsLogged(s.log, i, last);
      LoggedIsAccounted(setup, s, n, key);
    } else {
      assert s.workers[i].pending.value == last;
    }
  }

  ghost predicate Quiet(s: State) {
    s.channel == [] && forall i :: 0 <= i < |s.workers| ==> s.workers[i].pending == None
  }

  ghost predicate WasGenerated(s: State, pub: Bytes) {
    exists i, n :: 0 <= i < |s.generated| && 0 <= n < |s.generated[i]| && s.generated[i][n].pub == pub
  }

  /** Once channel and pending sends are empty, the collector holds the exact minimum of everything generated by
      all workers that beats their start value, or nothing if there is no such key. */
  lemma QuietIsExact(setup: Setup, actions: seq<Action>)
    requires setup.width > 0 && Run(setup, actions).Some? && Quiet(Run(setup, actions).value)
    ensures var s := Run(setup, actions).value;
            && (forall pub :: WasGenerated(s, pub) && Less(pub, AllOnes(setup.width)) ==>
                  s.currentBest != [] && !Less(pub, s.currentBest))
            && (s.currentBest != [] ==>
                  WasGenerated(s, s.currentBest) && Less(s.currentBest, AllOnes(setup.width)))
  {
    var s := Run(setup, actions).value;
    RunStaysInStep(setup, actions);
    BestWasGenerated(setup, s);
    forall pub | WasGenerated(s, pub) && Less(pub, AllOnes(setup.width))
      ensures s.currentBest != [] && !Less(pub, s.currentBest)
    {
      var i, n :| 0 <= i < |s.generated| && 0 <= n < |s.generated[i]| && s.generated[i][n].pub == pub;
      assert WorkerInStep(setup, s, i);
      NothingIsLost(setup, actions, i, s.generated[i][n]);
      LessIffBigEndian(pub, s.currentBest);
    }
  }

  lemma BestWasGenerated(setup: Setup, s: State)
    requires setup.width > 0 && InStep(setup, s)
    ensures s.currentBest != [] ==>
              |s.currentBest| == setup.width && WasGenerated(s, s.currentBest) &&
              Less(s.currentBest, AllOnes(setup.width))
  {
    if s.currentBest != [] {
      ReceivedHaveWidth(setup, s);
      PrintedImprove(setup.width, Keys(s.log[..s.received]));
      var k := PrintedWasReceived(setup, s, |s.printed| - 1);
      LoggedWasGenerated(setup, s, k);
      var i, key := s.log[k].sender, s.log[k].key;
      var n :| 0 <= n < |s.generated[i]| && s.generated[i][n] == key;
    }
  }

  lemma PrintedWasReceived(setup: Setup, s: State, m: nat) returns (k: nat)
    requires setup.width > 0 && InStep(setup, s) && m < |s.printed|
    ensures k < s.received && s.log[k].key == s.printed[m]
  {
    var received := Keys(s.log[..s.received]);
    ReceivedHaveWidth(setup, s);
    PrintedImprove(setup.width, received);
    k :| 0 <= k < |received| && received[k] == s.printed[m];
  }

  /** What the traces of every interleaving look like: each worker's messages enter the channel in the order it
      generated them, strictly improving; the printed keys are a strictly improving subsequence of those
      received; the channel stays within its capacity; every printed pair comes from one generation. */
  lemma {:induction false} Traces(setup: Setup, actions: seq<Action>)
    requires setup.width > 0 && Run(setup, actions).Some?
    ensures var s := Run(setup, actions).value;
            && |s.generated| == setup.threads && s.received <= |s.log|
            && (forall i :: 0 <= i < setup.threads ==>
                  SentBy(s.log, i) <= Sends(setup.width, s.generated[i]) && Improving(SentBy(s.log, i)))
            && Subsequence(s.printed, Keys(s.log[..s.received])) && Improving(s.printed)
            && |s.channel| <= setup.capacity
            && forall n :: 0 <= n < |s.printed| ==>
                 exists i :: 0 <= i < setup.threads && s.printed[n] in s.generated[i]
  {
    var s := Run(setup, actions).value;
    RunStaysInStep(setup, actions);
    forall i | 0 <= i < setup.threads
      ensures SentBy(s.log, i) <= Sends(setup.width, s.generated[i]) && Improving(SentBy(s.log, i))
    {
      assert WorkerInStep(setup, s, i);
      SendsImprove(setup.width, s.generated[i]);
    }
    ReceivedHaveWidth(setup, s);
    PrintedInOrder(Keys(s.log[..s.received]));
    PrintedImprove(setup.width, Keys(s.log[..s.received]));
    forall n | 0 <= n < |s.printed|
      ensures exists i :: 0 <= i < setup.threads && s.printed[n] in s.generated[i]
    {
      var k := PrintedWasReceived(setup, s, n);
      LoggedWasGenerated(setup, s, k);
      assert s.printed[n] in s.generated[s.log[k].sender];
    }
  }

  function Waiting(s: State): (workers: set<nat>) {
    set i | 0 <= i < |s.workers| && s.workers[i].pending.Some?
  }

  /** While something is on its way, some send or receive can happen. */
  lemma DrainingAction(setup: Setup, s: State) returns (a: Action)
    requires !Quiet(s) && setup.capacity > 0
    ensures Enabled(setup, s, a) && !a.Generate?
    ensures var s' := Next(setup, s, a);
            && s'.generated == s.generated
            && (|Waiting(s')| < |Waiting(s)| || (Waiting(s') == Waiting(s) && |s'.channel| < |s.channel|))
  {
    if s.channel != [] {
      a := Receive;
      assert Waiting(Next(setup, s, a)) == Waiting(s);
    } else {
      var i :| 0 <= i < |s.workers| && s.workers[i].pending != None;
      a := Send(i);
      assert i in Waiting(s);
      assert Waiting(Next(setup, s, a)) == Waiting(s) - {i};
    }
  }

  /** If the workers pause, sends and receives alone can empty the channel and every pending send. */
  lemma {:induction false} CanBecomeQuiet(setup: Setup, actions: seq<Action>) returns (more: seq<Action>)
    requires Run(setup, actions).Some? && setup.capacity > 0
    ensures forall k :: 0 <= k < |more| ==> !more[k].Generate?
    ensures Run(setup, actions + more).Some? && Quiet(Run(setup, actions + more).value)
    ensures Run(setup, actions + more).value.generated == Run(setup, actions).value.generated
    decreases |Waiting(Run(setup, actions).value)|, |Run(setup, actions).value.channel|
  {
    var s := Run(setup, actions).value;
    if Quiet(s) {
      more := [];
      assert actions + more == actions;
    } else {
      var a := DrainingAction(setup, s);
      OneMoreAction(setup, actions, a);
      var rest := CanBecomeQuiet(setup, actions + [a]);
      more := [a] + rest;
      assert actions + more == (actions + [a]) + rest;
    }
  }

  lemma OneMoreAction(setup: Setup, actions: seq<Action>, a: Action)
    requires Run(setup, actions).Some? && Enabled(setup, Run(setup, actions).value, a)
    ensures Run(setup, actions + [a]) == Some(Next(setup, Run(setup, actions).value, a))
  {
  }

  // ---- which interleavings there are ----

  lemma LastAction(setup: Setup, actions: seq<Action>, a: Action)
    requires Run(setup, actions).Some?
    ensures Run(setup, actions + [a]) ==
            var s := Run(setup, actions).value; if Enabled(setup, s, a) then Some(Next(setup, s, a)) else None
  {
    assert (actions + [a])[..|actions|] == actions;
  }

  /** At any time a worker can generate a key, any key, exactly when it has sent all that it has to. */
  lemma {:induction false} GenerateExactly(setup: Setup, actions: seq<Action>, i: nat, key: KeySet)
    requires Run(setup, actions).Some? && i < setup.threads && |key.pub| == setup.width
    ensures var s := Run(setup, actions).value;
            && i < |s.generated|
            && (Run(setup, actions + [Generate(i, key)]).Some? <==>
                SentBy(s.log, i) == Sends(setup.width, s.generated[i]))
  {
    var s := Run(setup, actions).value;
    RunStaysInStep(setup, actions);
    LastAction(setup, actions, Generate(i, key));
    assert WorkerInStep(setup, s, i);
  }

  /** It can send exactly when it has something left to send and there is room in the channel. */
  lemma {:induction false} SendExactly(setup: Setup, actions: seq<Action>, i: nat)
    requires Run(setup, actions).Some? && i < setup.threads
    ensures var s := Run(setup, actions).value;
            && i < |s.generated| && s.received <= |s.log|
            && (Run(setup, actions + [Send(i)]).Some? <==>
                |SentBy(s.log, i)| < |Sends(setup.width, s.generated[i])| && |s.log| - s.received < setup.capacity)
  {
    var s := Run(setup, actions).value;
    RunStaysInStep(setup, actions);
    LastAction(setup, actions, Send(i));
    assert WorkerInStep(setup, s, i);
    assert |s.channel| == |s.log| - s.received;
  }

  /** The collector can receive exactly when not everything sent has been received. */
  lemma {:induction false} ReceiveExactly(setup: Setup, actions: seq<Action>)
    requires Run(setup, actions).Some?
    ensures var s := Run(setup, actions).value;
            Run(setup, actions + [Receive]).Some? <==> s.received < |s.log|
  {
    var s := Run(setup, actions).value;
    RunStaysInStep(setup, actions);
    LastAction(setup, actions, Receive);
    assert |s.channel| == |s.log| - s.received;
  }

  /** The keys that worker i generates in an interleaving. */
  function GeneratedIn(actions: seq<Action>, i: nat): (keys: seq<KeySet>)
    decreases |actions|
  {
    if actions == [] then []
    else
      var last := actions[|actions| - 1];
      GeneratedIn(actions[..|actions| - 1], i) + if last.Generate? && last.worker == i then [last.key] else []
  }

  function SendsIn(actions: seq<Action>): (senders: seq<nat>)
    decreases |actions|
  {
    if actions == [] then []
    else
      var last := actions[|actions| - 1];
      SendsIn(actions[..|actions| - 1]) + if last.Send? then [last.worker] else []
  }

  function ReceivesIn(actions: seq<Action>): (n: nat)
    decreases |actions|
  {
    if actions == [] then 0
    else ReceivesIn(actions[..|actions| - 1]) + if actions[|actions| - 1].Receive? then 1 else 0
  }

  function Senders(log: seq<Message>): (senders: seq<nat>)
    ensures |senders| == |log|
    ensures forall n :: 0 <= n < |log| ==> senders[n] == log[n].sender
  {
    seq(|log|, n requires 0 <= n < |log| => log[n].sender)
  }

  /** The history that a state keeps is that of the actions: the keys each worker generated, who sent in what order,
      and how much has been received. */
  lemma {:induction false} HistoryIsKept(setup: Setup, actions: seq<Action>)
    requires Run(setup, actions).Some?
    ensures var s := Run(setup, actions).value;
            && |s.generated| == setup.threads
            && (forall i :: 0 <= i < setup.threads ==> s.generated[i] == GeneratedIn(actions, i))
            && Senders(s.log) == SendsIn(actions)
            && s.received == ReceivesIn(actions)
    decreases |actions|
  {
    if actions != [] {
      var butLast, a := actions[..|actions| - 1], actions[|actions| - 1];
      var s := Run(setup, butLast).value;
      HistoryIsKept(setup, butLast);
      if a.Send? {
        var m := Message(a.worker, s.workers[a.worker].pending.value);
        assert Senders(s.log + [m]) == Senders(s.log) + [a.worker];
      }
    }
  }

  /** Whatever the workers generate, there is an interleaving in which they generate just that, and in which
      everything arrives. */
  lemma {:induction false} EveryGenerationArrives(setup: Setup, keys: seq<seq<KeySet>>, busy: nat)
    returns (actions: seq<Action>)
    requires setup.capacity > 0 && |keys| == setup.threads && busy <= setup.threads
    requires forall i :: 0 <= i < setup.threads ==> HaveWidth(keys[i], setup.width)
    requires forall i :: busy <= i < setup.threads ==> keys[i] == []
    ensures Run(setup, actions).Some?
    ensures Quiet(Run(setup, actions).value)
    ensures Run(setup, actions).value.generated == keys
    ensures forall i :: 0 <= i < setup.threads ==> GeneratedIn(actions, i) == keys[i]
    decreases busy, if busy > 0 then |keys[busy - 1]| else 0
  {
    if busy == 0 {
      actions := [];
    } else if keys[busy - 1] == [] {
      actions := EveryGenerationArrives(setup, keys, busy - 1);
    } else {
      var i := busy - 1;
      var n := |keys[i]| - 1;
      var fewer := keys[i := keys[i][..n]];
      var before := EveryGenerationArrives(setup, fewer, busy);
      var s, a := Run(setup, before).value, Generate(i, keys[i][n]);
      assert s.workers[i].pending == None by {
        RunStaysInStep(setup, before);
      }
      OneMoreAction(setup, before, a);
      var more := CanBecomeQuiet(setup, before + [a]);
      actions := before + [a] + more;
      assert keys[i] == fewer[i] + [keys[i][n]];
      assert Run(setup, before + [a]).value.generated == keys;
    }
    HistoryIsKept(setup, actions);
  }
}
