/** testPeers: one goroutine probes each peer and sends its result over an unbuffered channel; the caller starts
    them all, then receives one result for each. */
module Probing {
  import opened Options

  datatype Url = Url(scheme: string, host: string)

  datatype Peer = Peer(url: Url, online: bool, latency: int)

  /** How dialling went. */
  datatype Dial = Refused | Connected(latency: int)

  predicate Supported(url: Url) {
    url.scheme == "tcp" || url.scheme == "tls"
  }

  /** The body of testPeer up to its one send. */
  method TestPeer(url: Url, dial: Dial) returns (p: Peer)
    ensures p == Result(url, dial)
    ensures p.url == url
    ensures p.online <==> (url.scheme == "tcp" || url.scheme == "tls") && dial.Connected?
    ensures p.latency == if p.online then dial.latency else 0
  {
    p := Peer(url, false, 0);
    if !Supported(url) {
      return;
    }
    if dial.Connected? {
      p := p.(online := true);
      p := p.(latency := dial.latency);
    }
  }

  function Result(url: Url, dial: Dial): (p: Peer) {
    if Supported(url) && dial.Connected? then Peer(url, true, dial.latency) else Peer(url, false, 0)
  }

  /** What a probe of url can yield, however dialling goes. */
  predicate Plausible(p: Peer, url: Url) {
    && p.url == url
    && (p.online ==> Supported(url))
    && (!p.online ==> p.latency == 0)
  }

  lemma ResultsArePlausible(p: Peer, url: Url)
    ensures Plausible(p, url) <==> exists dial :: p == Result(url, dial)
  {
    if Plausible(p, url) {
      assert p == Result(url, if p.online then Connected(p.latency) else Refused);
    }
  }

  // ---- the system ----

  datatype Probe = Running | Sending(result: Peer) | Done

  /** started goroutines, in the order of the peers; what the caller has received; whether it has returned. */
  datatype State = State(probes: seq<Probe>, received: seq<Peer>, returned: bool)

  datatype Action = Start | Finish(probe: nat, dial: Dial) | Rendezvous(probe: nat) | Return

  predicate Enabled(peers: seq<Url>, s: State, a: Action) {
    match a
    case Start => |s.probes| < |peers| && !s.returned
    case Finish(k, _) => k < |s.probes| && k < |peers| && s.probes[k] == Running
    case Rendezvous(k) => k < |s.probes| && s.probes[k].Sending? && |s.probes| >= |peers| && |s.received| < |peers|
    case Return => |s.probes| >= |peers| && |s.received| >= |peers| && !s.returned
  }

  function Next(peers: seq<Url>, s: State, a: Action): (s': State)
    requires Enabled(peers, s, a)
  {
    match a
    case Start => s.(probes := s.probes + [Running])
    case Finish(k, dial) => s.(probes := s.probes[k := Sending(Result(peers[k], dial))])
    case Rendezvous(k) => s.(probes := s.probes[k := Done], received := s.received + [s.probes[k].result])
    case Return => s.(returned := true)
  }

  /** The state after a schedule; None if some action could not happen when its turn came. */
  function Run(peers: seq<Url>, actions: seq<Action>): (r: Option<State>)
    decreases |actions|
  {
    if actions == [] then Some(State([], [], false))
    else
      var last := actions[|actions| - 1];
      match Run(peers, actions[..|actions| - 1])
      case None => None
      case Some(s) => if Enabled(peers, s, last) then Some(Next(peers, s, last)) else None
  }

  function Urls(results: seq<Peer>): (urls: seq<Url>)
    ensures |urls| == |results|
    ensures forall i :: 0 <= i < |results| ==> urls[i] == results[i].url
  {
    seq(|results|, i requires 0 <= i < |results| => results[i].url)
  }

  /** The urls whose results have not been received yet. */
  function Outstanding(peers: seq<Url>, probes: seq<Probe>): (m: multiset<Url>)
    requires |probes| <= |peers|
    decreases |probes|
  {
    if probes == [] then multiset{}
    else
      var n := |probes| - 1;
      Outstanding(peers, probes[..n]) + if probes[n] == Done then multiset{} else multiset{peers[n]}
  }

  /** How many steps the probes still have to take. */
  function StepsLeft(probes: seq<Probe>): (n: nat)
    decreases |probes|
  {
    if probes == [] then 0
    else
      var n := |probes| - 1;
      StepsLeft(probes[..n]) + match probes[n] case Running => 2 case Sending(_) => 1 case Done => 0
  }

  lemma {:induction false} AfterFinish(peers: seq<Url>, probes: seq<Probe>, k: nat, p: Peer)
    requires |probes| <= |peers| && k < |probes| && probes[k] == Running
    ensures Outstanding(peers, probes[k := Sending(p)]) == Outstanding(peers, probes)
    ensures StepsLeft(probes[k := Sending(p)]) == StepsLeft(probes) - 1
    decreases |probes|
  {
    var n := |probes| - 1;
    if k < n {
      AfterFinish(peers, probes[..n], k, p);
      assert probes[k := Sending(p)][..n] == probes[..n][k := Sending(p)];
    } else {
      assert probes[k := Sending(p)][..n] == probes[..n];
    }
  }

  lemma {:induction false} AfterRendezvous(peers: seq<Url>, probes: seq<Probe>, k: nat)
    requires |probes| <= |peers| && k < |probes| && probes[k].Sending?
    ensures Outstanding(peers, probes) == Outstanding(peers, probes[k := Done]) + multiset{peers[k]}
    ensures StepsLeft(probes[k := Done]) == StepsLeft(probes) - 1
    decreases |probes|
  {
    var n := |probes| - 1;
    if k < n {
      AfterRendezvous(peers, probes[..n], k);
      assert probes[k := Done][..n] == probes[..n][k := Done];
    } else {
      assert probes[k := Done][..n] == probes[..n];
    }
  }

  lemma {:induction false} NoneOutstanding(peers: seq<Url>, probes: seq<Probe>)
    requires |probes| <= |peers|
    ensures Outstanding(peers, probes) == multiset{} <==> StepsLeft(probes) == 0
    decreases |probes|
  {
    if probes != [] {
      NoneOutstanding(peers, probes[..|probes| - 1]);
    }
  }

  lemma {:induction false} AllDone(peers: seq<Url>, probes: seq<Probe>, k: nat)
    requires |probes| <= |peers| && StepsLeft(probes) == 0 && k < |probes|
    ensures probes[k] == Done
    decreases |probes|
  {
    if k < |probes| - 1 {
      AllDone(peers, probes[..|probes| - 1], k);
    }
  }

  lemma {:induction false} SomeNotDone(peers: seq<Url>, probes: seq<Probe>) returns (k: nat)
    requires |probes| <= |peers| && StepsLeft(probes) > 0
    ensures k < |probes| && probes[k] != Done
    decreases |probes|
  {
    k := |probes| - 1;
    if probes[k] == Done {
      k := SomeNotDone(peers, probes[..k]);
    }
  }

  /** Every url started is accounted for once: received, or outstanding. */
  ghost predicate Accounted(peers: seq<Url>, s: State) {
    && |s.probes| <= |peers|
    && multiset(Urls(s.received)) + Outstanding(peers, s.probes) == multiset(peers[..|s.probes|])
    && |s.received| + |Outstanding(peers, s.probes)| == |s.probes|
  }

  ghost predicate AllPlausible(peers: seq<Url>, s: State) {
    && |s.probes| <= |peers|
    && (forall k :: 0 <= k < |s.probes| && s.probes[k].Sending? ==> Plausible(s.probes[k].result, peers[k]))
    && (forall j :: 0 <= j < |s.received| ==> Plausible(s.received[j], s.received[j].url))
  }

  /** The steps taken and the steps still to take make up three for each peer and the return. */
  ghost predicate Counted(peers: seq<Url>, s: State, steps: nat) {
    && |s.probes| <= |peers|
    && (s.returned ==> |s.probes| == |peers| == |s.received|)
    && steps + 3 * (|peers| - |s.probes|) + StepsLeft(s.probes) + (if s.returned then 0 else 1) == 3 * |peers| + 1
  }

  ghost predicate Consistent(peers: seq<Url>, s: State, steps: nat) {
    Accounted(peers, s) && AllPlausible(peers, s) && Counted(peers, s, steps)
  }

  lemma {:induction false} OneMoreStarted(peers: seq<Url>, probes: seq<Probe>)
    requires |probes| < |peers|
    ensures Outstanding(peers, probes + [Running]) == Outstanding(peers, probes) + multiset{peers[|probes|]}
    ensures StepsLeft(probes + [Running]) == StepsLeft(probes) + 2
    ensures multiset(peers[..|probes| + 1]) == multiset(peers[..|probes|]) + multiset{peers[|probes|]}
  {
    assert (probes + [Running])[..|probes|] == probes;
    assert peers[..|probes| + 1] == peers[..|probes|] + [peers[|probes|]];
  }

  lemma StartStaysConsistent(peers: seq<Url>, s: State, steps: nat)
    requires Consistent(peers, s, steps) && Enabled(peers, s, Start)
    ensures Consistent(peers, Next(peers, s, Start), steps + 1)
  {
    OneMoreStarted(peers, s.probes);
  }

  lemma FinishStaysConsistent(peers: seq<Url>, s: State, steps: nat, k: nat, dial: Dial)
    requires Consistent(peers, s, steps) && Enabled(peers, s, Finish(k, dial))
    ensures Consistent(peers, Next(peers, s, Finish(k, dial)), steps + 1)
  {
    AfterFinish(peers, s.probes, k, Result(peers[k], dial));
  }

  lemma RendezvousStaysConsistent(peers: seq<Url>, s: State, steps: nat, k: nat)
    requires Consistent(peers, s, steps) && Enabled(peers, s, Rendezvous(k))
    ensures Consistent(peers, Next(peers, s, Rendezvous(k)), steps + 1)
  {
    var received' := s.received + [s.probes[k].result];
    AfterRendezvous(peers, s.probes, k);
    assert multiset(Urls(received')) == multiset(Urls(s.received)) + multiset{peers[k]} by {
      assert Urls(received') == Urls(s.received) + [peers[k]];
    }
  }

  lemma ReturnStaysConsistent(peers: seq<Url>, s: State, steps: nat)
    requires Consistent(peers, s, steps) && Enabled(peers, s, Return)
    ensures Consistent(peers, Next(peers, s, Return), steps + 1)
  {
  }

  lemma {:induction false} RunIsConsistent(peers: seq<Url>, actions: seq<Action>)
    requires Run(peers, actions).Some?
    ensures Consistent(peers, Run(peers, actions).value, |actions|)
    decreases |actions|
  {
    if actions != [] {
      var n := |actions| - 1;
      var s := Run(peers, actions[..n]).value;
      RunIsConsistent(peers, actions[..n]);
      match actions[n]
      case Start => StartStaysConsistent(peers, s, n);
      case Finish(k, dial) => FinishStaysConsistent(peers, s, n, k, dial);
      case Rendezvous(k) => RendezvousStaysConsistent(peers, s, n, k);
      case Return => ReturnStaysConsistent(peers, s, n);
    }
  }

  /** testPeers returns with every goroutine finished, none left blocked in its send, and with a result for each
      peer: the urls are a permutation of the input, and every result is what probing that url can yield. */
  lemma ReturnsEveryResult(peers: seq<Url>, actions: seq<Action>)
    requires Run(peers, actions).Some? && Run(peers, actions).value.returned
    ensures var s := Run(peers, actions).value;
            && |s.probes| == |peers| && (forall k :: 0 <= k < |s.probes| ==> s.probes[k] == Done)
            && multiset(Urls(s.received)) == multiset(peers)
            && (forall j :: 0 <= j < |s.received| ==> Plausible(s.received[j], s.received[j].url))
            && |actions| == 3 * |peers| + 1
  {
    var s := Run(peers, actions).value;
    RunIsConsistent(peers, actions);
    assert peers[..|peers|] == peers;
    assert |Outstanding(peers, s.probes)| == 0;
    NoneOutstanding(peers, s.probes);
    forall k | 0 <= k < |s.probes| {
      AllDone(peers, s.probes, k);
    }
  }

  /** No schedule gets stuck: until testPeers has returned some action is enabled, every action is one of a fixed
      number, 3 for each peer and the return, and once they are used up testPeers has returned. */
  lemma {:induction false} NeverStuck(peers: seq<Url>, actions: seq<Action>)
    requires Run(peers, actions).Some?
    ensures var s := Run(peers, actions).value;
            && |actions| <= 3 * |peers| + 1
            && (|actions| == 3 * |peers| + 1 <==> s.returned)
            && (!s.returned ==> exists a :: Enabled(peers, s, a))
  {
    var s := Run(peers, actions).value;
    RunIsConsistent(peers, actions);
    NoneOutstanding(peers, s.probes);
    if !s.returned {
      if |s.probes| < |peers| {
        assert Enabled(peers, s, Start);
      } else if |s.received| >= |peers| {
        assert Enabled(peers, s, Return);
      } else {
        StillOutstanding(peers, s, |actions|);
      }
    } else {
      ReturnsEveryResult(peers, actions);
    }
  }

  lemma StillOutstanding(peers: seq<Url>, s: State, steps: nat)
    requires Consistent(peers, s, steps) && |s.probes| == |peers| && |s.received| < |peers|
    ensures exists a :: Enabled(peers, s, a)
  {
    assert |Outstanding(peers, s.probes)| > 0;
    NoneOutstanding(peers, s.probes);
    var k := SomeNotDone(peers, s.probes);
    if s.probes[k] == Running {
      assert Enabled(peers, s, Finish(k, Refused));
    } else {
      assert Enabled(peers, s, Rendezvous(k));
    }
  }

  /** What has been sent or received is the result of a dial that has finished, and every such result is either. */
  ghost predicate FromDials(peers: seq<Url>, s: State, actions: seq<Action>) {
    && |s.probes| <= |peers|
    && (forall k :: 0 <= k < |s.probes| && s.probes[k].Sending? ==> FromADial(peers, actions, s.probes[k].result))
    && (forall j :: 0 <= j < |s.received| ==> FromADial(peers, actions, s.received[j]))
    && (forall a :: a in actions && a.Finish? ==>
          a.probe < |s.probes| &&
          (Result(peers[a.probe], a.dial) in s.received ||
           s.probes[a.probe] == Sending(Result(peers[a.probe], a.dial))))
  }

  /** Some dial of the schedule yields p. */
  ghost predicate FromADial(peers: seq<Url>, actions: seq<Action>, p: Peer) {
    exists a :: a in actions && a.Finish? && a.probe < |peers| && p == Result(peers[a.probe], a.dial)
  }

  lemma StepStaysFromDials(peers: seq<Url>, s: State, before: seq<Action>, a: Action)
    requires FromDials(peers, s, before) && Enabled(peers, s, a)
    ensures FromDials(peers, Next(peers, s, a), before + [a])
  {
    var s', actions := Next(peers, s, a), before + [a];
    assert a in actions;
    forall p | FromADial(peers, before, p)
      ensures FromADial(peers, actions, p)
    {
      var b :| b in before && b.Finish? && b.probe < |peers| && p == Result(peers[b.probe], b.dial);
      assert b in actions;
    }
    if a.Finish? {
      assert FromADial(peers, actions, Result(peers[a.probe], a.dial));
    }
    forall b | b in actions && b.Finish?
      ensures b.probe < |s'.probes|
      ensures Result(peers[b.probe], b.dial) in s'.received ||
              s'.probes[b.probe] == Sending(Result(peers[b.probe], b.dial))
    {
      if b in before && Result(peers[b.probe], b.dial) in s.received {
        assert s.received <= s'.received;
      }
    }
  }

  lemma {:induction false} RunIsFromDials(peers: seq<Url>, actions: seq<Action>)
    requires Run(peers, actions).Some?
    ensures FromDials(peers, Run(peers, actions).value, actions)
    decreases |actions|
  {
    if actions != [] {
      var n := |actions| - 1;
      RunIsFromDials(peers, actions[..n]);
      StepStaysFromDials(peers, Run(peers, actions[..n]).value, actions[..n], actions[n]);
      assert actions == actions[..n] + [actions[n]];
    }
  }

  /** On return the caller has received exactly the results of the dials of the schedule. */
  lemma ReceivedAreTheDials(peers: seq<Url>, actions: seq<Action>, p: Peer)
    requires Run(peers, actions).Some? && Run(peers, actions).value.returned
    ensures p in Run(peers, actions).value.received <==> FromADial(peers, actions, p)
  {
    RunIsFromDials(peers, actions);
    ReturnsEveryResult(peers, actions);
    if FromADial(peers, actions, p) {
      var a :| a in actions && a.Finish? && a.probe < |peers| && p == Result(peers[a.probe], a.dial);
      assert Run(peers, actions).value.probes[a.probe] == Done;
    }
  }

  // ---- which schedules there are ----

  lemma LastAction(peers: seq<Url>, actions: seq<Action>, a: Action)
    requires Run(peers, actions).Some?
    ensures Run(peers, actions + [a]) ==
            var s := Run(peers, actions).value; if Enabled(peers, s, a) then Some(Next(peers, s, a)) else None
  {
    assert (actions + [a])[..|actions|] == actions;
  }

  function StartsIn(actions: seq<Action>): (n: nat)
    decreases |actions|
  {
    if actions == [] then 0
    else StartsIn(actions[..|actions| - 1]) + if actions[|actions| - 1] == Start then 1 else 0
  }

  ghost predicate HasFinished(actions: seq<Action>, k: nat) {
    exists a :: a in actions && a.Finish? && a.probe == k
  }

  /** The state of a probe is what its actions in the schedule say. */
  ghost predicate AsScheduled(s: State, actions: seq<Action>) {
    && |s.probes| == StartsIn(actions)
    && (forall k: nat :: k < |s.probes| ==>
          (s.probes[k] == Running <==> !HasFinished(actions, k)) &&
          (s.probes[k] == Done <==> Rendezvous(k) in actions))
    && (forall a :: a in actions && a.Finish? ==> a.probe < |s.probes|)
    && (forall a :: a in actions && a.Rendezvous? ==> a.probe < |s.probes|)
    && (s.returned <==> Return in actions)
  }

  lemma StepStaysAsScheduled(peers: seq<Url>, s: State, before: seq<Action>, a: Action)
    requires AsScheduled(s, before) && Enabled(peers, s, a)
    ensures AsScheduled(Next(peers, s, a), before + [a])
  {
    var s', actions := Next(peers, s, a), before + [a];
    assert actions[..|before|] == before && a in actions;
    forall k: nat | k < |s'.probes|
      ensures HasFinished(actions, k) <==> HasFinished(before, k) || (a.Finish? && a.probe == k)
      ensures Rendezvous(k) in actions <==> Rendezvous(k) in before || a == Rendezvous(k)
    {
      if HasFinished(before, k) {
        var b :| b in before && b.Finish? && b.probe == k;
        assert b in actions;
      }
    }
    if a == Start {
      assert !HasFinished(before, |s.probes|);
    }
  }

  lemma {:induction false} RunIsAsScheduled(peers: seq<Url>, actions: seq<Action>)
    requires Run(peers, actions).Some?
    ensures AsScheduled(Run(peers, actions).value, actions)
    decreases |actions|
  {
    if actions != [] {
      var n := |actions| - 1;
      RunIsAsScheduled(peers, actions[..n]);
      StepStaysAsScheduled(peers, Run(peers, actions[..n]).value, actions[..n], actions[n]);
      assert actions == actions[..n] + [actions[n]];
    }
  }

  /** What can happen next, by what has happened: goroutines are started as long as peers are left; each that has been
      started finishes its dial once, with any outcome; once all have been started, any that has finished can deliver
      its result, once; and when all have delivered, testPeers returns, once. */
  lemma {:induction false} ActionsExactly(peers: seq<Url>, actions: seq<Action>, k: nat, dial: Dial)
    requires Run(peers, actions).Some?
    ensures Run(peers, actions + [Start]).Some? <==> StartsIn(actions) < |peers|
    ensures Run(peers, actions + [Finish(k, dial)]).Some? <==> k < StartsIn(actions) && !HasFinished(actions, k)
    ensures Run(peers, actions + [Rendezvous(k)]).Some? <==>
            StartsIn(actions) == |peers| && HasFinished(actions, k) && Rendezvous(k) !in actions
    ensures Run(peers, actions + [Return]).Some? <==>
            (forall j: nat :: j < |peers| ==> Rendezvous(j) in actions) && StartsIn(actions) == |peers| &&
            Return !in actions
  {
    var s := Run(peers, actions).value;
    RunIsAsScheduled(peers, actions);
    RunIsConsistent(peers, actions);
    LastAction(peers, actions, Start);
    LastAction(peers, actions, Finish(k, dial));
    LastAction(peers, actions, Rendezvous(k));
    LastAction(peers, actions, Return);
    AllReceived(peers, s, |actions|);
  }

  /** The caller has received as many results as there are peers exactly when all probes are done. */
  lemma AllReceived(peers: seq<Url>, s: State, steps: nat)
    requires Consistent(peers, s, steps)
    ensures |s.received| <= |s.probes| <= |peers|
    ensures |s.received| == |s.probes| <==> forall k :: 0 <= k < |s.probes| ==> s.probes[k] == Done
  {
    var outstanding := Outstanding(peers, s.probes);
    NoneOutstanding(peers, s.probes);
    if |outstanding| == 0 {
      assert outstanding == multiset{};
      forall k | 0 <= k < |s.probes|
        ensures s.probes[k] == Done
      {
        AllDone(peers, s.probes, k);
      }
    } else {
      assert outstanding != multiset{} && StepsLeft(s.probes) > 0;
      var k := SomeNotDone(peers, s.probes);
      assert s.probes[k] != Done;
    }
  }

  /** Some order of 0..n-1. */
  ghost predicate IsPerm(perm: seq<nat>, n: nat) {
    |perm| == n && (forall i :: 0 <= i < n ==> perm[i] < n) && forall i, j :: 0 <= i < j < n ==> perm[i] != perm[j]
  }

  lemma {:induction false} AllStarted(peers: seq<Url>, m: nat) returns (actions: seq<Action>)
    requires m <= |peers|
    ensures Run(peers, actions) == Some(State(seq(m, _ => Running), [], false))
  {
    if m == 0 {
      actions := [];
      assert seq(0, _ => Running) == [];
    } else {
      var before := AllStarted(peers, m - 1);
      actions := before + [Start];
      LastAction(peers, before, Start);
      assert seq(m - 1, _ => Running) + [Running] == seq(m, _ => Running);
    }
  }

  /** The probes after the first m dials. */
  function Dialled(peers: seq<Url>, dials: seq<Dial>, m: nat): (probes: seq<Probe>)
    requires |dials| == |peers|
    ensures |probes| == |peers|
    ensures forall k :: 0 <= k < |peers| ==>
              probes[k] == if k < m then Sending(Result(peers[k], dials[k])) else Running
  {
    seq(|peers|, k requires 0 <= k < |peers| => if k < m then Sending(Result(peers[k], dials[k])) else Running)
  }

  lemma {:induction false} AllDialled(peers: seq<Url>, dials: seq<Dial>, m: nat) returns (actions: seq<Action>)
    requires |dials| == |peers| && m <= |peers|
    ensures Run(peers, actions) == Some(State(Dialled(peers, dials, m), [], false))
  {
    if m == 0 {
      actions := AllStarted(peers, |peers|);
      assert Dialled(peers, dials, 0) == seq(|peers|, _ => Running);
    } else {
      var before := AllDialled(peers, dials, m - 1);
      var a := Finish(m - 1, dials[m - 1]);
      actions := before + [a];
      LastAction(peers, before, a);
      assert Dialled(peers, dials, m - 1)[m - 1 := Sending(Result(peers[m - 1], dials[m - 1]))] ==
             Dialled(peers, dials, m);
    }
  }

  /** The probes after the first m of them in the given order have delivered. */
  function Delivered(peers: seq<Url>, dials: seq<Dial>, order: seq<nat>, m: nat): (probes: seq<Probe>)
    requires |dials| == |peers| && m <= |order|
    ensures |probes| == |peers|
    ensures forall k :: 0 <= k < |peers| ==>
              probes[k] == if k in order[..m] then Done else Sending(Result(peers[k], dials[k]))
  {
    seq(|peers|, k requires 0 <= k < |peers| =>
                   if k in order[..m] then Done else Sending(Result(peers[k], dials[k])))
  }

  function Results(peers: seq<Url>, dials: seq<Dial>, order: seq<nat>): (results: seq<Peer>)
    requires |dials| == |peers| && forall i :: 0 <= i < |order| ==> order[i] < |peers|
    ensures |results| == |order|
    ensures forall i :: 0 <= i < |order| ==> results[i] == Result(peers[order[i]], dials[order[i]])
  {
    seq(|order|, i requires 0 <= i < |order| => Result(peers[order[i]], dials[order[i]]))
  }

  lemma OneMoreDelivered(peers: seq<Url>, dials: seq<Dial>, order: seq<nat>, m: nat)
    requires |dials| == |peers| && IsPerm(order, |peers|) && m < |peers|
    ensures var k, probes := order[m], Delivered(peers, dials, order, m);
            && probes[k] == Sending(Result(peers[k], dials[k]))
            && probes[k := Done] == Delivered(peers, dials, order, m + 1)
  {
    assert order[..m + 1] == order[..m] + [order[m]];
    assert order[m] !in order[..m];
  }

  lemma OneMoreResult(peers: seq<Url>, dials: seq<Dial>, order: seq<nat>, m: nat)
    requires |dials| == |peers| && IsPerm(order, |peers|) && m < |peers|
    ensures Results(peers, dials, order[..m]) + [Result(peers[order[m]], dials[order[m]])] ==
            Results(peers, dials, order[..m + 1])
  {
    assert order[..m + 1] == order[..m] + [order[m]];
  }

  lemma {:induction false} DeliveredInOrder(peers: seq<Url>, dials: seq<Dial>, order: seq<nat>, m: nat)
    returns (actions: seq<Action>)
    requires |dials| == |peers| && IsPerm(order, |peers|) && m <= |peers|
    ensures Run(peers, actions) ==
            Some(State(Delivered(peers, dials, order, m), Results(peers, dials, order[..m]), false))
    decreases m
  {
    if m == 0 {
      actions := AllDialled(peers, dials, |peers|);
      assert Delivered(peers, dials, order, 0) == Dialled(peers, dials, |peers|);
      assert Results(peers, dials, order[..0]) == [];
    } else {
      var before := DeliveredInOrder(peers, dials, order, m - 1);
      actions := before + [Rendezvous(order[m - 1])];
      LastAction(peers, before, Rendezvous(order[m - 1]));
      OneMoreDelivered(peers, dials, order, m - 1);
      OneMoreResult(peers, dials, order, m - 1);
    }
  }

  /** Whatever the dials bring, their results can be received in any order. */
  lemma AnyOrderIsPossible(peers: seq<Url>, dials: seq<Dial>, order: seq<nat>) returns (actions: seq<Action>)
    requires |dials| == |peers| && IsPerm(order, |peers|)
    ensures Run(peers, actions).Some? && Run(peers, actions).value.returned
    ensures var received := Run(peers, actions).value.received;
            |received| == |peers| &&
            forall i :: 0 <= i < |peers| ==> received[i] == Result(peers[order[i]], dials[order[i]])
  {
    var before := DeliveredInOrder(peers, dials, order, |peers|);
    actions := before + [Return];
    LastAction(peers, before, Return);
    assert order[..|peers|] == order;
  }
}
