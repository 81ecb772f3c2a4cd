/** The autopeering module: a check that looks for peers, decides whether to add one, and arms a timer for the
    next check.  Times are nanoseconds since the zero time, which hadPeers starts at. */
module AutoPeering {
  import opened Options
  import Probing
  import ClosestPeers

  const SECOND: int := 1_000_000_000
  const AUTOPEER_TIMEOUT: int := 30 * SECOND
  const PEER_CHECK_TIMEOUT: int := 10 * SECOND
  const LINK_LOCAL_PREFIX: string := "tls://[fe80"

  ghost predicate HasPeer(remotes: seq<string>) {
    exists i :: 0 <= i < |remotes| && !(LINK_LOCAL_PREFIX <= remotes[i])
  }

  /** Whether a check that reads the clock at t adds a peer. */
  predicate Adds(had: int, have: bool, t: int) {
    !have && t - had > AUTOPEER_TIMEOUT
  }

  // ---- the code ----

  class AutoPeering {
    var hadPeers: int
    /** When the armed timer fires; None before the first arming and after a stop. */
    var checkPeerTimer: Option<int>
    var peers: seq<Probing.Url>
    var enabled: bool

    constructor (peers: seq<Probing.Url>, enabled: bool)
      ensures this.peers == peers && this.enabled == enabled
      ensures hadPeers == 0 && checkPeerTimer == None
    {
      this.peers, this.enabled := peers, enabled;
      hadPeers, checkPeerTimer := 0, None;
    }

    /** Whether a check is started. */
    method Start() returns (checking: bool)
      ensures checking == enabled
    {
      checking := enabled;
    }

    /** A check.  remotes is what the core reports; judged, marked and armed are the clock readings that the check
        makes in that order; the probe round yields probed. */
    method CheckPeerLoop(remotes: seq<string>, judged: int, marked: int, armed: int,
                         probed: seq<Probing.Peer>, perm: seq<nat>)
      returns (called: Option<Probing.Url>)
      requires Probing.IsPerm(perm, 1)
      modifies `hadPeers, `checkPeerTimer
      ensures var have := exists i :: 0 <= i < |remotes| && !("tls://[fe80" <= remotes[i]);
              var adds := !have && judged - old(hadPeers) > 30_000_000_000;
              && hadPeers == (if have then judged else if adds then marked else old(hadPeers))
              && checkPeerTimer == Some(armed + 10_000_000_000)
              && (called.Some? <==> adds && exists p :: p in probed && p.online)
      ensures called.Some? ==> exists p :: ClosestPeers.Fastest(p, probed) && p.url == called.value
    {
      called := None;
      var havePeers := false;
      for i := 0 to |remotes|
        invariant !havePeers && forall k :: 0 <= k < i ==> LINK_LOCAL_PREFIX <= remotes[k]
      {
        if !(LINK_LOCAL_PREFIX <= remotes[i]) {
          havePeers := true;
          break;
        }
      }
      if havePeers {
        hadPeers := judged;
      } else if judged - hadPeers > AUTOPEER_TIMEOUT {
        hadPeers := marked;
        called := ClosestPeers.ChoosePeer(probed, perm);
      }
      checkPeerTimer := Some(armed + PEER_CHECK_TIMEOUT);
    }

    /** Cancels the armed timer; a check that is running is not affected and will arm it again. */
    method Stop()
      modifies `checkPeerTimer
      ensures checkPeerTimer == None
    {
      if checkPeerTimer != None {
        checkPeerTimer := None;
      }
    }
  }

  // ---- the system: checks and timers, the clock, and Start and Stop at any time ----

  datatype Stage = Scanning | Judging(have: bool) | Deciding | Choosing | Arming

  /** A check that is running or a timer that is armed; over once the check has ended or the timer has fired or has
      been stopped.  chain is the number of the start that it descends from. */
  datatype Job = Check(chain: nat, stage: Stage) | Timer(chain: nat, due: int) | Over

  /** What the history records: a check begins; it saw a peer; it decided to add one; it wrote down the time of
      that decision; it did neither. */
  datatype Event = Began(at: int, chain: nat) | Saw(at: int) | Added(at: int) | Marked(at: int) | Waited(at: int)

  /** Jobs are never removed, so that checkPeerTimer can refer to the timer armed last. */
  datatype State = State(now: int, jobs: seq<Job>, checkPeerTimer: Option<nat>, hadPeers: int, starts: nat,
                         log: seq<Event>)

  datatype Action =
    | Tick(d: nat)
    | Start
    | Scan(job: nat, have: bool)
    | Judge(job: nat)
    | Mark(job: nat)
    | Choose(job: nat)
    | Arm(job: nat)
    | Fire(job: nat)
    | Stop

  predicate Running(s: State, j: nat) {
    j < |s.jobs| && s.jobs[j].Check?
  }

  predicate Enabled(s: State, a: Action) {
    match a
    case Tick(_) => true
    case Start => true
    case Scan(j, _) => Running(s, j) && s.jobs[j].stage == Scanning
    case Judge(j) => Running(s, j) && s.jobs[j].stage.Judging?
    case Mark(j) => Running(s, j) && s.jobs[j].stage == Deciding
    case Choose(j) => Running(s, j) && s.jobs[j].stage == Choosing
    case Arm(j) => Running(s, j) && s.jobs[j].stage == Arming
    case Fire(j) => j < |s.jobs| && s.jobs[j].Timer? && s.jobs[j].due <= s.now
    case Stop => true
  }

  /** Job j goes on to another stage. */
  function Staged(s: State, j: nat, stage: Stage): (r: State)
    requires Running(s, j)
  {
    s.(jobs := s.jobs[j := s.jobs[j].(stage := stage)])
  }

  function Logged(s: State, e: Event): (r: State) {
    s.(log := s.log + [e])
  }

  /** Whether the check that is judging adds a peer. */
  predicate Decides(s: State, j: nat) {
    Running(s, j) && s.jobs[j].stage.Judging? && Adds(s.hadPeers, s.jobs[j].stage.have, s.now)
  }

  /** The timer that Stop stops: the one armed last, unless it has fired. */
  predicate Stoppable(s: State, j: nat) {
    j < |s.jobs| && s.jobs[j].Timer? && s.checkPeerTimer == Some(j)
  }

  function Next(s: State, a: Action): (r: State)
    requires Enabled(s, a)
  {
    match a
    case Tick(d) => s.(now := s.now + d)
    case Start => Logged(s.(jobs := s.jobs + [Check(s.starts, Scanning)], starts := s.starts + 1),
                         Began(s.now, s.starts))
    case Scan(j, have) => Staged(s, j, Judging(have))
    case Judge(j) =>
      if s.jobs[j].stage.have then Logged(Staged(s, j, Arming).(hadPeers := s.now), Saw(s.now))
      else if s.now - s.hadPeers > AUTOPEER_TIMEOUT then Logged(Staged(s, j, Deciding), Added(s.now))
      else Logged(Staged(s, j, Arming), Waited(s.now))
    case Mark(j) => Logged(Staged(s, j, Choosing).(hadPeers := s.now), Marked(s.now))
    case Choose(j) => Staged(s, j, Arming)
    case Arm(j) => s.(jobs := s.jobs[j := Over] + [Timer(s.jobs[j].chain, s.now + PEER_CHECK_TIMEOUT)],
                      checkPeerTimer := Some(|s.jobs|))
    case Fire(j) => Logged(s.(jobs := s.jobs[j := Over] + [Check(s.jobs[j].chain, Scanning)]),
                           Began(s.now, s.jobs[j].chain))
    case Stop => if s.checkPeerTimer.Some? && Stoppable(s, s.checkPeerTimer.value)
                 then s.(jobs := s.jobs[s.checkPeerTimer.value := Over]) else s
  }

  function RunFrom(s: State, actions: seq<Action>): (r: Option<State>)
    decreases |actions|
  {
    if actions == [] then Some(s)
    else if Enabled(s, actions[0]) then RunFrom(Next(s, actions[0]), actions[1..])
    else None
  }

  function Initial(begin: nat): (s: State) {
    State(begin, [], None, 0, 0, [])
  }

  lemma RunCons(s: State, a: Action, rest: seq<Action>)
    requires Enabled(s, a)
    ensures RunFrom(s, [a] + rest) == RunFrom(Next(s, a), rest)
  {
  }

  // ---- one check of the code is a run of the system ----

  /** The steps of one check, with the time that passes before each reading of the clock. */
  function CheckSteps(s: State, j: nat, have: bool, judged: int, marked: int, armed: int): (actions: seq<Action>)
    requires s.now <= judged <= marked <= armed
  {
    [Scan(j, have), Tick(judged - s.now), Judge(j)] +
    if Adds(s.hadPeers, have, judged) then [Tick(marked - judged), Mark(j), Choose(j), Tick(armed - marked), Arm(j)]
    else [Tick(armed - judged), Arm(j)]
  }

  /** CheckPeerLoop and the step system agree on hadPeers and on when the next check is due. */
  lemma CheckIsARun(s: State, j: nat, remotes: seq<string>, judged: int, marked: int, armed: int)
    requires Running(s, j) && s.jobs[j].stage == Scanning && s.now <= judged <= marked <= armed
    ensures var r := RunFrom(s, CheckSteps(s, j, HasPeer(remotes), judged, marked, armed));
            && r.Some?
            && r.value.now == armed && r.value.checkPeerTimer == Some(|s.jobs|)
            && r.value.jobs == s.jobs[j := Over] + [Timer(s.jobs[j].chain, armed + PEER_CHECK_TIMEOUT)]
            && r.value.hadPeers == if HasPeer(remotes) then judged
                                   else if Adds(s.hadPeers, false, judged) then marked else s.hadPeers
  {
    if Adds(s.hadPeers, HasPeer(remotes), judged) {
      AddingCheck(s, j, judged, marked, armed);
    } else {
      OtherCheck(s, j, HasPeer(remotes), judged, marked, armed);
    }
  }

  lemma AddingCheck(s: State, j: nat, judged: int, marked: int, armed: int)
    requires Running(s, j) && s.jobs[j].stage == Scanning && s.now <= judged <= marked <= armed
    requires Adds(s.hadPeers, false, judged)
    ensures RunFrom(s, CheckSteps(s, j, false, judged, marked, armed)) ==
            Some(Rearmed(s, j, armed).(hadPeers := marked, log := s.log + [Added(judged)] + [Marked(marked)]))
  {
    var s1 := Staged(s, j, Deciding).(now := judged, log := s.log + [Added(judged)]);
    var s2 := Staged(s, j, Arming).(now := marked, hadPeers := marked, log := s1.log + [Marked(marked)]);
    var tail := [Tick(armed - marked), Arm(j)];
    Judged(s, j, false, judged, [Tick(marked - judged), Mark(j), Choose(j)] + tail);
    MarkedAndChosen(s1, j, marked, tail);
    TickAndArm(s2, j, armed - marked);
    assert [Tick(marked - judged), Mark(j), Choose(j), Tick(armed - marked), Arm(j)] ==
           [Tick(marked - judged), Mark(j), Choose(j)] + tail;
    assert Staged(s1, j, Arming).jobs == s2.jobs && s2.jobs[j := Over] == s.jobs[j := Over];
  }

  lemma MarkedAndChosen(s: State, j: nat, marked: int, rest: seq<Action>)
    requires Running(s, j) && s.jobs[j].stage == Deciding && s.now <= marked
    ensures RunFrom(s, [Tick(marked - s.now), Mark(j), Choose(j)] + rest) ==
            RunFrom(Staged(s, j, Arming).(now := marked, hadPeers := marked, log := s.log + [Marked(marked)]), rest)
  {
    RunThree(s, Tick(marked - s.now), Mark(j), Choose(j), rest);
    var t := Next(Next(s, Tick(marked - s.now)), Mark(j));
    assert Staged(t, j, Arming).jobs == Staged(s, j, Arming).jobs;
  }

  lemma OtherCheck(s: State, j: nat, have: bool, judged: int, marked: int, armed: int)
    requires Running(s, j) && s.jobs[j].stage == Scanning && s.now <= judged <= marked <= armed
    requires !Adds(s.hadPeers, have, judged)
    ensures RunFrom(s, CheckSteps(s, j, have, judged, marked, armed)) ==
            Some(Rearmed(s, j, armed).(hadPeers := if have then judged else s.hadPeers,
                                       log := s.log + [if have then Saw(judged) else Waited(judged)]))
  {
    var s1 := Staged(s, j, Arming).(now := judged, hadPeers := if have then judged else s.hadPeers,
                                    log := s.log + [if have then Saw(judged) else Waited(judged)]);
    Judged(s, j, have, judged, [Tick(armed - judged), Arm(j)]);
    TickAndArm(s1, j, armed - judged);
    assert s1.jobs[j := Over] == s.jobs[j := Over];
  }

  /** Job j has ended at the given time, and has armed the timer. */
  function Rearmed(s: State, j: nat, armed: int): (r: State)
    requires Running(s, j)
  {
    s.(now := armed, checkPeerTimer := Some(|s.jobs|),
       jobs := s.jobs[j := Over] + [Timer(s.jobs[j].chain, armed + PEER_CHECK_TIMEOUT)])
  }

  lemma Judged(s: State, j: nat, have: bool, judged: int, rest: seq<Action>)
    requires Running(s, j) && s.jobs[j].stage == Scanning && s.now <= judged
    ensures var adds := Adds(s.hadPeers, have, judged);
            RunFrom(s, [Scan(j, have), Tick(judged - s.now), Judge(j)] + rest) ==
            RunFrom(Staged(s, j, if adds then Deciding else Arming).(
                      now := judged, hadPeers := if have then judged else s.hadPeers,
                      log := s.log + [if have then Saw(judged) else if adds then Added(judged) else Waited(judged)]),
                    rest)
  {
    RunThree(s, Scan(j, have), Tick(judged - s.now), Judge(j), rest);
    var t := Next(Next(s, Scan(j, have)), Tick(judged - s.now));
    assert forall stage :: Staged(t, j, stage).jobs == Staged(s, j, stage).jobs;
  }

  lemma {:induction false} TickAndArm(s: State, j: nat, d: nat)
    requires Running(s, j) && s.jobs[j].stage == Arming
    ensures RunFrom(s, [Tick(d), Arm(j)]) == Some(Next(Next(s, Tick(d)), Arm(j)))
  {
    assert [Tick(d), Arm(j)] == [Tick(d)] + ([Arm(j)] + []);
    RunCons(s, Tick(d), [Arm(j)] + []);
    RunCons(Next(s, Tick(d)), Arm(j), []);
  }

  lemma RunThree(s: State, a: Action, b: Action, c: Action, rest: seq<Action>)
    requires Enabled(s, a) && Enabled(Next(s, a), b) && Enabled(Next(Next(s, a), b), c)
    ensures RunFrom(s, [a, b, c] + rest) == RunFrom(Next(Next(Next(s, a), b), c), rest)
  {
    assert [a, b, c] + rest == [a] + ([b] + ([c] + rest));
    RunCons(s, a, [b] + ([c] + rest));
    RunCons(Next(s, a), b, [c] + rest);
    RunCons(Next(Next(s, a), b), c, rest);
  }

  // ---- how many jobs there are ----

  predicate Alive(job: Job) {
    !job.Over?
  }

  predicate IsDeciding(job: Job) {
    job.Check? && job.stage == Deciding
  }

  function Count(p: Job -> bool, jobs: seq<Job>): (n: nat)
    decreases |jobs|
  {
    if jobs == [] then 0
    else Count(p, jobs[..|jobs| - 1]) + if p(jobs[|jobs| - 1]) then 1 else 0
  }

  lemma CountOneMore(p: Job -> bool, jobs: seq<Job>, job: Job)
    ensures Count(p, jobs + [job]) == Count(p, jobs) + if p(job) then 1 else 0
  {
    assert (jobs + [job])[..|jobs|] == jobs;
  }

  lemma {:induction false} CountUpdate(p: Job -> bool, jobs: seq<Job>, j: nat, job: Job)
    requires j < |jobs|
    ensures Count(p, jobs[j := job]) + (if p(jobs[j]) then 1 else 0) == Count(p, jobs) + if p(job) then 1 else 0
    decreases |jobs|
  {
    var n := |jobs| - 1;
    if j < n {
      CountUpdate(p, jobs[..n], j, job);
      assert jobs[j := job][..n] == jobs[..n][j := job];
    } else {
      assert jobs[j := job][..n] == jobs[..n];
    }
  }

  /** One job that lives without being about to write a decision down leaves room for one decision less. */
  lemma {:induction false} DecidingBelowAlive(jobs: seq<Job>, j: nat)
    requires j < |jobs| && Alive(jobs[j]) && !IsDeciding(jobs[j])
    ensures Count(IsDeciding, jobs) < Count(Alive, jobs)
    decreases |jobs|
  {
    var n := |jobs| - 1;
    if j < n {
      DecidingBelowAlive(jobs[..n], j);
    } else {
      DecidingAreAlive(jobs[..n]);
    }
  }

  lemma {:induction false} DecidingAreAlive(jobs: seq<Job>)
    ensures Count(IsDeciding, jobs) <= Count(Alive, jobs)
    decreases |jobs|
  {
    if jobs != [] {
      DecidingAreAlive(jobs[..|jobs| - 1]);
    }
  }

  function AliveIn(s: State): (n: nat) {
    Count(Alive, s.jobs)
  }

  function DecidingIn(s: State): (n: nat) {
    Count(IsDeciding, s.jobs)
  }

  lemma StageCounts(s: State, j: nat, stage: Stage)
    requires Running(s, j)
    ensures AliveIn(Staged(s, j, stage)) == AliveIn(s)
    ensures DecidingIn(Staged(s, j, stage)) + (if s.jobs[j].stage == Deciding then 1 else 0) ==
            DecidingIn(s) + if stage == Deciding then 1 else 0
  {
    CountUpdate(Alive, s.jobs, j, s.jobs[j].(stage := stage));
    CountUpdate(IsDeciding, s.jobs, j, s.jobs[j].(stage := stage));
  }

  lemma {:induction false} HandOverCounts(p: Job -> bool, jobs: seq<Job>, j: nat, job: Job)
    requires j < |jobs| && p(jobs[j]) == p(job) && !p(Over)
    ensures Count(p, jobs[j := Over] + [job]) == Count(p, jobs)
  {
    CountUpdate(p, jobs, j, Over);
    CountOneMore(p, jobs[j := Over], job);
  }

  /** Only Start makes a job more; judging and marking open and close decisions. */
  lemma StepCounts(s: State, a: Action)
    requires Enabled(s, a)
    ensures AliveIn(Next(s, a)) <= AliveIn(s) + if a.Start? then 1 else 0
    ensures DecidingIn(Next(s, a)) ==
            DecidingIn(s) + (if a.Judge? && Decides(s, a.job) then 1 else 0) - if a.Mark? then 1 else 0
  {
    match a
    case Tick(_) =>
    case Start =>
      CountOneMore(Alive, s.jobs, Check(s.starts, Scanning));
      CountOneMore(IsDeciding, s.jobs, Check(s.starts, Scanning));
    case Scan(j, have) => StageCounts(s, j, Judging(have));
    case Judge(j) => StageCounts(s, j, if Decides(s, j) then Deciding else Arming);
    case Mark(j) => StageCounts(s, j, Choosing);
    case Choose(j) => StageCounts(s, j, Arming);
    case Arm(j) =>
      HandOverCounts(Alive, s.jobs, j, Timer(s.jobs[j].chain, s.now + PEER_CHECK_TIMEOUT));
      HandOverCounts(IsDeciding, s.jobs, j, Timer(s.jobs[j].chain, s.now + PEER_CHECK_TIMEOUT));
    case Fire(j) =>
      HandOverCounts(Alive, s.jobs, j, Check(s.jobs[j].chain, Scanning));
      HandOverCounts(IsDeciding, s.jobs, j, Check(s.jobs[j].chain, Scanning));
    case Stop =>
      if s.checkPeerTimer.Some? && Stoppable(s, s.checkPeerTimer.value) {
        CountUpdate(Alive, s.jobs, s.checkPeerTimer.value, Over);
        CountUpdate(IsDeciding, s.jobs, s.checkPeerTimer.value, Over);
      }
  }

  /** No two jobs that live descend from the same start. */
  ghost predicate OneJobAChain(s: State) {
    && (forall i :: 0 <= i < |s.jobs| && Alive(s.jobs[i]) ==> s.jobs[i].chain < s.starts)
    && (forall i, j :: 0 <= i < j < |s.jobs| && Alive(s.jobs[i]) && Alive(s.jobs[j]) ==>
          s.jobs[i].chain != s.jobs[j].chain)
  }

  /** While there has been one start only, an armed timer is the one that checkPeerTimer refers to. */
  ghost predicate TimerIsKnown(s: State) {
    s.starts <= 1 ==> forall i :: 0 <= i < |s.jobs| && s.jobs[i].Timer? ==> s.checkPeerTimer == Some(i)
  }

  ghost predicate JobsInOrder(s: State) {
    OneJobAChain(s) && TimerIsKnown(s) && AliveIn(s) <= s.starts
  }

  lemma HandOverKeepsChains(s: State, s': State, j: nat, job: Job)
    requires OneJobAChain(s) && j < |s.jobs| && s'.jobs == s.jobs[j := Over] + [job] && s'.starts == s.starts
    requires Alive(s.jobs[j]) && Alive(job) && job.chain == s.jobs[j].chain
    ensures OneJobAChain(s')
  {
  }

  lemma SameChains(s: State, s': State)
    requires OneJobAChain(s) && |s'.jobs| == |s.jobs| && s'.starts == s.starts
    requires forall i :: 0 <= i < |s.jobs| && Alive(s'.jobs[i]) ==>
               Alive(s.jobs[i]) && s'.jobs[i].chain == s.jobs[i].chain
    ensures OneJobAChain(s')
  {
  }

  lemma StepKeepsChains(s: State, a: Action)
    requires OneJobAChain(s) && Enabled(s, a)
    ensures OneJobAChain(Next(s, a))
  {
    var s' := Next(s, a);
    match a
    case Start =>
    case Arm(j) => HandOverKeepsChains(s, s', j, s'.jobs[|s.jobs|]);
    case Fire(j) => HandOverKeepsChains(s, s', j, s'.jobs[|s.jobs|]);
    case _ => SameChains(s, s');
  }

  lemma StepKeepsTimerKnown(s: State, a: Action)
    requires OneJobAChain(s) && TimerIsKnown(s) && Enabled(s, a)
    ensures TimerIsKnown(Next(s, a))
  {
    var s' := Next(s, a);
    if s'.starts <= 1 {
      forall i | 0 <= i < |s'.jobs| && s'.jobs[i].Timer?
        ensures s'.checkPeerTimer == Some(i)
      {
      }
    }
  }

  lemma StepKeepsJobsInOrder(s: State, a: Action)
    requires JobsInOrder(s) && Enabled(s, a)
    ensures JobsInOrder(Next(s, a))
  {
    StepKeepsChains(s, a);
    StepKeepsTimerKnown(s, a);
    StepCounts(s, a);
  }

  function StartsIn(actions: seq<Action>): (n: nat)
    decreases |actions|
  {
    if actions == [] then 0 else (if actions[0].Start? then 1 else 0) + StartsIn(actions[1..])
  }

  lemma {:induction false} RunKeepsJobsInOrder(s: State, actions: seq<Action>)
    requires JobsInOrder(s) && RunFrom(s, actions).Some?
    ensures JobsInOrder(RunFrom(s, actions).value)
    ensures RunFrom(s, actions).value.starts == s.starts + StartsIn(actions)
    decreases |actions|
  {
    if actions != [] {
      StepKeepsJobsInOrder(s, actions[0]);
      RunKeepsJobsInOrder(Next(s, actions[0]), actions[1..]);
    }
  }

  /** In every run there are at most as many checks running and timers armed as there have been starts, no two of
      them from the same start. */
  lemma AtMostOneJobAStart(begin: nat, actions: seq<Action>)
    requires RunFrom(Initial(begin), actions).Some?
    ensures var s := RunFrom(Initial(begin), actions).value;
            && Count(Alive, s.jobs) <= StartsIn(actions)
            && (forall i, j :: 0 <= i < j < |s.jobs| && Alive(s.jobs[i]) && Alive(s.jobs[j]) ==>
                  s.jobs[i].chain != s.jobs[j].chain)
            && (StartsIn(actions) <= 1 ==>
                  forall i, j :: 0 <= i < |s.jobs| && 0 <= j < |s.jobs| && Alive(s.jobs[i]) && Alive(s.jobs[j]) ==>
                    i == j)
  {
    RunKeepsJobsInOrder(Initial(begin), actions);
  }

  // ---- the rate of additions ----

  predicate IsRefresh(e: Event) {
    e.Saw? || e.Marked?
  }

  predicate IsVerdict(e: Event) {
    e.Saw? || e.Added? || e.Waited?
  }

  /** The times of the additions. */
  function Additions(log: seq<Event>): (times: seq<int>)
    decreases |log|
  {
    if log == [] then []
    else
      var n := |log| - 1;
      Additions(log[..n]) + if log[n].Added? then [log[n].at] else []
  }

  /** How many of them came after the last refresh. */
  function Unmarked(log: seq<Event>): (n: nat)
    ensures n <= |Additions(log)|
    decreases |log|
  {
    if log == [] then 0
    else
      var n := |log| - 1;
      if IsRefresh(log[n]) then 0 else Unmarked(log[..n]) + if log[n].Added? then 1 else 0
  }

  /** An addition comes more than the timeout after all additions but the last few, one less than there have been
      starts. */
  ghost predicate Spaced(times: seq<int>, starts: nat) {
    forall a: nat, b: nat :: a + starts <= b < |times| ==> times[b] - times[a] > AUTOPEER_TIMEOUT
  }

  /** The first n of them are no later than the limit. */
  ghost predicate NoLater(times: seq<int>, n: int, limit: int) {
    forall a :: 0 <= a < |times| && a < n ==> times[a] <= limit
  }

  /** hadPeers is as late as every addition that has been marked or followed by a refresh, and there are no more
      others than checks about to mark one. */
  ghost predicate Paced(s: State) {
    var times := Additions(s.log);
    && s.hadPeers <= s.now
    && NoLater(times, |times|, s.now)
    && NoLater(times, |times| - Unmarked(s.log), s.hadPeers)
    && Unmarked(s.log) <= DecidingIn(s)
    && Spaced(times, s.starts)
  }

  lemma LogOneMore(log: seq<Event>, e: Event)
    ensures Additions(log + [e]) == Additions(log) + if e.Added? then [e.at] else []
    ensures Unmarked(log + [e]) == if IsRefresh(e) then 0 else Unmarked(log) + if e.Added? then 1 else 0
  {
    assert (log + [e])[..|log|] == log;
  }

  lemma EventStaysPaced(s: State, s': State, e: Event)
    requires Paced(s) && s'.log == s.log + [e] && s'.now == s.now == e.at && s'.starts >= s.starts
    requires s'.hadPeers == if IsRefresh(e) then s.now else s.hadPeers
    requires !IsRefresh(e) ==> DecidingIn(s') == DecidingIn(s) + if e.Added? then 1 else 0
    requires e.Added? ==> s.now - s.hadPeers > AUTOPEER_TIMEOUT && Unmarked(s.log) < s.starts
    ensures Paced(s')
  {
    LogOneMore(s.log, e);
  }

  lemma StepStaysPaced(s: State, a: Action)
    requires Paced(s) && AliveIn(s) <= s.starts && Enabled(s, a)
    ensures Paced(Next(s, a))
  {
    var s' := Next(s, a);
    StepCounts(s, a);
    match a
    case Start => EventStaysPaced(s, s', Began(s.now, s.starts));
    case Judge(j) =>
      DecidingBelowAlive(s.jobs, j);
      EventStaysPaced(s, s', if s.jobs[j].stage.have then Saw(s.now)
                             else if Decides(s, j) then Added(s.now) else Waited(s.now));
    case Mark(_) => EventStaysPaced(s, s', Marked(s.now));
    case Fire(j) => EventStaysPaced(s, s', Began(s.now, s.jobs[j].chain));
    case _ => assert s'.log == s.log && s'.hadPeers == s.hadPeers && s'.starts == s.starts;
  }

  lemma {:induction false} RunStaysPaced(s: State, actions: seq<Action>)
    requires Paced(s) && JobsInOrder(s) && RunFrom(s, actions).Some?
    ensures Paced(RunFrom(s, actions).value)
    decreases |actions|
  {
    if actions != [] {
      StepStaysPaced(s, actions[0]);
      StepKeepsJobsInOrder(s, actions[0]);
      RunStaysPaced(Next(s, actions[0]), actions[1..]);
    }
  }

  lemma {:induction false} SpacedOut(times: seq<int>, starts: nat, a: nat, b: nat, n: nat)
    requires Spaced(times, starts) && n >= 1 && a + n * starts <= b < |times|
    ensures times[b] - times[a] > n * AUTOPEER_TIMEOUT
    decreases n
  {
    if n > 1 {
      assert n * starts == (n - 1) * starts + starts;
      SpacedOut(times, starts, a, b - starts, n - 1);
    }
  }

  /** In every run with k starts, any n * k + 1 additions take more than n times the 30 seconds. */
  lemma AdditionsAreRare(begin: nat, actions: seq<Action>, a: nat, b: nat, n: nat)
    requires RunFrom(Initial(begin), actions).Some?
    requires var times := Additions(RunFrom(Initial(begin), actions).value.log);
             n >= 1 && a + n * StartsIn(actions) <= b < |times|
    ensures var times := Additions(RunFrom(Initial(begin), actions).value.log);
            times[b] - times[a] > n * AUTOPEER_TIMEOUT
  {
    RunStaysPaced(Initial(begin), actions);
    RunKeepsJobsInOrder(Initial(begin), actions);
    SpacedOut(Additions(RunFrom(Initial(begin), actions).value.log), StartsIn(actions), a, b, n);
  }

  /** From one start, k + 1 additions take more than k times the 30 seconds. */
  lemma AdditionsFromOneStart(begin: nat, actions: seq<Action>, a: nat, b: nat)
    requires RunFrom(Initial(begin), actions).Some? && StartsIn(actions) <= 1
    requires a < b < |Additions(RunFrom(Initial(begin), actions).value.log)|
    ensures var times := Additions(RunFrom(Initial(begin), actions).value.log);
            times[b] - times[a] > (b - a) * AUTOPEER_TIMEOUT
  {
    assert (b - a) * StartsIn(actions) <= b - a;
    AdditionsAreRare(begin, actions, a, b, b - a);
  }

  // ---- which runs there are ----

  /** What can happen next: the clock can go on, and Start and Stop can come at any time.  A running check has one step
      to take, according to how far it is, and can take it whatever the other checks do.  A timer can fire at any time
      from when it is due. */
  lemma ActionsExactly(s: State, a: Action)
    ensures RunFrom(s, [a]).Some? <==>
            match a
            case Tick(_) => true
            case Start => true
            case Scan(j, _) => j < |s.jobs| && s.jobs[j].Check? && s.jobs[j].stage.Scanning?
            case Judge(j) => j < |s.jobs| && s.jobs[j].Check? && s.jobs[j].stage.Judging?
            case Mark(j) => j < |s.jobs| && s.jobs[j].Check? && s.jobs[j].stage.Deciding?
            case Choose(j) => j < |s.jobs| && s.jobs[j].Check? && s.jobs[j].stage.Choosing?
            case Arm(j) => j < |s.jobs| && s.jobs[j].Check? && s.jobs[j].stage.Arming?
            case Fire(j) => j < |s.jobs| && s.jobs[j].Timer? && s.jobs[j].due <= s.now
            case Stop => true
  {
    assert [a] == [a] + [];
    if Enabled(s, a) {
      RunCons(s, a, []);
    }
  }

  lemma {:induction false} LastStep(s: State, actions: seq<Action>, a: Action)
    requires RunFrom(s, actions).Some? && Enabled(RunFrom(s, actions).value, a)
    ensures RunFrom(s, actions + [a]) == Some(Next(RunFrom(s, actions).value, a))
    ensures StartsIn(actions + [a]) == StartsIn(actions) + if a.Start? then 1 else 0
    decreases |actions|
  {
    if actions == [] {
      RunCons(s, a, []);
      assert [] + [a] == [a] + [];
    } else {
      assert (actions + [a])[1..] == actions[1..] + [a];
      LastStep(Next(s, actions[0]), actions[1..], a);
    }
  }

  /** k checks at the same time, the first m of them ahead of the rest. */
  ghost predicate Together(s: State, begin: nat, k: nat, m: nat, ahead: Stage, behind: Stage) {
    && s.now == begin && s.hadPeers == 0 && |s.jobs| == s.starts == k
    && forall j :: 0 <= j < k ==> s.jobs[j] == Check(j, if j < m then ahead else behind)
  }

  lemma {:induction false} StartedTogether(begin: nat, k: nat) returns (actions: seq<Action>)
    ensures RunFrom(Initial(begin), actions).Some? && StartsIn(actions) == k
    ensures var s := RunFrom(Initial(begin), actions).value;
            Together(s, begin, k, 0, Deciding, Scanning) && Additions(s.log) == []
  {
    if k == 0 {
      actions := [];
    } else {
      var before := StartedTogether(begin, k - 1);
      actions := before + [Start];
      LastStep(Initial(begin), before, Start);
    }
  }

  lemma {:induction false} ScannedTogether(begin: nat, k: nat, m: nat) returns (actions: seq<Action>)
    requires m <= k
    ensures RunFrom(Initial(begin), actions).Some? && StartsIn(actions) == k
    ensures var s := RunFrom(Initial(begin), actions).value;
            Together(s, begin, k, m, Judging(false), Scanning) && Additions(s.log) == []
    decreases m
  {
    if m == 0 {
      actions := StartedTogether(begin, k);
    } else {
      var before := ScannedTogether(begin, k, m - 1);
      actions := before + [Scan(m - 1, false)];
      LastStep(Initial(begin), before, Scan(m - 1, false));
    }
  }

  lemma {:induction false} JudgedTogether(begin: nat, k: nat, m: nat) returns (actions: seq<Action>)
    requires m <= k && begin > AUTOPEER_TIMEOUT
    ensures RunFrom(Initial(begin), actions).Some? && StartsIn(actions) == k
    ensures var s := RunFrom(Initial(begin), actions).value;
            Together(s, begin, k, m, Deciding, Judging(false)) && Additions(s.log) == seq(m, _ => begin as int)
    decreases m
  {
    if m == 0 {
      actions := ScannedTogether(begin, k, k);
    } else {
      var before := JudgedTogether(begin, k, m - 1);
      var s := RunFrom(Initial(begin), before).value;
      actions := before + [Judge(m - 1)];
      LastStep(Initial(begin), before, Judge(m - 1));
      LogOneMore(s.log, Added(begin));
    }
  }

  /** The bound on additions cannot be improved: k starts can lead to k additions at one time. */
  lemma BoundIsTight(begin: nat, k: nat) returns (actions: seq<Action>)
    requires begin > AUTOPEER_TIMEOUT
    ensures RunFrom(Initial(begin), actions).Some? && StartsIn(actions) == k
    ensures var times := Additions(RunFrom(Initial(begin), actions).value.log);
            |times| == k && forall a :: 0 <= a < k ==> times[a] == begin
  {
    actions := JudgedTogether(begin, k, k);
  }

  // ---- additions and refreshes ----

  /** Verdict j comes from the rule of the check, applied to the last refresh before it, entry i of the log. */
  ghost predicate LastRefresh(log: seq<Event>, i: nat, j: nat) {
    i < j <= |log| && IsRefresh(log[i]) && forall k :: i < k < j ==> !IsRefresh(log[k])
  }

  ghost predicate RuleFollowed(log: seq<Event>) {
    forall i: nat, j: nat :: j < |log| && LastRefresh(log, i, j) && (log[j].Added? || log[j].Waited?) ==>
      (log[j].Added? <==> log[j].at > log[i].at + AUTOPEER_TIMEOUT)
  }

  ghost predicate Ruled(s: State) {
    RuleFollowed(s.log) && forall i: nat :: LastRefresh(s.log, i, |s.log|) ==> s.hadPeers == s.log[i].at
  }

  /** Times never go back. */
  ghost predicate Chronological(log: seq<Event>) {
    forall i, j :: 0 <= i <= j < |log| ==> log[i].at <= log[j].at
  }

  ghost predicate Ordered(s: State) {
    Chronological(s.log) && forall i :: 0 <= i < |s.log| ==> s.log[i].at <= s.now
  }

  lemma LastRefreshInPrefix(log: seq<Event>, e: Event, i: nat, j: nat)
    requires j <= |log|
    ensures LastRefresh(log + [e], i, j) <==> LastRefresh(log, i, j)
  {
    if i < j {
      assert forall k :: 0 <= k < j ==> (log + [e])[k] == log[k];
    }
  }

  lemma LastRefreshOneMore(log: seq<Event>, e: Event, i: nat)
    requires LastRefresh(log + [e], i, |log| + 1)
    ensures if IsRefresh(e) then i == |log| else LastRefresh(log, i, |log|)
  {
    assert (log + [e])[|log|] == e;
    if i < |log| {
      LastRefreshInPrefix(log, e, i, |log|);
    }
  }

  /** What a step does to the log: nothing, or one entry with the current time. */
  lemma StepLogs(s: State, a: Action)
    requires Enabled(s, a)
    ensures var s' := Next(s, a);
            s'.now >= s.now &&
            (s'.log == s.log || (s'.now == s.now && exists e :: s'.log == s.log + [e] && e.at == s.now))
  {
    var s' := Next(s, a);
    if s'.log != s.log {
      assert s'.log == s.log + [s'.log[|s.log|]];
    }
  }

  lemma StepStaysOrdered(s: State, a: Action)
    requires Ordered(s) && Enabled(s, a)
    ensures Ordered(Next(s, a))
  {
    var s' := Next(s, a);
    StepLogs(s, a);
    if s'.log != s.log {
      var e :| s'.log == s.log + [e] && e.at == s.now;
      forall i, j | 0 <= i <= j < |s'.log|
        ensures s'.log[i].at <= s'.log[j].at
      {
        if j == |s.log| {
          assert s'.log[j] == e && (i < j ==> s'.log[i] == s.log[i]);
        }
      }
    }
  }

  lemma LogStaysRuled(s: State, e: Event)
    requires Ruled(s)
    requires forall i: nat :: LastRefresh(s.log, i, |s.log|) && (e.Added? || e.Waited?) ==>
               (e.Added? <==> e.at > s.log[i].at + AUTOPEER_TIMEOUT)
    ensures RuleFollowed(s.log + [e])
  {
    var log := s.log + [e];
    forall i: nat, j: nat | j < |log| && LastRefresh(log, i, j) && (log[j].Added? || log[j].Waited?)
      ensures log[j].Added? <==> log[j].at > log[i].at + AUTOPEER_TIMEOUT
    {
      LastRefreshInPrefix(s.log, e, i, j);
    }
  }

  lemma StepStaysRuled(s: State, a: Action)
    requires Ruled(s) && Enabled(s, a)
    ensures Ruled(Next(s, a))
  {
    var s' := Next(s, a);
    if s'.log != s.log {
      var e := s'.log[|s.log|];
      assert s'.log == s.log + [e];
      LogStaysRuled(s, e);
      forall i: nat | LastRefresh(s'.log, i, |s'.log|)
        ensures s'.hadPeers == s'.log[i].at
      {
        LastRefreshOneMore(s.log, e, i);
      }
    }
  }

  /** Decisions made less decisions written down. */
  function Open(log: seq<Event>): (n: int)
    decreases |log|
  {
    if log == [] then 0
    else
      var n := |log| - 1;
      Open(log[..n]) + (if log[n].Added? then 1 else 0) - if log[n].Marked? then 1 else 0
  }

  /** At no time have more decisions been written down than made. */
  ghost predicate NeverOverdrawn(log: seq<Event>) {
    forall n :: 0 <= n <= |log| ==> Open(log[..n]) >= 0
  }

  /** No decision is open at a refresh. */
  ghost predicate ClosedAtRefresh(log: seq<Event>) {
    forall i :: 0 <= i < |log| && IsRefresh(log[i]) ==> Open(log[..i + 1]) == 0
  }

  /** The open decisions are those of the checks about to write one down; with one start, none is open at a
      refresh. */
  ghost predicate Balanced(s: State) {
    && Open(s.log) == DecidingIn(s)
    && NeverOverdrawn(s.log)
    && (s.starts <= 1 ==> ClosedAtRefresh(s.log))
  }

  lemma PrefixesOneMore(log: seq<Event>, e: Event, n: nat)
    requires n <= |log| + 1
    ensures (log + [e])[..n] == if n <= |log| then log[..n] else log + [e]
  {
  }

  lemma NeverOverdrawnOneMore(log: seq<Event>, e: Event)
    requires NeverOverdrawn(log) && Open(log + [e]) >= 0
    ensures NeverOverdrawn(log + [e])
  {
    forall n | 0 <= n <= |log| + 1
      ensures Open((log + [e])[..n]) >= 0
    {
      PrefixesOneMore(log, e, n);
    }
  }

  lemma ClosedAtRefreshOneMore(log: seq<Event>, e: Event)
    requires ClosedAtRefresh(log) && (IsRefresh(e) ==> Open(log + [e]) == 0)
    ensures ClosedAtRefresh(log + [e])
  {
    forall i | 0 <= i <= |log| && IsRefresh((log + [e])[i])
      ensures Open((log + [e])[..i + 1]) == 0
    {
      PrefixesOneMore(log, e, i + 1);
    }
  }

  lemma EventStaysBalanced(s: State, s': State, e: Event)
    requires Balanced(s) && s'.log == s.log + [e] && s.starts <= s'.starts
    requires DecidingIn(s') == DecidingIn(s) + (if e.Added? then 1 else 0) - if e.Marked? then 1 else 0
    requires s'.starts <= 1 && IsRefresh(e) ==> DecidingIn(s') == 0
    ensures Balanced(s')
  {
    NeverOverdrawnOneMore(s.log, e);
    if s'.starts <= 1 {
      ClosedAtRefreshOneMore(s.log, e);
    }
  }

  lemma StepStaysBalanced(s: State, a: Action)
    requires Balanced(s) && JobsInOrder(s) && Enabled(s, a)
    ensures Balanced(Next(s, a))
  {
    var s' := Next(s, a);
    StepCounts(s, a);
    match a
    case Start => EventStaysBalanced(s, s', Began(s.now, s.starts));
    case Judge(j) =>
      if !Decides(s, j) {
        DecidingBelowAlive(s'.jobs, j);
      }
      EventStaysBalanced(s, s', if s.jobs[j].stage.have then Saw(s.now)
                                else if Decides(s, j) then Added(s.now) else Waited(s.now));
    case Mark(j) =>
      DecidingBelowAlive(s'.jobs, j);
      EventStaysBalanced(s, s', Marked(s.now));
    case Fire(j) => EventStaysBalanced(s, s', Began(s.now, s.jobs[j].chain));
    case _ => assert s'.log == s.log && s'.starts == s.starts;
  }

  ghost predicate Historic(s: State) {
    JobsInOrder(s) && Ruled(s) && Ordered(s) && Balanced(s)
  }

  lemma {:induction false} RunStaysHistoric(s: State, actions: seq<Action>)
    requires Historic(s) && RunFrom(s, actions).Some?
    ensures Historic(RunFrom(s, actions).value)
    decreases |actions|
  {
    if actions != [] {
      StepKeepsJobsInOrder(s, actions[0]);
      StepStaysRuled(s, actions[0]);
      StepStaysOrdered(s, actions[0]);
      StepStaysBalanced(s, actions[0]);
      RunStaysHistoric(Next(s, actions[0]), actions[1..]);
    }
  }

  /** However many starts, no addition comes within 30 seconds after hadPeers was refreshed. */
  lemma NoAdditionAfterRefresh(begin: nat, actions: seq<Action>, i: nat, j: nat)
    requires RunFrom(Initial(begin), actions).Some?
    requires var log := RunFrom(Initial(begin), actions).value.log;
             i < j < |log| && IsRefresh(log[i]) && log[j].Added?
    ensures var log := RunFrom(Initial(begin), actions).value.log;
            log[j].at > log[i].at + AUTOPEER_TIMEOUT
  {
    RunStaysHistoric(Initial(begin), actions);
    var log := RunFrom(Initial(begin), actions).value.log;
    var m := LatestRefresh(log, i, j);
    assert log[i].at <= log[m].at;
  }

  lemma {:induction false} LatestRefresh(log: seq<Event>, i: nat, j: nat) returns (m: nat)
    requires i < j <= |log| && IsRefresh(log[i])
    ensures i <= m && LastRefresh(log, m, j)
  {
    m := j - 1;
    while !IsRefresh(log[m])
      decreases m
      invariant i <= m < j && forall k :: m < k < j ==> !IsRefresh(log[k])
    {
      m := m - 1;
    }
  }

  // ---- the response to having no peers ----

  /** After a refresh, entry i, every verdict comes within gap of the one before it, or of the refresh. */
  ghost predicate Regular(log: seq<Event>, i: nat, j: nat, gap: int) {
    forall k: nat :: i < k <= j && k < |log| && IsVerdict(log[k]) ==>
      exists m: nat :: i <= m < k && log[k].at - log[m].at <= gap && (m == i || IsVerdict(log[m]))
  }

  /** Suppose no peer is seen after a refresh at which no decision was open, and the verdicts come at most gap
      apart: by the first verdict more than 30 seconds after the refresh a peer has been added, at most 30 seconds
      and gap after the refresh.  This holds for any number of starts. */
  lemma AdditionComesInTime(begin: nat, actions: seq<Action>, i: nat, j: nat, gap: int)
    requires RunFrom(Initial(begin), actions).Some?
    requires var log := RunFrom(Initial(begin), actions).value.log;
             && i < j < |log| && IsRefresh(log[i]) && Open(log[..i + 1]) == 0 && IsVerdict(log[j])
             && log[j].at > log[i].at + AUTOPEER_TIMEOUT
             && (forall k :: i < k <= j ==> !log[k].Saw?)
             && Regular(log, i, j, gap)
    ensures var log := RunFrom(Initial(begin), actions).value.log;
            exists k :: i < k <= j && log[k].Added? && log[k].at <= log[i].at + AUTOPEER_TIMEOUT + gap
  {
    RunStaysHistoric(Initial(begin), actions);
    LateVerdict(RunFrom(Initial(begin), actions).value.log, i, j, gap);
  }

  lemma {:induction false} LateVerdict(log: seq<Event>, i: nat, j: nat, gap: int)
    requires RuleFollowed(log) && Chronological(log) && NeverOverdrawn(log)
    requires i < j < |log| && IsRefresh(log[i]) && Open(log[..i + 1]) == 0 && IsVerdict(log[j])
    requires log[j].at > log[i].at + AUTOPEER_TIMEOUT
    requires forall k :: i < k <= j ==> !log[k].Saw?
    requires Regular(log, i, j, gap)
    ensures exists k :: i < k <= j && log[k].Added? && log[k].at <= log[i].at + AUTOPEER_TIMEOUT + gap
    decreases j
  {
    var m := VerdictBefore(log, i, j, gap);
    if log[m].at > log[i].at + AUTOPEER_TIMEOUT {
      LateVerdict(log, i, m, gap);
    } else {
      var k := AdditionBy(log, i, j);
      assert log[k].at <= log[j].at <= log[i].at + AUTOPEER_TIMEOUT + gap;
    }
  }

  lemma VerdictBefore(log: seq<Event>, i: nat, j: nat, gap: int) returns (m: nat)
    requires i < j < |log| && IsVerdict(log[j]) && Regular(log, i, j, gap)
    ensures i <= m < j && log[j].at - log[m].at <= gap && (m == i || IsVerdict(log[m]))
    ensures Regular(log, i, m, gap)
  {
    m :| i <= m < j && log[j].at - log[m].at <= gap && (m == i || IsVerdict(log[m]));
  }

  /** By a late verdict without a peer seen since refresh i, a peer has been added. */
  lemma AdditionBy(log: seq<Event>, i: nat, j: nat) returns (k: nat)
    requires RuleFollowed(log) && NeverOverdrawn(log)
    requires i < j < |log| && IsRefresh(log[i]) && Open(log[..i + 1]) == 0 && IsVerdict(log[j])
    requires log[j].at > log[i].at + AUTOPEER_TIMEOUT
    requires forall k :: i < k <= j ==> !log[k].Saw?
    ensures i < k <= j && log[k].Added?
  {
    if m :| i < m < j && IsRefresh(log[m]) {
      OpenBeforeMark(log, m);
      k := OpenRises(log, i + 1, m);
    } else {
      assert LastRefresh(log, i, j);
      k := j;
    }
  }

  lemma OpenBeforeMark(log: seq<Event>, m: nat)
    requires NeverOverdrawn(log) && m < |log| && log[m].Marked?
    ensures Open(log[..m]) > 0
  {
    assert log[..m + 1] == log[..m] + [log[m]];
    assert Open(log[..m + 1]) >= 0;
  }

  lemma {:induction false} OpenRises(log: seq<Event>, low: nat, high: nat) returns (k: nat)
    requires low <= high <= |log| && Open(log[..low]) < Open(log[..high])
    ensures low <= k < high && log[k].Added?
    decreases high
  {
    assert log[..high][..high - 1] == log[..high - 1];
    if log[high - 1].Added? {
      k := high - 1;
    } else {
      k := OpenRises(log, low, high - 1);
    }
  }

  // ---- the same in terms of when the checks begin ----

  /** Whether a check has begun and has not come to its verdict. */
  predicate Asking(log: seq<Event>)
    decreases |log|
  {
    log != [] &&
    var n := |log| - 1;
    log[n].Began? || (!IsVerdict(log[n]) && Asking(log[..n]))
  }

  predicate IsAsking(job: Job) {
    job.Check? && (job.stage == Scanning || job.stage.Judging?)
  }

  ghost predicate TakesTurns(log: seq<Event>) {
    forall k :: 0 <= k < |log| ==>
      (IsVerdict(log[k]) ==> Asking(log[..k])) && (log[k].Began? || log[k].Marked? ==> !Asking(log[..k]))
  }

  /** With one start, checks and their verdicts take turns. */
  ghost predicate InTurn(s: State) {
    && (s.starts == 0 ==> s.log == [])
    && (s.starts <= 1 ==>
          TakesTurns(s.log) &&
          forall j :: 0 <= j < |s.jobs| && Alive(s.jobs[j]) ==> (IsAsking(s.jobs[j]) <==> Asking(s.log)))
  }

  lemma TurnTaken(log: seq<Event>, e: Event)
    requires TakesTurns(log)
    requires (IsVerdict(e) ==> Asking(log)) && (e.Began? || e.Marked? ==> !Asking(log))
    ensures TakesTurns(log + [e])
    ensures Asking(log + [e]) <==> e.Began? || (e.Marked? && Asking(log))
  {
    var log' := log + [e];
    assert log'[..|log|] == log;
    assert forall n :: 0 <= n <= |log| ==> log'[..n] == log[..n];
  }

  lemma EventStaysInTurn(s: State, s': State, e: Event, j: nat)
    requires InTurn(s) && OneJobAChain(s') && s'.log == s.log + [e] && s.starts <= s'.starts && 1 <= s'.starts
    requires s'.starts <= 1 ==> (IsVerdict(e) ==> Asking(s.log)) && (e.Began? || e.Marked? ==> !Asking(s.log))
    requires j < |s'.jobs| && Alive(s'.jobs[j]) && (IsAsking(s'.jobs[j]) <==> e.Began?)
    ensures InTurn(s')
  {
    if s'.starts <= 1 {
      TurnTaken(s.log, e);
      forall i | 0 <= i < |s'.jobs| && Alive(s'.jobs[i])
        ensures IsAsking(s'.jobs[i]) <==> Asking(s'.log)
      {
      }
    }
  }

  lemma StepStaysInTurn(s: State, a: Action)
    requires InTurn(s) && OneJobAChain(s) && Enabled(s, a)
    ensures InTurn(Next(s, a))
  {
    var s' := Next(s, a);
    StepKeepsChains(s, a);
    match a
    case Start => EventStaysInTurn(s, s', Began(s.now, s.starts), |s.jobs|);
    case Judge(j) =>
      EventStaysInTurn(s, s', if s.jobs[j].stage.have then Saw(s.now)
                              else if Decides(s, j) then Added(s.now) else Waited(s.now), j);
    case Mark(j) => EventStaysInTurn(s, s', Marked(s.now), j);
    case Fire(j) => EventStaysInTurn(s, s', Began(s.now, s.jobs[j].chain), |s.jobs|);
    case _ => assert s'.log == s.log && s'.starts == s.starts;
  }

  lemma {:induction false} RunStaysInTurn(s: State, actions: seq<Action>)
    requires InTurn(s) && OneJobAChain(s) && RunFrom(s, actions).Some?
    ensures InTurn(RunFrom(s, actions).value)
    decreases |actions|
  {
    if actions != [] {
      StepStaysInTurn(s, actions[0]);
      StepKeepsChains(s, actions[0]);
      RunStaysInTurn(Next(s, actions[0]), actions[1..]);
    }
  }

  /** Entry b is the last check that began before entry k. */
  ghost predicate LastBegan(log: seq<Event>, b: nat, k: nat) {
    b < k <= |log| && log[b].Began? && forall n :: b < n < k ==> !log[n].Began?
  }

  lemma {:induction false} AskingSince(log: seq<Event>, b: nat, k: nat)
    requires LastBegan(log, b, k)
    ensures Asking(log[..k]) <==> forall n :: b < n < k ==> !IsVerdict(log[n])
    decreases k
  {
    assert log[..k][..k - 1] == log[..k - 1];
    if b < k - 1 {
      AskingSince(log, b, k - 1);
    }
  }

  lemma {:induction false} NobodyAsks(log: seq<Event>, k: nat)
    requires k <= |log| && forall n :: 0 <= n < k ==> !log[n].Began?
    ensures !Asking(log[..k])
    decreases k
  {
    if k > 0 {
      assert log[..k][..k - 1] == log[..k - 1];
      NobodyAsks(log, k - 1);
    }
  }

  lemma FindBegan(log: seq<Event>, k: nat) returns (b: nat)
    requires k <= |log| && exists n :: 0 <= n < k && log[n].Began?
    ensures LastBegan(log, b, k)
  {
    b := k - 1;
    while !log[b].Began?
      decreases b
      invariant b < k && (forall n :: b < n < k ==> !log[n].Began?) && exists n :: 0 <= n <= b && log[n].Began?
    {
      b := b - 1;
    }
  }

  /** The check that a verdict belongs to. */
  lemma BeganForVerdict(log: seq<Event>, k: nat) returns (b: nat)
    requires TakesTurns(log) && k < |log| && IsVerdict(log[k])
    ensures LastBegan(log, b, k) && forall n :: b < n < k ==> !IsVerdict(log[n])
  {
    if forall n :: 0 <= n < k ==> !log[n].Began? {
      NobodyAsks(log, k);
    }
    b := FindBegan(log, k);
    AskingSince(log, b, k);
  }

  lemma SomeBegan(log: seq<Event>, i: nat)
    requires TakesTurns(log) && NeverOverdrawn(log) && i < |log| && IsRefresh(log[i])
    ensures exists b :: 0 <= b < i && log[b].Began?
  {
    if IsVerdict(log[i]) {
      var b := BeganForVerdict(log, i);
    } else {
      OpenBeforeMark(log, i);
      var a := OpenRises(log, 0, i);
      var b := BeganForVerdict(log, a);
    }
  }

  /** After refresh i and up to entry j, each check begins at most gap after the one before it and comes to its
      verdict at most delay later. */
  ghost predicate Punctual(log: seq<Event>, i: nat, j: nat, gap: int, delay: int) {
    forall b: nat, k: nat :: i < k <= j && k < |log| && LastBegan(log, b, k) ==>
      (log[k].Began? ==> log[k].at - log[b].at <= gap) &&
      (IsVerdict(log[k]) && b > i ==> log[k].at - log[b].at <= delay)
  }

  /** The verdict between two checks. */
  lemma VerdictBetween(log: seq<Event>, b': nat, b: nat) returns (m: nat)
    requires TakesTurns(log) && b < |log| && log[b].Began? && LastBegan(log, b', b)
    ensures b' < m < b && IsVerdict(log[m])
  {
    AskingSince(log, b', b);
    m :| b' < m < b && IsVerdict(log[m]);
  }

  lemma BeganAfterRefresh(log: seq<Event>, i: nat, k: nat) returns (b: nat)
    requires TakesTurns(log) && i < k < |log| && IsRefresh(log[i]) && IsVerdict(log[k])
    ensures i < b && LastBegan(log, b, k)
  {
    b := BeganForVerdict(log, k);
    if b < i {
      assert LastBegan(log, b, i);
      AskingSince(log, b, i);
    }
  }

  lemma PunctualIsRegular(log: seq<Event>, i: nat, j: nat, gap: int, delay: int)
    requires TakesTurns(log) && NeverOverdrawn(log) && Chronological(log)
    requires i < |log| && IsRefresh(log[i]) && Punctual(log, i, j, gap, delay)
    ensures Regular(log, i, j, gap + delay)
  {
    SomeBegan(log, i);
    forall k: nat | i < k <= j && k < |log| && IsVerdict(log[k])
      ensures exists m: nat :: i <= m < k && log[k].at - log[m].at <= gap + delay && (m == i || IsVerdict(log[m]))
    {
      var b := BeganAfterRefresh(log, i, k);
      var b' := FindBegan(log, b);
      var v := VerdictBetween(log, b', b);
      var m := if v < i then i else v;
      assert log[b'].at <= log[v].at <= log[m].at;
    }
  }

  /** From one start: if no peer is seen after a refresh, the checks begin at most gap apart and each comes to its
      verdict within delay, then by the first verdict more than 30 seconds after the refresh a peer has been added,
      at most 30 seconds, gap and delay after the refresh. */
  lemma AdditionFromOneStart(begin: nat, actions: seq<Action>, i: nat, j: nat, gap: int, delay: int)
    requires RunFrom(Initial(begin), actions).Some? && StartsIn(actions) <= 1
    requires var log := RunFrom(Initial(begin), actions).value.log;
             && i < j < |log| && IsRefresh(log[i]) && IsVerdict(log[j])
             && log[j].at > log[i].at + AUTOPEER_TIMEOUT
             && (forall k :: i < k <= j ==> !log[k].Saw?)
             && Punctual(log, i, j, gap, delay)
    ensures var log := RunFrom(Initial(begin), actions).value.log;
            exists k :: i < k <= j && log[k].Added? && log[k].at <= log[i].at + AUTOPEER_TIMEOUT + gap + delay
  {
    RunStaysHistoric(Initial(begin), actions);
    RunStaysInTurn(Initial(begin), actions);
    RunKeepsJobsInOrder(Initial(begin), actions);
    var log := RunFrom(Initial(begin), actions).value.log;
    PunctualIsRegular(log, i, j, gap, delay);
    LateVerdict(log, i, j, gap + delay);
  }

  // ---- stopping ----

  predicate NoStart(actions: seq<Action>) {
    forall k :: 0 <= k < |actions| ==> actions[k] != Start
  }

  function Checks(log: seq<Event>): (n: nat)
    decreases |log|
  {
    if log == [] then 0
    else Checks(log[..|log| - 1]) + if log[|log| - 1].Began? then 1 else 0
  }

  ghost predicate AtRest(s: State) {
    forall j :: 0 <= j < |s.jobs| ==> !Alive(s.jobs[j])
  }

  lemma {:induction false} RestIsForGood(s: State, actions: seq<Action>)
    requires AtRest(s) && NoStart(actions) && RunFrom(s, actions).Some?
    ensures RunFrom(s, actions).value.log == s.log
    decreases |actions|
  {
    if actions != [] {
      RestIsForGood(Next(s, actions[0]), actions[1..]);
    }
  }

  function StepsToFire(job: Job): (n: nat) {
    match job
    case Check(_, stage) =>
      (match stage case Scanning => 5 case Judging(_) => 4 case Deciding => 3 case Choosing => 2 case Arming => 1)
    case _ => 0
  }

  /** A running check or an armed timer leads to another check. */
  lemma LeadsToCheck(s: State, j: nat) returns (actions: seq<Action>)
    requires j < |s.jobs| && Alive(s.jobs[j])
    ensures NoStart(actions) && RunFrom(s, actions).Some?
    ensures Checks(RunFrom(s, actions).value.log) > Checks(s.log)
    decreases StepsToFire(s.jobs[j]), 1
  {
    match s.jobs[j]
    case Timer(_, due) =>
      var d := if s.now < due then due - s.now else 0;
      var t := Next(s, Tick(d));
      actions := [Tick(d)] + ([Fire(j)] + []);
      RunCons(s, Tick(d), [Fire(j)] + []);
      RunCons(t, Fire(j), []);
      assert Next(t, Fire(j)).log[..|s.log|] == s.log;
    case Check(_, stage) =>
      match stage {
        case Scanning => actions := LeadsOn(s, Scan(j, false), j);
        case Judging(_) => actions := LeadsOn(s, Judge(j), j);
        case Deciding => actions := LeadsOn(s, Mark(j), j);
        case Choosing => actions := LeadsOn(s, Choose(j), j);
        case Arming => actions := LeadsOn(s, Arm(j), |s.jobs|);
      }
  }

  lemma LeadsOn(s: State, a: Action, j: nat) returns (actions: seq<Action>)
    requires Enabled(s, a) && (a.Scan? || a.Judge? || a.Mark? || a.Choose? || a.Arm?)
    requires j < |Next(s, a).jobs| && Alive(Next(s, a).jobs[j])
    ensures NoStart(actions) && RunFrom(s, actions).Some?
    ensures Checks(RunFrom(s, actions).value.log) > Checks(s.log)
    decreases StepsToFire(Next(s, a).jobs[j]), 2
  {
    var t := Next(s, a);
    assert t.log != s.log ==> t.log[..|s.log|] == s.log;
    var rest := LeadsToCheck(t, j);
    actions := [a] + rest;
    RunCons(s, a, rest);
  }

  /** After a Stop no further check begins, whatever happens short of a new start. */
  ghost predicate StopIsFinal(s: State) {
    forall actions :: NoStart(actions) && RunFrom(Next(s, Stop), actions).Some? ==>
      Checks(RunFrom(Next(s, Stop), actions).value.log) == Checks(s.log)
  }

  /** Stop is final exactly when no check is running at that moment and no timer is armed but the one that
      checkPeerTimer refers to; a check that is running arms the timer again. */
  lemma StopIsFinalExactlyAtRest(s: State)
    ensures StopIsFinal(s) <==> forall j :: 0 <= j < |s.jobs| && Alive(s.jobs[j]) ==> Stoppable(s, j)
  {
    var t := Next(s, Stop);
    if j :| 0 <= j < |s.jobs| && Alive(s.jobs[j]) && !Stoppable(s, j) {
      assert t.jobs[j] == s.jobs[j];
      var actions := LeadsToCheck(t, j);
    } else {
      forall actions | NoStart(actions) && RunFrom(t, actions).Some?
        ensures Checks(RunFrom(t, actions).value.log) == Checks(s.log)
      {
        RestIsForGood(t, actions);
      }
    }
  }

  /** From one start: exactly when no check is running. */
  lemma StopAfterOneStart(begin: nat, actions: seq<Action>)
    requires RunFrom(Initial(begin), actions).Some? && StartsIn(actions) <= 1
    ensures var s := RunFrom(Initial(begin), actions).value;
            StopIsFinal(s) <==> forall j :: 0 <= j < |s.jobs| ==> !s.jobs[j].Check?
  {
    var s := RunFrom(Initial(begin), actions).value;
    RunKeepsJobsInOrder(Initial(begin), actions);
    StopIsFinalExactlyAtRest(s);
  }

  // ---- the pace of checks ----

  /** Each check begins at least 10 seconds after the one before it in its chain. */
  ghost predicate ChecksSpaced(s: State) {
    && (forall i, j :: 0 <= i < j < |s.log| && s.log[i].Began? && s.log[j].Began? &&
                       s.log[i].chain == s.log[j].chain ==>
          s.log[j].at - s.log[i].at >= PEER_CHECK_TIMEOUT)
    && (forall i :: 0 <= i < |s.log| && s.log[i].Began? ==> s.log[i].at <= s.now && s.log[i].chain < s.starts)
    && (forall i, t :: 0 <= i < |s.log| && s.log[i].Began? && 0 <= t < |s.jobs| && s.jobs[t].Timer? &&
                       s.jobs[t].chain == s.log[i].chain ==>
          s.log[i].at + PEER_CHECK_TIMEOUT <= s.jobs[t].due)
  }

  lemma {:induction false} RunKeepsChecksSpaced(s: State, actions: seq<Action>)
    requires ChecksSpaced(s) && JobsInOrder(s) && RunFrom(s, actions).Some?
    ensures ChecksSpaced(RunFrom(s, actions).value)
    decreases |actions|
  {
    if actions != [] {
      StepKeepsChecksSpaced(s, actions[0]);
      StepKeepsJobsInOrder(s, actions[0]);
      RunKeepsChecksSpaced(Next(s, actions[0]), actions[1..]);
    }
  }

  lemma BeganKeepsChecksSpaced(s: State, s': State, chain: nat)
    requires ChecksSpaced(s) && s'.log == s.log + [Began(s.now, chain)] && s'.now == s.now
    requires s.starts <= s'.starts && chain < s'.starts
    requires forall i :: 0 <= i < |s.log| && s.log[i].Began? && s.log[i].chain == chain ==>
               s.now - s.log[i].at >= PEER_CHECK_TIMEOUT
    requires forall t :: 0 <= t < |s'.jobs| && s'.jobs[t].Timer? ==>
               t < |s.jobs| && s'.jobs[t] == s.jobs[t] && s.jobs[t].chain != chain
    ensures ChecksSpaced(s')
  {
  }

  lemma OtherKeepsChecksSpaced(s: State, s': State)
    requires ChecksSpaced(s) && s'.now >= s.now && s'.starts == s.starts
    requires s'.log == s.log || exists e: Event :: s'.log == s.log + [e] && !e.Began?
    requires forall t :: 0 <= t < |s'.jobs| && s'.jobs[t].Timer? ==>
               (t < |s.jobs| && s'.jobs[t] == s.jobs[t]) || s'.jobs[t].due >= s.now + PEER_CHECK_TIMEOUT
    ensures ChecksSpaced(s')
  {
  }

  lemma StepKeepsChecksSpaced(s: State, a: Action)
    requires ChecksSpaced(s) && OneJobAChain(s) && Enabled(s, a)
    ensures ChecksSpaced(Next(s, a))
  {
    var s' := Next(s, a);
    match a
    case Start => BeganKeepsChecksSpaced(s, s', s.starts);
    case Fire(j) => BeganKeepsChecksSpaced(s, s', s.jobs[j].chain);
    case Mark(_) => assert s'.log == s.log + [Marked(s.now)]; OtherKeepsChecksSpaced(s, s');
    case Judge(j) => assert s'.log == s.log + [s'.log[|s.log|]]; OtherKeepsChecksSpaced(s, s');
    case _ => OtherKeepsChecksSpaced(s, s');
  }

  /** From one start, all checks begin at least 10 seconds apart. */
  lemma ChecksFromOneStart(begin: nat, actions: seq<Action>, i: nat, j: nat)
    requires RunFrom(Initial(begin), actions).Some? && StartsIn(actions) <= 1
    requires var log := RunFrom(Initial(begin), actions).value.log;
             i < j < |log| && log[i].Began? && log[j].Began?
    ensures var log := RunFrom(Initial(begin), actions).value.log;
            log[j].at - log[i].at >= PEER_CHECK_TIMEOUT
  {
    RunKeepsChecksSpaced(Initial(begin), actions);
    RunKeepsJobsInOrder(Initial(begin), actions);
  }
}
