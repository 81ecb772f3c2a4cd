/** GetClosestPeers and RandomPick: filter the online peers in place, sort them by latency, keep the first n, and
    pick from those. */
module ClosestPeers {
  import opened Options
  import opened Probing

  function Online(peers: seq<Peer>): (online: seq<Peer>)
    decreases |peers|
  {
    if peers == [] then []
    else
      var n := |peers| - 1;
      Online(peers[..n]) + if peers[n].online then [peers[n]] else []
  }

  lemma OnlineOneMore(peers: seq<Peer>, i: nat)
    requires i < |peers|
    ensures Online(peers[..i + 1]) == Online(peers[..i]) + if peers[i].online then [peers[i]] else []
  {
    assert peers[..i + 1][..i] == peers[..i];
  }

  /** The filter loop, which writes to the slice it is ranging over. */
  method FilterOnline(peers: array<Peer>) returns (x: nat)
    modifies peers
    ensures x <= peers.Length
    ensures peers[..x] == Online(old(peers[..]))
  {
    ghost var was := peers[..];
    x := 0;
    for i := 0 to peers.Length
      invariant x <= i
      invariant peers[..x] == Online(was[..i])
      invariant peers[i..] == was[i..]
    {
      var p := peers[i];
      assert p == peers[i..][0] == was[i];
      OnlineOneMore(was, i);
      if p.online {
        peers[x] := p;
        x := x + 1;
        assert peers[..x] == Online(was[..i]) + [p];
      }
    }
    assert was[..peers.Length] == was;
  }

  /** The first i peers are in place: none of them is slower than any peer after it, up to n. */
  ghost predicate InPlace(peers: seq<Peer>, i: nat, n: nat) {
    i <= n <= |peers| && forall a, b :: 0 <= a < i && a <= b < n ==> peers[a].latency <= peers[b].latency
  }

  function Swapped(s: seq<Peer>, i: nat, j: nat): (r: seq<Peer>)
    requires i < |s| && j < |s|
  {
    s[i := s[j]][j := s[i]]
  }

  lemma SwapPermutes(s: seq<Peer>, i: nat, j: nat, n: nat)
    requires i < n && j < n && n <= |s|
    ensures var swapped := Swapped(s, i, j); multiset(swapped[..n]) == multiset(s[..n])
  {
  }

  lemma SwapPlacesOneMore(s: seq<Peer>, i: nat, least: nat, n: nat)
    requires InPlace(s, i, n) && i <= least < n
    requires forall b :: i <= b < n ==> s[least].latency <= s[b].latency
    ensures InPlace(Swapped(s, i, least), i + 1, n)
  {
  }

  method LeastFrom(peers: array<Peer>, i: nat, n: nat) returns (least: nat)
    requires i < n <= peers.Length
    ensures i <= least < n && forall b :: i <= b < n ==> peers[least].latency <= peers[b].latency
  {
    least := i;
    for j := i to n
      invariant i <= least < n
      invariant forall b :: i <= b < j ==> peers[least].latency <= peers[b].latency
    {
      if peers[j].latency < peers[least].latency {
        least := j;
      }
    }
  }

  /** Stands for sort.Slice on the first n peers: all that callers may use is its contract, which leaves open the
      order of peers with the same latency. */
  method SortByLatency(peers: array<Peer>, n: nat)
    requires n <= peers.Length
    modifies peers
    ensures forall i, j :: 0 <= i <= j < n ==> peers[i].latency <= peers[j].latency
    ensures multiset(peers[..n]) == multiset(old(peers[..n]))
  {
    for i := 0 to n
      invariant InPlace(peers[..], i, n)
      invariant multiset(peers[..][..n]) == multiset(old(peers[..n]))
    {
      ghost var before := peers[..];
      var least := LeastFrom(peers, i, n);
      SwapPermutes(before, i, least, n);
      SwapPlacesOneMore(before, i, least, n);
      peers[i], peers[least] := peers[least], peers[i];
      assert peers[..] == Swapped(before, i, least);
    }
    assert peers[..][..n] == peers[..n];
  }

  /** kept are n online peers of the round, or all if no more are online or n is negative: in order of latency, and
      none of the online peers left out is faster than one of them. */
  ghost predicate Closest(kept: seq<Peer>, probed: seq<Peer>, n: int) {
    && (|kept| == |Online(probed)| || 0 <= n == |kept| < |Online(probed)|)
    && (n >= 0 ==> |kept| <= n)
    && (forall i, j :: 0 <= i <= j < |kept| ==> kept[i].latency <= kept[j].latency)
    && multiset(kept) <= multiset(Online(probed))
    && forall p: Peer, q: Peer :: p in kept && q in multiset(Online(probed)) - multiset(kept) ==> p.latency <= q.latency
  }

  ghost predicate AreClosest(urls: seq<Url>, probed: seq<Peer>, n: int) {
    exists kept :: Closest(kept, probed, n) && urls == Urls(kept)
  }

  lemma PrefixIsFastest(ranked: seq<Peer>, k: nat)
    requires k <= |ranked| && forall i, j :: 0 <= i <= j < |ranked| ==> ranked[i].latency <= ranked[j].latency
    ensures multiset(ranked[..k]) <= multiset(ranked)
    ensures forall p: Peer, q: Peer :: p in ranked[..k] && q in multiset(ranked) - multiset(ranked[..k]) ==>
              p.latency <= q.latency
  {
    var kept, dropped := ranked[..k], ranked[k..];
    RestOf(ranked, k);
    forall p: Peer, q: Peer | p in kept && q in multiset(dropped)
      ensures p.latency <= q.latency
    {
      var i :| 0 <= i < |kept| && kept[i] == p;
      var j :| 0 <= j < |dropped| && dropped[j] == q;
      assert ranked[i].latency <= ranked[k + j].latency;
    }
  }

  lemma RestOf(ranked: seq<Peer>, k: nat)
    requires k <= |ranked|
    ensures multiset(ranked) - multiset(ranked[..k]) == multiset(ranked[k..])
    ensures multiset(ranked[..k]) <= multiset(ranked)
  {
    assert ranked == ranked[..k] + ranked[k..];
  }

  lemma {:induction false} RankedPrefixIsClosest(ranked: seq<Peer>, probed: seq<Peer>, n: int, k: nat)
    requires multiset(ranked) == multiset(Online(probed)) && k <= |ranked|
    requires forall i, j :: 0 <= i <= j < |ranked| ==> ranked[i].latency <= ranked[j].latency
    requires (n >= 0 ==> k <= n) && (k == |ranked| || k == n)
    ensures |ranked| == |Online(probed)|
    ensures Closest(ranked[..k], probed, n)
  {
    assert |ranked| == |multiset(ranked)| == |multiset(Online(probed))| == |Online(probed)|;
    PrefixIsFastest(ranked, k);
  }

  /** GetClosestPeers on the results of a probe round: n urls, or those of all online peers if no more are online or n
      is negative. */
  method GetClosestPeers(probed: seq<Peer>, n: int) returns (result: seq<Url>)
    ensures n >= 0 ==> |result| <= n
    ensures |result| == |Online(probed)| || 0 <= n == |result| < |Online(probed)|
    ensures AreClosest(result, probed, n)
  {
    var onlinePeers := new Peer[|probed|](i requires 0 <= i < |probed| => probed[i]);
    assert onlinePeers[..] == probed;
    var x := FilterOnline(onlinePeers);
    SortByLatency(onlinePeers, x);
    ghost var ranked := onlinePeers[..x];
    result := [];
    var i := 0;
    while i < x
      invariant |result| == i <= x && result == Urls(ranked[..i])
      invariant n >= 0 ==> i <= n
    {
      if |result| == n {
        break;
      }
      result := result + [onlinePeers[i].url];
      i := i + 1;
    }
    RankedPrefixIsClosest(ranked, probed, n, i);
  }

  /** RandomPick, with the permutation that rand.Perm gives as an argument.  None is the panic of rand.Perm on a
      negative count. */
  method RandomPick(peerList: seq<Url>, n: int, perm: seq<nat>) returns (res: Option<seq<Url>>)
    requires 0 <= n < |peerList| ==> IsPerm(perm, n)
    ensures res == None <==> n < 0
    ensures |peerList| <= n ==> res == Some(peerList)
    ensures 0 <= n < |peerList| ==>
              res == Some(Picked(peerList, perm)) && |res.value| == n &&
              forall i :: 0 <= i < n ==> res.value[i] == peerList[perm[i]]
  {
    if |peerList| <= n {
      return Some(peerList);
    }
    if n < 0 {
      return None;
    }
    var picked: seq<Url> := [];
    for i := 0 to n
      invariant |picked| == i && forall k :: 0 <= k < i ==> picked[k] == peerList[perm[k]]
    {
      picked := picked + [peerList[perm[i]]];
    }
    assert picked == Picked(peerList, perm);
    return Some(picked);
  }

  function Picked(list: seq<Url>, perm: seq<nat>): (res: seq<Url>)
    requires forall i :: 0 <= i < |perm| ==> perm[i] < |list|
    ensures |res| == |perm|
    ensures forall i :: 0 <= i < |perm| ==> res[i] == list[perm[i]]
  {
    seq(|perm|, i requires 0 <= i < |perm| => list[perm[i]])
  }

  /** Picking by a permutation of the first n indices gives a permutation of the first n entries: nothing beyond
      them can be picked, and nothing among them is left out. */
  lemma {:induction false} PickedPermutesPrefix(list: seq<Url>, perm: seq<nat>, n: nat)
    requires IsPerm(perm, n) && n <= |list|
    ensures multiset(Picked(list, perm)) == multiset(list[..n])
    decreases n
  {
    if n == 0 {
      assert Picked(list, perm) == list[..n];
    } else {
      var k := FindLast(perm, n);
      PickedPermutesPrefix(list, Without(perm, k), n - 1);
      PickedWithout(list, perm, k);
      PrefixOneMore(list, n);
    }
  }

  function Without<T>(s: seq<T>, k: nat): (r: seq<T>)
    requires k < |s|
    ensures |r| == |s| - 1
    ensures forall i :: 0 <= i < |r| ==> r[i] == if i < k then s[i] else s[i + 1]
  {
    seq(|s| - 1, i requires 0 <= i < |s| - 1 => if i < k then s[i] else s[i + 1])
  }

  lemma WithoutContents(s: seq<Url>, k: nat)
    requires k < |s|
    ensures multiset(s) == multiset(Without(s, k)) + multiset{s[k]}
  {
    assert Without(s, k) == s[..k] + s[k + 1..];
    assert s == s[..k] + ([s[k]] + s[k + 1..]);
  }

  lemma PickedWithout(list: seq<Url>, perm: seq<nat>, k: nat)
    requires k < |perm| && forall i :: 0 <= i < |perm| ==> perm[i] < |list|
    ensures multiset(Picked(list, perm)) == multiset(Picked(list, Without(perm, k))) + multiset{list[perm[k]]}
  {
    assert Picked(list, Without(perm, k)) == Without(Picked(list, perm), k);
    WithoutContents(Picked(list, perm), k);
  }

  lemma PrefixOneMore(list: seq<Url>, n: nat)
    requires 0 < n <= |list|
    ensures multiset(list[..n]) == multiset(list[..n - 1]) + multiset{list[n - 1]}
  {
    assert list[..n] == list[..n - 1] + [list[n - 1]];
  }

  /** n different numbers below n include n - 1. */
  lemma FindLast(perm: seq<nat>, n: nat) returns (k: nat)
    requires IsPerm(perm, n) && n > 0
    ensures k < n && perm[k] == n - 1
  {
    if n - 1 !in perm {
      var values := set i | 0 <= i < n :: perm[i];
      DistinctValues(perm, n);
      assert values <= Below(n - 1);
      SubsetSize(values, Below(n - 1));
    }
    k :| 0 <= k < n && perm[k] == n - 1;
  }

  function Below(n: nat): (r: set<nat>)
    ensures |r| == n
    ensures forall x: nat :: x in r <==> x < n
  {
    if n == 0 then {} else Below(n - 1) + {n - 1}
  }

  lemma {:induction false} SubsetSize<T>(a: set<T>, b: set<T>)
    requires a <= b
    ensures |a| <= |b|
  {
    if a != {} {
      var x :| x in a;
      SubsetSize(a - {x}, b - {x});
    }
  }

  lemma {:induction false} DistinctValues(perm: seq<nat>, n: nat)
    requires n <= |perm| && forall i, j :: 0 <= i < j < |perm| ==> perm[i] != perm[j]
    ensures |set i | 0 <= i < n :: perm[i]| == n
  {
    if n > 0 {
      DistinctValues(perm, n - 1);
      assert (set i | 0 <= i < n :: perm[i]) == (set i | 0 <= i < n - 1 :: perm[i]) + {perm[n - 1]};
    }
  }

  // ---- what the pipeline selects ----

  /** The online peers are those of the round that are online, each as often as it occurs there. */
  lemma {:induction false} OnlineAre(peers: seq<Peer>, p: Peer)
    ensures multiset(Online(peers))[p] == if p.online then multiset(peers)[p] else 0
    ensures p in Online(peers) <==> p in peers && p.online
    decreases |peers|
  {
    if peers != [] {
      var n := |peers| - 1;
      OnlineAre(peers[..n], p);
      assert peers == peers[..n] + [peers[n]];
    }
  }

  /** They keep their order. */
  lemma {:induction false} OnlineInOrder(a: seq<Peer>, b: seq<Peer>)
    ensures Online(a + b) == Online(a) + Online(b)
    decreases |b|
  {
    if b == [] {
      assert a + b == a;
    } else {
      var n := |b| - 1;
      OnlineInOrder(a, b[..n]);
      assert (a + b)[..|a| + n] == a + b[..n];
    }
  }

  /** p is online, and no online peer is faster. */
  ghost predicate Fastest(p: Peer, probed: seq<Peer>) {
    p in probed && p.online && forall q :: q in probed && q.online ==> p.latency <= q.latency
  }

  /** The url of a fastest online peer, or none exactly if no peer is online. */
  ghost predicate IsChoice(chosen: Option<Url>, probed: seq<Peer>) {
    && (chosen == None <==> forall p :: p in probed ==> !p.online)
    && (chosen.Some? ==> exists p :: Fastest(p, probed) && p.url == chosen.value)
  }

  /** One random pick of a list, if there is one: the permutation of one index picks the first. */
  method PickOne(list: seq<Url>, perm: seq<nat>) returns (chosen: Option<Url>)
    requires IsPerm(perm, 1)
    ensures chosen == if list == [] then None else Some(list[0])
  {
    var picked := RandomPick(list, 1, perm);
    var peers := picked.value;
    if |peers| == 1 {
      return Some(peers[0]);
    }
    return None;
  }

  /** The choice of checkPeerLoop: one of the ten closest peers, which is always the closest. */
  method ChoosePeer(probed: seq<Peer>, perm: seq<nat>) returns (chosen: Option<Url>)
    requires IsPerm(perm, 1)
    ensures IsChoice(chosen, probed)
  {
    var closest := GetClosestPeers(probed, 10);
    FirstIsChoice(closest, probed, 10);
    chosen := PickOne(closest, perm);
  }

  /** The first of the closest peers is a fastest online peer; there is none only if no peer is online. */
  lemma FirstIsFastest(kept: seq<Peer>, probed: seq<Peer>, n: int)
    requires Closest(kept, probed, n) && n != 0
    ensures kept == [] <==> forall p :: p in probed ==> !p.online
    ensures kept != [] ==> Fastest(kept[0], probed)
  {
    forall p
      ensures p in Online(probed) <==> p in probed && p.online
    {
      OnlineAre(probed, p);
    }
    if kept == [] {
      assert Online(probed) == [];
      assert forall p :: p !in Online(probed);
    } else {
      assert kept[0] in multiset(kept) && kept[0] in multiset(Online(probed));
      forall q | q in Online(probed)
        ensures kept[0].latency <= q.latency
      {
        assert q in multiset(Online(probed));
        if i :| 0 <= i < |kept| && kept[i] == q {
          assert kept[0].latency <= kept[i].latency;
        } else {
          assert q !in multiset(kept);
        }
      }
    }
  }

  lemma FirstIsChoice(closest: seq<Url>, probed: seq<Peer>, n: int)
    requires n != 0 && AreClosest(closest, probed, n)
    ensures IsChoice(if closest == [] then None else Some(closest[0]), probed)
  {
    var kept :| Closest(kept, probed, n) && closest == Urls(kept);
    FirstIsFastest(kept, probed, n);
  }

  /** From the peer list to the dialled peer, whatever the schedule of the probes: a peer is chosen exactly when
      some dial connected to a supported url, and then one to the url chosen did, none faster than it. */
  lemma {:induction false} ChosenFromAnyRound(peers: seq<Url>, actions: seq<Action>, chosen: Option<Url>)
    requires Run(peers, actions).Some? && Run(peers, actions).value.returned
    requires IsChoice(chosen, Run(peers, actions).value.received)
    ensures chosen.Some? <==> exists p :: FromADial(peers, actions, p) && p.online
    ensures chosen.Some? ==>
              && chosen.value in peers && Supported(chosen.value)
              && exists p :: FromADial(peers, actions, p) && p.online && p.url == chosen.value &&
                   forall q :: FromADial(peers, actions, q) && q.online ==> p.latency <= q.latency
  {
    var received := Run(peers, actions).value.received;
    forall p
      ensures p in received <==> FromADial(peers, actions, p)
    {
      ReceivedAreTheDials(peers, actions, p);
    }
    if chosen.Some? {
      var p :| Fastest(p, received) && p.url == chosen.value;
      var a :| a in actions && a.Finish? && a.probe < |peers| && p == Result(peers[a.probe], a.dial);
      assert FromADial(peers, actions, p);
    }
  }
}
