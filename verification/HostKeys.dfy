/** The ansible host key generator: keep the best keys of many tries in a slice whose front is scratch space.  A
    public key is better the smaller it is. */
module HostKeys {
  import opened ByteStrings
  import opened Selection
  import opened Bubbling

  datatype KeySet = KeySet(priv: Bytes, pub: Bytes, ip: Bytes)

  function Score(k: KeySet): (v: int) {
    0 - BigEndian(k.pub)
  }

  ghost predicate HaveWidth(keys: seq<KeySet>, width: nat) {
    forall i :: 0 <= i < |keys| ==> |keys[i].pub| == width
  }

  method IsBetter(oldID: Bytes, newID: Bytes) returns (better: bool)
    requires |oldID| <= |newID|
    ensures better <==> Less(newID, oldID)
  {
    for idx := 0 to |oldID|
      invariant newID[..idx] == oldID[..idx]
    {
      if newID[idx] < oldID[idx] {
        return true;
      }
      if newID[idx] > oldID[idx] {
        DiffersAbove(newID, oldID, idx);
        return false;
      }
    }
    EqualPrefix(newID, oldID);
    return false;
  }

  method BubbleUpTo(sets: array<KeySet>, num: nat, ghost width: nat)
    requires HaveWidth(sets[..], width)
    modifies sets
    ensures sets[..] == Bubbled(Score, old(sets[..]), sets.Length - num - 1)
    ensures HaveWidth(sets[..], width)
  {
    var i := 0;
    while i < sets.Length - num - 1
      invariant 0 <= i && (i == 0 || i < sets.Length)
      invariant HaveWidth(sets[..], width)
      invariant Bubbled(Score, old(sets[..]), sets.Length - num - 1) ==
                BubbleFrom(Score, sets[..], i, sets.Length - num - 1)
    {
      ghost var before := sets[..];
      var better := IsBetter(sets[i + 1].pub, sets[i].pub);
      LessIffBigEndian(sets[i].pub, sets[i + 1].pub);
      if better {
        var tmp := sets[i];
        sets[i] := sets[i + 1];
        sets[i + 1] := tmp;
        assert sets[..] == before[i := before[i + 1]][i + 1 := before[i]];
      } else {
        break;
      }
      i := i + 1;
    }
  }

  method SortKeySetArray(sets: array<KeySet>, ghost width: nat)
    requires HaveWidth(sets[..], width)
    modifies sets
    ensures sets[..] == SortFrom(Score, old(sets[..]), 0)
    ensures HaveWidth(sets[..], width)
  {
    for i := 0 to sets.Length
      invariant HaveWidth(sets[..], width)
      invariant SortFrom(Score, old(sets[..]), 0) == SortFrom(Score, sets[..], i)
    {
      BubbleUpTo(sets, i, width);
    }
  }

  /** What main leaves behind.  Panicked is the index panic of keys[0] on an empty slice. */
  datatype Outcome = Refused | Panicked | Written(hosts: seq<KeySet>)

  function Generated(newKey: nat -> KeySet, from: nat, n: nat): (keys: seq<KeySet>)
    ensures |keys| == n
    ensures forall i :: 0 <= i < n ==> keys[i] == newKey(from + i)
  {
    seq(n, i requires i >= 0 => newKey(from + i))
  }

  lemma {:induction false} KeptOneMore(s: seq<KeySet>, xs: seq<KeySet>, x: KeySet)
    requires |s| > 0
    ensures Kept(Score, s, xs + [x]) == Replaced(Score, Kept(Score, s, xs), x)
    decreases |xs|
  {
    if xs == [] {
      assert xs + [x] == [x];
    } else {
      KeptOneMore(Replaced(Score, s, xs[0]), xs[1..], x);
      assert (xs + [x])[1..] == xs[1..] + [x];
    }
  }

  /** The first loop of main. */
  method FirstBatch(numHosts: int, newKey: nat -> KeySet) returns (keys: array<KeySet>)
    ensures fresh(keys)
    ensures keys[..] == Generated(newKey, 0, if numHosts < 0 then 0 else numHosts + 1)
  {
    var list: seq<KeySet> := [];
    var i := 0;
    while i < numHosts + 1
      invariant 0 <= i && (i == 0 || i <= numHosts + 1)
      invariant list == Generated(newKey, 0, i)
    {
      list := list + [newKey(i)];
      i := i + 1;
    }
    keys := new KeySet[|list|](k requires 0 <= k < |list| => list[k]);
    assert keys[..] == list;
  }

  /** The second loop of main: count more keys, the first of them number made. */
  method TryMore(keys: array<KeySet>, newKey: nat -> KeySet, made: nat, count: nat, ghost width: nat)
    requires keys.Length > 0 && HaveWidth(keys[..], width) && forall i :: |newKey(i).pub| == width
    modifies keys
    ensures keys[..] == Kept(Score, old(keys[..]), Generated(newKey, made, count))
  {
    ghost var first := keys[..];
    for i := 0 to count
      invariant HaveWidth(keys[..], width)
      invariant keys[..] == Kept(Score, first, Generated(newKey, made, i))
    {
      ghost var before := keys[..];
      keys[0] := newKey(made + i);
      assert keys[..] == before[0 := newKey(made + i)];
      BubbleUpTo(keys, 0, width);
      KeptOneMore(first, Generated(newKey, made, i), newKey(made + i));
      assert Generated(newKey, made, i + 1) == Generated(newKey, made, i) + [newKey(made + i)];
    }
  }

  /** The selection of main, with the key generator as a function from the number of the key. */
  method SelectHosts(numHosts: int, keyTries: int, newKey: nat -> KeySet, ghost width: nat) returns (out: Outcome)
    requires forall i :: |newKey(i).pub| == width
    ensures numHosts > keyTries ==> out == Refused
    ensures numHosts < 0 && numHosts <= keyTries ==>
              out == if keyTries - numHosts - 1 > 0 then Panicked else Written([])
    ensures 0 <= numHosts <= keyTries ==>
              var more := if keyTries - numHosts - 1 > 0 then keyTries - numHosts - 1 else 0;
              out == Written(Kept(Score, SortFrom(Score, Generated(newKey, 0, numHosts + 1), 0),
                                  Generated(newKey, numHosts + 1, more))[1..])
  {
    if numHosts > keyTries {
      return Refused;
    }
    var keys := FirstBatch(numHosts, newKey);
    SortKeySetArray(keys, width);
    if keyTries - numHosts - 1 > 0 {
      if keys.Length == 0 {
        return Panicked;
      }
      TryMore(keys, newKey, numHosts + 1, keyTries - numHosts - 1, width);
    }
    if numHosts >= 1 {
      return Written(keys[1..numHosts + 1]);
    }
    return Written([]);
  }

  // ---- what the written hosts are ----

  /** A host key at least as good as every key generated is among those written, whatever the sort did: every key of
      the first loop, and every one of the tries. */
  lemma BestKeyIsWritten(numHosts: nat, keyTries: int, newKey: nat -> KeySet, hosts: seq<KeySet>, width: nat)
    requires 1 <= numHosts <= keyTries && forall i :: |newKey(i).pub| == width
    requires var more := if keyTries - numHosts - 1 > 0 then keyTries - numHosts - 1 else 0;
             hosts == Kept(Score, SortFrom(Score, Generated(newKey, 0, numHosts + 1), 0),
                           Generated(newKey, numHosts + 1, more))[1..]
    ensures |hosts| == numHosts
    ensures exists j :: 0 <= j < numHosts &&
              forall i: nat :: i <= numHosts || i < keyTries ==> !Less(newKey(i).pub, hosts[j].pub)
  {
    var more := if keyTries - numHosts - 1 > 0 then keyTries - numHosts - 1 else 0;
    var first, rest := Generated(newKey, 0, numHosts + 1), Generated(newKey, numHosts + 1, more);
    var j := UnbeatenHost(first, rest, width);
    forall i: nat | i <= numHosts || i < keyTries
      ensures !Less(newKey(i).pub, hosts[j].pub)
    {
      assert (first + rest)[i] == newKey(i);
    }
  }

  lemma UnbeatenHost(first: seq<KeySet>, rest: seq<KeySet>, width: nat) returns (j: nat)
    requires |first| >= 2 && HaveWidth(first, width) && HaveWidth(rest, width)
    ensures j + 1 < |first|
    ensures var host := Kept(Score, SortFrom(Score, first, 0), rest)[j + 1];
            forall i :: 0 <= i < |first + rest| ==> !Less((first + rest)[i].pub, host.pub)
  {
    var keys, all := Kept(Score, SortFrom(Score, first, 0), rest), first + rest;
    BestIsNeverLost(Score, first, rest);
    var k :| 1 <= k < |keys| && forall i :: 0 <= i < |all| ==> Score(keys[k]) >= Score(all[i]);
    KeysAreGenerated(first, rest, width, k);
    NoneBeats(all, keys[k], width);
    j := k - 1;
  }

  lemma NoneBeats(all: seq<KeySet>, host: KeySet, width: nat)
    requires HaveWidth(all, width) && |host.pub| == width
    requires forall i :: 0 <= i < |all| ==> Score(host) >= Score(all[i])
    ensures forall i :: 0 <= i < |all| ==> !Less(all[i].pub, host.pub)
  {
    forall i | 0 <= i < |all| {
      LessIffBigEndian(all[i].pub, host.pub);
    }
  }

  lemma {:induction false} KeptHaveWidth(s: seq<KeySet>, xs: seq<KeySet>, width: nat)
    requires |s| > 0 && HaveWidth(s, width) && HaveWidth(xs, width)
    ensures HaveWidth(Kept(Score, s, xs), width)
    decreases |xs|
  {
    if xs != [] {
      var r := Replaced(Score, s, xs[0]);
      BubbledPermutes(Score, s[0 := xs[0]], |s| - 1);
      forall i | 0 <= i < |r|
        ensures |r[i].pub| == width
      {
        assert r[i] in multiset(s[0 := xs[0]]);
      }
      KeptHaveWidth(r, xs[1..], width);
    }
  }

  lemma KeysAreGenerated(first: seq<KeySet>, rest: seq<KeySet>, width: nat, j: nat)
    requires 0 < |first| && j < |first| && HaveWidth(first, width) && HaveWidth(rest, width)
    ensures |Kept(Score, SortFrom(Score, first, 0), rest)[j].pub| == width
  {
    var s := SortFrom(Score, first, 0);
    SortPermutes(Score, first, 0);
    forall i | 0 <= i < |s|
      ensures |s[i].pub| == width
    {
      assert s[i] in multiset(first);
    }
    KeptHaveWidth(s, rest, width);
  }

  /** The key nothing beats, and the key that beats nothing. */
  function ZeroKey(width: nat): (k: KeySet) {
    KeySet([], Zeros(width), [])
  }

  function OnesKey(width: nat): (k: KeySet) {
    KeySet([], AllOnes(width), [])
  }

  /** The keys written are the best of all the keys generated, whatever keys the second loop generates, exactly when
      for every key of the first batch that is out of place, the keys in place that are no better than it outnumber
      the keys of the second loop. */
  lemma BestHostsExactly(numHosts: nat, keyTries: int, first: seq<KeySet>, width: nat)
    requires 1 <= numHosts <= keyTries && |first| == numHosts + 1 && HaveWidth(first, width)
    ensures var more := if keyTries - numHosts - 1 > 0 then keyTries - numHosts - 1 else 0;
            (forall rest :: |rest| == more && HaveWidth(rest, width) ==> KeptAreBest(Score, first, rest))
            <==> EnoughInPlace(Score, first, more)
  {
    var more := if keyTries - numHosts - 1 > 0 then keyTries - numHosts - 1 else 0;
    var best, worst := ZeroKey(width), OnesKey(width);
    ZerosAreLeast(width);
    forall i | 0 <= i < |first|
      ensures Score(worst) <= Score(first[i]) <= Score(best)
    {
      OnesAreGreatest(first[i].pub);
    }
    ExactWhateverComes(Score, first, more, worst, best);
    if !EnoughInPlace(Score, first, more) {
      var rest :| |rest| == more && (forall n :: 0 <= n < more ==> rest[n] == best || rest[n] == worst) &&
        !KeptAreBest(Score, first, rest);
      assert HaveWidth(rest, width);
    }
  }

  /** With at least twice as many tries as hosts, that is exactly when the first batch gets strictly worse, key by
      key, up to some point, and never worse after it. */
  lemma BestHostsExactlyForValleys(numHosts: nat, keyTries: int, first: seq<KeySet>, width: nat)
    requires 1 <= numHosts && 2 * numHosts <= keyTries && |first| == numHosts + 1 && HaveWidth(first, width)
    ensures var more := if keyTries - numHosts - 1 > 0 then keyTries - numHosts - 1 else 0;
            (forall rest :: |rest| == more && HaveWidth(rest, width) ==> KeptAreBest(Score, first, rest))
            <==> Valley(Score, first)
  {
    BestHostsExactly(numHosts, keyTries, first, width);
    EnoughForAll(Score, first, if keyTries - numHosts - 1 > 0 then keyTries - numHosts - 1 else 0);
  }

  /** Then the hosts come out in order, the worst key first. */
  lemma {:induction false} ValleyHostsInOrder(first: seq<KeySet>, rest: seq<KeySet>, width: nat, i: nat, j: nat)
    requires |first| >= 2 && HaveWidth(first, width) && HaveWidth(rest, width) && Valley(Score, first)
    requires i <= j < |first|
    ensures var keys := Kept(Score, SortFrom(Score, first, 0), rest);
            !Less(keys[i].pub, keys[j].pub)
  {
    var keys := Kept(Score, SortFrom(Score, first, 0), rest);
    SortsExactlyValleys(Score, first);
    KeptStaysSorted(Score, SortFrom(Score, first, 0), rest);
    KeysAreGenerated(first, rest, width, i);
    KeysAreGenerated(first, rest, width, j);
    LessIffBigEndian(keys[i].pub, keys[j].pub);
  }

  /** Fewer tries ask for less.  Keys 3, 1, 2 are no valley, and the best two of the three are kept; a fourth key
      can make the choice wrong. */
  lemma ShortRunsAskForLess()
    ensures var first := [KeySet([], [3], []), KeySet([], [1], []), KeySet([], [2], [])];
            !Valley(Score, first) && EnoughInPlace(Score, first, 0) && !EnoughInPlace(Score, first, 1)
  {
    var first := [KeySet([], [3], []), KeySet([], [1], []), KeySet([], [2], [])];
    assert BigEndian([1]) == 1 && BigEndian([2]) == 2 && BigEndian([3]) == 3;
    OneOfThreeMisplaced(Score, first);
  }

  /** Three keys that sortKeySetArray leaves alone although they are out of order: 2, 1, 3. */
  lemma SortLeavesThreeUnsorted()
    ensures var keys := [KeySet([], [2], []), KeySet([], [1], []), KeySet([], [3], [])];
            SortFrom(Score, keys, 0) == keys && !SortedBy(Score, keys)
  {
    var keys := [KeySet([], [2], []), KeySet([], [1], []), KeySet([], [3], [])];
    assert BigEndian([1]) == 1 && BigEndian([2]) == 2 && BigEndian([3]) == 3;
    StuckForGood(Score, keys, 0);
    assert Score(keys[1]) > Score(keys[2]);
  }
}
