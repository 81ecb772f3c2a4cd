# Popura, verified in Dafny

A model of the parts of Popura that compute something, with proofs about it:

- **Best-key search.** Two C tools (`contrib/yggdrasil-brute-simple`) keep the best hashes of an unbounded search in
  a small table and turn them into addresses; a concurrent Go program (`cmd/genkeys`) prints ever better keys; a Go
  program for ansible (`contrib/ansible`) keeps the best keys of a number of tries by bubble passes.
- **Autopeering** (`src/autopeering`). Public peers are probed concurrently, the closest are selected, and a
  self-re-arming timer decides when to dial one.

Loops and in-place updates are methods with invariants; each is tied to a function of its inputs or of the old state,
and the results are lemmas about those functions. Concurrency is modelled by step systems whose runs are arbitrary
interleavings. `dafny verify dfyconfig.toml` checks everything.

| file | what it models |
|---|---|
| `ByteStrings.dfy`, `Selection.dfy`, `Options.dfy` | byte order as numbers; what keeping the best means |
| `KeyTable.dfy`, `SecretCounter.dfy`, `Address.dfy` | `util.c`, the secret counter and clamping |
| `Mining.dfy`, `RowOrigins.dfy`, `SearchTime.dfy`, `Curve25519Tool.dfy`, `Ed25519Tool.dfy` | the search loop, and the two programs that run it |
| `GenKeys.dfy` | workers, channel and collector of `cmd/genkeys` |
| `Bubbling.dfy`, `HostKeys.dfy` | the ansible key generator |
| `Probing.dfy`, `ClosestPeers.dfy`, `AutoPeering.dfy` | probe round, peer selection, timer loop |

SHA-512, scalar multiplication, key generation, random bytes, the clock, dialling and the permutation of `rand.Perm` are
arguments, so every result holds for all of them. Array sizes, byte lengths, batch sizes and run lengths are parameters;
the sources' 10, 32, 64, 2^16 and 2^17 are instances.

Main results, with the places where the code does not do what its text says:

- The table of a search run is in ascending order and holds the best of everything tried (`Mining.RunKeepsBest`), rows
  of the parallel arrays stay aligned, each row of another draw of random bytes, and the printed lines are true and in
  ascending order (`Curve25519Tool.Main25519`, `Ed25519Tool.MainEd25519`).
- `make_addr` is bit-exact for every alignment, and its address reads back exactly when the hash has at most 255 leading
  ones; addresses keep the order of hashes exactly up to there, and a hash with 256 ones breaks both
  (`Address.RoundTrip`, `Address.OrderIsKeptExactly`, `Address.TooManyOnesFail`).
- `sortKeySetArray` does not sort: it sorts exactly the sequences that first get strictly worse and then never worse
  again (`Bubbling.SortsExactlyValleys`; 2, 1, 3 stays as it is). For given numbers of hosts and tries, the kept host
  keys are the best of all keys, whatever keys come, exactly when enough keys of the first batch are in place
  (`HostKeys.BestHostsExactly`). Yet the best key of all is never lost, and no round worsens the kept set.
- In every interleaving, the collector of `cmd/genkeys` ends up with the exact minimum once the channel is empty. The
  program's header speaks of higher node ids; the code prefers smaller public keys, and the model follows the code.
- `RandomPick` is documented as picking from a list; it permutes the first n entries and can return no other. So the
  autopeering loop always dials the closest online peer of the round.
- From k starts of the autopeering loop there are never more than k checks and timers, and additions keep their distance
  accordingly. `Stop` is final exactly when no check is running and no timer is armed but the last one.
- The ed25519 tool labels a column "seed" and says that the secret key is the seed and the public key; what it stores is
  the first half of the hash of the seed and the public key, and that is what is proved.

## Model

| member | source | states |
|---|---|---|
| ByteStrings.LessIffBigEndian | contrib/yggdrasil-brute-simple/util.c:8 | memcmp order on strings of one length is the order of the big-endian numbers, both ways, and a number has one string |
| Selection.BestByThreshold | contrib/yggdrasil-brute-simple/util.c:3-20 | a best selection has, above every threshold, as many entries as exist, up to its size |
| KeyTable.FindWhere | contrib/yggdrasil-brute-simple/util.c:3-12 | every row up to the slot is below the hash and the next one is not; -1 when no row is below it |
| KeyTable.Insert | contrib/yggdrasil-brute-simple/util.c:14-28 | rows up to the slot move down by one, the item lands in the slot, the rest is unchanged |
| KeyTable.OfferPlaces | contrib/yggdrasil-brute-simple/util.c:3-28 | row by row: an entry goes to the last of the leading rows that its hash beats, the rows up to there move down; without such a row nothing changes |
| KeyTable.OfferKeepsBest | contrib/yggdrasil-brute-simple/yggdrasil-brute-multi-curve25519.c:78-82 | one round keeps the table sorted and makes it the best of what it was the best of and the newcomer |
| KeyTable.WholeRunKeepsBest | contrib/yggdrasil-brute-simple/util.c:3-20 | after any sequence of entries the table is ascending and nothing dropped beats anything kept, ties and duplicates included |
| KeyTable.OrderOfTriesDoesNotMatter | contrib/yggdrasil-brute-simple/util.c:3-20 | the final hash column is the same for every order of the same entries |
| KeyTable.HashColumnIsUnique | contrib/yggdrasil-brute-simple/util.c:3-20 | the hashes at the end are the only best selection of that size from the first hashes and all those tried |
| KeyTable.PlaceholdersDrain | contrib/yggdrasil-brute-simple/yggdrasil-brute-multi-curve25519.c:62-88 | after k hashes above zero exactly the first rows - k rows are zero placeholders, and none once k reaches the number of rows |
| KeyTable.BlankRowsAreFirst | contrib/yggdrasil-brute-simple/util.c:3-20 | those rows are placeholders in every column, and no other row is |
| SecretCounter.Increment | contrib/yggdrasil-brute-simple/yggdrasil-brute-multi-curve25519.c:86 | the carry loop in place computes NextSecret |
| SecretCounter.CarryAddsOne | contrib/yggdrasil-brute-simple/yggdrasil-brute-multi-curve25519.c:86 | the carry adds one to the little-endian number and wraps to zero at the top |
| SecretCounter.AdvancedAddsSteps | contrib/yggdrasil-brute-simple/yggdrasil-brute-multi-curve25519.c:86 | n increments add n modulo 256^(length-2) and leave the first and last byte alone |
| SecretCounter.SecretsRecurExactlyByPeriod | contrib/yggdrasil-brute-simple/yggdrasil-brute-multi-curve25519.c:86 | within one period two secrets are equal exactly when the counter has gone all the way round |
| SecretCounter.Seed | contrib/yggdrasil-brute-simple/yggdrasil-brute-multi-curve25519.c:19-24 | the secret becomes the random bytes with the clamping masks applied |
| SecretCounter.ClampClamps | contrib/yggdrasil-brute-simple/yggdrasil-brute-multi-curve25519.c:19-24 | seeding yields a clamped secret, leaves clamped bytes alone, and never touches the counter bytes |
| SecretCounter.AdvancedStaysClamped | contrib/yggdrasil-brute-simple/yggdrasil-brute-multi-curve25519.c:86 | counting neither gains nor loses the clamping |
| SecretCounter.ClampedScalars | contrib/yggdrasil-brute-simple/yggdrasil-brute-multi-curve25519.c:21-23 | clamped means, as a number: a multiple of 8 from 2^254 up to 2^255 for 32 bytes (section 5 of RFC 7748) |
| Address.CountOnes | contrib/yggdrasil-brute-simple/util.c:36-50 | the masked loops return the number of leading one bits |
| Address.FitsExactly | contrib/yggdrasil-brute-simple/util.c:55-61 | make_addr stays inside the hash exactly when the first zero bit and the 113 bits after it are there |
| Address.MakeAddr | contrib/yggdrasil-brute-simple/util.c:30-62 | fills the first 16 bytes with AddressOf(hash): 2, the count of ones modulo 256, the tail; leaves the rest of the buffer alone |
| Address.TailIsExact | contrib/yggdrasil-brute-simple/util.c:55-61 | the bits of bytes 2 to 15 are the 112 hash bits after the first zero, for every alignment |
| Address.RoundTrip | contrib/yggdrasil-brute-simple/util.c:36-61 | decoding an address rebuilds the first ones+113 hash bits exactly when ones <= 255 |
| Address.SharedAddress | contrib/yggdrasil-brute-simple/util.c:30-62 | two hashes share an address exactly when they agree on that prefix |
| Address.OrderWithinBlock | contrib/yggdrasil-brute-simple/util.c:30-62 | hashes with the same high bits in their count of ones keep their order as addresses |
| Address.TooManyOnesFail | contrib/yggdrasil-brute-simple/util.c:53 | a hash with 256 leading ones does not read back and gets a lower address than a lower hash, for every length that make_addr can read it in |
| Address.OrderIsKeptExactly | contrib/yggdrasil-brute-simple/util.c:30-62 | for hashes of any length: all lower hashes get no higher an address exactly when the hash has at most 255 leading ones or the greatest address there is |
| Address.OrderIsKeptExactlyUpTo255Ones | contrib/yggdrasil-brute-simple/util.c:53 | up to 78 bytes, so for the 64 of SHA-512, exactly when it has at most 255 leading ones |
| Mining.HitExactly | contrib/yggdrasil-brute-simple/util.c:3-12 | an entry makes it into the table exactly when its hash beats row 0 |
| Mining.RunGoesOn | contrib/yggdrasil-brute-simple/yggdrasil-brute-multi-curve25519.c:68-86 | a round succeeds exactly when the library does; the secret is redrawn exactly when its hash beats row 0 of the table of everything tried before, then counted up |
| Mining.RunKeepsBest | contrib/yggdrasil-brute-simple/yggdrasil-brute-multi-curve25519.c:67-88 | after any number of rounds the table is ascending and the best of its first rows and everything tried |
| Mining.RowsAreAligned | contrib/yggdrasil-brute-simple/yggdrasil-brute-multi-curve25519.c:72-85 | each row is as it was at the start or comes whole from one secret that was tried |
| Mining.BetweenDraws | contrib/yggdrasil-brute-simple/yggdrasil-brute-multi-curve25519.c:79-86 | without a draw in between, the secret has only been counted up |
| RowOrigins.RowsFromDifferentDraws | contrib/yggdrasil-brute-simple/yggdrasil-brute-multi-curve25519.c:79-85 | any two rows that are not from the start were tried after different draws |
| SearchTime.EndsOnce | contrib/yggdrasil-brute-simple/yggdrasil-brute-multi-curve25519.c:88 | a search goes on to the first reading of the clock at which the requested time is over and there have been numKeys rounds, and there is only one such reading |
| Mining.CountUpNoReturn | contrib/yggdrasil-brute-simple/yggdrasil-brute-multi-curve25519.c:86 | the period of the increment is 256^(length-2) |
| Curve25519Tool.TryKeys | contrib/yggdrasil-brute-simple/yggdrasil-brute-multi-curve25519.c:78-86 | the three columns take the insertion that one offer does to whole rows; exactly when the hash beats row 0 the secret is replaced by clamped random bytes; then it is counted up |
| Curve25519Tool.Search | contrib/yggdrasil-brute-simple/yggdrasil-brute-multi-curve25519.c:56-88 | runs batches until the search ends as EndsOnce says; the arrays hold the table of that run; or the multiplication of the next secret fails |
| Curve25519Tool.RoundsOfARun | contrib/yggdrasil-brute-simple/yggdrasil-brute-multi-curve25519.c:62-86 | RunGoesOn for this tool, with clamping, carry, multiplication and hash spelled out |
| Curve25519Tool.AllSecretsAreClamped | contrib/yggdrasil-brute-simple/yggdrasil-brute-multi-curve25519.c:65-86 | every secret ever tried is clamped |
| Curve25519Tool.RowsOfARun | contrib/yggdrasil-brute-simple/yggdrasil-brute-multi-curve25519.c:72-85 | every row is blank in all arrays, or one clamped secret with its public key and that key's hash |
| Curve25519Tool.BlankRows | contrib/yggdrasil-brute-simple/yggdrasil-brute-multi-curve25519.c:62-88 | row r is blank exactly when r is below the number of rows less the number of non-zero hashes tried; any other row is one clamped secret with its key and hash |
| Curve25519Tool.NoRowStaysBlank | contrib/yggdrasil-brute-simple/yggdrasil-brute-multi-curve25519.c:62-88 | when none of the hashes tried is zero, a run of at least as many rounds as rows leaves no row blank |
| Curve25519Tool.NoSecretTriedTwice | contrib/yggdrasil-brute-simple/yggdrasil-brute-multi-curve25519.c:84-86 | without a draw in between, no secret is tried twice in fewer than 256^(length-2) rounds |
| Curve25519Tool.RowsFromDifferentSeeds | contrib/yggdrasil-brute-simple/yggdrasil-brute-multi-curve25519.c:79-86 | any two rows that are not blank have secrets counted up from different draws of random bytes |
| Curve25519Tool.PrintRows | contrib/yggdrasil-brute-simple/yggdrasil-brute-multi-curve25519.c:91-99 | each line shows the address of its row's hash beside the row's keys |
| Curve25519Tool.AddressesAscend | contrib/yggdrasil-brute-simple/yggdrasil-brute-multi-curve25519.c:91-93 | a printed address whose hash has at most 255 leading ones is no lower than those before it |
| Curve25519Tool.Main25519 | contrib/yggdrasil-brute-simple/yggdrasil-brute-multi-curve25519.c:27-105 | as long as make_addr can read the hashes computed before the search ends: the program ends as EndsOnce says and prints the table of that run, line r blank or true as BlankRows says, addresses ascending as AddressesAscend says |
| Ed25519Tool.TryKeys | contrib/yggdrasil-brute-simple/yggdrasil-brute-multi-ed25519.c:79-86 | the same for two arrays and an unclamped seed |
| Ed25519Tool.Search | contrib/yggdrasil-brute-simple/yggdrasil-brute-multi-ed25519.c:54-88 | runs batches until the search ends as EndsOnce says; the arrays hold the table of that run; or the multiplication of the next seed fails |
| Ed25519Tool.RoundsOfARun | contrib/yggdrasil-brute-simple/yggdrasil-brute-multi-ed25519.c:62-86 | RunGoesOn for this tool, with hashing, carry and multiplication spelled out |
| Ed25519Tool.RowsOfARun | contrib/yggdrasil-brute-simple/yggdrasil-brute-multi-ed25519.c:69-85 | every row is blank, or half the hash of one seed that was tried with its public key, beside that key's hash |
| Ed25519Tool.BlankRows | contrib/yggdrasil-brute-simple/yggdrasil-brute-multi-ed25519.c:60-88 | row r is blank exactly when r is below the number of rows less the number of non-zero hashes tried |
| Ed25519Tool.NoRowStaysBlank | contrib/yggdrasil-brute-simple/yggdrasil-brute-multi-ed25519.c:60-88 | when none of the hashes tried is zero, a run of at least as many rounds as rows leaves no row blank |
| Ed25519Tool.NoSeedTriedTwice | contrib/yggdrasil-brute-simple/yggdrasil-brute-multi-ed25519.c:84-86 | without a draw in between, no seed is tried twice in fewer than 256^(length-2) rounds |
| Ed25519Tool.RowsFromDifferentSeeds | contrib/yggdrasil-brute-simple/yggdrasil-brute-multi-ed25519.c:80-86 | any two rows that are not blank come from seeds counted up from different draws of random bytes |
| Ed25519Tool.HashesOfARun | contrib/yggdrasil-brute-simple/yggdrasil-brute-multi-ed25519.c:64-88 | the hash column is ascending and the best of everything tried |
| Ed25519Tool.PrintRows | contrib/yggdrasil-brute-simple/yggdrasil-brute-multi-ed25519.c:92-99 | each line shows five bytes of the hash and the two halves of the buffer of its row |
| Ed25519Tool.MainEd25519 | contrib/yggdrasil-brute-simple/yggdrasil-brute-multi-ed25519.c:27-105 | the program ends as EndsOnce says and prints the table of that run in ascending order: line r blank as BlankRows says, or half the hash of one seed that was tried, its public key and the start of that key's hash |
| GenKeys.IsBetter | cmd/genkeys/main.go:50-60 | true exactly when the new key comes before the old one byte by byte |
| GenKeys.DoKeys | cmd/genkeys/main.go:62-78 | the worker's loop sends Sends(generated) |
| GenKeys.Collect | cmd/genkeys/main.go:37-47 | the collector's loop keeps CurrentBest(received) and prints Printed(received) |
| GenKeys.SendsImprove | cmd/genkeys/main.go:63-76 | a worker sends keys it generated, strictly improving, none of them all ones |
| GenKeys.CurrentBestIsBound | cmd/genkeys/main.go:37-40 | the collector's best is at most every key received |
| GenKeys.PrintedImprove | cmd/genkeys/main.go:39-46 | the printed keys were received, strictly improve, and end with the current best |
| GenKeys.RunStaysInStep | cmd/genkeys/main.go:30-48 | in every interleaving each worker and the collector are where their own loops would be, and the channel holds what is between them, within its capacity |
| GenKeys.NothingIsLost | cmd/genkeys/main.go:30-78 | every key generated other than all ones has one at least as good in the collector, the channel or a pending send |
| GenKeys.QuietIsExact | cmd/genkeys/main.go:30-78 | with channel and sends empty the collector holds the exact minimum of all such keys, or nothing if there is none |
| GenKeys.Traces | cmd/genkeys/main.go:33-46 | FIFO and strictly improving per worker, printed keys a strictly improving subsequence of those received, capacity kept, printed pairs from one generation |
| GenKeys.CanBecomeQuiet | cmd/genkeys/main.go:37-38 | from every reachable state sends and receives alone empty the system |
| GenKeys.GenerateExactly | cmd/genkeys/main.go:62-77 | after any interleaving a worker can generate a key, any key, exactly when it has sent all it has to |
| GenKeys.SendExactly | cmd/genkeys/main.go:33-77 | it can send exactly when it has something left to send and the channel has room |
| GenKeys.ReceiveExactly | cmd/genkeys/main.go:37-38 | the collector can receive exactly when not everything sent has been received |
| GenKeys.HistoryIsKept | cmd/genkeys/main.go:33-78 | the history in the state is that of the interleaving: keys generated, order of sends, number of receives |
| GenKeys.EveryGenerationArrives | cmd/genkeys/main.go:33-78 | whatever keys the workers generate, some interleaving generates just those and ends with channel and sends empty |
| Bubbling.PassInserts | contrib/ansible/genkeys.go:103-114 | a pass by swaps takes the front item out and puts it behind all it passes |
| Bubbling.FrontIsNotBest | contrib/ansible/genkeys.go:103-114 | after a pass over a non-empty range some item behind the front is at least as good |
| Bubbling.SortPermutes | contrib/ansible/genkeys.go:96-101 | the sort permutes |
| Bubbling.SortFrontIsWorse | contrib/ansible/genkeys.go:96-101 | the sort ends with the front no better than the next item |
| Bubbling.SortLeadsExactly | contrib/ansible/genkeys.go:96-114 | the sort puts the m + 1 lowest items in order at the front exactly when, for each item out of place, more than m items in place score no more |
| Bubbling.SortsExactlyValleys | contrib/ansible/genkeys.go:96-114 | the outcome is sorted exactly when the input first gets strictly worse and then never worse again |
| Bubbling.SortKeepsSorted | contrib/ansible/genkeys.go:96-101 | sorted input is left as it is |
| Bubbling.KeptNeverWorsens | contrib/ansible/genkeys.go:45-49 | for every threshold the number of kept items above it never falls, from any arrangement |
| Bubbling.BestIsNeverLost | contrib/ansible/genkeys.go:39-49 | something behind the front is at least as good as everything ever seen |
| Bubbling.RoundSorts | contrib/ansible/genkeys.go:45-49 | once the items behind the front are sorted, a round leaves the whole slice sorted |
| Bubbling.KeptIsExact | contrib/ansible/genkeys.go:45-49 | while as many items lead in order as rounds are to come, the kept items stay exactly the best of everything seen |
| Bubbling.ExactWhateverComes | contrib/ansible/genkeys.go:39-49 | for every number m of rounds: the kept items are the best of everything whatever the m newcomers are, exactly when enough of the first batch are in place; else m newcomers of two kinds show it |
| HostKeys.IsBetter | contrib/ansible/genkeys.go:84-94 | true exactly when the new id comes before the old one byte by byte |
| HostKeys.BubbleUpTo | contrib/ansible/genkeys.go:103-114 | the slice in place becomes the outcome of one pass |
| HostKeys.SortKeySetArray | contrib/ansible/genkeys.go:96-101 | the slice in place becomes the outcome of all passes |
| HostKeys.TryMore | contrib/ansible/genkeys.go:45-49 | the second loop leaves Kept of the keys generated |
| HostKeys.SelectHosts | contrib/ansible/genkeys.go:29-53 | what is written, refused, or panics, for all numbers of hosts and tries, negative ones included; the second loop generates keyTries - numHosts - 1 keys, or none |
| HostKeys.BestKeyIsWritten | contrib/ansible/genkeys.go:39-53 | with at least one host, a key at least as good as each of the first numHosts + 1 keys and of all the tries is among those written |
| HostKeys.BestHostsExactly | contrib/ansible/genkeys.go:39-53 | for given numbers of hosts and tries: the kept keys are the best of all keys, whatever keys the second loop generates, exactly when enough of the first batch are in place |
| HostKeys.BestHostsExactlyForValleys | contrib/ansible/genkeys.go:39-53 | with at least twice as many tries as hosts: exactly when the first batch is a valley |
| HostKeys.ValleyHostsInOrder | contrib/ansible/genkeys.go:39-53 | then the hosts are numbered from the worst kept key to the best |
| HostKeys.ShortRunsAskForLess | contrib/ansible/genkeys.go:39-53 | keys 3, 1, 2 are no valley; the best two of them are kept, but a fourth key can make the choice wrong |
| HostKeys.SortLeavesThreeUnsorted | contrib/ansible/genkeys.go:96-114 | keys 2, 1, 3 are left out of order |
| Probing.TestPeer | src/autopeering/main.go:32-53 | the result sent: online exactly for a tcp or tls url that connects, with the dial's latency, else latency zero |
| Probing.ResultsArePlausible | src/autopeering/main.go:32-53 | exactly the results that some dial outcome explains: same url, online only if supported, latency zero if offline |
| Probing.RunIsConsistent | src/autopeering/main.go:17-30 | every url started is received once or outstanding, and the steps taken and left make up three a peer and the return |
| Probing.ReturnsEveryResult | src/autopeering/main.go:17-30 | on return all goroutines are done, none blocked, and the urls are a permutation of the input |
| Probing.NeverStuck | src/autopeering/main.go:17-53 | in every schedule some action is possible until the return, which comes after exactly 3n+1 actions |
| Probing.ReceivedAreTheDials | src/autopeering/main.go:17-53 | on return the caller has received exactly the results of the dials of the schedule |
| Probing.ActionsExactly | src/autopeering/main.go:17-53 | what can happen next, by what has happened: starts, dials, deliveries and the return |
| Probing.AnyOrderIsPossible | src/autopeering/main.go:17-53 | whatever the dials bring, their results can be received in any order |
| ClosestPeers.FilterOnline | src/autopeering/peers.go:35-42 | the filter over its own slice equals the functional filter |
| ClosestPeers.OnlineAre | src/autopeering/peers.go:35-42 | the filter keeps each online peer as often as it occurs, and no other |
| ClosestPeers.OnlineInOrder | src/autopeering/peers.go:35-42 | the filter keeps the order |
| ClosestPeers.SortByLatency | src/autopeering/peers.go:44-46 | sorted by latency and a permutation; stands for sort.Slice |
| ClosestPeers.GetClosestPeers | src/autopeering/peers.go:30-56 | the urls of exactly n online peers, or of all online ones if no more are online or n is negative, in latency order, none of those left out faster than one returned |
| ClosestPeers.FirstIsFastest | src/autopeering/peers.go:44-55 | the first of the closest peers is a fastest online peer, and there is none only if no peer is online |
| ClosestPeers.RandomPick | src/autopeering/peers.go:59-71 | the whole list if short enough, else the entries at the permuted first n indices; a panic for negative n |
| ClosestPeers.PickedPermutesPrefix | src/autopeering/peers.go:66-68 | what is picked is a permutation of the first n entries |
| ClosestPeers.ChoosePeer | src/autopeering/module.go:71-81 | the peer chosen is an online one of minimal latency, and none is chosen exactly when none is online |
| ClosestPeers.ChosenFromAnyRound | src/autopeering/module.go:71-73 | in every schedule a url is chosen exactly when some dial connected to a supported url; the url is one of the list, a dial to it connected, and none that connected was faster |
| AutoPeering.AutoPeering.CheckPeerLoop | src/autopeering/module.go:55-87 | hadPeers, the next due time and the peer dialled, for any remotes, readings of the clock and probe round |
| AutoPeering.CheckIsARun | src/autopeering/module.go:55-87 | one check of the code is a run of the step system with the same outcome |
| AutoPeering.AtMostOneJobAStart | src/autopeering/module.go:40-46 | there are at most as many running checks and armed timers as there have been starts, each from another start; from one start at most one |
| AutoPeering.ActionsExactly | src/autopeering/module.go:40-87 | what can happen next in any state: Start, Stop and the clock always, the next step of each running check, a timer from when it is due |
| AutoPeering.AdditionsAreRare | src/autopeering/module.go:66-70 | from k starts, any n * k + 1 additions take more than n times 30 seconds |
| AutoPeering.BoundIsTight | src/autopeering/module.go:66-70 | k starts can lead to k additions at one time |
| AutoPeering.AdditionsFromOneStart | src/autopeering/module.go:66-70 | from one start, k + 1 additions take more than k times 30 seconds |
| AutoPeering.NoAdditionAfterRefresh | src/autopeering/module.go:64-70 | however many starts, no addition comes within 30 seconds after hadPeers is refreshed |
| AutoPeering.AdditionComesInTime | src/autopeering/module.go:66-70 | for any number of starts: without peers since a refresh at which no decision is open, and with verdicts at most gap apart, an addition comes at most 30 seconds and gap after the refresh |
| AutoPeering.AdditionFromOneStart | src/autopeering/module.go:66-70 | from one start: with checks beginning at most gap apart, each with a verdict within delay, an addition comes at most 30 seconds, gap and delay after any refresh without peers since |
| AutoPeering.RunKeepsChecksSpaced | src/autopeering/module.go:84-86 | checks that descend from one start begin at least 10 seconds apart |
| AutoPeering.ChecksFromOneStart | src/autopeering/module.go:84-86 | so with one start all checks do |
| AutoPeering.StopIsFinalExactlyAtRest | src/autopeering/module.go:48-53 | after Stop no check begins any more exactly when no check is running and no timer is armed but the one checkPeerTimer refers to |
| AutoPeering.StopAfterOneStart | src/autopeering/module.go:48-53 | from one start: exactly when no check is running |

## Left out

- SHA-512, the curve25519 and ed25519 operations, random key generation and the `address` package: arguments of the model, with no property assumed but their lengths.
- Hashes with 399 leading ones or more in a 64-byte hash: `make_addr` would read outside the hash, so `Address.Fits` is required where addresses are made.
- Curve25519Tool.Search: `runs` is unbounded here, the 32-bit counter of the source wraps; the clock is an argument that passes the requested time at some reading.
- Ed25519Tool.Search: the same.
- HostKeys.SelectHosts: the host files, their contents and failures to create them are not modelled; the result is the list of keys that would be written.
- GenKeys.Traces: each worker's messages are proved a prefix of what its loop would send; fairness and termination of the endless loops are not modelled.
- ClosestPeers.SortByLatency: its body is a simple sort in place of the library's; only its contract, which does not promise stability, is used.
- AutoPeering.AdditionFromOneStart: a check reads the clock some time after it begins, so the bound has that delay in it.
- AutoPeering.AdditionsAreRare: reading and writing hadPeers are single steps; what the Go memory model allows when checks of several starts race on it is not modelled.
- AutoPeering.AutoPeering.Stop: a timer that has already fired is seen only by the step system, where Stop does not affect a running check.
- Wall-clock adjustments: the clock of the autopeering model never goes back; `time.Since` saturates after 292 years, which exceeds every timeout in the same way.
- `GetPublicPeers`, `setLogLevel`, configuration, sockets, command line parsing, `cmd/yggdrasil`, `cmd/yggdrasilctl`, `contrib/mobile`, `src/meshname`, `src/popura`: wiring around yggdrasil-go and libraries, with nothing but easy members to add.
