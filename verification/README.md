# Cartesi arbitration: the dispute protocol, modelled and proved

A claimer and a challenger disagree on the hash a deterministic machine reaches at `finalTime`. They
bisect the run to one step (partition), prove that step's memory accesses against a Merkle root (memory
manager), let the machine contract replay the log, and decide who was right (verification game, compute).
This project models the four contracts, the off-chain agents that play them, and the machine as a
parameter, and proves what the protocol is for: an honest claimer cannot be proved wrong, an honest
challenger can always prove it, and every agent only sends transactions that go through.

`dafny verify dfyconfig.toml` checks the whole project.

## How it is laid out

| file | what it holds |
|---|---|
| `Arithmetic.dfy` | wrapping 256-bit arithmetic, powers, the `log2OverTwo` loop |
| `Merkle.dfy` | hashes as a free term algebra, the recursive tree, the bottom-up fold of `getRootWithDrive` |
| `MemoryManager.dfy`, `MMAgent.dfy` | the log of proved accesses; the agent that feeds it |
| `Machine.dfy` | a step as a program of accesses, its one true log, the on-chain replay |
| `Partition.dfy`, `PartitionRuns.dfy`, `PartitionAgent.dfy` | the bisection game; what every run keeps; its agent |
| `PartitionDeadline.dfy`, `PartitionWraps.dfy` | its deadlines, exact and wrapping; where a slice can wrap, and what follows |
| `Protocol.dfy` | verification game, compute, and all four contracts as one transition system |
| `Linkage.dfy`, `Finality.dfy` | cross-contract invariants and finality over every run of the system |
| `OneDispute.dfy` | one dispute on its own, and the proof that the system refines it |
| `Agents.dfy`, `EndToEnd.dfy`, `HonestChallenger.dfy` | the agents of the two upper contracts; the two honest-party theorems |
| `Openings.dfy`, `Clocks.dfy`, `Windows.dfy` | what new and handed-over instances answer to; when each clock starts and ends; the time the code leaves each party |
| `ChallengerProgress.dfy`, `ClaimerProgress.dfy` | how far a challenger has to go against any claimer; the claimer's agent, never stuck and honest |
| `DisputePlay.dfy`, `CounterMachine.dfy` | a dispute played out by the two agents to its verdict; a machine that meets the assumptions |
| `Storage.dfy`, `*Instantiator.dfy` | one class per contract, storage updated in place, each call proved against the transition system |

A revert is `None` (in the classes: `false`, state unchanged). Block time and the sender are inputs of
every call. A run is a list of transactions, by anyone, in any order; a reverted one changes nothing.
`TrueRun` fixes memory and log at every time, `TrueHash(truth, t)` is the root of memory after `t` steps.
All that is assumed of a machine contract (`Runs`) is that it returns exit code 0 with every access used
exactly on the step's own complete access sequence; that one memory admits one log is proved. Collision
freedom is the injectivity of the two hash constructors; the zero value and any bytes that are not a
digest are terms too.

## Where the code and its documents part

- `settleVerificationGame` has no `return` after `challengerWins` (contracts/VGInstantiator.sol:233-239), so
  `claimerWins` has the last word. `Env.settleReturns` is `false` for the code as it stands and `true` for the
  documented verdict. `VerdictExact` says exactly when the two agree, `VerdictFallsThrough` gives a settlement
  on which they do not, `AgentsDecide` shows what it costs an honest challenger, and the class does as the
  code does. Theorems about proofs and guards hold for both.
- `slice` computes `leftPoint + i` modulo 2^256 (contracts/PartitionInstantiator.sol:695). `SliceExact` says when one
  slice is the intended cut, and `HalvingExact` for which final times and query sizes every slice of every run is:
  all but some final times within querySize - 4 of 2^256. `SliceWraps` is a game that gets to a wrong one, and
  `EndlessGame` says when a game can be played for ever, which contradicts the code's remark that its guard forces
  the contest to end (contracts/PartitionInstantiator.sol:228-230).
- Game index 0 is called the worst case (contracts/PartitionInstantiator.sol:383, 393). `AllowanceAtMostFirst` says exactly
  when it is, for final times below 2^64; `AllowanceGrows` is a game where it is not.
- The memory's provider is the challenger (contracts/VGInstantiator.sol:197-201), not the claimer as README.md:140 says.
- `presentDivergence` checks no state (contracts/PartitionInstantiator.sol:283-300); it can follow any state,
  a finished one included. `FinishedIsFinal` says what that leaves.
- `submitClaim` does not restart the clock (contracts/ComputeInstantiator.sol:148-158); `ConfirmationWindow`, `ClaimLeavesWindow`.
- `Compute.instantiate` checks neither `finalTime > 0` nor `roundDuration > 50`, which `challenge` needs; `ChallengeExact`.
- `log2OverTwo(0)` wraps to (2^256 - 1) / 2; the opening of a game, the one use modelled, never passes 0.
- In `WaitMemoryProveValues` the game asks the query size of partition 0, its own index having been deleted
  (contracts/VGInstantiator.sol:203, 257); it exists whenever a game does.

## Model

| member | source | states |
|---|---|---|
| `PartitionAgent.BisectionInvariant` | compute/src/partition.rs:215-318 | against an arbitrary claimer and any third party, a challenger that follows its agent always agrees at the first query point and disagrees at the last; it never meets "no disagreement"; its next call is accepted; a found divergence is a true one |
| `PartitionAgent.SearchFinds` | compute/src/partition.rs:240-317 | the search returns a call on a piece whose left hash is true and whose right hash is false, long enough to query or one step wide |
| `PartitionAgent.ChallengerReacts` | compute/src/partition.rs:214-333 | one reaction in a bisected game: no failure but overflow, the call accepted, the game bisected after it |
| `PartitionAgent.BisectedStep` | contracts/PartitionInstantiator.sol:153-312 | any accepted call by anybody keeps the game bisected if the challenger's own are its agent's |
| `PartitionAgent.TwoAgentsTerminate` | compute/src/partition.rs:127-333 | for every query size the contract accepts, agents with oracles that agree at 0 and differ at finalTime reach DivergenceFound at a step they really dispute, with no error and no revert, within 2 ceil(log2 finalTime) + 2 transactions, after r replies with r <= 1 or 2^(r-1) < finalTime |
| `PartitionAgent.ClaimerReplies` | compute/src/partition.rs:136-206 | the claimer's reply is produced, accepted, and posts only its oracle's hashes |
| `PartitionAgent.ClaimerCallAccepted` | compute/src/partition.rs:128-213 | whatever the claimer's agent sends is accepted, in every reachable game |
| `PartitionAgent.CollectHashes` | compute/src/partition.rs:160-171 | the collecting loop returns the first querySize sampled hashes, or the error when the array is short |
| `PartitionAgent.FindDisagreement` | compute/src/partition.rs:240-317 | the early-return loop is the recursive search that SearchFinds is about |
| `PartitionAgent.ReactNow` | compute/src/partition.rs:90-334 | the imperative dispatch is the reaction function the theorems are about |
| `PartitionAgent.StateTells` | contracts/PartitionInstantiator.sol:425-463 | the view's deadline is the one past which the waiting party's opponent can claim victory, and its flags mark exactly the posted query points: all of them once answered |
| `PartitionAgent.AgentsSendExactly` | compute/src/partition.rs:127-333 | in a reachable game the agent of the party to move sends if and only if the interval ends within a u64, and the other one if and only if a deadline that fits a u64 has passed |
| `PartitionRuns.LogarithmicGame` | contracts/PartitionInstantiator.sol:200-235 | where no slice can wrap, for every query size and all behaviours, m >= 1 accepted makeQuery calls imply 2^m < finalTime, and r > 1 replies imply 2^(r-1) < finalTime |
| `PartitionRuns.QueryHalves` | contracts/PartitionInstantiator.sol:211-231 | where no slice can wrap, an accepted makeQuery re-slices exactly the named piece, which is at most the ceiling of half the interval sliced before |
| `PartitionWraps.HalvingExact` | contracts/PartitionInstantiator.sol:211-231 | every accepted makeQuery of every run halves the interval if and only if finalTime - T + querySize - 2 < 2^256, where T is 2 + (finalTime - 2) mod (querySize - 2), the length the interval comes down to at its right end |
| `PartitionWraps.EndlessGame` | contracts/PartitionInstantiator.sol:693-711 | where that sum is exactly 2^256 the game has runs with any number of accepted makeQuery calls |
| `PartitionWraps.TenPointsWithoutEnd` | contracts/PartitionInstantiator.sol:101-146 | the instance the verification game's query size gives: finalTime 2^256 - 6 |
| `PartitionRuns.RunHalves` | contracts/PartitionInstantiator.sol:200-235 | along any run from the opening, where no slice can wrap, the length of the interval less one, times 2 to the number of accepted makeQuery calls, stays below finalTime |
| `PartitionRuns.RunKeeps` | contracts/PartitionInstantiator.sol:153-312 | over every run, posted hashes and the terms never change, submitted times are at most finalTime, query points are submitted in WaitingQuery, the interval's ends in WaitingHashes, a divergence is between submitted times |
| `PartitionRuns.PostedIsWriteOnce` | contracts/PartitionInstantiator.sol:175-186 | answering writes exactly the new times, each with the hash of its first occurrence; answered times keep theirs |
| `PartitionRuns.CreateCore` | contracts/PartitionInstantiator.sol:101-146 | a new game commits to the initial hash at 0 and the claimed one at finalTime, and to nothing else, and satisfies the invariant |
| `PartitionRuns.FinishedIsFinal` | contracts/PartitionInstantiator.sol:283-303 | no run leaves the finished states; the only move among them is to DivergenceFound |
| `PartitionRuns.DivergenceIgnoresState` | contracts/PartitionInstantiator.sol:283-303 | a divergence is accepted from the challenger in whatever state the game is, if and only if both times are posted and the first is not finalTime |
| `PartitionDeadline.DeadlineIsExact` | contracts/PartitionInstantiator.sol:408-423 | in every reachable waiting state, for every query size and finalTime < 2^64, the wrapping deadline is the exact integer one if and only if that is below 2^256 |
| `PartitionDeadline.RepliesFit` | contracts/PartitionInstantiator.sol:153-191 | finalTime < 2^64 leaves at most 64 replies, and at most 38 with five query points or more, so the power never wraps |
| `PartitionDeadline.DurationAntitone` | contracts/PartitionInstantiator.sol:324-361 | getMaxStateDuration itself, as long as power and product do not wrap, is no longer at a later index if and only if the earlier sum does not wrap or the later one does too |
| `PartitionDeadline.AllowanceAtMostFirst` | contracts/PartitionInstantiator.sol:378-396 | along any run by anybody with finalTime < 2^64, the allowance of a waiting state is at most the index-0 one the estimates use, if and only if that one does not wrap or the state's does too |
| `PartitionDeadline.AllowanceGrows` | contracts/PartitionInstantiator.sol:334-344 | a game with 500 * finalTime just past 2^256 whose allowance is 91 seconds before the first reply and more than a million after it |
| `Clocks.OpeningStartsClock` | contracts/PartitionInstantiator.sol:136-140 | a new game can be claimed by time by the challenger alone, past the exact duration from its opening, modulo 2^256 |
| `Clocks.ReplyRestartsClock` | contracts/PartitionInstantiator.sol:187-189 | after an accepted reply at a time, by the claimer alone, past the exact duration of the next index from that time |
| `Clocks.QueryRestartsClock` | contracts/PartitionInstantiator.sol:231-233 | after an accepted query at a time, by the challenger alone, past the exact duration from that time |
| `PartitionRuns.TimelyNeverLoses` | contracts/PartitionInstantiator.sol:238-276 | over clocked runs, a claimer whose every query is answered, or taken away by a divergence, by its deadline is never beaten on time, and neither is a challenger that queries or presents by its own |
| `Partition.CutCorrect` | contracts/PartitionInstantiator.sol:677-711 | the cut starts at left, ends at right, never decreases, no piece exceeds the ceiling of half, and a short interval is listed point by point |
| `Partition.SliceExact` | contracts/PartitionInstantiator.sol:688-710 | the wrapping slice is that cut if and only if the interval is long enough to jump or no left + i reaches 2^256 |
| `PartitionWraps.SliceWraps` | contracts/PartitionInstantiator.sol:693-700 | a game of ten points with finalTime 2^256 - 6 reaches an interval of two whose slice lists 0 |
| `Partition.PointsEnds` | contracts/PartitionInstantiator.sol:677-678 | wrapping or not, the first and last points are left and right, and none lies beyond |
| `MemoryManager.LogSoundness` | contracts/MMInstantiator.sol:96-188 | from the root of m, whatever is called by whomever, newHash is the root of m with the logged writes applied, and every logged read is what memory held then |
| `MemoryManager.ProveReadExact` | contracts/MMInstantiator.sol:117-139 | a read is accepted if and only if the provider, in the proof phase, names the true value with its true path |
| `MemoryManager.ProveWriteExact` | contracts/MMInstantiator.sol:146-172 | a write is accepted if and only if it names the value it overwrites, with its true path |
| `MemoryManager.SoundStep` | contracts/MMInstantiator.sol:117-188 | each accepted call of the proof phase keeps log and root in agreement with memory |
| `Merkle.FoldMeetsRoot` | deployments/avax_testnet/MMInstantiator.json:628 | the bottom-up fold meets the root if and only if the value is the word there and the siblings its path, for every depth and memory |
| `Merkle.FoldWrites` | deployments/avax_testnet/MMInstantiator.json:628 | folding a new value over the old path gives the root of the written memory, whose path there is the same |
| `Merkle.GetRootOfMemory` | deployments/avax_testnet/MMInstantiator.json:628 | getRoot answers a memory's root exactly on an aligned position with its word and path, and then swapping the word writes |
| `Merkle.ComputeRoot` | deployments/avax_testnet/MMInstantiator.json:628 | the source's loop over a shifted mask computes that fold, reverts included |
| `Merkle.RootInjective` | contracts/MMInstantiator.sol:132-136 | one root, one memory: why a root commits |
| `Machine.TraceUnique` | README.md:150 | determinism: one memory admits one log |
| `Machine.ArraysRebuild` | contracts/MMInstantiator.sol:217-229 | the positions, values and kinds handed to a machine rebuild the log, entry by entry and in order |
| `Machine.AcceptedLogIsTrue` | contracts/VGInstantiator.sol:221-237 | from the true root at t, a log the machine accepts is the true log of step t, and the running root the true root at t + 1 |
| `MMAgent.HonestProver` | compute/src/mm.rs:107-209 | on the true log (siblings root first, reversed) every transaction is accepted, the phase ends after exactly log length + 1, history is the log, newHash the true next root, and the machine accepts |
| `MMAgent.EntryAccepted` | compute/src/mm.rs:150-208 | the next true entry is accepted and the history stays a prefix of the true log |
| `MMAgent.ProverReacts` | compute/src/mm.rs:108-213 | along a true step the agent sends exactly in the proof phase, never fails, and is never reverted |
| `Protocol.VerdictExact` | contracts/VGInstantiator.sol:233-239 | the verdict is the documented one if and only if the settlement returns or the guard is false; as coded it is always the claimer's |
| `Protocol.VerdictFallsThrough` | contracts/VGInstantiator.sol:233-239 | a concrete settlement whose guard holds and which ends FinishedClaimerWon |
| `Protocol.ChallengeExact` | contracts/ComputeInstantiator.sol:175-192 | a challenge succeeds if and only if the claim waits for this challenger, finalTime > 0 and roundDuration > 50 |
| `Openings.ComputeOpens` | contracts/ComputeInstantiator.sol:113-143 | told by the transactions the system then accepts: a new instance takes a claim from the named claimer and nobody else, and can be closed by the named challenger alone, past 40 seconds, the run and a round from its opening; it opens if and only if the parties differ |
| `Openings.ClaimOpens` | contracts/ComputeInstantiator.sol:148-192 | once claimed it is confirmed by the named challenger and nobody else, disputed by it alone and only with finalTime > 0 and roundDuration > 50, and closed by the claimer past the same deadline |
| `Openings.GameOpens` | contracts/ComputeInstantiator.sol:175-192 | the game a challenge opens, and its partition, stand between these parties over the claimed hash, with this machine, initial hash, final time and round duration |
| `Openings.NewGameOpens` | contracts/VGInstantiator.sol:115-157 | a game opened on its own opens exactly on those terms, over the hash it is given |
| `Openings.PartitionOpens` | contracts/PartitionInstantiator.sol:101-146 | a partition opens exactly on terms the code accepts, and is then answered by the named claimer alone, on the cut of 0 to finalTime into querySize points |
| `Openings.MemoryOpens` | contracts/MMInstantiator.sol:96-204 | a memory opened at a root: the named provider alone reads from it, exactly true words with true paths, and closes it; the named owner alone finishes it, and only then |
| `Openings.LogIsFrozen` | contracts/MMInstantiator.sol:117-204 | over any calls by others than its provider an open log stays as it is; a closed one stays as closed until the owner finishes it, which empties it and leaves newHash |
| `Openings.StartHandsOver` | contracts/VGInstantiator.sol:186-207 | a start is accepted from anybody exactly when the partition found a divergence; the game then stands on the two posted hashes around it, with an empty memory at the first, provided by the challenger and owned by the game, and forgets the partition |
| `Openings.SettlementExact` | contracts/VGInstantiator.sol:213-232 | in every linked world a settlement goes through if and only if the challenger calls it, the log is closed and the machine does not revert |
| `Openings.ClearedForgets` | contracts/VGInstantiator.sol:493-510 | a finished game keeps nothing but its partition index, and a closed compute instance nothing but the claimed hash; no party stays named |
| `Protocol.ConfirmationWindow` | contracts/ComputeInstantiator.sol:148-158 | after a claim the claimer can close by time exactly when the clock of instantiation has run out, at the moment of submission included |
| `Windows.WindowExact` | contracts/ComputeInstantiator.sol:218-248 | over every run of the others, an instance is left waiting for the party that is to claim or to dispute up to a time if and only if the time is not past its deadline |
| `Windows.ClaimWindow` | contracts/ComputeInstantiator.sol:148-158 | so much for the claimer, whose claim goes through whenever the instance still waits |
| `Windows.ClaimLeavesWindow` | contracts/ComputeInstantiator.sol:148-158 | and for the challenger: a submitted claim waits for it up to the deadline the claim itself had, which is any time at all if and only if the claim was in by then |
| `Protocol.MemoryDeadlineExact` | contracts/VGInstantiator.sol:127 | the deadline formula for a game opened for a claim and a given start: two machine starts and five rounds of R * floor(log4 finalTime) + 4, if and only if that is below 2^256 (that the start is the one of the hand-over is ProofClock) |
| `Clocks.ProofClock` | contracts/VGInstantiator.sol:204-263 | over runs: a claim is disputed, the game is started at a time at some later point, and as long as it stays in its proof phase its claimer, and nobody else, can claim it by time if and only if 80 seconds and five rounds of R * floor(log4 finalTime) + 4 have passed since that start, modulo 2^256 |
| `Clocks.WaitingAsBefore` | contracts/VGInstantiator.sol:164-264 | over every run a live game is changed by its start alone; whatever else touches it ends it |
| `Protocol.ComputeDeadlineExact` | contracts/ComputeInstantiator.sol:268-276 | a claim and its confirmation are each allowed a machine start, a whole run and a round, if and only if neither 500 * finalTime nor the sum reaches 2^256 |
| `Linkage.LinkedRun` | contracts/VGInstantiator.sol:115-207 | over every run of the four contracts: a game in WaitPartition has a partition with its parties and hashes, one in WaitMemoryProveValues a memory it owns, provided by the challenger, opened at hashBeforeDivergence; live games share no sub-instance; a challenged claim has its own game |
| `Linkage.LinkedStep` | contracts/ComputeInstantiator.sol:175-192 | every transaction by anyone outside keeps that linkage |
| `Linkage.GenesisLinked` | contracts/VGInstantiator.sol:100-104 | the empty system satisfies it |
| `Finality.RunLasts` | contracts/ComputeInstantiator.sol:148-248 | over every run finished games and closed computes never change, a claimed hash is written at most once, posted hashes stay |
| `Finality.StepLasts` | contracts/VGInstantiator.sol:164-264 | besides, each new verdict has its source: for the challenger the partition's timeout or a settlement that returns with its guard true; for the claimer the partition's timeout, a settlement (with its guard false, if it returns) or its claim past the proof's deadline; for compute the linked game |
| `Finality.VerdictsAgree` | contracts/ComputeInstantiator.sol:198-215 | compute ends ClaimerWon or ChallengerWon only when the game linked to it under challenge stands finished the same way |
| `Finality.OnlyTimeFavoursChallenger` | contracts/VGInstantiator.sol:164-240 | in the code as it stands a game goes to the challenger only if its partition stood won by the challenger on time |
| `OneDispute.StepSimulates` | contracts/ComputeInstantiator.sol:338-354 | the whole system refines one dispute: its own transactions are accepted exactly when its moves are and act as they do, all others leave it alone |
| `EndToEnd.HonestClaimerSafe` | contracts/VGInstantiator.sol:186-240 | true initial hash, claim and replies: in no reachable state of the system does the settlement's guard hold, and the claim on record stays true; if claim and replies are timely (a divergence may take a reply's place) neither game nor compute goes against the claimer, ClaimerMissedDeadline included |
| `EndToEnd.ClaimerTrueNext` | contracts/VGInstantiator.sol:186-207 | one move by anybody keeps every hash the honest claimer is held to true, across challenge, reply, divergence and proof |
| `EndToEnd.CannotBeDisproved` | contracts/VGInstantiator.sol:233-236 | with that record the guard is false, whatever log was proved |
| `HonestChallenger.HonestChallengerProves` | compute/src/compute.rs:228-337 | a challenger that confirms, disputes, queries and proves as its agent says has, over every run of the system, a true case; once the log is in, the guard holds and the settlement goes through |
| `ChallengerProgress.ChallengerGetsThere` | compute/src/compute.rs:228-337 | against any claimer, at most ceil(log2 finalTime) + (accesses of a step) + 7 of its own transactions are accepted in any run; and unless the instance is closed, the game lost or the claimer within its time, its agent has one to send that is accepted |
| `ChallengerProgress.BudgetNext` | compute/src/vg.rs:227-368 | nobody's move raises the number of transactions the challenger still has to make, and each of its own lowers it |
| `ChallengerProgress.AgentSends` | compute/src/vg.rs:227-368 | outside the claimer's turns an agent that has not lost never idles and never fails |
| `HonestChallenger.TimelyChallengerNeverLoses` | contracts/ComputeInstantiator.sol:162-248 | keeping its deadlines a challenger never lets a false claim become ConsensusResult, in either version; with the settlement that returns neither game nor compute is ever decided for the claimer |
| `HonestChallenger.ChallengerTrueNext` | compute/src/vg.rs:227-368 | one move by anybody keeps the challenger's case true |
| `HonestChallenger.CaseIsWon` | contracts/VGInstantiator.sol:227-237 | with a true case and the log in, the machine accepts and newHash differs from hashAfterDivergence |
| `HonestChallenger.SettlesForChallenger` | contracts/VGInstantiator.sol:213-240 | the settlement then goes through; the game is the challenger's if it returns, the claimer's as coded |
| `HonestChallenger.AgentsEnabled` | compute/src/compute.rs:90-339 | in every linked world where the challenger's case is true, any transaction returned through the agents of compute, game, partition and memory passes every guard of the contract function it names |
| `HonestChallenger.AgentsEnabledAlways` | compute/src/compute.rs:90-339 | the same in every reachable state: after any run in which the challenger followed its agent, on terms a challenge accepts, whatever either agent sends next is executed |
| `HonestChallenger.ClaimerEnabled` | compute/src/vg.rs:136-226 | the claimer's agent on one dispute: never reverted, with any emulator |
| `ClaimerProgress.ClaimerSends` | compute/src/vg.rs:136-226 | outside the challenger's turns a claimer's agent that has not lost never idles and never fails: it claims, answers, takes victory by time over a late confirmation, query or proof, starts the run after a divergence, or reports the verdict |
| `ClaimerProgress.ClaimerGetsThere` | compute/src/compute.rs:128-227 | and what it sends is executed, in every linked world |
| `ClaimerProgress.DecidesWithinU64` | compute/src/compute.rs:137-280 | the claim, and the decision on it, are sent if and only if the final time fits a u64 |
| `ClaimerProgress.AgentIsHonest` | compute/src/compute.rs:137-177 | with a true emulator its claim is the true hash and its replies post true hashes |
| `ClaimerProgress.FollowingClaimerIsHonest` | compute/src/partition.rs:136-206 | so over every run a claimer that follows its agent is the honest one HonestClaimerSafe protects |
| `HonestChallenger.ChallengerEnabled` | compute/src/vg.rs:227-368 | the challenger's agent on one dispute: never reverted while its case is true |
| `DisputePlay.AgentsDecide` | compute/src/compute.rs:128-338 | two agents that differ only on the final hash take a dispute from WaitingClaim to its end on the system, every transaction accepted, within 2 ceil(log2 finalTime) + (accesses of a step) + 8: ChallengerWon if the settlement returns, ClaimerWon as coded |
| `DisputePlay.EveryTurn` | compute/src/vg.rs:136-369 | on each turn the agent the dispute waits for sends an accepted transaction and the bound decreases |
| `CounterMachine.AssumptionsMet` | contracts/MachineInterface.sol:31-35 | the assumptions on machine, run and parties can be met, with either settlement, by a machine of two words and three accesses a step |
| `Arithmetic.Log2OverTwoIsLog4` | contracts/VGInstantiator.sol:537-546 | 4^y <= x < 4^(y+1) for every positive x |
| `Arithmetic.ComputeLog2OverTwo` | contracts/PartitionInstantiator.sol:714-723 | the loop computes that y on wrapping words |
| `PartitionContract.PartitionInstantiator.Instantiate` | contracts/PartitionInstantiator.sol:101-146 | appends the new game and returns its index, or reverts on any bad argument, leaving all else |
| `PartitionContract.PartitionInstantiator.Slice` | contracts/PartitionInstantiator.sol:679-711 | the two in-place loops leave exactly the wrapping slice in queryArray |
| `PartitionContract.PartitionInstantiator.PostAnswers` | contracts/PartitionInstantiator.sol:175-186 | the loop posts write-once, and a mismatch undoes every write already made |
| `PartitionContract.PartitionInstantiator.ReplyQuery` | contracts/PartitionInstantiator.sol:153-191 | refines the game's reply on this index, leaves the others, and keeps the contract invariant |
| `PartitionContract.PartitionInstantiator.MakeQuery` | contracts/PartitionInstantiator.sol:200-235 | refines the game's query, subtraction wrapping |
| `PartitionContract.PartitionInstantiator.ClaimVictoryByTime` | contracts/PartitionInstantiator.sol:238-276 | refines the game's claim by time, the division's revert included |
| `PartitionContract.PartitionInstantiator.PresentDivergence` | contracts/PartitionInstantiator.sol:283-312 | refines the game's divergence, from any state |
| `MMContract.MMInstantiator.Instantiate` | contracts/MMInstantiator.sol:96-111 | appends the new memory and returns its index |
| `MMContract.MMInstantiator.ProveRead` | contracts/MMInstantiator.sol:117-139 | pushes the entry if and only if the recomputed root is newHash and the caller may |
| `MMContract.MMInstantiator.ProveWrite` | contracts/MMInstantiator.sol:146-172 | likewise with the old value, and newHash becomes the root with the new one |
| `MMContract.MMInstantiator.FinishProofPhase` | contracts/MMInstantiator.sol:175-188 | closes the log, for the provider only |
| `MMContract.MMInstantiator.FinishReplayPhase` | contracts/MMInstantiator.sol:191-204 | empties the log, for the owner only |
| `MMContract.MMInstantiator.GetRWArrays` | contracts/MMInstantiator.sol:207-230 | the three arrays have the history's length and entry i of each is the i-th access's position, value and kind; they are empty for an index never handed out |
| `VGContract.VGInstantiator.Instantiate` | contracts/VGInstantiator.sol:115-157 | opens a game and its partition together, or reverts leaving both contracts alone |
| `VGContract.VGInstantiator.WinByPartitionTimeout` | contracts/VGInstantiator.sol:164-178 | refines the timeout verdict |
| `VGContract.VGInstantiator.StartMachineRunChallenge` | contracts/VGInstantiator.sol:186-207 | copies the divergence, opens the memory, and forgets the partition |
| `VGContract.VGInstantiator.SettleVerificationGame` | contracts/VGInstantiator.sol:213-240 | refines the settlement that does not return, replay and both contracts' state included |
| `VGContract.VGInstantiator.ClaimVictoryByTime` | contracts/VGInstantiator.sol:244-264 | refines the claimer's claim once the memory's time has run out |
| `VGContract.StoresAgree` | contracts/VGInstantiator.sol:100-104 | the partition and memory contracts do to their instances what the system does to its partitions and memories |
| `ComputeContract.ComputeInstantiator.Instantiate` | contracts/ComputeInstantiator.sol:113-143 | appends the new instance, or reverts when the parties are one |
| `ComputeContract.ComputeInstantiator.SubmitClaim` | contracts/ComputeInstantiator.sol:148-158 | refines the claim, clock untouched |
| `ComputeContract.ComputeInstantiator.Confirm` | contracts/ComputeInstantiator.sol:162-171 | refines the confirmation, the claimed hash kept |
| `ComputeContract.ComputeInstantiator.Challenge` | contracts/ComputeInstantiator.sol:175-192 | opens game and partition and links them, or reverts across three contracts |
| `ComputeContract.ComputeInstantiator.WinByVG` | contracts/ComputeInstantiator.sol:198-215 | repeats the linked game's verdict, and reverts while it has none |
| `ComputeContract.ComputeInstantiator.ClaimVictoryByTime` | contracts/ComputeInstantiator.sol:218-248 | refines the two closings by time |

## Left out

- PartitionRuns.LogarithmicGame: stated for the final times HalvingExact admits. On the others a query fails to halve; that the bound then fails too is proved where EndlessGame applies, and not decided for the rest, all within querySize - 4 of 2^256.
- PartitionDeadline.AllowanceAtMostFirst: for final times below 2^64, as is PartitionDeadline.DeadlineIsExact; with larger ones the power can wrap, and from 2^256 / 500 on the product does (AllowanceGrows).
- HonestChallenger.TimelyChallengerNeverLoses: its verdict half is stated for the settlement that returns, because as coded every settlement goes to the claimer (VerdictExact).
- ChallengerProgress.ChallengerGetsThere: for final times below 2^64 and, where the challenger waits, deadlines below 2^64, the range of its agent's integers.
- HonestChallenger.AgentsEnabled: an agent may still fail, without sending, when a time or deadline does not fit its 64-bit integers or the contract's view reverts; AgentsDecide shows neither happens on the way of a dispute with finalTime < 2^64.
- MMAgent.EntryAccepted: the siblings in the emulator's log are those of memory at the moment of the access, root first; the emulator itself is not part of this model.
- The real keccak256 and the real RISC-V step: a free hash algebra, and a machine parameter with a stated replay contract.
- Re-entrancy through `machine.step`, gas, events, nonces, the `active` flags and ABI encoding.
- The Merkle tree's height is a parameter (the code's is 61), and the mask's bit test is written as division and remainder.
- Instance indices and `partitionGameIndex` do not wrap at 2^256; the latter is proved to stay at most 64 when finalTime < 2^64 (RepliesFit).
- `getMaxInstanceDuration` of partition, game and compute as bounds on real elapsed time: they are estimates, and only the memory's, which is a deadline, is modelled.
- Structs in the mappings are values of a map that each call replaces, so Solidity storage references and slot reuse do not appear; `new` arrays are Dafny arrays.
- The agents' JSON parsing, archive and retries, logging, and the pretty-printed instances; the agents of memory, game and compute read the contract's fields, and only the partition's state goes through `getState`.
- String names of states and the plain getters.
