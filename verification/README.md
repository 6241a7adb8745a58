# Verified model of the replay engines and their codecs

This project models, in Dafny, the parts of metaso-p2p whose answers others
have to be able to recompute, and proves what the code and its comments say of
them. There is one module per file.

## The MetaTask v1.2.1 replay

`ChainEvents` holds decoded events and their total order. `Walk` is the ordered
walk over claims, releases, submissions and ballots: functions on the walk's
state, and the class `Walker` whose methods update it in place, the expiry sweep
included. `WalkGhosts` proves that filtering the walk to a set of nodes leaves
the state on those nodes alone, which is what running the walk twice relies on.
`WalkCycles` carries the invariant of reachable states and `WalkTheorems` draws
from it: one submission chain per cycle, what each verdict means, and that a
refused cycle is final.

`TreeShape` and `AmendFold` are the task tree and the fold of amends over it.
`Aggregation` is the memoised final-verified recursion, `Settlement` the review
statistics and the shares, `CanonicalJson` the canonical writer, `VotePrepass`
the choice of acting ballots. `Replay` puts them together and proves that the
conclusion depends only on the set of events; `ReplayEngine` composes the loops
and classes into one method that reports that conclusion. `AmendPasses` and
`ReplayPasses` compare the amend folds that the two passes of the walk feed.

## The other cores

`GuardView` compares the two ways a node's state is computed in the pool read
path. `BitStrings`, `Checksum`, `BitRegroup`, `IdAddress` and `SegwitAddress`
are the address codecs; a register or an accumulator is related to the string of
bits it holds (BIP 173, section "Bech32"; BIP 350, section "Specification").
`Dedupe` is the grouping of search matches with its union-find over an array.
`RateLimiter` is the token bucket, over real numbers. `PinsFeed` is the cursor
feed. `Agentpedia` is the encyclopedia engine as functions,
`AgentpediaRulings`, `AgentpediaEntries` and `AgentpediaPages` its invariants,
`AgentpediaOrder` what ranging over maps and pulling batches cannot change,
`AgentpediaEngine` the engine as a class with the source's loops and
`AgentpediaRuns` three concrete runs. `Sorting` is stable sorting, shared by all.

## Where the code and its claims part

Where a claim fails for some input there is a lemma with one, beside the theorem
with the condition that excludes it.

- A supersede keeps the cycle's pass voters and outcome, so an effective
  submission can be verified without a ballot (`WalkTheorems.SupersedeInheritsVotes`).
  The quorum theorem is for cycles never superseded; `VerdictMeaning` says what
  the outcome means for all of them, and `OwnQuorum` when an effective submission
  has a quorum of its own.
- The amend fold is said to be the same for both passes of the walk. A claim on a
  node that an amend removes can have kept an earlier amend out, and is a ghost in
  the second pass (`ReplayPasses.PassesCanDisagree`); `ReplayPasses.FoldsAgreeExactly`
  says when the folds agree.
- The descendant walk of a removal need not end: an amend may remove a node and a
  later one add it back under its own descendant and remove it again, which then
  walks for ever (`AmendFold.FoldCanHang`). `AmendFold.FoldHangs` says exactly when
  the fold need not end, `TreeShape.NeverEndsIff` when no visiting order ends.
- An ID address that is not ASCII can decode, since characters are cut to bytes
  and two characters beyond ASCII have a lower case in it. Decoding and encoding
  again gives the lower-cased address back exactly when that is ASCII
  (`IdAddress.NonAsciiAddressDecodes`, `IdAddress.EncodeUndoesDecode`).
- A written segwit address reads back exactly when its prefix is not empty and
  unchanged by lower-casing and the text fits ninety bytes; the writer checks
  none of these (`SegwitAddress.ReadUndoesWrite` states it as an equivalence).
- The guard's fold holds a claim on the empty node id, the global one does not
  (`GuardView.NamelessNodeDiffers`).
- A feed cursor is exact only for numbers that floating point holds exactly
  (`PinsFeed.CursorLosesBits`).
- Two proposals on one frozen record that expire at one step make the result
  depend on map order if they would give it different heads, and only then
  (`AgentpediaRuns.ClosingOrderMatters`, `AgentpediaOrder.CalmIffOrderHidden`).
- A slug transfer that moves a key makes the key show another entry's page for
  good, and rulings made before it then act on the wrong page
  (`AgentpediaRuns.MovedKeyMisdirectsRuling`); without one entries hold together,
  and only without one (`AgentpediaEntries.TogetherIffNoMoves`). When it breaks the
  pages themselves is stated by `AgentpediaPages.PagesHoldIff`.
- The order in which batches are pulled is said never to leak into the view. It
  does for events of one height and index, which the stable sort leaves as pulled
  (`AgentpediaRuns.PullOrderMatters`), and for no others
  (`AgentpediaOrder.OneStreamIffOnePerPlace`).

## Model

| member | source | states |
|---|---|---|
| `ChainEvents.KeyLessTotal` | internal/metatask/v121.go:263-296 | the event order is total up to equal keys and irreflexive, unconfirmed events last |
| `ChainEvents.SortSorts` | internal/metatask/v121.go:299-301 | sorting keeps every event as often as before and leaves no pair out of order |
| `ChainEvents.SortIsCanonical` | internal/metatask/v121.go:299-301 | inputs that are permutations of one another, with distinct pins, sort to the same list |
| `Walk.Walker.constructor` | internal/metatask/v121.go:1003-1019 | a fresh walk has no holder, cycle, vote or log entry |
| `Walk.Walker.Claim` | internal/metatask/v121.go:1029-1049 | the first claim on a free node holds it and keeps the node's earliest claim key; a held node, a ghost node or an empty id changes nothing but the log |
| `Walk.Walker.Release` | internal/metatask/v121.go:1050-1065 | only a release naming the holding claim frees the node, and it clears the node's pass voters |
| `Walk.Walker.Submit` | internal/metatask/v121.go:1066-1125 | first submission under the holding claim opens its cycle; a later one replaces it only under all the supersede conditions |
| `Walk.Walker.Vote` | internal/metatask/v121.go:1126-1180 | a fail on the live target rejects the cycle and reopens the node; a pass joins the voters unless cast by the submitter or the root author |
| `Walk.Walker.PassVote` | internal/metatask/v121.go:1159-1179 | one entry per voter; at quorum the cycle is verified and the first quorum time kept |
| `Walk.Walker.RunWalk` | internal/metatask/v121.go:1027-1182 | the loop leaves exactly the state, ignore log and claim counts of the step-by-step specification |
| `Walk.Walker.ApplyExpiry` | internal/metatask/v121.go:1188-1213 | the sweep drops exactly the holders expired at the given clock, whatever order the holder map is ranged over and although it is changed while ranged over |
| `Walk.Walker.ExpiryAt` | internal/metatask/v121.go:1193-1211 | a holder expires by claim TTL without a submission, by the review window with one that lacks quorum |
| `WalkGhosts.GhostsNeverInterfere` | internal/metatask/v121.go:1020-1082 | the walk filtered to any set of nodes leaves on those nodes the holders, first-claim keys, cycles, outcomes, voters and verified pins of the unfiltered walk; whether the amend fold is the same is for `ReplayPasses.FoldsAgreeExactly` |
| `WalkGhosts.GhostsNeverInterfereAfterExpiry` | internal/metatask/v121.go:1298-1320 | the same after the expiry sweep |
| `WalkGhosts.ActiveCycleAgrees` | internal/metatask/v121.go:1216-1222 | and each such node's current cycle is the same in both passes |
| `WalkGhosts.StepCommutes` | internal/metatask/v121.go:1027-1181 | projecting to a set of nodes and stepping commute, event by event |
| `WalkCycles.StepKeepsInv` | internal/metatask/v121.go:1027-1181 | every event keeps the invariant relating cycles, chains, outcomes, voters and holders to the ballots that reached a live target |
| `WalkCycles.RunKeepsInv` | internal/metatask/v121.go:1003-1183 | the invariant holds in every reachable state |
| `WalkTheorems.SubmissionsFormOneChain` | internal/metatask/v121.go:1086-1125 | a cycle's submissions are one author's, each superseding the one before it at or above the feature height, and the last is effective |
| `WalkTheorems.ReachedMeansLive` | internal/metatask/v121.go:1131-1147 | a ballot is recorded as reached exactly when, at its own position, its target is the effective submission of the cycle the node's holder works on |
| `WalkTheorems.VerdictMeaning` | internal/metatask/v121.go:1148-1179 | a cycle is fail-rejected exactly when a fail reached one of its submissions, and otherwise verified exactly when at least quorum distinct eligible voters passed it |
| `WalkTheorems.QuorumSoundness` | internal/metatask/v121.go:1159-1179 | a never-superseded cycle ends verified exactly with quorum distinct voters on its one submission, none of them submitter or root author, and no fail |
| `WalkTheorems.OwnQuorum` | internal/metatask/v121.go:1117-1179 | the effective submission of any verified cycle has a quorum of its own exactly when the bots whose passes reached only superseded submissions are no more than the cycle has above quorum |
| `WalkTheorems.SupersedeInheritsVotes` | internal/metatask/v121.go:1117-1122 | a concrete run whose cycle is verified although no ballot names its effective submission, because a supersede keeps the votes |
| `WalkTheorems.DeadStaysDead` | internal/metatask/v121.go:1060-1065 | a cycle whose claim lost the node never changes again |
| `WalkTheorems.RefusalIsFinal` | internal/metatask/v121.go:1148-1157 | a fail-rejected cycle is final and its claim never holds the node again |
| `WalkTheorems.VerifiedReadingsAgree` | internal/metatask/v121.go:1272-1277 | a verified effective pin implies a verified outcome, and for never-superseded cycles the two readings are the same |
| `TreeShape.SumWeights` | internal/metatask/v121.go:329-339 | the loop sums integer weights in 1..10000 and reports minus one as soon as one is unusable, in any order |
| `TreeShape.ClimbEnds` | internal/metatask/v121.go:341-363 | the climb through parents ends, and answers whether it ended without meeting a node twice |
| `TreeShape.IsAcyclic` | internal/metatask/v121.go:341-363 | the check answers true exactly when every climb through parents ends |
| `TreeShape.SearchFrozen` | internal/metatask/v121.go:739-752 | unless the node is on a parent cycle without a frozen member the descendant walk ends, in any visiting order, and finds a frozen node exactly when one is at or below it |
| `TreeShape.EndlessIffOnFreeCycle` | internal/metatask/v121.go:739-752 | the walk can go on for ever exactly when the node is on a parent cycle with no frozen member |
| `TreeShape.RunsAreShort` | internal/metatask/v121.go:739-752 | in every other case each visiting order ends within one round per node |
| `TreeShape.CycleNeverClears` | internal/metatask/v121.go:739-752 | from a node on a parent cycle the stack never empties before a frozen node is met, so the walk never reports that nothing is frozen |
| `TreeShape.NeverEndsIff` | internal/metatask/v121.go:739-752 | no visiting order comes to an end exactly when the node is on a parent cycle and nothing at or below it is frozen |
| `AmendFold.AcceptedFormOneChain` | internal/metatask/v121.go:615-802 | accepted amends form one chain of bases from the tree pin, by the publisher at or above the feature height, over a tree whose integer weights sum to 10000 and that is acyclic |
| `AmendFold.EveryAmendCountsOnce` | internal/metatask/v121.go:633-800 | every amend is accepted or ignored, none twice |
| `AmendFold.IgnoredLeaveNoTrace` | internal/metatask/v121.go:633-802 | an amend applies whole or not at all: the accepted amends alone fold to the same tree, order and head with none ignored, so an ignored one leaves no trace in them |
| `AmendFold.AmendKeepsFrozen` | internal/metatask/v121.go:739-791 | one amend never removes or edits a node first claimed before it, nor moves its ancestors |
| `AmendFold.FrozenForever` | internal/metatask/v121.go:625-631 | over a whole fold in chain order a node first claimed before some amend stays, unedited and under the same ancestors, to the end |
| `AmendFold.FoldHangs` | internal/metatask/v121.go:633-792 | the fold need not end exactly when an amend that passes the gates reaches the removal of a node that lies, in the tree before that operation, on a parent cycle with no frozen member |
| `AmendFold.FrozenCycleIsRefused` | internal/metatask/v121.go:739-757 | one frozen member of the cycle, such as the node itself, is enough for the removal to be refused |
| `AmendFold.FoldEnds` | internal/metatask/v121.go:739-752 | a condition on the amends alone: on an acyclic published tree the fold ends if every amend lists its removals before its additions |
| `AmendFold.FoldCanHang` | internal/metatask/v121.go:689-699 | a concrete pair of amends on an acyclic tree after which the fold does not end |
| `AmendFold.FoldKeepsTree` | internal/metatask/v121.go:615-802 | nodes stay under their own ids and the order lists each exactly once |
| `AmendPasses.StepDiffers` | internal/metatask/v121.go:668-800 | one amend fares the same under fewer known claims and verdicts exactly when it is neither stopped as final only under more nor refused although its operations go through, or have no end, under fewer |
| `AmendPasses.FoldsAgree` | internal/metatask/v121.go:615-802 | a fold with an end comes out the same under fewer known claims and verdicts, reasons included, exactly when no amend fares differently |
| `AmendPasses.NothingOutsideAgrees` | internal/metatask/v121.go:615-802 | and so it does from what is known about a set of nodes when no amend that passes the gates meets a claim or a verdict on a node outside it |
| `AmendPasses.FrozenOutsideIsNew` | internal/metatask/v121.go:625-631 | a frozen node outside the final tree that an amend meets was added by that same amend |
| `AmendFold.Remove` | internal/metatask/v121.go:728-765 | whenever the walk has an end the operation is refused or deletes exactly the named node and its first listing |
| `AmendFold.RunOps` | internal/metatask/v121.go:668-792 | the operation loop equals applying the operations one by one, stopping at the first refusal, whenever each removal it reaches has an end |
| `AmendFold.FoldAmends` | internal/metatask/v121.go:633-802 | the whole loop equals the fold specification whenever that has an end, which `AmendFold.FoldHangs` decides |
| `Aggregation.Aggregator.FinalVerified` | internal/metatask/v121.go:1417-1474 | the memoised recursion returns membership in the least solution, keeps its cache right and never recurses for ever, on any tree |
| `Aggregation.Aggregator.Account` | internal/metatask/v121.go:1424-1470 | the children loop decides exactly: all children verified and the listed ids are their effective pins |
| `Aggregation.Aggregator.AllFinal` | internal/metatask/v121.go:1475-1490 | calling it for the nodes in any order yields exactly the final nodes |
| `Aggregation.FinalEquation` | internal/metatask/v121.go:1417-1474 | the result satisfies its own recursive equation |
| `Aggregation.FinalIsLeast` | internal/metatask/v121.go:1417-1474 | and is contained in every other solution of it |
| `Aggregation.AcyclicHasOneSolution` | internal/metatask/v121.go:1417-1474 | on an acyclic tree the recursive equation has no other solution, so the visiting order cannot matter |
| `Aggregation.VerifiedSubtree` | internal/metatask/v121.go:1424-1470 | if all effective submissions are at or above the feature height, a final node's whole subtree is final and every inner node lists exactly its children's effective pins |
| `Settlement.ReviewCycles` | internal/metatask/v121.go:1671-1692 | the review loop counts votes, terminal reviews and correct ones as the specification does |
| `Settlement.AccuracyBounds` | internal/metatask/v121.go:1818-1829 | smoothed accuracy stays in 2500..10000 for honest counts |
| `Settlement.CutsBounds` | internal/metatask/v121.go:1864-1871 | k rounded cuts of a pool total between the pool less k-1 and the pool |
| `Settlement.NodePayout` | internal/metatask/v121.go:1841-1872 | a paid node of weight w pays out w with no counted reviewer, and between w-(k-1) and w with k |
| `Settlement.SharesAccountForWeight` | internal/metatask/v121.go:1841-1886 | all shares total the paid weight less a residue below one point per counted reviewer |
| `Settlement.SharesAtMostWhole` | internal/metatask/v121.go:1777-1886 | shares total at most 10000 in both weight modes |
| `Settlement.SharesOweNothing` | internal/metatask/v121.go:1841-1872 | no share part is ever negative |
| `Settlement.ListingDoesNotMatter` | internal/metatask/v121.go:1778-1872 | any two listings of the same nodes, each once, settle to the same shares |
| `Settlement.PaidReviewersAreEnrolled` | internal/metatask/v121.go:1678-1680 | every counted reviewer has an accuracy because reviewing enrolled it |
| `Settlement.DivisorPositive` | internal/metatask/v121.go:1864-1871 | the accuracy sum divided by is positive |
| `Settlement.ComputeWeights` | internal/metatask/v121.go:1779-1806 | tree weights when complete and summing to 10000, else the uniform floor with its residue dropped |
| `Settlement.SettleNode` | internal/metatask/v121.go:1842-1871 | one turn of the settlement loop pays exactly the specified parts |
| `Settlement.Settle` | internal/metatask/v121.go:1841-1872 | the loop's shares are those of the specification |
| `CanonicalJson.CanonIsInjective` | internal/metatask/v121.go:101-201 | different values of null, booleans, integers, strings, arrays and objects never print alike |
| `CanonicalJson.EscapedEnds` | internal/metatask/v121.go:172-201 | an escaped string tells where it ends |
| `CanonicalJson.DecimalEnds` | internal/metatask/v121.go:121-124 | an integer's digits are determined by the text up to the next non-digit |
| `CanonicalJson.SortStrings` | internal/metatask/v121.go:145-150 | sorted keys depend only on the set of keys |
| `CanonicalJson.Write` | internal/metatask/v121.go:109-167 | the recursive writer prints the canonical text whatever order the object's map is ranged over |
| `CanonicalJson.EventSetBytesAreInjective` | internal/metatask/v121.go:1757-1773 | different lists of hash entries give different bytes before hashing |
| `VotePrepass.CollectVotes` | internal/metatask/v121.go:913-931 | the loop keeps, per target and bot, the last admitted ballot |
| `VotePrepass.LastWellFormedActs` | internal/metatask/v121.go:917-931 | a ballot acts exactly when it is admitted and no later admitted ballot of the bot on that target exists, so a malformed one withdraws nothing |
| `VotePrepass.LastVotesAre` | internal/metatask/v121.go:912-931 | whatever the map holds is an admitted ballot under its own target and bot |
| `VotePrepass.GroupTarget` | internal/metatask/v121.go:932-941 | grouping by ranging over the map and sorting gives the acting ballots of the target in chain order |
| `Replay.ConclusionDependsOnSet` | internal/metatask/v121.go:806-1773 | permuting the input with distinct pins changes neither cycles, node states, settlement nor hash entries |
| `ReplayEngine.ReplayEvents` | internal/metatask/v121.go:806-1890 | the engine, with both passes in place, the amend loop, the memoised aggregation over any listing of the nodes and the settlement loops, reports exactly the specified conclusion whenever the amend fold has an end |
| `Replay.TimelineIsReplayable` | internal/metatask/v121.go:956-967 | what the replay walks is an ordered timeline with distinct pins, as the walk theorems require |
| `Replay.PassesAgreeOnTheTree` | internal/metatask/v121.go:1298-1310 | within one replay the filtered second pass agrees with the first on every tree node |
| `ReplayPasses.SecondInputs` | internal/metatask/v121.go:969-982 | the second pass tells the amend fold what the first does about the nodes of the effective tree and nothing else |
| `ReplayPasses.FoldsAgreeExactly` | internal/metatask/v121.go:969-982 | the fold comes out the same for both passes exactly when no amend was stopped by a verdict on a root outside the effective tree, or refused at an operation although it goes through, or has no end, under what is known inside that tree |
| `ReplayPasses.FoldsAgreeInside` | internal/metatask/v121.go:969-982 | it does when a verified root is in the effective tree and no amend that passes the gates adds under a held or verified node outside it or meets a frozen node outside it |
| `ReplayPasses.PassesCanDisagree` | internal/metatask/v121.go:969-982 | five events of one task for which the two passes feed folds that end in different trees |
| `Replay.SettlementIsBounded` | internal/metatask/v121.go:1775-1886 | whenever a replay settles, its shares total at most 10000 and no part is negative |
| `Replay.ReviewersEnrolled` | internal/metatask/v121.go:1671-1680 | every voter on a resolved cycle is a recorded participant of the replay |
| `Replay.InitialTreeIsOk` | internal/metatask/v121.go:1229-1271 | the published tree enters the fold with each node under its own id and listed once |
| `Replay.EventSetTellsEventsApart` | internal/metatask/v121.go:1721-1773 | two replays with the same pre-hash bytes have the same hash entries, path by path and in order |
| `GuardView.Settlement.constructor` | internal/metatask/settle.go:73-115 | the three folds leave holders, submissions and last ballots of the specification |
| `GuardView.Settlement.WalkClaims` | internal/metatask/settle.go:183-212 | the interleaved claim and release fold leaves exactly the specified holders |
| `GuardView.Settlement.WalkSubmissions` | internal/metatask/settle.go:216-233 | the earliest submission under the final holder of its node is effective |
| `GuardView.Settlement.CollectBallots` | internal/metatask/settle.go:238-248 | the last valid ballot per target and bot remains, invalid ones withdrawing nothing |
| `GuardView.Settlement.VerifiedSub` | internal/metatask/settle.go:253-274 | counting over the ballot map in any order gives the global view's votes |
| `GuardView.CountVotes` | internal/metatask/settle.go:258-272 | good and bad are the numbers of distinct eligible passing and of failing bots |
| `GuardView.Settlement.NodeStatus` | internal/metatask/aggregate.go:76-88 | the reported status |
| `GuardView.Settlement.GuardState` | internal/metatask/settle.go:307-403 | the guard's own fold and case analysis give the status of the node view and the windows |
| `GuardView.Settlement.GuardHolder` | internal/metatask/settle.go:308-340 | the guard's fold over one node's events, with its in-flight flag |
| `GuardView.Settlement.GuardVotes` | internal/metatask/settle.go:342-381 | the guard's submission and votes are those of the node view |
| `GuardView.NodeTimelineIsSelected` | internal/metatask/settle.go:311-325 | sorting one node's claims and releases is selecting them from the sorted whole |
| `GuardView.HoldersAgree` | internal/metatask/settle.go:183-212 | for a named node the global fold's holder is the fold's over that node's events |
| `GuardView.SubsAgree` | internal/metatask/settle.go:216-233 | the global fold's submission is the first one riding the node's holder |
| `GuardView.ViewsAgree` | internal/metatask/settle.go:183-274 | for every named node both computations find the same holder, submission and vote counts |
| `GuardView.NamelessNodeDiffers` | internal/metatask/settle.go:197-201 | a claim on the empty node id is held by the guard's fold and not by the global one |
| `GuardView.StatusesCoincide` | internal/metatask/settle.go:383-397 | the exact condition under which the guard's status equals the reported one |
| `Sorting.SelectSorted` | internal/metatask/settle.go:124-133 | a stable sort and a selection commute |
| `BitRegroup.ConvertBits` | pkg/idaddress/idaddress.go:257-295 | the masked loop cuts the input's bits into groups, padded or not, or refuses exactly when a value is out of range or the rest is not a short run of zeros |
| `BitRegroup.ConvertBits8to5` | pkg/idaddress/converter.go:56-80 | the unmasked 64-bit loop satisfies the same specification |
| `BitRegroup.WrapIn` | pkg/idaddress/converter.go:62-63 | shifting in a wrapping signed 64-bit integer keeps the low bits |
| `BitRegroup.SpreadIsTheResult` | pkg/idaddress/idaddress.go:257-288 | both loops spread bytes over symbols the same way |
| `BitRegroup.GatherIsTheResult` | pkg/idaddress/converter.go:71-79 | and gather symbols into bytes, or refuse, the same way |
| `BitRegroup.GatherUndoesSpread` | pkg/idaddress/idaddress.go:96-97 | bytes come back from the symbols they were spread over |
| `BitRegroup.SpreadUndoesGather` | pkg/idaddress/idaddress.go:162-168 | symbols that gather at all are the spread of their bytes |
| `Checksum.Polymod` | pkg/idaddress/idaddress.go:309-322 | the loops compute the register the specification defines bit by bit |
| `Checksum.StepLinear` | pkg/idaddress/idaddress.go:312-320 | a checksum step is linear for exclusive or |
| `Checksum.StepHasNoKernel` | pkg/idaddress/idaddress.go:310-320 | the step with symbol 0 sends only the zero register to zero |
| `Checksum.PolyLinear` | pkg/idaddress/idaddress.go:309-322 | so is the whole remainder |
| `Checksum.CreateChecksum` | pkg/idaddress/idaddress.go:325-334 | the six symbols computed are those of the specification, for either target constant |
| `Checksum.VerifyChecksum` | pkg/idaddress/idaddress.go:337-340 | true exactly when the remainder is the target |
| `Checksum.ChecksumIsUnique` | pkg/idaddress/idaddress.go:325-340 | six symbols verify exactly when they are the ones created |
| `Checksum.BurstsChangeTheRemainder` | pkg/idaddress/idaddress.go:309-322 | changes confined to six consecutive symbols change the remainder, whatever the length |
| `IdAddress.FillTable` | pkg/idaddress/idaddress.go:71-76 | the decoding table holds exactly the charset characters with their places |
| `IdAddress.TablesAgree` | pkg/idaddress/converter.go:17-22 | the segwit codec's written-out table is the same one |
| `IdAddress.HrpExpand` | pkg/idaddress/idaddress.go:298-306 | high bits, a zero, low bits |
| `IdAddress.EncodeIDAddress` | pkg/idaddress/idaddress.go:86-115 | the encoder equals its specification, errors included |
| `IdAddress.DecodeIDAddress` | pkg/idaddress/idaddress.go:118-179 | the decoder equals its specification, errors in the source's order |
| `IdAddress.ReadSymbols` | pkg/idaddress/idaddress.go:146-153 | one symbol per byte, characters looked up by their low eight bits, continuation bytes reading zero |
| `IdAddress.DecodeUndoesEncode` | pkg/idaddress/idaddress.go:86-179 | every address that can be made decodes to exactly its version and data, and which can be made |
| `IdAddress.EncodeUndoesDecode` | pkg/idaddress/idaddress.go:118-179 | what decodes encodes back to the lower-cased address exactly when that is ASCII |
| `IdAddress.AsciiOfLower` | pkg/idaddress/idaddress.go:119 | which it is exactly when each character is ASCII, the Kelvin sign or the dotted capital I |
| `IdAddress.KelvinAddress` | pkg/idaddress/idaddress.go:118-179 | an address that decodes still does, to the same, with a k replaced by the Kelvin sign, and encodes to its lower-cased text although it is not ASCII |
| `IdAddress.DoubledAddress` | pkg/idaddress/idaddress.go:147-153 | every payload whose symbols begin with two zeros also has an address that is not ASCII and does not encode back |
| `IdAddress.NonAsciiAddressDecodes` | pkg/idaddress/idaddress.go:147-153 | twenty zero bytes are such a payload |
| `IdAddress.BurstsAreCaught` | pkg/idaddress/idaddress.go:145-160 | changes within six consecutive data or checksum characters always end in the checksum error |
| `SegwitAddress.Bech32Encode` | pkg/idaddress/converter.go:208-256 | the encoder equals its specification, with the out-of-range version as a crash |
| `SegwitAddress.Bech32Decode` | pkg/idaddress/converter.go:83-139 | the decoder equals its specification, errors in the source's order |
| `SegwitAddress.SealDecides` | pkg/idaddress/converter.go:44-54 | six symbols make a text read as sealed with an encoding exactly when they are that encoding's checksum |
| `SegwitAddress.ReadUndoesWrite` | pkg/idaddress/converter.go:83-256 | a written address reads back as what it was written from exactly when its prefix is not empty and unchanged by lower-casing and the text has at most 90 bytes |
| `SegwitAddress.WriteUndoesRead` | pkg/idaddress/converter.go:83-256 | whatever reads writes back to its lower-cased text |
| `SegwitAddress.SegwitComesBack` | pkg/idaddress/converter.go:298-375 | a segwit address that converts to an ID address converts back to its lower-cased text, and exactly programs of the three known kinds convert |
| `Dedupe.Find` | internal/aggregator/metaweb/dedupe.go:120-126 | path halving returns the root, moves links but no root, and ends because ranks grow along links |
| `Dedupe.Union` | internal/aggregator/metaweb/dedupe.go:127-132 | the two classes become one and the forest stays one |
| `Dedupe.Note` | internal/aggregator/metaweb/dedupe.go:139-154 | a key is filed at its first match or joins the matches that share it |
| `Dedupe.Connect` | internal/aggregator/metaweb/dedupe.go:115-155 | after the loop two matches have one root exactly when a path of shared keys joins them |
| `Dedupe.Group` | internal/aggregator/metaweb/dedupe.go:157-165 | rows are exactly the connected components, members in order, rows by earliest member |
| `Dedupe.RowsAccountForAll` | internal/aggregator/metaweb/dedupe.go:157-174 | suppressed matches and representatives over all rows are all the matches |
| `Dedupe.BuildGroup` | internal/aggregator/metaweb/dedupe.go:178-218 | one row as specified |
| `Dedupe.RepresentativeIsNewest` | internal/aggregator/metaweb/dedupe.go:184-203 | rows with two or more version markers show their newest member and list all, others show their earliest |
| `Dedupe.DedupeMatches` | internal/aggregator/metaweb/dedupe.go:114-174 | the rows are those of the grouping |
| `Dedupe.GroupingAgainDoesNothing` | internal/aggregator/metaweb/dedupe.go:114-174 | representatives, whichever are chosen, group into singletons |
| `Dedupe.DedupeAgainChangesNothing` | internal/aggregator/metaweb/dedupe.go:108-174 | deduplicating the rows gives each representative back, alone and in order |
| `RateLimiter.Limiter.constructor` | internal/api/ratelimit.go:40-53 | unusable settings are replaced and no caller has a bucket |
| `RateLimiter.Limiter.Allow` | internal/api/ratelimit.go:57-81 | one caller's bucket changes as specified and no other's |
| `RateLimiter.RateIsBounded` | internal/api/ratelimit.go:57-81 | requests of one caller allowed in an interval number at most the burst and the interval's refill, whatever others do |
| `RateLimiter.RetryIsAllowed` | internal/api/ratelimit.go:70-80 | a denied caller that makes no other request is allowed exactly from the returned delay on |
| `RateLimiter.HeaderIsEnough` | internal/api/ratelimit.go:109-113 | the whole seconds in the header suffice |
| `RateLimiter.SpacedRequestsAreAllowed` | internal/api/ratelimit.go:70-78 | a caller that leaves the refill time of a token between requests is never denied |
| `PinsFeed.HandlePins` | internal/agentpedia/l2.go:991-1041 | filtering, sorting, cutting and resuming serve the first items of the sorted matching window |
| `PinsFeed.CutOld` | internal/agentpedia/l2.go:1003-1014 | the prefix cut is the selection of items not older than the bound |
| `PinsFeed.FirstAfter` | internal/agentpedia/l2.go:1016-1025 | the resume index leaves exactly the items after the key |
| `PinsFeed.CursorRoundTrips` | internal/agentpedia/l2.go:858-888 | a cursor reads back as its key exactly when the key's numbers are exact floating-point integers, as all up to 2^53 are |
| `PinsFeed.CursorLosesBits` | internal/agentpedia/l2.go:880-887 | the first timestamp that does not survive |
| `PinsFeed.NothingTwice` | internal/agentpedia/l2.go:840-856 | following cursors while pins keep arriving never serves a pin twice |
| `PinsFeed.NothingMissed` | internal/agentpedia/l2.go:840-856 | and serves every matching pin that was there when the first page was |
| `AgentpediaRulings.ClosedStaysClosed` | internal/agentpedia/replay.go:796-817 | over any stretch of a run a proposal keeps its case and approvals and never changes once closed |
| `AgentpediaRulings.AppliedOnce` | internal/agentpedia/replay.go:376-377 | no outcome is applied twice |
| `AgentpediaRulings.AppliedByQuorum` | internal/agentpedia/replay.go:796-823 | an outcome is applied only below the expiry height, with the quorum then in force, by arbiters of the proposal |
| `AgentpediaRulings.RunKeepsCourtOk` | internal/agentpedia/replay.go:792-821 | approvers are always among the arbiters drawn when the proposal was made |
| `AgentpediaEntries.RunKeepsInv` | internal/agentpedia/replay.go:857-982 | every run that moves no key keeps keys, records, proposals and challenges consistent |
| `AgentpediaEntries.TogetherIffNoMoves` | internal/agentpedia/replay.go:359-415 | after a run and a closing every key shows its own entry, with head, history, versions and freeze baseline in agreement and each version carrying the hash of a create or edit of that entry, exactly when no vote of the run put a transfer into effect whose source is an entry the target key did not already stand for |
| `AgentpediaEntries.RevisedOk` | internal/agentpedia/replay.go:876-981 | an accepted revision leaves a sound record that has lost nothing |
| `AgentpediaPages.PagesHoldIff` | internal/agentpedia/replay.go:359-415 | over runs in which the closing order cannot show, transfers included, heads, histories, baselines and hashes of all pages stay together at each closing and after each event exactly when no closing gives a frozen page a head outside its history and no ruling reverts a page to a revision it does not have |
| `AgentpediaPages.OnlyMovedKeysStray` | internal/agentpedia/replay.go:400-415 | neither happens in a run that moves no key |
| `AgentpediaRuns.MovedKeyMisdirectsRuling` | internal/agentpedia/replay.go:376-415 | a run of eight events in which a ruling on one page takes effect after its key was moved, and leaves the other page, under its own key, with a head whose hash no create or edit carried |
| `AgentpediaOrder.ClosingOrderDoesNotMatter` | internal/agentpedia/replay.go:359-374 | when proposals expiring at once on one frozen record agree on its head, ranging over them in any order leaves the same records |
| `AgentpediaOrder.CalmIffOrderHidden` | internal/agentpedia/replay.go:359-374 | and otherwise two orders leave different ones, so the condition is exact |
| `AgentpediaEngine.CalmRunIffHidden` | internal/agentpedia/replay.go:359-374 | a run is calm exactly when at none of its steps the order of ranging can show |
| `AgentpediaRuns.ClosingOrderMatters` | internal/agentpedia/replay.go:359-374 | a run of seven events after which closing in one order leaves a page at a revert and in the other at the edit it undid |
| `AgentpediaOrder.RevisionsHaveOneOwner` | internal/agentpedia/replay.go:658-686 | after any run, transfers included, all keys that hold a revision stand for one record |
| `AgentpediaOrder.EndorsedIsUnique` | internal/agentpedia/replay.go:578-609 | the register an endorsement is for is unique |
| `AgentpediaOrder.RunKeepsRegistered` | internal/agentpedia/replay.go:551-567 | no two registrations are satisfied by one event |
| `Agentpedia.EndorsedWhenRegistered` | internal/agentpedia/replay.go:578-613 | an endorsement finds a register exactly when its applicant has one |
| `AgentpediaOrder.PullOrderDoesNotMatter` | internal/agentpedia/l2.go:76-87 | batches pulled in any order give the state one replay of all events gives, when confirmed events of one place are equal; the replay is the one that closes expired proposals in one fixed order, and `AgentpediaEngine.Pool.Append` says when the engine's is the same |
| `AgentpediaOrder.OneStreamIffOnePerPlace` | internal/agentpedia/l2.go:76-87 | all orders of pulling give one replayed stream exactly when confirmed events of one height and index are equal |
| `AgentpediaRuns.PullOrderMatters` | internal/agentpedia/l2.go:76-87 | three events, two of them creates of one page at one place, whose order of pulling decides which create stands |
| `AgentpediaOrder.PullOrderOnlyReordersPending` | internal/agentpedia/replay.go:1108-1121 | and the same pending pins up to their order |
| `AgentpediaEngine.Engine.CloseExpired` | internal/agentpedia/replay.go:359-374 | the loop over the map equals closing the proposals in the order they are met |
| `AgentpediaEngine.Engine.OwnerOf` | internal/agentpedia/replay.go:658-686 | the scans find the specified owner whatever order they run in, when revisions have one owner |
| `AgentpediaEngine.Engine.FindRegister` | internal/agentpedia/replay.go:578-609 | the scans find the specified register whatever order they run in |
| `AgentpediaEngine.Engine.Draw` | internal/agentpedia/replay.go:306-340 | the draw is the first names of the T2 editors by hash |
| `AgentpediaEngine.Engine.BookRevert` | internal/agentpedia/replay.go:936-963 | reverts within the window are kept, weighed and may freeze the record |
| `AgentpediaEngine.Engine.ApplyOutcome` | internal/agentpedia/replay.go:376-429 | one outcome's effect on record, keys and editor |
| `AgentpediaEngine.Engine.ApplyPropose` | internal/agentpedia/replay.go:733-795 | a proposal is opened or buried with the first reason that applies |
| `AgentpediaEngine.Engine.ApplyVote` | internal/agentpedia/replay.go:796-824 | a vote is recorded, counted and may decide, or is buried |
| `AgentpediaEngine.Engine.ApplyRev` | internal/agentpedia/replay.go:857-982 | a revision is gated, applied and counted, or buried |
| `AgentpediaEngine.Engine.ApplyEditor` | internal/agentpedia/replay.go:517-649 | registration events, every branch |
| `AgentpediaEngine.Engine.ApplyReview` | internal/agentpedia/replay.go:688-707 | reviews are recorded unless unresolvable or one's own |
| `AgentpediaEngine.Engine.ApplyChallenge` | internal/agentpedia/replay.go:709-728 | challenges mark their revision disputed at its owner |
| `AgentpediaEngine.Engine.Apply` | internal/agentpedia/replay.go:984-1051 | closing, then one event |
| `AgentpediaEngine.Replay` | internal/agentpedia/replay.go:1086-1129 | over runs of distinct chain pins in which the closing order cannot show (`AgentpediaEngine.CalmRunIffHidden`) the engine ends in the one state the events determine, whatever order it ranges over maps in |
| `AgentpediaEngine.Pool.Append` | internal/agentpedia/l2.go:76-92 | appending a batch leaves the view a replay of the whole pool gives, under the same exact condition |

## Left out

- HTTP handlers, RPC and socket clients, storage, caches, configuration and the page fetching of the pin sync: they are input and output.
- JSON decoding: event bodies are datatypes with the fields the engines read, and an absent or mistyped field is what the source's accessor gives for it.
- SHA-256, base 58 and regular expressions: a hash is an uninterpreted function, a base-58 address stands for its version byte and payload, normalized texts are given.
- Numbers: 64-bit overflow of heights, times and counters is not modelled except in the unmasked accumulator; weights, tokens, reputations and parameters are real numbers where the source has floating point.
- Text is a sequence of Unicode characters; malformed UTF-8 is not modelled. Lower-casing is exact for ASCII and for the characters whose lower case is ASCII, and an uninterpreted function elsewhere.
- Composite string keys such as node and claim joined by a space are tuples, so a collision of joined texts cannot occur.
- The challenge block of the v1.2.1 replay is one flag that withholds settlement.
- The unpaid list, the manifest and weight-table bytes, the final ordering of shares and the rendered views of the v1.2.1 replay: they copy what is modelled.
- Claim and release event lists, per-ballot dispositions and other bookkeeping for the renderer.
- Cycles of the walk are values found under node and claim, not shared pointers; no two parts of the source hold one under different keys.
- Node order is any fixed listing of the nodes, not the one by length and then text; `Settlement.ListingDoesNotMatter` is why the shares do not depend on which.
- Walk.ActiveKey: reads a node's current cycle off the insertion order by a function, where the source fills a map.
- AmendFold.ApplyOp: a removal counts as not ending when some order of visiting children never ends, even if another order would first meet a frozen node off the cycle, because which comes first depends on map order; FoldAmends is specified for folds that end.
- Parameters and dependencies of tree nodes, which no check reads.
- CanonicalJson.CanonIsInjective: leaves floating-point numbers out, which print by a shortest-digits algorithm, and number literals passed through unparsed.
- CanonicalJson.Write: writes no floating-point numbers and no unparsed number literals, for the same reason.
- Replay.ConclusionDependsOnSet: is about the specification; ReplayEngine.ReplayEvents carries it to the composed loops, except for scoping, sorting and the choice of acting ballots, which are functions there.
- RateLimiter.Limiter.Allow: takes the clock's reading as a parameter, without the lock and the nil limiter, which allows everything.
- The choice of the newest task pin when no root is named: the root pin is always given.
- Normalizing titles and bodies and finding version markers in the grouping of matches: each match carries its normalized texts and its marker.
- Conversions of base-58 addresses and the choice among address formats, beyond the segwit ones.
- PinsFeed.HandlePins: takes the decoded token and numeric parameters; base 64, the parsing of numbers and the path aliases are not modelled, nor cursors whose numbers exceed 64 bits when converted back.
- Agentpedia.ArbiterDraw: treats a negative number of arbiters as none, where the source crashes.
- The Agentpedia view's plates, per-target review lists and editor rows: they copy the state.
- AgentpediaEngine.Replay: promises the one final state for calm runs of distinct pins, none of which is another with the suffix of a revision the engine derives from it (`::eq` or `::rev`; chain pins end in an output's index and never are); in any other run of such pins some step's result depends on map order.
- Bot pages, bot search, group chat, federation and the socket manager: field mapping and library calls.
