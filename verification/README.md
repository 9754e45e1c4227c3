# Verified model of the Eden contract and its libraries

This project models, in Dafny, the parts of the Eden repository whose correctness is hardest to see by
reading, and proves what they promise.

**Elections.** The contract divides up to 10000 members into groups that vote round by round until one
group is left. `ElectionConfig.dfy` plans the rounds (`make_election_config`) and proves that no legal
chain of rounds, of any length, has a smaller largest group. `GroupIndex.dfy` relates member indices and
groups, `Shuffle.dfy` is the incremental shuffle, `GroupVote.dfy` the count of one group.
`ElectionModel.dfy` describes the election as single steps over sorted lists of voters,
`ElectionInvariant.dfy` proves what every step keeps, `ElectionTrace.dfy` has the order of the event log as
automata, that of the code and the documented one, and `ElectionRun.dfy` puts steps, votes, joining and
leaving members together into whole runs; `ElectionOrder.dfy` says when a run follows the documented order,
and `ElectionProgress.dfy` how many steps each part of an election takes. `ElectionGroups.dfy` and
`ElectionVoters.dfy` say, over the events and tables of every run, who votes, with whom in a group, for whom, and what
a group's result does to its members. `VoteIndex.dfy` and `ElectionEngine.dfy` are the contract's own form: a class over the tables
of members and votes whose loops can stop after any number of steps; each method is proved to do exactly
the steps it used of the one continuous run.

**Money.** Every month a part of a pool is reserved, divided by rank and paid out by a resumable sweep over
the members, while members resign, join and spend. `RankBudget.dfy` is the division with its rounding,
`MonthlyPass.dfy` says in numbers what a month reserves and records,
`Members.dfy` the rank statistics and the exchange of summation between members and ranks, `Ledger.dfy` the
table of distributions and its setup loop, `Payout.dfy` the sweep, `Refunds.dfy` resignation and renaming.
`Treasury.dfy` is a class with all the tables and actions; its validity is the invariant that all
accounts add up to the token balance and every running distribution is exactly covered. `Community.dfy` puts
elections and money together into one contract and one run. `MicroChain.dfy`
is the double-entry ledger of the history service, `Sessions.dfy` the replay window of session keys.

**Serialization.** `AbiTypes.dfy`, `AbiEncode.dfy`, `AbiTokens.dfy` and `AbiShow.dfy` define recursively
what encoding and decoding a JSON value by an ABI type means. `AbiStreaming.dfy`, `AbiTree.dfy` and
`AbiPrinter.dfy` are the three explicit-stack machines as classes; each refines its recursive definition,
stack limit and termination included. `AbiPieces.dfy` is the splicing of deferred array sizes, and
`AbiRoundTrip.dfy` has the main results: when the encoders agree, and that decoding undoes encoding;
`AbiExtensions.dfy` says for which types they always agree, `AbiWire.dfy` what the bytes of each kind of value are, and
`AbiText.dfy` that printed text is strict JSON.

**Smaller machines.** `Dwarf.dfy` is the line-number parser of DWARF Version 4 (section 6.2) with its
coalescing of rows, `DwarfProgram.dfy` says what each instruction does, byte by byte, `DwarfLookup.dfy` the look-up in the sorted table, `Numerals.dfy` base 58 and fixed-width decimal text over the digit theory of
`Radix.dfy`. `Basics.dfy` has common datatypes, `Powers.dfy` and `Totals.dfy` are arithmetic and sums over tables.

Tables are maps, their secondary indexes are sorted views. A failed check rolls the whole action back:
such methods return `ok` as false and leave the state as it was. Random draws, hashes, recovered keys
and the clock are parameters. Actions on a table in place are methods of classes, specified by functions
of the old state, and what is promised is proved about those functions.

Where the code and its documentation differ, the model follows the code; a property that fails has its exact condition:

- An election with a single round emits no final seeding events, although the documented order of events
  (contracts/eden/include/events.hpp:15-33) lists them for every final round. The trace of a run follows the
  documented order if and only if no election with fewer than 12 participants has ended
  (`ElectionOrder.DocumentedOrder`, with a failing run in `ElectionOrder.OneMemberBreaksOrder`).
- The logarithm quotients of the planner can come out one too low at exact powers in floating point. Planner
  and runs use the reading of the machine, an unspecified function of which only this is known, so everything
  holds for either reading.
- With two members at the top rank, the payments of a distribution exceed its amount
  (`RankBudget.TwoChiefsOverspend`, the condition is `RankBudget.ExactIff`); elections always end with exactly
  one.
- A withdrawal is sent to a delegate account and its notification takes the beneficiary from the memo.
- The two encoders differ on an object that stops at an extension although a required field is behind it
  (`AbiEncode.ExtensionsMustBeLast`), and only there (`AbiRoundTrip.EncodersAgree`, `AbiExtensions.AgreeIff`).
- An empty range with the same first address as another can hide it after sorting
  (`DwarfLookup.HidingProgram`); look-ups are exact if and only if there is none
  (`DwarfLookup.AlwaysExactIff`, `DwarfLookup.ProgramLookup`).
- The table of base 58 digits also has the NUL that ends the alphabet, at place 58, so texts with a NUL are read; a text
  that is read comes back exactly if it contains none (`Numerals.Base58TextRoundTrip`).
- A minus sign before zero is refused by the signed parser (`Numerals.NegativeZero`).
- The limit on skipped sequence numbers wraps around at 32 bits and then can lock a session
  (`Sessions.CountingLocks`, the condition is `Sessions.LockedWhen`); no number is ever accepted twice.

## Model

| member | source | states |
|---|---|---|
| `ElectionConfig.IntPow` | contracts/eden/src/elections.cpp:67-75 | The loop computes the power modulo 2^32, as 32-bit multiplication does. |
| `ElectionConfig.IntRoot` | contracts/eden/src/elections.cpp:77-96 | The binary search below 12 returns the unique integer root, the largest z with z^y at most x, among the group sizes an election can have. |
| `ElectionConfig.CountRounds` | contracts/eden/src/elections.cpp:98-106 | The number of rounds is the one round count r with 3*4^(r-1) <= N < 3*4^r, or 1 below 12. |
| `ElectionConfig.RoundsUnique` | contracts/eden/src/elections.cpp:98-106 | That bracket determines the number of rounds. |
| `ElectionConfig.LogFloorExists` | contracts/eden/src/elections.cpp:140-143 | The integer meaning of the logarithm quotient (the largest L with N >= G^(R-L)*(G+1)^L) exists. |
| `ElectionConfig.LargeRounds` | contracts/eden/src/elections.cpp:116-119 | The number of enlarged rounds is the machine's reading of the logarithm quotient, about which only this is known: it is the exact integer part, or falls one short at an exact power. |
| `ElectionConfig.FinalGroupOfThree` | contracts/eden/src/elections.cpp:111-128 | With a basic size of 3 the sizes are fours with at most one five before the final three; more enlarged rounds are refused. |
| `ElectionConfig.SixesAndRest` | contracts/eden/src/elections.cpp:129-137 | With a basic size of 6 or more: a five, sixes, and the smallest final group that still holds everybody. |
| `ElectionConfig.TwoSizes` | contracts/eden/src/elections.cpp:138-148 | Otherwise basic sizes first and the enlarged rounds last, as many as computed. |
| `ElectionConfig.GetGroupSizes` | contracts/eden/src/elections.cpp:108-149 | The group sizes are those of the plan for every participant count that has rounds; the internal check never fails for 3 or more. |
| `ElectionConfig.FillRounds` | contracts/eden/src/elections.cpp:156-166 | Filling the rounds from the last to the first with 16-bit products gives the chain of participants and groups of the sizes. |
| `ElectionConfig.MakeElectionConfig` | contracts/eden/src/elections.cpp:151-167 | For every count it succeeds with the plan that election runs use, the empty plan for 0; for 3 and more it meets all the requirements of the header. |
| `ElectionConfig.NoWrap` | contracts/eden/src/elections.cpp:157-165 | None of the 32-bit powers of a plan for up to 65535 participants wraps around. |
| `ElectionConfig.SuffixFits` | contracts/eden/src/elections.cpp:161-163 | None of the 16-bit products of a plan wraps around. |
| `ElectionConfig.PlanIsLegal` | contracts/eden/include/elections.hpp:248-256 | The first round has all participants, the last one group, each round's groups are the next round's participants, non-final groups have 4 to 6 members, the final one 3 to 11. |
| `ElectionConfig.PlanIsOptimal` | contracts/eden/include/elections.hpp:251-251 | No legal chain of rounds, of whatever length, keeps its largest group smaller than the plan does. |
| `ElectionConfig.PlanMeetsRequirements` | contracts/eden/include/elections.hpp:248-257 | All stated requirements and postconditions together, for every reading of the logarithm quotient. |
| `ElectionConfig.TinyElection` | contracts/eden/src/elections.cpp:108-149 | Elections of one or two participants are a single round with a single group of everybody. |
| `GroupIndex.HeaderWidths` | contracts/eden/include/elections.hpp:51-61 | None of the 8-, 16- and 32-bit results of the header arithmetic wraps around for a round whose groups hold at most 255 members. |
| `GroupIndex.HeaderInvariants` | contracts/eden/include/elections.hpp:64-67 | The invariants listed in the header hold: short and large groups add up to the participants, and fewer groups are short than there are groups. |
| `GroupIndex.Ranges` | contracts/eden/src/elections.cpp:186-199 | The groups are consecutive ranges covering 0 to participants-1 exactly, the larger ones first, with sizes that differ by at most one. |
| `GroupIndex.FirstMonotone` | contracts/eden/src/elections.cpp:186-199 | First indices never decrease with the group. |
| `GroupIndex.IndexInItsGroup` | contracts/eden/src/elections.cpp:171-184 | Every index lies in the range of the group it is mapped to. |
| `GroupIndex.GroupOfIndex` | contracts/eden/src/elections.cpp:171-199 | The two mappings describe the same split: an index maps to a group exactly when it lies between that group's first index and the next one's. |
| `GroupIndex.WalkFollowsGroups` | contracts/eden/src/elections.cpp:588-598 | A loop that starts at a group's first index and advances by the size it computes there arrives at the next group's first index. |
| `GroupIndex.GetGroupMembers` | contracts/eden/src/elections.cpp:1104-1119 | Listing a group by walking the index gives exactly the voters of its range. |
| `Shuffle.ShufflePermutes` | contracts/eden/src/elections.cpp:234-256 | No voter is lost or duplicated by the incremental shuffle. |
| `Shuffle.ShuffleReachesEveryOrder` | contracts/eden/src/elections.cpp:234-256 | Every order of the voters is the result of some sequence of draws with the k-th draw between 0 and k. |
| `Shuffle.ShuffleIsInjective` | contracts/eden/src/elections.cpp:234-256 | Different draws lead to different orders; with the previous row, draws and orders correspond one to one, so uniform draws give a uniform shuffle. |
| `Shuffle.AddVoter` | contracts/eden/src/elections.cpp:237-256 | The table keeps exactly one row for each index 0 to n of the round, in the order of the shuffle; rows of other rounds and votes already cast stay. |
| `Shuffle.IndexedDistinct` | contracts/eden/src/elections.cpp:234-236 | Every voter has an index of its own. |
| `GroupVote.WinnerIsUnique` | contracts/eden/src/elections.cpp:695-701 | At most one candidate voted for itself and has more than two thirds of the votes cast. |
| `GroupVote.WinnerIsInGroup` | contracts/eden/src/elections.cpp:679-688 | A winner is a member of the group. |
| `GroupVote.CounterDecides` | contracts/eden/src/elections.cpp:679-698 | With the group size added to the counter of a candidate who voted for itself, the threshold test decides exactly whether that candidate wins. |
| `GroupVote.WinnerHasLargestCounter` | contracts/eden/src/elections.cpp:695-698 | No other candidate's counter reaches a winner's, so looking at the largest counter is enough. |
| `GroupVote.Tally` | contracts/eden/src/elections.cpp:672-694 | The 8-bit counters do not wrap for groups of up to 127 members and hold votes plus bonus; voters and absentees are listed in group order. |
| `GroupVote.PickWinner` | contracts/eden/src/elections.cpp:695-701 | The result names a candidate exactly when that candidate wins. |
| `GroupVote.CountVotes` | contracts/eden/src/elections.cpp:660-712 | The whole count of a group: the winner, who voted and who did not. |
| `ElectionTrace.DocumentedUnlessSmall` | contracts/eden/include/events.hpp:15-33 | A trace in the order of the code breaks the documented order exactly when an election announced for fewer than 12 participants has ended, or is just closing its single round. |
| `ElectionInvariant.WinnersNeedFewerRounds` | contracts/eden/src/elections.cpp:98-106 | The winners of a round, at most one per group, need fewer rounds than its participants did. |
| `ElectionInvariant.NextBoundary` | contracts/eden/src/elections.cpp:880-909 | From one group boundary the loops step to the next one, never beyond the participants, with groups of at most 11. |
| `ElectionInvariant.BoundaryAtEnd` | contracts/eden/src/elections.cpp:880-909 | When all participants are consumed, exactly all groups of the round were. |
| `ElectionInvariant.ProcessMemberKeeps` | contracts/eden/src/elections.cpp:490-514 | Collecting the next member keeps everything the election relies on. |
| `ElectionInvariant.ReportFirstKeeps` | contracts/eden/src/elections.cpp:568-598 | Reporting a group of the first round keeps it and makes progress. |
| `ElectionInvariant.CountGroupKeeps` | contracts/eden/src/elections.cpp:880-909 | Counting a group keeps the exact rank statistics, representatives above everybody they represent, and the event grammar. |
| `ElectionInvariant.EndVoteKeeps` | contracts/eden/src/elections.cpp:838-853 | Closing the voting period keeps it. |
| `ElectionInvariant.ReportNextKeeps` | contracts/eden/src/elections.cpp:911-941 | Reporting a group of the next round keeps it; the new round fits in the announced number. |
| `ElectionInvariant.BeginNextKeeps` | contracts/eden/src/elections.cpp:942-969 | Opening the next round, or the final seeding when one group is left, keeps it. |
| `ElectionInvariant.FinishKeeps` | contracts/eden/src/elections.cpp:764-824 | Recording the board and the lead representative ends with exact statistics, one lead at the top, representatives strictly above, and the last events in order under the real round number. |
| `ElectionInvariant.FinalKeeps` | contracts/eden/src/elections.cpp:714-726 | The final round never has 12 members or more, so the check on the size of the board never fails. |
| `ElectionRun.StepsSplit` | contracts/eden/src/elections.cpp:538-631 | Splitting a budget of steps over any number of calls gives the same members, ranks, votes and events as one call. |
| `ElectionRun.BudgetIsUnique` | contracts/eden/src/elections.cpp:538-631 | What a call leaves of its budget is determined: every step it used had something to do, and steps are left only when nothing more can be done. |
| `ElectionProgress.PreparationCompletes` | contracts/eden/src/elections.cpp:538-631 | Preparing an election takes one step for each member, one for each group and one more; then the first round is open, or the election is over because it has one group. More steps change nothing; without voters it stops after the members. |
| `ElectionProgress.RoundCompletes` | contracts/eden/src/elections.cpp:872-971 | Finishing a round takes one step for each of its groups, one for each group of the winners and one more; then the next or the final round is open. More steps change nothing; without any winner it stops after the groups. |
| `ElectionRun.StepKeeps` | contracts/eden/src/elections.cpp:827-971 | Every step of preparing an election or finishing a round keeps the invariant. |
| `ElectionRun.CastVoteKeeps` | contracts/eden/src/elections.cpp:975-998 | Votes change neither who votes nor anything else the election relies on. |
| `ElectionRun.PutMemberKeeps` | contracts/eden/src/members.cpp:168-187 | Members who join or become active during an election take no part in it. |
| `ElectionRun.DropPendingKeeps` | contracts/eden/src/members.cpp:117-129 | Removing a pending member leaves the statistics and the representatives intact. |
| `ElectionRun.ResignKeeps` | contracts/eden/src/members.cpp:84-108 | A resignation outside elections finds its rank counted and leaves exact statistics. |
| `ElectionRun.RenameAccountKeeps` | contracts/eden/src/actions/induct.cpp:240-259 | Renaming a member between elections keeps all that elections rely on; representatives, board and lead follow. |
| `ElectionRun.EveryRun` | contracts/eden/src/elections.cpp:568-612 | After any sequence of moves from an empty contract the event trace follows the order of the code and the statistics count exactly the settled members. |
| `ElectionOrder.DocumentedOrder` | contracts/eden/include/events.hpp:15-33 | After any sequence of moves the event trace follows the documented order if and only if no election with fewer than 12 participants has ended. |
| `ElectionOrder.OneMemberBreaksOrder` | contracts/eden/src/elections.cpp:615-622 | A run with one member that breaks the documented order: its only round closes without a final seeding. |
| `ElectionOrder.SingleRoundIff` | contracts/eden/src/elections.cpp:98-106 | A plan has a single round exactly for fewer than 12 participants. |
| `ElectionOrder.EveryRunAnnounces` | contracts/eden/src/elections.cpp:563-576 | In every run the announced number of rounds is the least r, at least 1, with 3 * 4^r above the announced participants. |
| `ElectionGroups.ListedConcat` | contracts/eden/src/elections.cpp:516-536 | Groups that run from each first index to the next, put together, are the voters of the round in the order of their index. |
| `ElectionGroups.ReportFirstNames` | contracts/eden/src/elections.cpp:588-598 | Reporting a group of the first round names the voters from the first index of the group to that of the next, after the groups named before. |
| `ElectionGroups.ReportNextNames` | contracts/eden/src/elections.cpp:929-941 | The same for every later round, whose groups start anew. |
| `ElectionGroups.CountGroupNames` | contracts/eden/src/elections.cpp:880-909 | The group that is counted is the next of those created, and the reported winner is the candidate that voted for itself and has more than two thirds of the votes cast, or else the complement of the first name. |
| `ElectionGroups.EveryRunNamesGroups` | contracts/eden/include/events.hpp:15-33 | Every run: the groups created since the last round was created are those of its first voters by index, from each first index to the next; every group ever reported is the one created at its place of the round, with the winner that its ballots decide, or one of its members where no votes are cast. |
| `ElectionVoters.EveryRunCollects` | contracts/eden/src/elections.cpp:486-514 | Every run: the voters of an election are exactly the active members looked at whose participation is that of its schedule; the other active members have lost rank and representative. |
| `ElectionVoters.VotesInGroup` | contracts/eden/src/elections.cpp:975-998 | A voter can vote for exactly the members of its own group, as the trace lists the groups. |
| `ElectionVoters.VoteIsRecorded` | contracts/eden/src/elections.cpp:997 | An accepted vote is recorded for its voter and changes no other ballot. |
| `ElectionVoters.GroupResult` | contracts/eden/src/elections.cpp:880-909 | Counting takes the next group of the trace: all its members but the winner settle at the rank of the round under the winner, nobody else changes, and the winner alone joins the next round, unless the group failed. |
| `ElectionVoters.ElectionResult` | contracts/eden/src/elections.cpp:764-784 | At the end the winner is lead representative one rank above the number of finished rounds, the rest of the last group has that number as rank, and the group is the board; nobody else changes. |
| `ElectionRun.RoundsWithinAnnouncement` | contracts/eden/src/elections.cpp:570-575 | While voting is open the round is below the announced number, it is the number the trace says, and it equals the length of the statistics; the final round has at most 11 members. |
| `ElectionRun.EveryRunWithinAnnouncement` | contracts/eden/src/elections.cpp:570-575 | The same for every run from an empty contract. |
| `ElectionRun.EveryElectionEndsElected` | contracts/eden/src/elections.cpp:764-784 | However an election ends, rank counts equal the represented members at each rank, one lead representative is at the top, and following representatives strictly increases the rank up to the lead or a failed-group marker. |
| `ElectionRun.EveryRunEndsElected` | contracts/eden/src/elections.cpp:764-784 | The same for every election of every run from an empty contract. |
| `ElectionRun.OutcomeFitsDistribution` | contracts/eden/src/distributions.cpp:23-36 | An election's outcome has what the distribution of the budget needs: at least two ranks and exactly one member at the top. |
| `VoteIndex.LowerBound` | contracts/eden/src/elections.cpp:872-874 | The search in the secondary index finds the first row at or above a key. |
| `VoteIndex.LowerBoundIs` | contracts/eden/include/elections.hpp:25-38 | Within a round, the row found for an index is the voter at that place. |
| `VoteIndex.EraseFirst` | contracts/eden/src/elections.cpp:693-693 | Erasing the first row of a round shifts the view by one and changes no vote. |
| `VoteIndex.VoteInRow` | contracts/eden/src/elections.cpp:997-997 | A vote changes one ballot of the view. |
| `ElectionEngine.Engine.SetRank` | contracts/eden/src/members.cpp:189-207 | Sets the rank, grows the statistics as needed and counts the member unless it has no representative. |
| `ElectionEngine.Engine.ProcessOne` | contracts/eden/src/elections.cpp:497-512 | One iteration over the member table does one step of the election on the tables. |
| `ElectionEngine.Engine.RandomizeVoters` | contracts/eden/src/elections.cpp:490-514 | Stops at the end of the table or of the budget after exactly the steps it used. |
| `ElectionEngine.Engine.ReportFirstGroups` | contracts/eden/src/elections.cpp:568-598 | Reports the groups of the first round after exactly the steps it used, with the opening events once and no group repeated when resumed. |
| `ElectionEngine.Engine.ExtractBoard` | contracts/eden/src/elections.cpp:714-726 | Empties the table of votes in index order; accepted exactly for 1 to 11 members. |
| `ElectionEngine.Engine.CloseElection` | contracts/eden/src/elections.cpp:764-824 | Sets the ranks of the board, records lead and board and emits the closing events. |
| `ElectionEngine.Engine.BeginFirstRound` | contracts/eden/src/elections.cpp:600-628 | Opens the first round, or ends an election with a single group at once. |
| `ElectionEngine.Engine.StartElection` | contracts/eden/src/elections.cpp:460-488 | Clears the statistics and starts collecting voters. |
| `ElectionEngine.Engine.PrepareElection` | contracts/eden/src/elections.cpp:538-634 | Does exactly the steps that the budget and the monthly distribution leave and that there is something to do for; it is refused, and changes nothing, exactly when the budget reaches the end of the members without a voter. |
| `ElectionEngine.Engine.TakeGroup` | contracts/eden/src/elections.cpp:676-694 | Reads and erases exactly the rows of the next group. |
| `ElectionEngine.Engine.FinishGroup` | contracts/eden/src/elections.cpp:880-909 | Counts the next group on the table: its winner joins the next round, everybody else gets this round's rank. |
| `ElectionEngine.Engine.CountGroups` | contracts/eden/src/elections.cpp:880-909 | Counts groups until the budget or the round's rows are used up. |
| `ElectionEngine.Engine.ReportNextGroups` | contracts/eden/src/elections.cpp:911-941 | Reports the groups of the next round after exactly the steps it used. |
| `ElectionEngine.Engine.BeginNextRound` | contracts/eden/src/elections.cpp:942-969 | Opens the next round or the final seeding. |
| `ElectionEngine.Engine.ChooseLead` | contracts/eden/src/elections.cpp:855-866 | The drawn member of the final group becomes the lead representative and the election ends as it should. |
| `ElectionEngine.Engine.FinishRound` | contracts/eden/src/elections.cpp:827-972 | Any call does exactly as many steps of the one continuous run as its budget allows, and leaves steps only when the round is finished or nobody won; nothing happens before a period is over. |
| `ElectionEngine.Engine.CastBallot` | contracts/eden/src/elections.cpp:975-998 | A vote is accepted exactly when the round is open and both members are in the same group of it, and changes only that vote. |
| `RankBudget.SpentTotal` | contracts/eden/src/distributions.cpp:33-59 | The running total is the sum over ranks of the amount per member times the members at or above that rank. |
| `RankBudget.NothingIsLost` | contracts/eden/src/distributions.cpp:61-69 | With one or no member at the top, what the members receive together equals the returned amount, which never exceeds the input. |
| `RankBudget.ExactIff` | contracts/eden/src/distributions.cpp:61-69 | The payments to all members equal the returned amount exactly when the top rank has at most one member, or the amount divides evenly by the ranks and every rank's portion by its members. |
| `RankBudget.UsesAllIff` | contracts/eden/src/distributions.cpp:33-59 | With a filled top rank the divisions leave nothing exactly when the amount divides evenly by the ranks and every rank's portion by its members. |
| `RankBudget.TwoChiefsOverspend` | contracts/eden/src/distributions.cpp:45-49 | A concrete case with two members at the top for which the payments exceed the amount. |
| `RankBudget.PerRank` | contracts/eden/src/distributions.cpp:33-60 | The loop from the top rank down computes the shares, with a double share for the rank below the top and none for the top. |
| `RankBudget.MakeDistribution` | contracts/eden/src/distributions.cpp:23-70 | Fewer than two ranks are an error; otherwise the distribution and the adjusted amount. |
| `RankBudget.AmountPerRank` | contracts/eden/src/distributions.cpp:32-63 | The amount of a rank below the top, d, satisfies d * n <= portion < (d + 1) * n for the n members at or above it, where the portion is the budget divided by the number of ranks, doubled just below the top; also with an empty top rank. |
| `RankBudget.AmountOfChief` | contracts/eden/src/distributions.cpp:32-69 | The top amount is exactly what all payments below leave of the budget; a rank has an amount exactly if members reach it. |
| `Members.CountsSettle` | contracts/eden/src/members.cpp:189-207 | Setting a rank keeps the statistics exact for the members that are settled. |
| `Members.RankStatsRemove` | contracts/eden/src/members.cpp:84-108 | Erasing an active member keeps them exact. |
| `Members.RankStatsAdd` | contracts/eden/src/members.cpp:168-187 | A new unranked member leaves them exact. |
| `Members.OwedStep` | contracts/eden/src/distributions.cpp:264-300 | Processing the next member in table order reduces what is owed by that member's payments. |
| `Members.OwedIsSpent` | contracts/eden/src/distributions.cpp:33-59 | Exchange of summation: what all members are owed together equals the sum over ranks of amount times members at or above. |
| `Members.RankTotal` | contracts/eden/src/distributions.cpp:34-37 | The 16-bit count of members never wraps for the largest allowed membership. |
| `Members.NewDistributionIsCovered` | contracts/eden/src/distributions.cpp:200-238 | The fund reserved for a new distribution is exactly what all members are owed. |
| `Ledger.ReserveAtMostBalance` | contracts/eden/src/distributions.cpp:182-189 | No pool is asked for more than it holds, prorated or not. |
| `Ledger.ReserveMovesMoney` | contracts/eden/src/distributions.cpp:176-199 | Reserving moves money from the pools into the total without loss. |
| `MonthlyPass.AddBalanceAt` | contracts/eden/src/accounts.cpp:89-107 | Adding to an account raises its balance by the amount and no other. |
| `MonthlyPass.SubBalance` | contracts/eden/src/accounts.cpp:109-125 | Taking from an account lowers its balance by the amount, a missing row counting as 0, and no other. |
| `MonthlyPass.ReserveTakes` | contracts/eden/src/distributions.cpp:176-199 | Each pool with balance b and percentage p loses the x with 100 x <= p b < 100 (x + 1), or 259200000 x <= s p b < 259200000 (x + 1) when an election comes after s seconds; nobody else loses anything. |
| `MonthlyPass.PassReserves` | contracts/eden/src/distributions.cpp:109-255 | One pass over the tables: these amounts leave the pools, their sum is recorded for the time that was due, what the division leaves goes back to the master pool, and the next time is 30 days later or that of an election before. |
| `Ledger.EnterKeepsReady` | contracts/eden/src/distributions.cpp:200-252 | Entering a distribution, or closing one that is empty, keeps the tables in shape and covered. |
| `Ledger.PassKeepsReady` | contracts/eden/src/distributions.cpp:133-254 | One pass of the setup loop keeps the shape of the table (running, then waiting for an election, then exactly one next distribution), keeps every running distribution covered, moves no money in or out and schedules a strictly later time. |
| `Ledger.PassOnlyDue` | contracts/eden/src/distributions.cpp:136-146 | Only distributions that are due are entered. |
| `Payout.PayMember` | contracts/eden/src/distributions.cpp:266-300 | Paying the next member moves exactly what it is owed from the fund to its own rows and keeps every fund covered. |
| `Payout.SweepKeepsRunning` | contracts/eden/src/distributions.cpp:257-310 | After any number of steps the fund still equals what the remaining members are owed, so the overdraft checks never fire. |
| `Payout.SweepSplit` | contracts/eden/src/distributions.cpp:257-310 | Stopping the sweep and resuming it gives the same rows as one run. |
| `Payout.NothingLeft` | contracts/eden/src/distributions.cpp:301-308 | When the last member is paid the fund is exactly zero. |
| `Payout.SettleEarly` | contracts/eden/src/distributions.cpp:301-308 | Erasing the fund row when it reaches zero in the middle of a sweep changes nothing later. |
| `Payout.FinishKeeps` | contracts/eden/src/distributions.cpp:329-334 | Removing a finished distribution leaves nothing behind. |
| `Payout.DistributeKeeps` | contracts/eden/src/distributions.cpp:312-358 | Paying out over several distributions with any budget keeps all tables sound. |
| `Refunds.RefundKeeps` | contracts/eden/src/distributions.cpp:427-472 | Taking a resigning member out of the running distributions returns exactly what it was still owed, so the balance checks never fire. |
| `Refunds.WithoutRowsKeeps` | contracts/eden/src/distributions.cpp:408-424 | Returning a member's rows keeps every distribution covered. |
| `Refunds.ResignedKeeps` | contracts/eden/src/distributions.cpp:404-473 | A whole resignation moves money only to the master pool and keeps the tables sound for the remaining members. |
| `Refunds.PutMemberKeeps` | contracts/eden/src/members.cpp:168-187 | New members are owed nothing by running distributions. |
| `Refunds.SpendKeeps` | contracts/eden/src/distributions.cpp:360-376 | Spending from a member's row touches no fund. |
| `Refunds.StartedKeeps` | contracts/eden/src/distributions.cpp:72-100 | Distributions that waited for an election are covered for the new ranks, to the last unit. |
| `Refunds.RenamedKeeps` | contracts/eden/src/distributions.cpp:475-497 | Moving a member's rows to a new name keeps the tables sound. |
| `Refunds.RenamedRankStats` | contracts/eden/src/members.cpp:131-158 | Renaming a member and the references to it leaves the statistics exact. |
| `Treasury.Contract.constructor` | contracts/eden/src/distributions.cpp:10-20 | A new contract without money is sound. |
| `Treasury.Contract.ReserveFromPools` | contracts/eden/src/distributions.cpp:176-199 | The loop over the pools reserves as specified. |
| `Treasury.Contract.EnterTotal` | contracts/eden/src/distributions.cpp:200-252 | Enters the reserved total as specified. |
| `Treasury.Contract.SetupDistribution` | contracts/eden/src/distributions.cpp:109-255 | The setup loop ends with the distribution table caught up to the present. |
| `Treasury.Contract.PayMemberRanks` | contracts/eden/src/distributions.cpp:268-298 | Pays one member's ranks one by one; no payment overdraws the fund. |
| `Treasury.Contract.SweepFirst` | contracts/eden/src/distributions.cpp:257-310 | The sweep over the member table as specified, including the erased fund row. |
| `Treasury.Contract.Distribute` | contracts/eden/src/distributions.cpp:312-358 | Setup and payout with a budget of steps; all balances stay sound. |
| `Treasury.Contract.AddToPool` | contracts/eden/src/accounts.cpp:135-140 | Money is added to the pool only after due distributions were set up. |
| `Treasury.Contract.NotifyDeposit` | contracts/eden/src/actions/accounts.cpp:26-48 | Accepted exactly when positive and, for a new user account, at least the minimum; credits the user or, for donations and system accounts, the master pool. |
| `Treasury.Contract.Withdraw` | contracts/eden/src/actions/accounts.cpp:50-80 | Accepted exactly when covered; the amount passes through the outgoing account, which is empty again afterwards. |
| `Treasury.Contract.Donate` | contracts/eden/src/actions/accounts.cpp:82-94 | Moves a positive covered amount from the user to the master pool. |
| `Treasury.Contract.UserTransfer` | contracts/eden/src/actions/accounts.cpp:120-134 | Moves a positive covered amount between active members. |
| `Treasury.Contract.FundTransfer` | contracts/eden/src/actions/accounts.cpp:101-118 | Spends from one distribution account in favour of an active member. |
| `Treasury.Contract.SetActive` | contracts/eden/src/members.cpp:168-187 | Refused at the largest membership; otherwise the member is active and unranked. |
| `Treasury.Contract.RemoveIfPending` | contracts/eden/src/members.cpp:117-129 | Removes only pending members. |
| `Treasury.Contract.Resign` | contracts/eden/src/actions/induct.cpp:226-238 | Refused for others than active members, from the beginning of the seeding to the end of the election, and when the lead representative's leaving would overflow the schedule version; otherwise rows and unpaid shares go to the master pool, the member leaves, and the lead representative's leaving can move the election closer. |
| `Treasury.Contract.Rename` | contracts/eden/src/actions/induct.cpp:240-259 | Refused while something is being paid, from the beginning of the seeding to the end of the election, or when the new account exists; otherwise rows, member, lead representative and references follow. |
| `Treasury.Contract.Seed` | contracts/eden/src/elections.cpp:424-458 | The seeding window opens in the last 24 hours before the election. |
| `Treasury.Contract.PrepareElection` | contracts/eden/src/elections.cpp:538-556 | Starting a seeded election that is due sets up what is due first; then exactly the payments of the budget are made, and ranks can change only when none is left. |
| `Treasury.Contract.FinishElection` | contracts/eden/src/elections.cpp:764-790 | The outcome of an election starts the waiting distributions under the new ranks. |
| `Treasury.Contract.ProcessElectionDistribution` | contracts/eden/src/distributions.cpp:72-100 | Every waiting distribution is started with its full amount; the check for a missing unit never fires. |
| `Treasury.Contract.SetNextElectionTime` | contracts/eden/src/elections.cpp:323-342 | The next election can only be moved between times at least a day ahead, before its seeding, and while the 8-bit schedule version does not overflow. |
| `Treasury.Contract.TriggerElection` | contracts/eden/src/elections.cpp:405-420 | Can only move an election that is not being seeded closer, with a new schedule version; fails exactly when that version overflows. |
| `Treasury.Perform` | contracts/eden/include/accounts.hpp:42-48 | Every single action keeps this. |
| `Treasury.Run` | contracts/eden/include/accounts.hpp:42-48 | After any sequence of actions: each running distribution's fund is the sum of what members not yet processed are owed, a finished one left nothing behind, and all accounts add up to the token balance with nothing outgoing. |
| `Community.OutcomeFits` | contracts/eden/src/elections.cpp:764-790 | Whatever an election leaves behind is what the money relies on: the same roster, exact statistics and one lead representative. |
| `Community.StepsFollow` | contracts/eden/src/elections.cpp:538-971 | Steps of a running election keep the roster of members, and the lead representative until the election ends. |
| `Community.Community.constructor` | contracts/eden/src/actions/elect.cpp:10-14 | A contract without members, its first election scheduled. |
| `Community.Community.Activate` | contracts/eden/src/actions/induct.cpp:137-152 | Members become active in both parts at once, up to the largest membership, also while an election runs. |
| `Community.Community.Resign` | contracts/eden/src/actions/induct.cpp:226-238 | A member leaves both parts, only between elections. |
| `Community.Community.Rename` | contracts/eden/src/actions/induct.cpp:240-259 | A member is renamed in both parts, only between elections. |
| `Community.Community.Opt` | contracts/eden/src/members.cpp:230-262 | Participation can change until 24 hours before the election, and only to the other state. |
| `Community.Community.Seed` | contracts/eden/src/elections.cpp:424-458 | Accepted in the 24 hours before an election and before its final round; the first seed opens the election. |
| `Community.Community.PrepareElection` | contracts/eden/src/elections.cpp:538-634 | Distributions are paid before anybody is ranked; a refused call leaves money and election as they were; an election that ends at once passes its outcome to the money. |
| `Community.Community.FinishRound` | contracts/eden/src/elections.cpp:827-972 | Finishes the round as far as the budget allows, and passes the outcome of an election that ends to the money. |
| `Community.Community.Conclude` | contracts/eden/src/elections.cpp:764-790 | The money takes over members, ranks and lead representative of an ended election, and the waiting distributions start; the checks of the distribution cannot fail. |
| `Community.Perform` | contracts/eden/src/elections.cpp:538-971 | Every action on members, elections and money keeps the promises of both parts and their agreement. |
| `Community.Run` | contracts/eden/include/accounts.hpp:42-48 | Whatever happens in whatever order, starting from an empty contract: all money is accounted for and every running distribution exactly covered, the events follow their order, the statistics count the settled members, and outside of a ranking the money knows the members and ranks of the elections. |
| `AbiTypes.VaruintToBin` | libraries/abieos/include/eosio/to_bin.hpp:36-47 | Writes base-128 digits; more than 32 bits are refused. |
| `AbiTypes.VaruintFromBin` | libraries/abieos/include/eosio/from_bin.hpp:21-35 | Reads at most five digits and cuts the value to 32 bits. |
| `AbiTypes.VaruintRoundTrip` | libraries/abieos/include/eosio/from_bin.hpp:21-35 | Every 32-bit value is read back, whatever follows it. |
| `AbiWire.VaruintIff` | libraries/abieos/include/eosio/to_bin.hpp:36-47 | The written form of a size is the only one in base 128, lowest digits first, the high bit on all bytes but the last, and no superfluous digit. |
| `AbiWire.ReadVaruintIs` | libraries/abieos/include/eosio/from_bin.hpp:21-35 | A size is read exactly from one to five bytes that end in one without the high bit; superfluous digits are allowed and the value is cut to 32 bits. |
| `AbiWire.LeafWire` | libraries/abieos/src/abieos.hpp:870-891 | A true is the byte 1, a false 0; a text is its size and then its bytes; other values are refused. |
| `AbiWire.OptionalWire` | libraries/abieos/src/abieos.hpp:716-730 | An absent optional is the byte 0, a present one 1 and then its value. |
| `AbiWire.ArrayWire` | libraries/abieos/src/abieos.hpp:791-824 | An array is the number of its items and then each of them. |
| `AbiWire.StructWire` | libraries/abieos/src/abieos.hpp:742-789 | A struct is its fields in declared order, wherever they are in the object; of repeated names the last counts. |
| `AbiWire.VariantWire` | libraries/abieos/src/abieos.hpp:826-868 | A variant is the place of the first alternative with its name and then the value. |
| `AbiWire.FlagRead` | libraries/abieos/src/abieos.hpp:1102-1113 | Reading a bool or the presence of an optional, every byte other than 0 means yes. |
| `AbiEncode.OrderedAgrees` | libraries/abieos/src/abieos.hpp:929-986 | What is encoded in the order of the tokens equals what is encoded by field name if every object in the value leaves out nothing but extensions; otherwise encoding by name fails. |
| `AbiEncode.InOrderAccepted` | libraries/abieos/src/abieos.hpp:929-986 | A value in declared order that can be encoded by name can be encoded in order. |
| `AbiEncode.ExtensionsMustBeLast` | libraries/abieos/src/abieos.hpp:945-961 | A concrete type and value on which the two encoders differ. |
| `AbiExtensions.AgreeIff` | libraries/abieos/src/abieos.hpp:945-961 | For any set of types: the two encoders agree on every value of every type if and only if no struct has a required field behind an extension up to which an object can be written. |
| `AbiExtensions.ExtensionsLastIff` | libraries/abieos/src/abieos.hpp:945-961 | When every field has a value, the encoders agree on all values if and only if extensions come last in every struct. |
| `AbiExtensions.InhabitedIff` | libraries/abieos/src/abieos.hpp:893-1069 | The types that have values are found from their definitions in as many rounds as there are named types. |
| `AbiPieces.SplicedIsFlat` | libraries/abieos/src/abieos.hpp:919-926 | Splicing the collected sizes into the raw bytes gives the output with sizes in place, for every nesting of arrays. |
| `AbiPieces.Splice` | libraries/abieos/src/abieos.hpp:919-926 | The final loop does that splicing. |
| `AbiPieces.SetSizeMarks` | libraries/abieos/src/abieos.hpp:1010-1010 | Filling in a size changes one entry and no byte. |
| `AbiTokens.ReadValueIs` | libraries/abieos/src/abieos.hpp:893-1069 | On the tokens of any value, followed by anything, the streaming encoder's recursion accepts exactly the values in declared order within the stack limit, and reads exactly that value. |
| `AbiStreaming.JsonToBin.StartValue` | libraries/abieos/src/abieos.hpp:715-740 | Starting a value on the explicit stack leaves exactly the work that recursion would do. |
| `AbiStreaming.JsonToBin.ContinueObject` | libraries/abieos/src/abieos.hpp:929-986 | A key, a value or the end of an object: the final output of the machine does not change. |
| `AbiStreaming.JsonToBin.ContinueArray` | libraries/abieos/src/abieos.hpp:988-1019 | An item or the end of an array, where the size is filled in. |
| `AbiStreaming.JsonToBin.ContinueVariant` | libraries/abieos/src/abieos.hpp:1021-1069 | The name, the value and the end of a variant. |
| `AbiStreaming.JsonToBin.Step` | libraries/abieos/src/abieos.hpp:907-915 | One iteration of the driver, with its stack limit, consumes a token and keeps the final output. |
| `AbiStreaming.Run` | libraries/abieos/src/abieos.hpp:893-927 | The streaming encoder with deferred sizes terminates and outputs the size-first bytes of the recursive encoder, or fails exactly when it does. |
| `AbiTree.JvalueToBin.StartValue` | libraries/abieos/src/abieos.hpp:715-740 | Starting a value of a tree leaves exactly the work that recursion would do, and a bounded number of steps. |
| `AbiTree.JvalueToBin.ContinueObject` | libraries/abieos/src/abieos.hpp:742-789 | The next field in declared order, wherever it is in the object. |
| `AbiTree.JvalueToBin.ContinueArray` | libraries/abieos/src/abieos.hpp:791-824 | The next item or the end. |
| `AbiTree.JvalueToBin.ContinueVariant` | libraries/abieos/src/abieos.hpp:826-868 | The alternative or the end. |
| `AbiTree.Run` | libraries/abieos/src/abieos.hpp:702-713 | The encoder over a tree terminates and refines the recursive encoder by name. |
| `AbiPrinter.RankDrops` | libraries/abieos/src/abieos.hpp:1082-1090 | A step of the printer lowers a rank over the whole stack, also for types that contain themselves without input. |
| `AbiPrinter.BinToJson.ContinueObject` | libraries/abieos/src/abieos.hpp:1124-1167 | The next field with its comma and name, a trailing extension left out at the end of the input, or the closing brace. |
| `AbiPrinter.BinToJson.ContinueArray` | libraries/abieos/src/abieos.hpp:1169-1204 | The next item with its comma, or the closing bracket. |
| `AbiPrinter.BinToJson.ContinueVariant` | libraries/abieos/src/abieos.hpp:1206-1241 | The name and value of the alternative, or the closing bracket. |
| `AbiPrinter.Run` | libraries/abieos/src/abieos.hpp:1075-1092 | The printer terminates on all bytes and types and refines the recursive decoder with its stack limit. |
| `AbiRoundTrip.EncodersAgree` | libraries/abieos/src/abieos.hpp:703-1069 | The streaming encoder accepts exactly the values in declared order within its stack limit; on these the encoder by name gives the same bytes if every object leaves out nothing but extensions, and fails otherwise. |
| `AbiRoundTrip.ShowsEncoded` | libraries/abieos/src/abieos.hpp:1076-1241 | Decoding an encoding, at any depth and with any suffix, prints exactly the value, leaves exactly the suffix, and fails exactly when the value is too deep. |
| `AbiRoundTrip.StripPrint` | libraries/abieos/src/abieos.hpp:1124-1241 | The printed text reads as the tokens of the value. |
| `AbiRoundTrip.DecodeThenEncode` | libraries/abieos/src/abieos.hpp:893-1241 | Encode, decode, read the text and encode again: the original tokens and bytes come back. |
| `AbiRoundTrip.DecodedTextIsStable` | libraries/abieos/src/abieos.hpp:1076-1241 | Whatever bytes decode at all, the text can be encoded, and decoding that encoding gives the same text. |
| `AbiRoundTrip.DecodedTextIsJson` | libraries/abieos/src/abieos.hpp:1076-1241 | Whatever bytes decode at all, the text is a single JSON value for a strict reader, and the encoders accept that value. |
| `AbiText.PrintedIsRead` | libraries/abieos/src/abieos.hpp:1124-1241 | A strict reader, for which every comma, colon and bracket must be in its place, reads the printed text of a value as that value. |
| `AbiRoundTrip.ShownIsValue` | libraries/abieos/src/abieos.hpp:1076-1241 | Everything that is decoded is the text of a value the encoders accept. |
| `Dwarf.DecodeConsumes` | libraries/debug_eos_vm/dwarf.cpp:483-576 | Every instruction consumes at least its opcode, so the parser terminates. |
| `Dwarf.SequencePreserved` | libraries/debug_eos_vm/dwarf.cpp:451-481 | For a sequence with non-decreasing addresses: looking up any address in the ranges that were added finds the file and line of the last row at or before it, nothing at or beyond its end or on line 0; a sequence with an invalid start adds nothing. |
| `Dwarf.ProgramPreserved` | libraries/debug_eos_vm/dwarf.cpp:451-577 | The same for every sequence of a whole program whose addresses do not decrease where its start is valid, also one of an end row alone; the program's ranges are those of its sequences, and rows that no end follows count up to the beginning of their last run. |
| `Dwarf.CheckedIsAdded` | libraries/debug_eos_vm/dwarf.cpp:454-476 | A program that is accepted has the ranges of its coalesced rows. |
| `Dwarf.LineTable.FileIndex` | libraries/debug_eos_vm/dwarf.cpp:461-467 | A file name gets one number, and the number leads back to the name. |
| `Dwarf.LineTable.AddTableRow` | libraries/debug_eos_vm/dwarf.cpp:451-481 | Adding a row fails exactly when a range ends with an unknown file, and otherwise appends the range with its file resolved. |
| `Dwarf.LineTable.ParseUnit` | libraries/debug_eos_vm/dwarf.cpp:436-578 | The loop over the opcodes accepts exactly the well-formed programs and appends exactly their ranges, earlier ranges untouched. |
| `DwarfProgram.SpecialOpcode` | libraries/debug_eos_vm/dwarf.cpp:568-576 | A special opcode advances address and line by the only a and l with opcode == opcode_base + (l - line_base) + line_range * a and 0 <= l - line_base < line_range, modulo 2^32, and appends a row. |
| `DwarfProgram.SpecialOpcodeEncodes` | libraries/debug_eos_vm/dwarf.cpp:568-576 | Every special opcode encodes such advances. |
| `DwarfProgram.ConstAdd` | libraries/debug_eos_vm/dwarf.cpp:541-543 | const_add_pc advances the address as opcode 255 would, without a row. |
| `DwarfProgram.CopyRow` | libraries/debug_eos_vm/dwarf.cpp:516-522 | copy appends a row of the registers. |
| `DwarfProgram.AdvanceAddress` | libraries/debug_eos_vm/dwarf.cpp:523-525 | advance_pc adds its operand to the address, modulo 2^32, and changes nothing else. |
| `DwarfProgram.AdvanceLineBy` | libraries/debug_eos_vm/dwarf.cpp:526-528 | advance_line adds its signed operand, in any encoding of up to five bytes, to the line, modulo 2^32. |
| `DwarfProgram.SetFileNumber` | libraries/debug_eos_vm/dwarf.cpp:529-531 | set_file changes the file only. |
| `DwarfProgram.FixedAdvance` | libraries/debug_eos_vm/dwarf.cpp:544-546 | fixed_advance_pc adds two bytes, the lower first, to the address only. |
| `DwarfProgram.OtherStandard` | libraries/debug_eos_vm/dwarf.cpp:532-555 | The instructions for columns, statements, blocks, prologues and instruction sets change no register of the rows. |
| `DwarfProgram.UnknownStandard` | libraries/debug_eos_vm/dwarf.cpp:556-565 | An unknown instruction skips as many operands as the header says. |
| `DwarfProgram.EndOfSequence` | libraries/debug_eos_vm/dwarf.cpp:495-499 | end_sequence appends the last row and resets all registers. |
| `DwarfProgram.SetAddressTo` | libraries/debug_eos_vm/dwarf.cpp:500-502 | set_address reads four bytes, the lowest first, into the address only. |
| `DwarfProgram.OtherExtended` | libraries/debug_eos_vm/dwarf.cpp:503-510 | Other extended instructions are skipped by their length. |
| `DwarfProgram.RowAtIs` | libraries/debug_eos_vm/dwarf.cpp:451-481 | The row that describes an address is the last one at or before it. |
| `DwarfProgram.AcceptedIff` | libraries/debug_eos_vm/dwarf.cpp:451-481 | A program is accepted exactly if its instructions can be read and every row that ends a range has a known file. |
| `Dwarf.GetLocation` | libraries/debug_eos_vm/dwarf.cpp:1548-1555 | The binary search finds the last range that begins at or before the address, if it contains it. |
| `DwarfLookup.SortedExact` | libraries/debug_eos_vm/dwarf.cpp:1548-1555 | In a sorted table of ranges that do not overlap, every look-up finds exactly the containing range if and only if no empty range stands behind one that begins at the same address and is not empty. |
| `DwarfLookup.AlwaysExactIff` | libraries/debug_eos_vm/include/debug_eos_vm/dwarf.hpp:39-42 | However the ranges were sorted by first address, every look-up is exact if and only if no empty range begins where a range that is not empty begins. |
| `DwarfLookup.ProgramLookup` | libraries/debug_eos_vm/dwarf.cpp:1527-1555 | From the rows of a program, whose sequences with a valid start do not overlap, to the sorted table: every look-up finds the file and line of the last row at or before the address, however the table was sorted, under exactly that condition. |
| `DwarfLookup.HidingProgram` | libraries/debug_eos_vm/dwarf.cpp:451-578 | A line-number program of 18 bytes with two rows at one address, which under any ordinary header gives a table that can lose a range. |
| `Numerals.MultiplyDigits` | libraries/abieos/src/crypto.cpp:47-53 | The carry loop over the digits multiplies and adds; the carry never exceeds the factor. |
| `Numerals.BinaryToBase58` | libraries/abieos/src/crypto.cpp:65-92 | The text of any byte string, a 1 for every leading zero byte. |
| `Numerals.Base58ToBinary` | libraries/abieos/src/crypto.cpp:39-63 | The bytes of a text; refused exactly when a character is neither in the alphabet nor NUL. |
| `Numerals.Base58RoundTrip` | libraries/abieos/src/crypto.cpp:39-92 | Decoding the text of a byte string gives the byte string, leading zeros included. |
| `Numerals.Base58TextRoundTrip` | libraries/abieos/src/crypto.cpp:39-92 | Encoding the bytes of a text that is read gives the text again exactly if it contains no NUL. |
| `Numerals.Alphabet` | libraries/abieos/src/crypto.cpp:25-37 | The characters with places 0 to 57 are exactly the digits and letters other than 0, I, O and l, in ascending order; place 58 is NUL. |
| `Numerals.Base58Meaning` | libraries/abieos/src/crypto.cpp:65-92 | The text stands for the number of the bytes, and has exactly one 1 in front for each leading zero byte. |
| `Numerals.DecimalToBinary` | libraries/abieos/include/eosio/abieos_numeric.hpp:63-81 | Refused exactly when a character is no digit or the number does not fit the bytes; otherwise the bytes hold the number. |
| `Numerals.BinaryToDecimal` | libraries/abieos/include/eosio/abieos_numeric.hpp:83-105 | The decimal text of the number in the bytes. |
| `Numerals.Negate` | libraries/abieos/include/eosio/abieos_numeric.hpp:51-61 | Two's complement in place, for any width, 0 included. |
| `Numerals.IsNegative` | libraries/abieos/include/eosio/abieos_numeric.hpp:45-49 | The top bit says whether the number is in the upper half. |
| `Numerals.ParseSigned` | libraries/abieos/src/abieos.hpp:483-500 | Accepted exactly when the text means a number of the width, the most negative one included. |
| `Numerals.PrintSigned` | libraries/abieos/src/abieos.hpp:509-524 | Prints the signed number in the bytes. |
| `Numerals.DecimalRoundTrip` | libraries/abieos/include/eosio/abieos_numeric.hpp:63-105 | Printing and parsing give every number back. |
| `Numerals.DecimalTextRoundTrip` | libraries/abieos/include/eosio/abieos_numeric.hpp:63-105 | Parsing and printing give a text back exactly when it is not empty and has no superfluous zeros. |
| `Numerals.SignedRoundTrip` | libraries/abieos/src/abieos.hpp:483-524 | Every signed number of the width survives printing and parsing. |
| `Numerals.NegativeZero` | libraries/abieos/src/abieos.hpp:487-493 | A minus sign before zero is refused. |
| `Sessions.AcceptedWhen` | contracts/eden/src/actions/sessions.cpp:184-199 | A sequence number is accepted exactly when it was never accepted before, does not skip too many, and is above the window's start once the window is full. |
| `Sessions.AcceptRemembers` | contracts/eden/src/actions/sessions.cpp:184-202 | The window always holds all accepted numbers or the 20 largest of them, in order. |
| `Sessions.NeverTwice` | contracts/eden/src/actions/sessions.cpp:184-202 | A session record never accepts a number twice, whatever it receives. |
| `Sessions.NextIsAccepted` | contracts/eden/src/actions/sessions.cpp:187-193 | The number after the largest is accepted exactly as long as the 32-bit limit has not wrapped around. |
| `Sessions.LockedWhen` | contracts/eden/src/actions/sessions.cpp:184-199 | A full window accepts nothing any more exactly when its limit has wrapped around and it starts at the limit or above, or holds every number from its start up to the limit. |
| `Sessions.CountingLocks` | contracts/eden/src/actions/sessions.cpp:184-202 | A client that counts up from 0 is locked out when it has used the number 2^32 - 10. |
| `Sessions.AcceptNumber` | contracts/eden/src/actions/sessions.cpp:184-202 | The checks and the sorted insertion of the action. |
| `Sessions.AcceptedBySet` | contracts/eden/src/actions/sessions.cpp:184-202 | Although it keeps 20 numbers, the window accepts exactly the numbers not accepted before that are at most 10 above the largest (at most 10 at first), modulo 2^32, and not below 20 larger ones. |
| `Sessions.NextAccepted` | contracts/eden/src/actions/sessions.cpp:184-202 | After any received sequence the next number is accepted exactly under that condition on all numbers accepted before. |
| `Sessions.SessionTable.NewSession` | contracts/eden/src/actions/sessions.cpp:65-111 | Accepted exactly for a member, a new key, a short description and an expiration within 90 days; of five sessions the first is dropped. |
| `Sessions.SessionTable.DelSession` | contracts/eden/src/actions/sessions.cpp:113-135 | Removes the key and all expired sessions; an account without sessions is dropped. |
| `Sessions.SessionTable.RunSigned` | contracts/eden/src/actions/sessions.cpp:155-204 | Accepted exactly when an unexpired session has the key and the window accepts the number, which that record had never accepted; a refused call changes nothing. |
| `Sessions.SessionTable.GcSessions` | contracts/eden/src/actions/sessions.cpp:28-45 | Each step collects the expired sessions of another account, nothing else is lost, and when steps are left no expired session is. |
| `MicroChain.TransferKeeps` | contracts/eden/src/eden-micro-chain.cpp:1385-1409 | Every transfer, also to oneself, keeps balances summing to zero, rows in opposite pairs, balances equal to the sum of their changes and new amounts equal to the running sums. |
| `MicroChain.TransferRecorded` | contracts/eden/src/eden-micro-chain.cpp:1385-1409 | A transfer lowers one balance and raises the other by the amount, changes no other, and appends two rows of its time and purpose with the balances after each change. |
| `MicroChain.RenameKeeps` | contracts/eden/src/eden-micro-chain.cpp:1664-1685 | So does a rename to an account without a balance row. |
| `MicroChain.RenameOntoRow` | contracts/eden/src/eden-micro-chain.cpp:1677-1684 | With a row under both names overwriting would lose the new name's balance, so the balances would sum to zero only if it was zero. |
| `MicroChain.Ledger.TransferFunds` | contracts/eden/src/eden-micro-chain.cpp:1385-1409 | Two balance changes and two history rows, with the new amounts of the moment. |
| `MicroChain.Ledger.NotifyTransfer` | contracts/eden/src/eden-micro-chain.cpp:1411-1437 | A token notification is booked by direction and announcement, and the token account holds the negative of the tokens held as long as it was itself no party to a transfer. |
| `MicroChain.Ledger.Withdraw` | contracts/eden/src/eden-micro-chain.cpp:1439-1450 | Announces the notification; refused while another is announced. |
| `MicroChain.Ledger.ManualSpend` | contracts/eden/src/eden-micro-chain.cpp:1457-1465 | The same for manual spending. |
| `MicroChain.Ledger.Move` | contracts/eden/src/eden-micro-chain.cpp:1452-1488 | Donations, fund and user transfers keep the ledger sound, and the token account unchanged unless it is a party. |
| `MicroChain.Ledger.Rename` | contracts/eden/src/eden-micro-chain.cpp:1664-1685 | Refused exactly when two different names both have a balance row; otherwise balances and history follow. |

## Left out

- Administrative overrides (changerank, clearrank, finishelect, settablerows, unmigrate, clearall): they rewrite state arbitrarily and void the invariants.
- `on_election_kick` (contracts/eden/src/distributions.cpp:381-402): nothing calls it.
- Authorization, symbols of assets, memo sizes, migrations (taken as completed), overflow of asset amounts, and events other than those of elections.
- Timestamps of events, seeds and proof of work: the new seed and the draws are arbitrary, a draw for n voters is any position from 0 to n-1.
- Rounds without any winner: the source reads the first entry of an empty plan there (contracts/eden/src/elections.cpp:911-927); the model does nothing more in that case.
- Treasury.Contract.Resign: the board's permission and the bylaws, which also lose the member, are not modelled.
- Treasury.Contract.Rename: the board, the bylaws and the inductions, which also follow the new name, are not modelled.
- Treasury.Contract.TriggerElection: the branch for a contract whose election date was never set, which then waits for a date.
- Treasury.Contract.SetNextElectionTime: the branch for a contract without an election state; the model's contract starts with an election scheduled.
- Sessions.SessionTable.NewSession: the check of the key's type and the authorization.
- MicroChain.Ledger.Move: the row of the distribution fund that fundtransfer also lowers.
- Encrypted meeting data, videos and board permissions of elections; donations of inductions; bylaws.
- The 8-bit round number: a planned election has at most eight rounds, so it is kept as a natural number.
- ElectionEngine.Engine.PrepareElection: the number of steps that the monthly distribution uses is a parameter; Community.Community.PrepareElection supplies it.
- Treasury.Contract.PrepareElection: the ranking of members is one later action; Community.Community.PrepareElection goes on with the election.
- Treasury.Contract.FinishElection: takes any outcome an election can have; Community.Community.Conclude passes it that of an election.
- Scalar ABI types other than bool and string: their text and binary forms are independent of the machines; names, numbers, keys and assets are not modelled.
- ABI type names, aliases, base structs and nesting rules of abi.cpp: types are given resolved.
- JSON text: the machines read and write tokens; escapes, numbers and whitespace belong to the lexer, which is not part of this model.
- AbiRoundTrip.EncodersAgree: arrays have fewer than 2^32 items, as any text in memory does; the source's signed 32-bit positions are natural numbers.
- AbiRoundTrip.DecodeThenEncode: for types without extensions, since a missing extension and the end of the input are the same for the decoder.
- The limit on nesting while JSON text is read into a tree (`json_to_jvalue`).
- DwarfLookup.ProgramLookup: sequences with a valid start have non-decreasing addresses and do not overlap, as DWARF prescribes; the others are dropped and may be anything.
- The header of a line-number program, registers other than address, file and line, and `write_line_program`; a line range of 0 would divide by zero in the source and is excluded.
- Session events; replays under a key that was deleted and registered again, since a new record starts with an empty window.
- Distribution tables, elections and members of the micro-chain; its undo log is not part of this model. That a second balance row under one account is refused relies on the table's unique index.
