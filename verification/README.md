# Hive chain core: a Dafny model

This project models the consensus and accounting core of a Hive node and proves what that core is for:
one chain that is never rewritten below its irreversible block, a ledger whose supplies equal its holdings,
witness votes that are counted exactly, and blocks that are read back as they were written.

The model follows the code after its latest hardfork. Code that updates objects in place is a class whose
methods are proved against functions and predicates on values; code that computes is functions and lemmas.
A failed assertion of the source is a refusal that leaves the state as it was. What arithmetic gives is stated by
what it is worth (`Arith.Quotient`: b goes q times into a, and not once more), apart from how it is computed.
Nothing here was executed.

| files | what they model |
|---|---|
| `Common`, `Arith`, `Money` | options, sums, floor division, amounts of all tokens at once |
| `ProxyForest`, `Governance`, `VoteMass` | witness votes, proxies of bounded depth, the vote sum of the supply check |
| `OrderBook`, `Matching`, `Market` | the internal HIVE/HBD market |
| `Merkle` | the transaction Merkle root |
| `Chain`, `ForkDatabase`, `Irreversibility`, `BlockWriter`, `Reader` | forks, fork switches, irreversibility, and reading the one chain back |
| `Packing`, `LogFile`, `BlockLog`, `SplitLog` | the block log, its index of artifacts, and the log split into parts |
| `Schedule` | the witness schedule and its virtual time |
| `Curation` | vote weights and curation rewards |
| `HbdLimit` | price feeds and the cap on the HBD debt |
| `Vesting`, `Tokens`, `Payouts`, `Parts`, `Deeds`, `Bank` | the price of VESTS, every place tokens can be, what a power-down pays and in which order, what each operation does, and the ledger that does it |

## What the code does not keep

Some properties one would expect turn out to be false of the code. Each has its input and the exact condition
under which it holds.

- A reward in VESTS too small to buy one VEST is credited as liquid reward and still counted as HIVE behind
  unclaimed VESTS. `Tokens.RewardTooSmall` gives the input; `Bank.RunLedger` says that over any run supplies and
  holdings differ by exactly the sum of such rewards.
- With shares left and nothing in the vesting fund, a power-down is paid at the fixed price out of an empty fund,
  into the negative. `Vesting.EmptyFundPays` gives the input; `Tokens.PartExact` says exactly when the fund stays
  non-negative and a VEST is worth no less: there is something in the fund, or each amount the part is cashed in by
  is less than the fixed price pays for. Only a claim of VESTS with no HIVE behind them while the fund is empty
  leads there from a backed fund (`Tokens.ClaimedBacked`, `Tokens.BackedToTheEnd`).
- A block that arrives can take the node down. When a block that does not apply is dropped, blocks on top of it
  that were not on the way to the best one stay in the fork database without their predecessor; when one of them is
  built on and becomes the best, the walk back to the state runs into the missing link. `BlockWriter.DeadLink` gives
  the input; `BlockWriter.Node.PushBlock` says that the node goes down exactly when the best block is higher than
  the state and not linked down to the height of the state.
- A block without predecessor is accepted by the fork database past the start of the chain while nothing has been
  pruned; from then on block 1 reads as that block. `Reader.StrayFirstBlock` gives the input, `Reader.LookedExact`
  and `Reader.RangeExact` the exact condition for a lookup and for a range, and `Reader.RunServing` the condition
  over runs: it takes such a block among the inputs, and nothing applied since.
- In that state a peer's request can take the node down, and the node's own synopsis reads past its end
  (`Reader.StrayAnswers`). `Reader.GetBlockIds` says that the former happens exactly when a number above the oldest
  block held is not found in the fork database; `Reader.WholeSynopsis` that a synopsis is one of the chain of its
  reference point exactly when that chain is linked down to the oldest block held.
- Looking up a number on the main branch takes a single block of that number without walking back;
  `ForkDatabase.ShortcutAgrees` says exactly when that gives what walking gives.
- Truncating the block log does not update the cached size, so the next append is right exactly when the log has
  been opened again (`BlockLog.Log.AppendRaw`, `BlockLog.Log.Truncate`).
- A comment beside the fork switch after a fast confirmation (libraries/plugins/chain/chain_plugin.cpp:958-959)
  says irreversibility is not settled there; the code's inner lambda result is dropped, so it is. The model follows
  the code.

## Model

| member | source | states |
|---|---|---|
| ProxyForest.LinkAcyclic | libraries/chain/hive_evaluator.cpp:1352-1363 | A new proxy edge keeps the forest acyclic when the climb from the new proxy never meets the account, which is what the loop check looks for |
| ProxyForest.CutLevel | libraries/chain/database.cpp:1187-1216 | Every level of an ancestor is its level without an edge plus the matching level of the account below the edge |
| Governance.EdgeBuckets | libraries/chain/database.cpp:1187-1216 | Propagating an account's levels along its chain turns buckets exact for the forest without its edge into buckets exact for the forest with it, and back with the sign reversed |
| Governance.EdgeTally | libraries/chain/database.cpp:1250-1259 | Witness tallies stay exact through a propagation once the account's own votes are taken out |
| Governance.Electorate.AdjustProxied | libraries/chain/database.cpp:1187-1216 | The vector overload adds to every ancestor's buckets exactly the levels that reach it within the depth limit, and to the root's witnesses the sum that arrives |
| Governance.Electorate.AdjustProxiedBy | libraries/chain/database.cpp:1218-1239 | The scalar overload does the same for one account's own power |
| Governance.Electorate.Nullify | libraries/chain/database.cpp:1241-1248 | Afterwards buckets and tallies are exact for the forest without the account's edge and without its votes |
| Governance.Electorate.CheckChain | libraries/chain/hive_evaluator.cpp:1352-1363 | True exactly when the chain above the new proxy is short enough and does not lead back |
| Governance.Electorate.SetProxy | libraries/chain/hive_evaluator.cpp:1341-1392 | It succeeds exactly under the stated conditions, changes that one edge, drops the account's own votes, and keeps every bucket and tally exact |
| Governance.Electorate.ClearProxy | libraries/chain/hive_evaluator.cpp:1383-1391 | It succeeds exactly with a proxy set and the right to vote, removes that edge, and keeps every bucket and tally exact |
| Governance.Electorate.Vote | libraries/chain/hive_evaluator.cpp:1395-1459 | A vote is cast or withdrawn exactly under the stated conditions, and every tally stays exact |
| Governance.Electorate.ChangeVests | libraries/chain/database.cpp:1218-1239 | A change of vesting keeps every bucket and tally exact |
| Governance.Electorate.Withdraw | libraries/chain/database.cpp:6785-6828 | Expired governance votes: edge and votes of the account are gone and all else stays exact |
| Governance.Electorate.DeclineVoting | libraries/chain/database.cpp:3192-3237 | Declining voting rights does the same and forbids voting |
| Governance.Run | libraries/chain/database.cpp:1187-1304 | After any run of governance operations the proxy forest is acyclic, every bucket holds exactly the power that many hops below, and every tally is the sum of its voters' power |
| VoteMass.VoteMassConserved | libraries/chain/database.cpp:6414-6418 | The vote sum of the supply check equals the total direct power, for every depth limit and every depth of the forest |
| VoteMass.VestsEqualVotesAndDelayed | libraries/chain/database.cpp:6510 | All vesting shares equal that vote sum plus the delayed votes |
| VoteMass.TallyBounded | libraries/chain/database.cpp:6395-6401 | No witness has more votes than there is vote power, so the assertion on every vote change cannot fail |
| OrderBook.MatchFair | libraries/chain/database.cpp:5127-5214 | A match fills one side, takes from neither more than it sells, gives each at least its limit price rounded down, never moves zero, and is at the older order's price |
| OrderBook.MatchIsAtOldPrice | libraries/chain/database.cpp:5127-5175 | All the new order sells, when that is no more than the old order asks for all it sells, or else what the old order asks for all it sells; converted at the old order's price and rounded down; and these are the only such amounts |
| OrderBook.LimitIs | libraries/chain/database.cpp:5127-5175 | What an amount fetches at an order's price, and what it costs to get it, both rounded down |
| OrderBook.CrossesIs | libraries/chain/database.cpp:5105-5125 | Two orders cross exactly when there is an exchange that suits both |
| OrderBook.BeforeIs | libraries/chain/include/hive/chain/hive_objects.hpp:428-434 | One order comes before another exactly when some buyer takes it that does not take the other, or all buyers treat them alike and it is older |
| OrderBook.BehindDoesNotCross | libraries/chain/database.cpp:5105-5125 | If the best order does not cross, no order behind it does |
| Matching.MatchOk | libraries/chain/database.cpp:5127-5214 | A match keeps the book sorted and live, conserves both assets, and lowers no balance |
| Matching.MatchBook | libraries/chain/database.cpp:5127-5214 | At least one of the two orders leaves the book, and of the rest only the amounts change |
| Matching.FillsStep | libraries/chain/database.cpp:5105-5214 | Whether the other side uses an order up is the same question before and after a match that leaves some of it |
| Matching.DustIs | libraries/chain/database.cpp:5258-5316 | What is left of an order goes back exactly when it would not fetch a single unit at its price |
| Matching.NothingCrosses | libraries/chain/database.cpp:5105-5125 | When matching stops, nothing in the book crosses |
| Market.Exchange.Adjust | libraries/chain/database.cpp:5526-5564 | A balance changes exactly when it stays non-negative, and the total by that amount |
| Market.Exchange.FillOrder | libraries/chain/database.cpp:5258-5305 | One side is paid, dust is returned to its seller, and the order is gone exactly when filled or too small to go on |
| Market.Exchange.Match | libraries/chain/database.cpp:5127-5214 | Both sides are paid the amounts of the older order's price, dust goes back, and at least one order is gone |
| Market.Exchange.ApplyOrder | libraries/chain/database.cpp:5105-5125 | The new order is matched best price first and earliest first until it is gone or nothing crosses, one match at the older order's price after the other; it is gone exactly when the other side uses it up; both assets are conserved, only sellers met are touched, and the book ends uncrossed |
| Market.Exchange.CreateOrder | libraries/chain/hive_evaluator.cpp:2418-2465 | An order is accepted exactly when it is in time, covered, of a new number and, if it is to be filled or killed, used up by the other side of the book as it stands; one that is not leaves no trace, and otherwise it rests at the place its price and age earn |
| Market.Exchange.CancelOrder | libraries/chain/hive_evaluator.cpp:2467-2470 | Exactly the order with that key leaves the book and its seller gets exactly what was left |
| Market.Exchange.ClearExpired | libraries/chain/database.cpp:5329-5339 | Exactly the expired orders leave the book, and everybody owns what they did |
| Market.RunMarket | libraries/chain/database.cpp:5105-5316 | Over any run of market operations both assets are conserved to the unit and the book is never crossed |
| Merkle.PairsKeepTree | libraries/chain/full_block.cpp:558-586 | Hashing one level in pairs does not change the tree of section 2.1 of RFC 6962 over the same leaves |
| Merkle.HashLevel | libraries/chain/full_block.cpp:571-583 | One level is hashed in place over hashes already read, an odd last one carried over |
| Merkle.MerkleRoot | libraries/chain/full_block.cpp:558-586 | The in-place computation gives the recursive Merkle tree split at the largest power of two, for every number of transactions |
| Merkle.SplitIsPower | libraries/chain/full_block.cpp:558-586 | The split point of the reference tree is a power of two |
| Chain.ForkIsMostRecent | libraries/chain/fork_database.cpp:278-322 | The reference fork point is above every common ancestor |
| ForkDatabase.ForkDb.PushBlock | libraries/chain/fork_database.cpp:42-87 | A block is refused exactly when too old or not linkable, set aside only in the latter case, and otherwise linked with everything that waited for it and is not too old; nothing linked is lost and the head only moves higher |
| ForkDatabase.ForkDb.PushNext | libraries/chain/fork_database.cpp:111-132 | What was waiting for a linked block is linked, nothing linkable stays aside, and of what was set aside nothing is lost unless it has become too old |
| ForkDatabase.ForkDb.PopBlock | libraries/chain/fork_database.cpp:20-28 | The head steps back exactly when the previous block is still held |
| ForkDatabase.ForkDb.SetMaxSize | libraries/chain/fork_database.cpp:134-166 | Exactly the blocks at or below the new horizon are forgotten, linked and waiting |
| ForkDatabase.HorizonIs | libraries/chain/fork_database.cpp:61-87 | A block is too old exactly when it is as far behind the head as the size allows, or further |
| ForkDatabase.ForkDb.Remove | libraries/chain/fork_database.cpp:415-422 | Exactly that block is gone, and a head that was it steps back |
| ForkDatabase.ForkDb.FetchBranchFrom | libraries/chain/fork_database.cpp:278-322 | The two branches are exactly the paths down to the most recent common block, and it fails exactly when a block on the way is not held |
| ForkDatabase.ForkDb.FetchHeads | libraries/chain/fork_database.cpp:230-241 | Exactly the linked blocks nothing builds on |
| ForkDatabase.ForkDb.FetchOnMainBranch | libraries/chain/fork_database.cpp:349-359 | The shortcut for a number held once, and walking back otherwise |
| ForkDatabase.ShortcutAgrees | libraries/chain/fork_database.cpp:349-359 | The shortcut gives what walking back gives exactly when that number is not held once by a block the main branch does not reach |
| ForkDatabase.FetchedIs | libraries/chain/fork_database.cpp:324-359 | On the linked part of the main branch the lookup by number is exact |
| ForkDatabase.RangeIsSlice | libraries/chain/fork_database.cpp:361-399 | A range is the contiguous slice of the main branch, cut off at both ends of what is held |
| Irreversibility.LatestIsHighest | libraries/chain/fork_database.cpp:243-254 | Each producer is credited with its highest block |
| Irreversibility.RequiredIsLeast | libraries/chain/database.cpp:5000-5026 | The required number is the least that makes up the threshold's share of the scheduled witnesses, so those left out are the most the threshold allows |
| Irreversibility.BestVoteIsHighest | libraries/chain/sync_block_writer.cpp:293-310 | A witness stands behind the higher of its two votes, and behind the block it produced when they are equally high |
| Irreversibility.RequiredIsMajority | libraries/chain/database.cpp:5000-5026 | Any threshold above half gives a majority: the least number that makes up the threshold's share is more than half of the scheduled witnesses |
| Irreversibility.QuorumIntersection | libraries/chain/sync_block_writer.cpp:290-353 | Two blocks that both have the required number behind them, by the same votes, lie on one chain |
| Irreversibility.CountVotes | libraries/chain/sync_block_writer.cpp:287-310 | Each block is counted exactly the scheduled witnesses whose highest vote it is |
| Irreversibility.PathApproves | libraries/chain/sync_block_writer.cpp:312-353 | Approvals collected walking down a fork all stand behind the block reached |
| Irreversibility.FindNewLib | libraries/chain/sync_block_writer.cpp:267-368 | A block is found exactly when some fork confirms one; it is higher than before, has the required number of scheduled witnesses behind it, is the highest such block of its fork, and no higher fork has a higher one |
| BlockWriter.Node.PopTo | libraries/chain/database.cpp:745-803 | Popping reaches its target exactly when that is reversible and the fork database is linked as far down as the state has to go, and never pops an irreversible block |
| BlockWriter.Node.SettleLib | libraries/chain/database.cpp:4963-5071 | Irreversibility moves only forward and only to a justified block, which by then has at least the threshold's share of the scheduled witnesses behind it and is the highest one its fork has the votes for; and it does move when a block on the chain has the votes and none off it has |
| BlockWriter.Node.Migrate | libraries/chain/sync_block_writer.cpp:24-60 | The log becomes the chain up to the irreversible block, exactly what is below it leaves the fork database, and the node goes down exactly when the two heads are at different heights |
| BlockWriter.Node.ApplyBlock | libraries/chain/database.cpp:4052-4096 | A block that applies becomes the head, and a rise of the irreversible block has its ground in the votes of that moment; one that does not changes nothing |
| BlockWriter.Node.SwitchForks | libraries/chain/sync_block_writer.cpp:163-265 | The switch breaks exactly towards a block of the chain itself, is given up exactly when the fork point is not reached, and succeeds exactly when all blocks of the new branch apply; otherwise the failed tail is dropped, and the state goes back to exactly where it was unless the fork point has become irreversible or the new branch is no shorter even so; nothing irreversible is undone |
| BlockWriter.Node.Retreat | libraries/chain/sync_block_writer.cpp:209-262 | After a failed block: which branch the state ends on, and by what condition |
| BlockWriter.SwitchAhead | libraries/chain/sync_block_writer.cpp:105-192 | Towards a higher block, linked down to the height of the state, a switch can be carried out exactly when the fork point is not below the irreversible block and is reached by links |
| BlockWriter.Node.WalkDown | libraries/chain/sync_block_writer.cpp:105-116 | The blocks down to the height of the state, exactly when all of them are linked |
| BlockWriter.BranchSurvives | libraries/chain/sync_block_writer.cpp:236-258 | The branch that was left is untouched by what failed on the other one, and applies again |
| BlockWriter.Node.PushBlock | libraries/chain/sync_block_writer.cpp:67-161 | Refused exactly as the fork database does, ignored exactly when the best block is not higher than the state; the node goes down exactly when that block is not linked down to the height of the state; otherwise it is followed, where it builds on the state up to the first block that does not apply, or switched to, which is given up exactly when the fork point is below the irreversible block or not reached; the log only grows, and nothing below the irreversible block comes in except a block without predecessor |
| BlockWriter.DeadLink | libraries/chain/sync_block_writer.cpp:105-116 | The input that takes the node down: two blocks that came in before the bad block they build on, and then a block on top of the one that is not dropped with it |
| BlockWriter.Node.FastConfirm | libraries/chain/database.cpp:4906-4961 | A confirmation counts exactly when its witness is scheduled and it is newer than the last; then the irreversible number does rise when a block has the votes and every block that has lies on the chain or on a fork that can be joined; the node leaves its fork only for one that has the votes and is no shorter; it goes down exactly when that switch breaks or the two heads end at different heights; number and log only grow |
| BlockWriter.FloorGrows | libraries/chain/fork_database.cpp:61-87 | Linking blocks brings in one below the irreversible block exactly when it is a block without predecessor |
| BlockWriter.HeardMembers | libraries/chain/sync_block_writer.cpp:67-161 | The blocks a run has heard of are the one it started from and the ones delivered |
| BlockWriter.ConfirmedMembers | libraries/chain/database.cpp:4906-4961 | The confirmations a run has heard of are the ones delivered |
| BlockWriter.RunNode | libraries/chain/sync_block_writer.cpp:24-368 | Over any run of blocks and confirmations every input does to the node what is stated for it, the irreversible number never falls, and the block log only grows and is a prefix of the chain; whenever it has grown, its last block lies a round behind an early head or has at least the threshold's share of the witnesses scheduled at a head behind it, by blocks they produced and confirmations they gave among the inputs so far, that head being a block heard of by then that applies |
| Reader.NodeServes | libraries/chain/fork_db_block_reader.cpp:48-64 | With the two heads together, log and fork database join into the one chain exactly when the fork database holds nothing older |
| Reader.RunServing | libraries/chain/fork_db_block_reader.cpp:48-64 | After any run they do, unless the node has gone down, a fork switch was given up, or a block without predecessor, which is then among the inputs, came in since the last block applied |
| Reader.LookedExact | libraries/chain/fork_db_block_reader.cpp:48-64 | A lookup gives the chain's block exactly when the fork database does not hold, below the end of the log, a single different block of that number |
| Reader.StrayFirstBlock | libraries/chain/fork_database.cpp:61-87 | A node at block 2 given another block 1 reads that block as block 1 |
| Reader.GetBlockByNumber | libraries/chain/fork_db_block_reader.cpp:48-64 | What is found in the fork database, else in the log; on a served chain, its block of that number |
| Reader.IsIncluded | libraries/chain/fork_db_block_reader.cpp:306-323 | On a served chain, true exactly for its blocks |
| Reader.FetchBlockRange | libraries/chain/fork_db_block_reader.cpp:138-171 | What the fork database holds of a range, joined to what the log has before it; on a served chain a contiguous stretch of it, refused exactly on an empty or too long request |
| Reader.RangeExact | libraries/chain/fork_db_block_reader.cpp:138-171 | A range read gives the stretch of the chain exactly when looking up its last number gives the chain's block |
| Reader.GetBlockIds | libraries/chain/fork_db_block_reader.cpp:211-303 | Fails exactly when the peer names blocks and none is found at its number; goes down exactly when a number above the oldest block held is not found in the fork database; otherwise what is found for each number from the last shared block on, at most as many as asked for, and the count of those still to come; on a served chain, that stretch of it |
| Reader.GetSynopsis | libraries/chain/fork_db_block_reader.cpp:173-209 | A point older than everything held is acknowledged exactly when the log has it; for any other the blocks of the numbers to be named, counted from the lowest one linked; a synopsis of the chain of the point, starting at the oldest block held, exactly when that is linked |
| Reader.Summarize | libraries/chain/fork_database.cpp:433-530 | The same for the fork database's own part: which blocks are named, and exactly when the walk reads past the end |
| Reader.WholeSynopsis | libraries/chain/fork_database.cpp:433-530 | It starts at the oldest block held, ascends, is of logarithmic length and ends in the reference point when nothing is to follow, exactly when that point is linked down to the oldest block |
| Reader.StrayAnswers | libraries/chain/fork_db_block_reader.cpp:211-303 | A node at block 3 given another block 1 goes down when asked for the first two blocks, and its own synopsis reads past the end |
| Packing.SplitCombined | libraries/chain/include/hive/chain/detail/block_attributes.hpp:20-35 | Splitting a combined position gives back position and attributes |
| Packing.CombinedLayout | libraries/chain/include/hive/chain/detail/block_attributes.hpp:20-35 | Which bits of the word hold the position, the dictionary, whether there is one, and the compression |
| Packing.BytesAt | libraries/chain/block_log.cpp:335-357 | The bytes of a word are written lowest first |
| Packing.TrailerReads | libraries/chain/block_log.cpp:335-357 | A trailer read back gives the position and attributes it was written with |
| LogFile.IndexReads | libraries/chain/block_log_artifacts.cpp:71-172 | An index chunk unpacked with the one after it gives position, size, attributes and id of its block |
| BlockLog.Log.AppendRaw | libraries/chain/block_log.cpp:335-357 | The file is the one the format asks for exactly when the cached size is the size of the file |
| BlockLog.Log.Append | libraries/chain/block_log.cpp:411-438 | The block is added to file and index and becomes the head |
| BlockLog.Log.MultiAppend | libraries/chain/block_log.cpp:359-390 | A batch gives the file and index of appending its blocks one by one |
| BlockLog.FileDetermines | libraries/chain/block_log.cpp:335-390 | The blocks determine file and index, and the file determines the blocks |
| BlockLog.Log.ReadArtifacts | libraries/chain/block_log_artifacts.cpp:841-857 | The entry of any block but the last is exactly what it was stored as |
| BlockLog.Log.ReadArtifactsRange | libraries/chain/block_log_artifacts.cpp:891-931 | The same for a run of blocks, with the bytes they take up |
| BlockLog.Log.ReadBlock | libraries/chain/block_log.cpp:467-491 | A block is read back as it was appended, and the error cases are told apart |
| BlockLog.Log.ReadRange | libraries/chain/block_log.cpp:525-584 | A run read with one file access is the same blocks one after the other |
| BlockLog.Log.ReadHead | libraries/chain/block_log.cpp:586-614 | The last eight bytes lead to the last block |
| BlockLog.Log.RebuildIndex | libraries/chain/block_log_artifacts.cpp:557-666 | Walking the log backwards gives the very index kept while appending, whenever there are at least two blocks |
| BlockLog.WalkBack | libraries/chain/block_log.cpp:707-786 | The backward walk yields the chunk of every record |
| BlockLog.Log.Truncate | libraries/chain/block_log.cpp:889-910 | Done exactly when a block is left and it is not more than there are; file and index become exactly those of the first blocks; the cached size is left behind |
| BlockLog.Log.Reopen | libraries/chain/block_log.cpp:258-283 | Opening sets the cached size and the head right again |
| SplitLog.PartBounds | libraries/chain/include/hive/chain/block_log_wrapper.hpp:156-180 | A block number belongs to a part exactly when it lies within that part's bounds |
| SplitLog.FirstBlockIs | libraries/chain/include/hive/chain/block_log_wrapper.hpp:156-180 | The first block of a part is the least number that belongs to it |
| SplitLog.OldestIs | libraries/chain/block_log_wrapper.cpp:776-790 | All parts are kept while they are few enough or never split off; otherwise one more than the limit |
| SplitLog.Parts.Append | libraries/chain/block_log_wrapper.cpp:758-797 | Refused exactly when it would cross a part boundary; otherwise the blocks are added, and exactly the newest parts remain |
| SplitLog.Parts.TailNumber | libraries/chain/block_log_wrapper.cpp:799-813 | The number of the oldest block still stored |
| SplitLog.Parts.ReadRange | libraries/chain/block_log_wrapper.cpp:422-449 | Across parts, exactly that stretch of all blocks appended, or nothing when it starts in a part that is gone |
| Schedule.PickElected | libraries/chain/witness_schedule.cpp:152-170 | Able witnesses, as many as there is room for, and none left out has more votes than one picked |
| Schedule.PickMiners | libraries/chain/witness_schedule.cpp:172-202 | Exactly the able ones not elected from the front of the queue, as far as there is room |
| Schedule.PickTimeshare | libraries/chain/witness_schedule.cpp:206-229 | Exactly the able ones not chosen yet from the front of the schedule; none left out was scheduled earlier; a full round or everybody |
| Schedule.RoundSize | libraries/chain/witness_schedule.cpp:255-257 | The round is full, or holds every able witness |
| Schedule.OverflowSeen | libraries/chain/witness_schedule.cpp:232-248 | The comparison after the addition detects a 128-bit overflow, and nothing else |
| Schedule.LappedIs | libraries/chain/witness_schedule.cpp:232-248 | A lap takes the whole distance at a speed of one more than the votes, rounded down |
| Schedule.AdvanceTimes | libraries/chain/witness_schedule.cpp:232-248 | Everyone processed runs one more lap from the new time and nobody is scheduled in the past, unless some lap does not fit |
| Schedule.ResetTimes | libraries/chain/witness_schedule.cpp:18-37 | Everyone starts over at time zero |
| Schedule.ShufflePermutes | libraries/chain/witness_schedule.cpp:369-385 | The shuffle permutes the scheduled places and touches no other |
| Schedule.Shuffle | libraries/chain/witness_schedule.cpp:369-385 | The array ends as that function of its former contents |
| Schedule.RandomNumbers | libraries/chain/witness_schedule.cpp:369-385 | Numbers of the generator at three seeds |
| Schedule.PartnerIs | libraries/chain/witness_schedule.cpp:369-385 | The place swapped with is as far on as the random number leaves over after whole rounds through the places left |
| Schedule.Roster.AdjustVote | libraries/chain/database.cpp:1261-1286 | Progress made counts, the rest of the lap runs at the new speed, and a turn past 128 bits is put at the end of time |
| Schedule.Roster.Update | libraries/chain/witness_schedule.cpp:149-390 | A round completes exactly when all places can be filled; who is drawn, how everybody's times move, that virtual time starts over exactly when some lap does not fit, and that the places published are the shuffle of those drawn |
| Schedule.RunSchedule | libraries/chain/witness_schedule.cpp:149-390 | Over any run every event does to the schedule what is stated for it, a round what its draw says; nobody is ever scheduled in the past, and virtual time never goes back except to zero where a lap does not fit |
| Curation.StackedSum | libraries/chain/hive_evaluator.cpp:1900-2000 | Weights that stack on a concave curve add up to at most the curve's value of all shares |
| Curation.StackedDrop | libraries/chain/hive_evaluator.cpp:1900-2000 | Taking a vote away leaves the later ones within the curve |
| Curation.LinearIsCurve | libraries/chain/hive_evaluator.cpp:1900-2000 | The curve in use is one |
| Curation.WeighIs | libraries/chain/hive_evaluator.cpp:1943-1978 | The weight of a vote: as much of its gain as has passed of the reverse auction, then all, then half, then an eighth of it, each rounded down; and the weight counted |
| Curation.LaterWeighsLess | libraries/chain/hive_evaluator.cpp:1943-1978 | Once the reverse auction is over a later vote never weighs more, and during it never less |
| Curation.Cashout.Cast | libraries/chain/hive_evaluator.cpp:1754-2003 | The vote is recorded, one per voter, others untouched, with the weight the voting window and the curve give it on top of all other votes; the total changes by exactly the weight counted less the one stored before, modulo 64 bits, and stays at or above the weights stored while it fits, which it does whenever the curve's value does |
| Curation.Cashout.PayCurators | libraries/chain/database.cpp:2304-2369 | Everyone gets their floor-divided part, and claims and remainder add up to the budget; without curation rewards it is forfeited |
| HbdLimit.MedianOf | libraries/chain/database.cpp:4182-4236 | The median, least and greatest of the feeds |
| HbdLimit.MinPriceIsLeast | libraries/chain/database.cpp:4237-4304 | Exactly the prices from the least one on keep HBD within the limit of the combined value, and the least one is on the limit |
| HbdLimit.WorthCapped | libraries/chain/database.cpp:4237-4304 | At the least price or any higher one the part of HBD is at most the limit, exactly |
| HbdLimit.CapHolds | libraries/chain/database.cpp:4237-4304 | At the capped price the debt ratio, as the node computes and rounds it, is at most the hard limit |
| HbdLimit.HbdPercentIsNearest | libraries/chain/database.cpp:4839-4866 | The ratio is the whole number of hundredths of a percent nearest to the exact one |
| HbdLimit.InHiveIs | libraries/chain/database.cpp:3116-3119 | What HBD are worth in HIVE at a price, rounded down |
| HbdLimit.PushedIs | libraries/chain/database.cpp:4216-4222 | The history holds the newest prices, in order, as many as there are and have room |
| HbdLimit.FeedHistory.Update | libraries/chain/database.cpp:4182-4308 | After every update, for every supply, treasury and median, the ratio is at most the limit; the price is the median of the window exactly when that keeps to the limit, and otherwise exactly on the limit; and likewise for the highest price |
| Vesting.VestingKeepsPrice | libraries/chain/database.cpp:1012-1053 | Buying VESTS gives exactly what the HIVE buys, rounded down, and never lowers what one is worth |
| Vesting.WithdrawingKeepsPrice | libraries/chain/database.cpp:2106-2275 | Cashing in VESTS pays exactly what they are worth, rounded down; it never lowers what one is worth and never takes more than the fund |
| Vesting.ToHiveIs | libraries/chain/include/hive/chain/global_property_object.hpp:85-91 | VESTS are worth exactly their part of the fund, rounded down, or one of HIVE for every 1000 at the fixed price |
| Vesting.ToVestsIs | libraries/chain/include/hive/chain/global_property_object.hpp:85-91 | HIVE buys exactly the same part of the shares as it is of the fund, rounded down, or 1000 VESTS each at the fixed price |
| Vesting.Rate | libraries/chain/hive_evaluator.cpp:1201-1273 | The weekly rate is the least, and never zero, at which thirteen weeks suffice |
| Vesting.SetRoute | libraries/chain/hive_evaluator.cpp:1275-1339 | A route is set, changed or removed exactly when the total stays within 100% and the count within the limit |
| Vesting.DepositsWithin | libraries/chain/database.cpp:2150-2217 | Rounded deposits along the routes never exceed what is withdrawn |
| Vesting.DepositIs | libraries/chain/database.cpp:2150-2217 | A route takes exactly its percentage, rounded down |
| Vesting.CashBacked | libraries/chain/database.cpp:2150-2217 | Cashing in along all routes, each at its moment's price, finds a price every time, keeps the fund backed, and makes no VEST cheaper |
| Vesting.CashEmpty | libraries/chain/database.cpp:2150-2217 | Out of an empty fund nothing is paid along the routes exactly when every deposit is less than the fixed price pays for |
| Vesting.EmptyFundPays | libraries/chain/include/hive/chain/global_property_object.hpp:85-91 | At an empty fund with shares left, 1000 VESTS are paid and the fund is negative |
| Tokens.PartExact | libraries/chain/database.cpp:2106-2275 | After a part the fund is not negative and a VEST is worth no less exactly when there was something in the fund or each amount the part is cashed in by is less than the fixed price pays for; a backed fund stays backed |
| Tokens.PartHasPrices | libraries/chain/database.cpp:2106-2275 | In a backed fund every part of a power-down has its prices |
| Tokens.VestedNoCheaper | libraries/chain/database.cpp:1055-1133 | Vesting never makes a VEST cheaper |
| Tokens.VestedBuys | libraries/chain/database.cpp:1055-1133 | Vesting adds as many shares as the HIVE buys, by what they are worth |
| Tokens.VestedBacked | libraries/chain/database.cpp:1055-1133 | Vesting keeps a backed fund backed |
| Tokens.ClaimedBacked | libraries/chain/hive_evaluator.cpp:2815-2866 | A claim keeps a backed fund backed exactly when it claims no VESTS or something is then in the fund |
| Tokens.BackedToTheEnd | libraries/chain/hive_evaluator.cpp:2815-2866 | Without such a claim a fund backed at the start of a run is backed at its end |
| Tokens.RewardTooSmall | libraries/chain/database.cpp:5487-5524 | The input for which the books are off by the reward |
| Tokens.RewardVestsIs | libraries/chain/database.cpp:1055-1133 | A reward buys the part of all VESTS, pending ones included, that it is of all the HIVE behind them |
| Tokens.BehindIs | libraries/chain/hive_evaluator.cpp:2815-2866 | Claimed VESTS take their part of the HIVE behind all unclaimed ones, and the last claim leaves none behind |
| Tokens.SplitWithin | libraries/chain/database.cpp:2728-2752 | The parts of a block's new HIVE never exceed it |
| Tokens.InflatedIs | libraries/chain/database.cpp:2728-2784 | Each part of a block's new HIVE is its share, rounded down, and the producer's that of what is left |
| Tokens.PrintableIs | libraries/chain/database.cpp:966-1000 | The part of a reward that is paid in HBD is the print rate's, rounded down |
| Tokens.InHbdIs | libraries/chain/database.cpp:3111-3114 | What HIVE is worth in HBD at a price, rounded down |
| Tokens.RequestsCount | libraries/chain/hive_evaluator.cpp:2715-2748 | The counter that limits an account's withdrawals from savings is the number of its open ones |
| Tokens.EscrowsCount | libraries/chain/hive_evaluator.cpp:960-981 | The counter that limits an account's escrows is the number of its open ones |
| Bank.Ledger.Transfer | libraries/chain/hive_evaluator.cpp:1135-1162 | Goes through exactly when covered; HIVE sent to the treasury becomes HBD and both supplies follow |
| Bank.Ledger.AdjustSavings | libraries/chain/database.cpp:5566-5618 | Savings change exactly when they stay non-negative, interest first |
| Bank.Ledger.ToSavings | libraries/chain/hive_evaluator.cpp:2702-2714 | The exact condition and effect |
| Bank.Ledger.FromSavings | libraries/chain/hive_evaluator.cpp:2716-2736 | The exact condition and effect, the withdrawal waiting for its time |
| Bank.Ledger.CancelFromSavings | libraries/chain/hive_evaluator.cpp:2738-2749 | Exactly that withdrawal goes back into the savings it came from |
| Bank.Ledger.PayWithdrawals | libraries/chain/database.cpp:2808-2835 | Exactly what is due is paid, to everybody exactly what is theirs |
| Bank.Ledger.EscrowTransfer | libraries/chain/hive_evaluator.cpp:955-984 | The exact condition, and both assets and the fee are put aside |
| Bank.Ledger.EscrowApprove | libraries/chain/hive_evaluator.cpp:986-1053 | Exactly when an escrow awaits that approval; the second one pays the fee, a rejection refunds everything |
| Bank.Ledger.EscrowDispute | libraries/chain/hive_evaluator.cpp:1055-1074 | The exact condition and effect |
| Bank.Ledger.EscrowRelease | libraries/chain/hive_evaluator.cpp:1076-1133 | Exactly when who, to whom and how much is allowed; an empty escrow is removed and nothing is lost with it |
| Bank.Ledger.ExpireEscrows | libraries/chain/database.cpp:3166-3190 | Exactly the overdue escrows go back, to everybody exactly what is theirs |
| Bank.Ledger.Convert | libraries/chain/hive_evaluator.cpp:2356-2369 | The exact condition and effect |
| Bank.Ledger.PayConversions | libraries/chain/database.cpp:3009-3050 | Exactly the conversions due are paid at the median, and only the supplies follow |
| Bank.Ledger.ConvertCollateral | libraries/chain/hive_evaluator.cpp:2371-2416 | Exactly when HBD may be issued for the collateral without passing the debt limit, and what is issued and locked |
| Tokens.ImmediateIs | libraries/chain/hive_evaluator.cpp:2371-2416 | What half of the collateral buys in HBD at the price raised by the fee, rounded down |
| Bank.Ledger.PayCollaterals | libraries/chain/database.cpp:3053-3095 | Exactly what is due is settled: the worth of the issued HBD is burned, never more than was locked, and the rest goes back |
| Tokens.BurnedIs | libraries/chain/database.cpp:3053-3095 | What the issued HBD are worth, raised by the fee and rounded down, or all that was locked if that is less |
| Tokens.HalfComesBack | libraries/chain/database.cpp:3053-3095 | At an unchanged price at most half of the collateral is burned |
| Bank.Ledger.TransferToVesting | libraries/chain/hive_evaluator.cpp:1164-1199 | The exact condition and effect, at the share price |
| Bank.Ledger.Inflate | libraries/chain/database.cpp:2753-2784 | The supplies grow by exactly what the pools, the producer and the treasury get |
| Bank.Ledger.RewardVests | libraries/chain/database.cpp:1055-1133 | Paid whenever there is a price; the books go off by exactly the reward when it buys no VEST |
| Bank.Ledger.RewardHbd | libraries/chain/database.cpp:966-1009 | HBD as far as it is being printed, the rest HIVE, and the supplies follow |
| Bank.Ledger.ClaimRewards | libraries/chain/hive_evaluator.cpp:2815-2866 | Exactly what is unclaimed can be claimed; VESTS take their part of the HIVE behind them into the fund |
| Bank.Ledger.StartPowerDown | libraries/chain/hive_evaluator.cpp:1201-1273 | The exact condition, and the plan at the weekly rate |
| Bank.Ledger.SetWithdrawRoute | libraries/chain/hive_evaluator.cpp:1275-1339 | The exact condition and effect |
| Bank.Ledger.WithdrawPart | libraries/chain/database.cpp:2116-2275 | Refused exactly when some VESTS in the part have no price; otherwise the part is the least of the rate, what is left of the plan and the VESTS; every route takes its percentage, every destination gets that in VESTS or what they are worth in the fund at that moment, the account what the rest is worth, each rounded down; and VESTS and HIVE are conserved |
| Payouts.PartPaysOff | libraries/chain/database.cpp:2116-2275 | Every deposit and payment of a part, route by route, by what it is worth and not by how it is computed |
| Payouts.NextPartIs | libraries/chain/database.cpp:2122-2139 | A part is the weekly rate, what is left to withdraw or what there is, whichever is least |
| Payouts.PowerDownRuns | libraries/chain/database.cpp:2106-2275 | A power-down goes on at its weekly rate, a week apart, until all that was asked for or all there is has been withdrawn, and is over at that very part |
| Payouts.PowerDownEnds | libraries/chain/database.cpp:2106-2275 | After at most thirteen parts exactly what was asked for has been withdrawn and the power-down is over |
| Bank.Ledger.PowerDowns | libraries/chain/database.cpp:2106-2275 | The parts due are paid one after the other in the order in which they are due, each looked up before the one before it is paid, up to the first that has no price; a backed fund stays backed, never refuses, and a VEST in it is worth no less |
| Parts.AllServed | libraries/chain/database.cpp:2106-2120 | Exactly the accounts whose part was due at the start are served |
| Bank.Ledger.NextDue | libraries/chain/database.cpp:2118-2120 | The account due next after the one served last, by due time and name |
| Bank.Ledger.EndBlock | libraries/chain/database.cpp:4056-4076 | Orders, conversions, power-downs, savings and escrows in turn, each stage exactly what is due; it fails as a whole exactly when a part has no price |
| Bank.Ledger.Apply | libraries/chain/hive_evaluator.cpp:955-2866 | Every operation has exactly the effect stated for it under exactly the stated condition, and none otherwise; what it makes the books differ by, and whether it leaves a backed fund without backing |
| Bank.RunLedger | libraries/chain/database.cpp:6371-6511 | Over any run every operation does to the ledger what is stated for it; supplies equal holdings token by token, but for exactly the rewards too small for a VEST; and a backed vesting fund stays backed unless VESTS with nothing behind them are claimed while it is empty |

## Left out

- 64-bit overflow of token amounts, and the 32-bit overflow of block numbers: amounts and numbers are unbounded. Virtual time, curation weights, route percentages and packed file positions are modelled at their width.
- Merkle trees of more than 2^32 leaves, where the source's counter would wrap.
- What makes a block valid, and signatures: validity is a fixed property of a block and its history. Failures after irreversibility has been updated within a block, the limit on undo history, and the mark on invalid fork items are not modelled.
- Weak pointers to a previous block are alive exactly while that block is in the index; ties between blocks of one number are in order of arrival.
- Replaying without a fork database, which computes irreversibility from confirmed block numbers.
- RunNode: a rise of the irreversible number that is not persisted because the node goes down in the same step (the two heads at different heights) carries no ground.
- PushBlock: that nothing comes in below the irreversible block is stated one way for the cases in which the state moves as well; for an ignored block it is an equivalence.
- GetBlockIds: the log is numbered from 1 and not longer than the chain of the fork database's head; with a longer one, after a fork switch was given up, the source computes the size of its reply below zero.
- Block ids are block values, so an id with number zero and a nonzero hash does not exist.
- Block log positions of 2^48 and more, repair of a damaged log, interrupted generation of artifacts, header flags, and appending without ids. Compression and ids are uninterpreted functions.
- RebuildIndex: with fewer than two blocks the source refuses, and so does the model.
- Parts of the split log are their contents; opening, closing and renaming files is not modelled.
- Median witness properties, majority versions and hardfork votes, the order of account names among equal votes or times, and how the work queue is filled.
- How vote strength follows from mana and how a comment's payout is computed; the reward curve is any monotone concave one. Forum state, beneficiaries and the split of comment rewards.
- The inflation rate and the interest on savings are inputs, as are new HIVE per block and prices; virtual supply is not modelled. HIVE supply is positive where the debt ratio is computed.
- Accounts are numbered in the order of their names, which decides between power-downs due at the same time.
- Delegations, recurrent transfers, account creation and recovery, proposals and the treasury's spending, the null account, smart media tokens, resource credits, virtual operations, and all code before the latest hardfork.
- Delayed votes are an input: direct vote power is vesting less delayed votes.
