# Verified models of six course projects

The repository holds independent programs. This project models the cores of six of them in Dafny and proves what they
promise. Every class below keeps its invariant over every sequence of calls; every protocol is a step machine whose
invariant is proved for every run.

- **Network game** (`NetworkGrid`, `NetworkRules`, `NetworkPaths`, `NetworkBoard`, `NetworkSearch`, `NetworkGames`). The
  board keeps chips, counters and a cache of what every chip sees. The cache is proved equal to a fresh scan after every
  operation, the search for winning networks is proved exact, and the pruned game search is proved to agree with plain
  minimax and to restore the board, although it overwrites its window with replies.
- **Key-value store** (`KvServer`, `KvReplica`, `TwoPhaseCommit`, `KvRuns`, `KvRing`). A server with a second-chance
  cache behaves as a plain map. Replicas log votes and decisions and can be rebuilt at any time. Two-phase commit runs
  over slow, lossy and garbled connections, with crashes and with reads that are not synchronized with it; requests
  take effect exactly if they can, and never get stuck. Consistent hashing keeps a circular list and two maps in step.
- **Sharks and fish** (`OceanRuns`, `RunList`, `OceanEncoding`). Run-length encodings in a linked list, the plain ocean,
  the conversions both ways, and edits that must agree on both and stay maximally compressed.
- **Pintos** (`Scheduler`, `SchedulerRuns`, `Conditions`, `ConditionRuns`, `Division`, `Volume`, `Inodes`, `Arenas`,
  `Malloc`). Threads, semaphores, locks and condition variables on one processor; division of 64-bit integers by a
  32-bit instruction; files on a disk as flat byte arrays; an allocator of blocks in pages.
- **Fast image convolution** (`Convolution`, `ConvolutionLoops`). Padded, flipped, unrolled and vectorized loops against
  four plain ones.
- **Router** (`RipRouter`, `RipNetwork`, `RipRuns`). A network of distance-vector routers with poisoned reverse (section
  3.4.3 of RFC 2453) whose links only come up.

`Basics`, `Rings` and `RowMajor` hold what several of them share.

These promises turn out to hold only under a condition; the code is modelled as it is, and the condition is proved.

- The comment on the second phase of the commit promises repetition until an acknowledgement; the code stops at any
  reply that it can read. The replicas agree if both replies are acknowledgements, and a run shows what happens
  otherwise (`TwoPhaseCommit.ReplicasAndCacheAgree`, `TwoPhaseCommit.GarbledCommitLosesAgreement`).
- The fast convolution stores most pixels and adds to the others, while the reference adds to all. With
  a kernel of odd sides they agree if and only if the stored cells were zero before (`Convolution.AgreeIff`). For a
  kernel with an even side they do not sum up the same things (`Convolution.SameForAllIff`,
  `Convolution.EvenSideDiffers`).
- Signed division rounds toward zero for all operands but one pair (`Division.Sdiv64`).
- A block is large enough if and only if the request does not wrap around (`Malloc.PageCountEnough`,
  `Malloc.WrapsAround`). What `realloc` copies fits if and only if, besides, the old block may fit into one page
  (`Malloc.CopyFits`, `Malloc.CopyOverruns`); what `calloc` returns has room for all if and only if the product fits
  (`Malloc.Allocator.Calloc`, `Malloc.CutProductPasses`).
- `opponentMove` promises an answer to every move. A step move from off the board gets none, exactly if steps are due
  and it is the opponent's turn (`NetworkSearch.MachinePlayer.OpponentMove`, `NetworkGames.StepFromOutside`).
- Reading and writing stay within the file unless there is something to transfer at a negative offset
  (`Inodes.FileSystem.InodeReadAt`, `Inodes.FileSystem.InodeWriteAt`, `Inodes.BeforeTheFile`).
- `sharkFeeding` wraps its coordinates for the test only (`OceanEncoding.Ocean.SharkFeeding`,
  `OceanEncoding.SharkNextDoor`).
- A forwarding entry repeats the column of the neighbour on its port as long as no handler stops at a missing key, which
  a condition on tables and update decides (`RipRouter.Router.HandleRoutingUpdate`, `RipRuns.LateNeighbor`), no
  neighbour is met a second time (`RipRouter.Router.AddNeighbor`, `RipRuns.MeetTwice`), and updates come in on the port
  of their sender. That distances are never too small holds regardless of all three
  (`RipNetwork.Network.NeverUnderReports`).

How the models read:

- Positions of the game board are named by their coordinates. Scores are reals.
- Null keys and values of the store are empty strings; the choice of a cache set and the hash of a key are arbitrary
  functions into their range. A step of the commit protocol is a message sent, handled, lost or garbled, a reply read, a
  timeout, a crash with a rebuild, or one access of a reader. A garbled message is answered with an error.
- A creature is its type and its hunger. `addFish` and `addShark` share their cases in `Add`; the creature and the
  comparison differ.
- `cond_broadcast` is a sequence of signals (`ConditionRuns.Broadcast`).
- The board of the game's description has eleven black chips; it is legal without the one that its two networks do not
  use (`NetworkGames.DiagramLegal`).
- A scheduler step is a stretch of code with interrupts disabled. A thread that wakes up inside `sema_down` looks at the
  semaphore again before anything else happens. The scheduler is a step machine and not a class, because a call that
  blocks returns only after other threads have run.
- Machine integers are integers with their range stated; results that may wrap are reduced explicitly.
- Disk sectors are data or inodes by type. Whether memory is available, whether the free map can be written back and
  which pages the page allocator hands out are arguments.
- Dictionaries of the router are maps, visited in any order. Every update ever sent may reach any router, on any
  port, at any time and any number of times.

## Model

| member | source | states |
|---|---|---|
| NetworkGrid.RayIs | network-game/board/Board.java:384-398 | where a scan stops, all squares before being empty and on the board, is the chip that is seen, or the edge and none is |
| NetworkGrid.VisibilitySymmetric | network-game/board/Board.java:291-308 | the first chip seen in a direction sees back along the opposite direction |
| NetworkGrid.RayAfterPlacing | network-game/board/Board.java:291-308 | a new chip cuts exactly the rays of the chips that it sees, in the directions back to it, and changes no other ray |
| NetworkGrid.RayAfterRemoving | network-game/board/Board.java:320-346 | a removed chip joins the two ends of each line through its square, and changes no other ray |
| NetworkGrid.ExactExists | network-game/board/Board.java:700-745 | every board has a cache of connections that agrees with a fresh scan |
| NetworkGrid.ExactUnique | network-game/board/Board.java:700-745 | and it has no more than one |
| NetworkRules.ClusterTestExact | network-game/board/Board.java:181-202 | the local test around the new chip passes exactly if no three chips of a colour are connected on the whole board afterwards |
| NetworkRules.PlaceKeepsLegal | network-game/board/Board.java:101-108 | placing an allowed chip keeps counts, corners, goals and the group rule in order |
| NetworkRules.TakeKeepsLegal | network-game/board/Board.java:320-346 | taking a chip off keeps the board legal |
| NetworkRules.CanPutBack | network-game/player/MachinePlayer.java:285-286 | a chip taken off a legal board may be put back, so the legality test on unmaking a step move never fails |
| NetworkRules.TakeBack | network-game/player/MachinePlayer.java:228-231 | a chip placed and taken off again leaves the grid as it was |
| NetworkRules.NoGroupOfThree | network-game/README:104-110 | the group rule is that of the description: no chip touches two others of its colour |
| NetworkRules.AdjacentIsOneStep | network-game/board/Board.java:212-223 | the squares that count as touching are the eight one step away |
| NetworkRules.OpenSquares | network-game/README:28-34 | on an empty board each colour may use exactly the squares outside of the corners and of the goal areas of the other |
| NetworkBoard.Board.constructor | network-game/board/Board.java:62-86 | an empty board whose counters, flags and cache agree with it |
| NetworkBoard.Board.NumNeighbors | network-game/board/Board.java:212-223 | the two loops over the 3-by-3 square return the number of neighbours of the colour |
| NetworkBoard.Board.NotGroupOfThree | network-game/board/Board.java:181-202 | the loops decide the local group test |
| NetworkBoard.Board.CanPlaceChip | network-game/board/Board.java:101-108 | the tests in their order decide the rules of placement, on and off the board |
| NetworkBoard.Board.CanMoveChip | network-game/board/Board.java:255-266 | the trial on the board itself decides the rules of a step move, and grid and counters come back as they were; there is an index out of range and no answer exactly if the chip is to come from off the board |
| NetworkBoard.Board.PlaceChip | network-game/board/Board.java:291-308 | grid, counters and cached connections after a placement agree with a fresh scan; a chip that may not be placed changes nothing; an empty chip removes the one that is there |
| NetworkBoard.Board.RemoveChip | network-game/board/Board.java:320-346 | the square is emptied and the cache agrees with a fresh scan of the new grid |
| NetworkBoard.Board.GetConnection | network-game/board/Board.java:384-398 | the scan loop returns the first chip along the direction |
| NetworkBoard.Board.GetConnections | network-game/board/Board.java:369-375 | the eight scans return the first chip in every direction |
| NetworkBoard.Board.FindNetwork | network-game/board/Board.java:432-454 | true exactly if a network of the colour exists, and every visited flag is cleared |
| NetworkBoard.Board.DfsFull | network-game/board/Board.java:464-478 | true exactly if the partial path extends to a network; path and flags come back unchanged; the recursion ends |
| NetworkBoard.Path.Append | network-game/board/Path.java:69-81 | accepts exactly the chips that the tests allow, marks them as visited and notes a finished network |
| NetworkBoard.Path.Pop | network-game/board/Path.java:174-181 | undoes the last append |
| NetworkPaths.TurnTest | network-game/board/Path.java:144-159 | comparing the directions of two lines decides whether the path turns, because leading straight back would revisit a chip |
| NetworkPaths.AppendExact | network-game/board/Path.java:90-132 | on a partial path the tests accept exactly the connected chips that give a longer partial path |
| NetworkPaths.CompleteIsNetwork | network-game/board/Path.java:69-81 | a path that reached the end goal is a network, and a network is such a path |
| NetworkPaths.OneSideSuffices | network-game/board/Board.java:432-454 | a network that starts in the second goal area, reversed, starts in the first one, so one side is enough |
| NetworkPaths.NetworkInCoordinates | network-game/README:28-42 | a chain of six chips or more is a network exactly if its ends lie in the two outer columns, for White, or rows, for Black, and nothing else in an outer one |
| NetworkPaths.FinishThrough | network-game/board/Board.java:464-478 | an unfinished path can be finished exactly through one of the chips that its end sees |
| NetworkSearch.WinScoreOrder | network-game/player/MachinePlayer.java:192-206 | an earlier win is strictly better for the winner, and every win beats every leaf score |
| NetworkSearch.Scale | network-game/board/Board.java:624-634 | the score of a board without a network lies strictly between -1 and 1, and its sign says whom the sums favour |
| NetworkSearch.CandidatesComplete | network-game/player/MachinePlayer.java:221-309 | the loops list every legal move |
| NetworkSearch.PlainIsMinimax | network-game/player/MachinePlayer.java:139-174 | the reference value is the best reply over all legal moves in any order, or the starting score if there is none |
| NetworkSearch.PlainBounded | network-game/player/MachinePlayer.java:139-174 | every value below the root lies within the two starting scores |
| NetworkSearch.ReplyStep | network-game/player/MachinePlayer.java:234-247 | overwriting alpha or beta with the reply keeps the loop in step with the plain search, or ends it beyond the window |
| NetworkSearch.PruningIsSound | network-game/player/MachinePlayer.java:244-247 | a reply at or beyond the other side of the window decides the rest of the loop |
| NetworkSearch.RootIsExact | network-game/player/MachinePlayer.java:88-108 | with the widest window the score is the plain value and the kept move attains it |
| NetworkSearch.NetworkWins | network-game/player/MachinePlayer.java:151-156 | a finished board has a score beyond all undecided ones on the side of the player who has won it; if both have networks that is the player to move |
| NetworkSearch.ForcedWins | network-game/player/MachinePlayer.java:139-174 | the value is a winning score for a player if and only if the player can force a win, or leave the other one without a move, within the depth of the search |
| NetworkSearch.ChosenKeepsForced | network-game/player/MachinePlayer.java:99-103 | a move that attains the value gives away no win that can be forced and enters no loss that can be avoided |
| NetworkSearch.BestIsAtOnce | network-game/player/MachinePlayer.java:192-206 | a win in one move has the best score that there is |
| NetworkSearch.MovesMatter | network-game/README:133-138 | no legal move leaves the chips of the player where they are |
| NetworkSearch.MachinePlayer.constructor | network-game/player/MachinePlayer.java:57-77 | a player on an empty board, with a search depth of at least 1 |
| NetworkSearch.MachinePlayer.Minimax | network-game/player/MachinePlayer.java:139-174 | the score is the plain value inside the window, an upper bound at or below alpha, a lower bound at or above beta; a board with a network has a winning score for who has won; the whole board comes back as it was, on every exit |
| NetworkSearch.MachinePlayer.AddMoves | network-game/player/MachinePlayer.java:221-252 | the loop over add moves ends with a score that tells the plain value, with the board restored |
| NetworkSearch.MachinePlayer.StepMoves | network-game/player/MachinePlayer.java:267-309 | the loops over step moves end with a score that tells the plain value, with the board restored |
| NetworkSearch.MachinePlayer.ChooseMove | network-game/player/MachinePlayer.java:88-108 | the move is legal on the board in and out of turn, and recorded exactly if it may be made, which in turn it always may; the opening is the fixed one; a move that is searched attains the plain minimax value, keeps every win that can be forced, and is as good as a win at once if there is one |
| NetworkSearch.MachinePlayer.MakeMove | network-game/player/MachinePlayer.java:347-370 | a move is recorded exactly if it may be made by the player whose turn it is, and refused otherwise; only a step move from off the board, when steps are due, throws |
| NetworkSearch.MachinePlayer.OpponentMove | network-game/player/MachinePlayer.java:323-325 | the same of a move of the opponent |
| NetworkSearch.MachinePlayer.ForceMove | network-game/player/MachinePlayer.java:336-338 | the same of a move of the player |
| NetworkSearch.MachinePlayer.IsLegalMove | network-game/player/MachinePlayer.java:379-391 | decides legality without changing the board, or throws, exactly for a step move from off the board when steps are due |
| NetworkSearch.OutsideIsIllegal | network-game/board/Board.java:255-266 | a move that throws is never one that the rules allow |
| NetworkGames.TestBoardDecided | network-game/board/Board.java:1042-1066 | on the board of the source's test White has a network and Black has none |
| NetworkGames.TestBoardScore | network-game/player/MachinePlayer.java:151-156 | its score one move into the search is the best for White, whoever is to move |
| NetworkGames.TestBoardLegal | network-game/board/Board.java:1042-1066 | and the board is legal |
| NetworkGames.DiagramNetwork | network-game/README:44-68 | the first network that the description lists is one |
| NetworkGames.DiagramNetworkToo | network-game/README:44-68 | and so is the second one, which crosses itself |
| NetworkGames.DiagramLegal | network-game/README:44-68 | with the eleventh chip left out, the board of the description is legal |
| NetworkGames.DiagramNoNetworks | network-game/README:74-85 | the sequences with a third chip in a goal area or a chip used twice are no networks |
| NetworkGames.DiagramNoTurn | network-game/README:87-90 | nor is the one that does not turn |
| NetworkGames.PlaceAll | network-game/player/MachinePlayer.java:347-370 | a game of twenty placements after which only steps are due |
| NetworkGames.StepFromOutside | network-game/player/MachinePlayer.java:323-325 | after such a game an illegal step move of the opponent gets no answer |
| NetworkSearch.MachinePlayer.ConsiderAdd | network-game/player/MachinePlayer.java:227-247 | the body of the add loop leaves the board as it was and keeps the loop in step with the plain search |
| NetworkSearch.MachinePlayer.StepsFrom | network-game/player/MachinePlayer.java:274-305 | all step moves of one chip, made and unmade, keep the loop in step with the plain search |
| KvServer.KVCache.Get | kvstore/src/kvstore/KVCache.java:63-80 | answers what the set holds; a hit goes to the back of its set with its bit set, and nothing else moves |
| KvServer.KVCache.Put | kvstore/src/kvstore/KVCache.java:99-139 | the key holds the value afterwards; a known key keeps its place, a new one goes to the back, and only a full set loses one entry, by second chance |
| KvServer.KVCache.Evict | kvstore/src/kvstore/KVCache.java:120-131 | the bounded second-chance loop drops exactly one entry, the first unreferenced one or else the first one, and leaves the others in order with the right bits |
| KvServer.KVCache.Del | kvstore/src/kvstore/KVCache.java:149-163 | removes the entry of the key and no other |
| KvServer.EvictedHolding | kvstore/src/kvstore/KVCache.java:120-131 | what the rest of a set holds does not change when an entry is dropped |
| KvServer.KVServer.Put | kvstore/src/kvstore/KVServer.java:45-63 | the server becomes the plain map with the key set, or reports the error of the validation |
| KvServer.KVServer.Get | kvstore/src/kvstore/KVServer.java:74-93 | answers exactly as the plain map would |
| KvServer.KVServer.Del | kvstore/src/kvstore/KVServer.java:102-114 | the server becomes the plain map without the key, or reports that there was none |
| KvReplica.ReplayPrefix | kvstore/src/kvstore/TPCLog.java:114-139 | a log that replays without failure does so for each of its prefixes |
| KvReplica.ReplayAppend | kvstore/src/kvstore/TPCLog.java:114-139 | replaying one more entry acts on what the log before it rebuilt |
| KvReplica.DuplicateDecisions | kvstore/src/kvstore/TPCLog.java:114-139 | a decision after a decision changes nothing that the replay rebuilds |
| KvReplica.HandleKeepsConsistent | kvstore/src/kvstore/TPCMasterHandler.java:127-182 | after every message the log rebuilds the running server, so a crash loses nothing and a rebuild never fails |
| KvReplica.VotesForAccepted | kvstore/src/kvstore/TPCMasterHandler.java:137-154 | a replica votes READY, and logs the request, exactly for a put with a key of 1 to 256 and a value of 1 to 262144 characters and for a delete of a key that is there; otherwise it names the first rule that is broken |
| KvReplica.AbortForgets | kvstore/src/kvstore/TPCMasterHandler.java:165-167 | after an abort no decision applies anything |
| KvReplica.ReadBetween | kvstore/src/kvstore/TPCLog.java:120-139 | a logged read between a request and its commit would keep replay from applying it |
| KvReplica.VoteThenCommit | kvstore/src/kvstore/TPCMasterHandler.java:127-182 | a commit that directly follows a vote of READY applies the request |
| KvReplica.TPCLog.Open | kvstore/src/kvstore/TPCLog.java:28-33 | the server is what the entries on disk rebuild, or an exception is thrown, exactly if their replay fails |
| KvReplica.TPCLog.AppendAndFlush | kvstore/src/kvstore/TPCLog.java:41-44 | the log grows by the entry, and the disk holds all of it |
| KvReplica.TPCLog.RebuildServer | kvstore/src/kvstore/TPCLog.java:114-139 | the replay loop over the server computes what the log means, or fails exactly if that is undefined |
| KvReplica.Execute | kvstore/src/kvstore/TPCLog.java:114-139 | a logged request is carried out on the server |
| KvReplica.TPCMasterHandler.Run | kvstore/src/kvstore/TPCMasterHandler.java:127-182 | log, server and answer follow the replica of the protocol; a vote is READY exactly if the request can take effect, and is on disk then |
| KvReplica.TPCMasterHandler.RunGet | kvstore/src/kvstore/TPCMasterHandler.java:127-182 | a read answers from the server, with an error for a missing key, and leaves log and server alone |
| TwoPhaseCommit.StepInv | kvstore/src/kvstore/TPCMaster.java:242-447 | every step of master, replicas, network and readers keeps the invariant |
| TwoPhaseCommit.RunInv | kvstore/src/kvstore/TPCMaster.java:242-447 | the invariant holds in every state of every run |
| TwoPhaseCommit.CommitNeedsBothVotes | kvstore/src/kvstore/TPCMaster.java:281-318 | as long as a commit is under way to any replica, both have the vote for its request as the last entry of their logs or have carried the request out; all decisions under way are the same |
| TwoPhaseCommit.LogsRebuild | kvstore/src/kvstore/TPCLog.java:114-139 | in every state of every run a replica can be rebuilt from its log, and is what it was |
| TwoPhaseCommit.ReplicasAndCacheAgree | kvstore/src/kvstore/TPCMaster.java:359-372 | outside a commit on the key, both replicas and the cache entry show the committed value, unless the key is doubtful |
| TwoPhaseCommit.ReadsAreCurrent | kvstore/src/kvstore/TPCMaster.java:389-447 | a read answers the committed value, or the new one while its commit is under way, however it interleaves |
| TwoPhaseCommit.AppliedIffLogged | kvstore/src/kvstore/TPCMaster.java:318-345 | when both replies to a commit are in, a replica has the new value exactly if its log ends with the commit |
| TwoPhaseCommit.CleanRunsHaveNoDoubt | kvstore/src/kvstore/TPCMaster.java:318-345 | without a garbled decision no key is ever doubtful |
| TwoPhaseCommit.GarbledCommitLosesAgreement | kvstore/src/kvstore/TPCMaster.java:318-345 | a run in which the master gives up on a commit at an error reply and the replicas differ: repeating stops at any reply, not at an acknowledgement |
| TwoPhaseCommit.HandleMailInv | kvstore/src/kvstore/TPCMasterHandler.java:127-182 | a replica that handles a message keeps the invariant |
| TwoPhaseCommit.CrashInv | kvstore/src/kvstore/TPCLog.java:114-139 | a replica that crashes and rebuilds from its log keeps the invariant |
| TwoPhaseCommit.ReadInv | kvstore/src/kvstore/TPCMaster.java:389-447 | every step of an unsynchronized read keeps the invariant |
| KvServer.HitSurvives | kvstore/src/kvstore/KVCache.java:63-82 | an entry that was hit is not the next one to be evicted, in a set of two or more |
| KvServer.NewSurvives | kvstore/src/kvstore/KVCache.java:121-141 | nor is one that was just put in |
| KvServer.ReplacedSurvives | kvstore/src/kvstore/KVCache.java:110-119 | nor one whose value was replaced, as long as there is one that was not referenced |
| KvRuns.RequestTakesEffect | kvstore/src/kvstore/TPCMaster.java:242-372 | a request whose votes are all answered and whose mail is not garbled, whatever is lost, crashes or is read in between, takes effect exactly if it can, and leaves replicas and cache with what is committed |
| KvRuns.DeleteRemoves | kvstore/src/kvstore/TPCMaster.java:242-372 | such a delete of a key that is there leaves it in neither replica, nor in the cache, nor committed |
| KvRuns.PutStores | kvstore/src/kvstore/TPCMaster.java:242-372 | such a put by the rules leaves its value in both replicas and in the cache |
| KvRuns.RequestCompletes | kvstore/src/kvstore/TPCMaster.java:242-372 | from every reachable idle state every request can be run to its end in that way |
| KvRuns.NeverStuck | kvstore/src/kvstore/TPCMaster.java:320-344 | from every reachable state, whatever was lost, the master can become idle again |
| KvRuns.MailIsLost | kvstore/src/kvstore/TPCMaster.java:320-344 | a crash of the replica, or a loss on the way, leaves the master waiting for a reply that cannot come |
| KvRuns.ReadFindsCommitted | kvstore/src/kvstore/TPCMaster.java:424-443 | a replica that answers gives the read the committed value, or the answer that there is none |
| KvRuns.EmptyRead | kvstore/src/kvstore/TPCMaster.java:424-443 | a read that ends without a value asked both replicas, and each gave no answer or had no value then |
| KvRuns.ReadFillsCache | kvstore/src/kvstore/TPCMaster.java:429-442 | what a read found is in the cache afterwards |
| KvRuns.ReadRefills | kvstore/src/kvstore/TPCMaster.java:418-432 | after an eviction a read that the first replica answers finds the committed value and caches it again |
| KvRing.IsLessThanUnsigned | kvstore/src/kvstore/TPCMaster.java:139-141 | the exclusive-or of three comparisons is the order of the numbers without sign |
| KvRing.IsLessThanEqualUnsigned | kvstore/src/kvstore/TPCMaster.java:150-152 | the same with equality |
| KvRing.OwnerUnique | kvstore/src/kvstore/TPCMaster.java:173-184 | no hash has two owners |
| KvRing.FirstAtOrAbove | kvstore/src/kvstore/TPCMaster.java:173-184 | the first id not below the hash, or else the least id, is the owner |
| KvRing.ReregistrationMovesNothing | kvstore/src/kvstore/TPCMaster.java:88-112 | a slave that registers again under its id moves no key |
| KvRing.JoiningTakesOnlyItsShare | kvstore/src/kvstore/TPCMaster.java:88-112 | a new slave takes over only the hashes that it then owns |
| KvRing.SameIdsSameOrder | kvstore/src/kvstore/TPCMaster.java:521-625 | the ring depends on the set of registered slaves, not on the order of their registration |
| KvRing.SlaveList.InsertBefore | kvstore/src/kvstore/TPCMaster.java:618-624 | the four links keep the ring a ring, with the new node at its place |
| KvRing.SlaveList.AddSlave | kvstore/src/kvstore/TPCMaster.java:541-568 | the ring stays strictly ascending by unsigned id; an id that is there keeps its node |
| KvRing.SlaveList.Seek | kvstore/src/kvstore/TPCMaster.java:550-561 | the walk ends at the first id that is not below, or at the head |
| KvRing.TPCMaster.RegisterSlave | kvstore/src/kvstore/TPCMaster.java:88-112 | list and both maps stay consistent; a new slave joins in order, a known id keeps its place, a surplus slave is ignored |
| KvRing.TPCMaster.FindSlaveAfterLong | kvstore/src/kvstore/TPCMaster.java:173-184 | returns the least id not below the hash, else the least id |
| KvRing.TPCMaster.FindSuccessor | kvstore/src/kvstore/TPCMaster.java:192-214 | returns the cyclic next slave |
| KvRing.TPCMaster.FindReplicas | kvstore/src/kvstore/TPCMaster.java:160-214 | the two replicas are the owner and the next one, and differ as soon as there are two slaves |
| OceanRuns.DecodeConcat | sharks-and-fish/RunLengthEncoding.java:163-212 | decoding distributes over joining lists of runs |
| OceanRuns.CompressedUnique | sharks-and-fish/RunLengthEncoding.java:225-264 | two maximally compressed lists with the same cells are the same list |
| OceanRuns.AddedDecodes | sharks-and-fish/RunLengthEncoding.java:279-430 | the edited runs decode to the ocean with the creature put into the cell if it was empty |
| OceanRuns.AddedCompressed | sharks-and-fish/RunLengthEncoding.java:279-430 | a maximally compressed list stays maximally compressed |
| OceanRuns.AddedSound | sharks-and-fish/RunLengthEncoding.java:279-430 | run lengths stay positive |
| OceanRuns.PlanBoth | sharks-and-fish/RunLengthEncoding.java:306-320 | filling the gap between two runs of the creature is two removals and one overwritten run |
| OceanRuns.PlanNext | sharks-and-fish/RunLengthEncoding.java:321-333 | joining with the next run is one removal and one overwritten run |
| OceanRuns.PlanPrev | sharks-and-fish/RunLengthEncoding.java:334-346 | joining with the previous run is one removal and one overwritten run |
| OceanRuns.PlanAlone | sharks-and-fish/RunLengthEncoding.java:347-354 | a lone cell is one overwritten run |
| OceanRuns.PlanFront | sharks-and-fish/RunLengthEncoding.java:359-381 | the first cell of a longer run goes to the previous run or to a new one |
| OceanRuns.PlanBack | sharks-and-fish/RunLengthEncoding.java:383-405 | the last cell of a longer run goes to the next run or to a new one |
| OceanRuns.PlanMiddle | sharks-and-fish/RunLengthEncoding.java:407-428 | a cell in the middle splits the run in three |
| RunList.DList.AddBefore | sharks-and-fish/DList.java:62-70 | ring and runs with the new node before the given one |
| RunList.DList.AddAfter | sharks-and-fish/DList.java:72-80 | ring and runs with the new node after the given one |
| RunList.DList.AddLast | sharks-and-fish/DList.java:82-90 | ring and runs with the new node at the end |
| RunList.DList.RemoveNode | sharks-and-fish/DList.java:102-142 | ring and runs without the node, at either end and in the middle |
| RunList.DList.SetRun | sharks-and-fish/DListNode.java:88-104 | the run at a position is overwritten |
| OceanEncoding.Wrap | sharks-and-fish/Ocean.java:255-277 | the remainder with the sign of the dividend, corrected, is the coordinate modulo the size |
| OceanEncoding.Ocean.constructor | sharks-and-fish/Ocean.java:54-66 | every cell is empty |
| OceanEncoding.Ocean.CellContents | sharks-and-fish/Ocean.java:134-137 | the type of the cell at the wrapped coordinates |
| OceanEncoding.Ocean.SharkFeeding | sharks-and-fish/Ocean.java:235-242 | the hunger of a shark, a fixed value for other cells, and an index out of range exactly for a shark that is asked for from outside the grid |
| OceanEncoding.SharkNextDoor | sharks-and-fish/Ocean.java:235-242 | a shark in the corner of any ocean, asked for from one ocean further on, is an index out of range |
| OceanEncoding.Ocean.AddFish | sharks-and-fish/Ocean.java:105-110 | an empty cell gets a fish, an occupied one stays, and no other cell changes |
| OceanEncoding.Ocean.AddShark | sharks-and-fish/Ocean.java:120-125 | an empty cell gets a newborn shark, an occupied one stays, and no other cell changes |
| OceanEncoding.Ocean.Put | sharks-and-fish/Ocean.java:212-217 | the same for a creature of any hunger |
| OceanEncoding.RunLengthEncoding.FromOcean | sharks-and-fish/RunLengthEncoding.java:225-264 | the encoding is maximally compressed and decodes to the cells of the ocean |
| OceanEncoding.RunLengthEncoding.EncodeRow | sharks-and-fish/RunLengthEncoding.java:239-255 | the inner loop takes one row into the encoding |
| OceanEncoding.RunLengthEncoding.ToOcean | sharks-and-fish/RunLengthEncoding.java:163-212 | the ocean has the decoded cells, although empty runs and creatures advance the insertion point in different ways |
| OceanEncoding.RunLengthEncoding.Lay | sharks-and-fish/RunLengthEncoding.java:183-194 | creatures fill consecutive empty cells across the ends of rows |
| OceanEncoding.RunLengthEncoding.Skip | sharks-and-fish/RunLengthEncoding.java:176-181 | an empty run moves the insertion point by its length |
| OceanEncoding.RunLengthEncoding.GetEncodedPosition | sharks-and-fish/RunLengthEncoding.java:700-720 | the number of the cell at the wrapped coordinates |
| OceanEncoding.RunLengthEncoding.FindRun | sharks-and-fish/RunLengthEncoding.java:284-293 | the walk ends at the run that contains the cell, with the distance that the later cases expect |
| OceanEncoding.RunLengthEncoding.AddFish | sharks-and-fish/RunLengthEncoding.java:279-430 | the decoded ocean gets a fish if the cell was empty; total length, positive runs and compression are kept |
| OceanEncoding.RunLengthEncoding.AddShark | sharks-and-fish/RunLengthEncoding.java:442-598 | the same with a newborn shark |
| OceanEncoding.RunLengthEncoding.Fill | sharks-and-fish/RunLengthEncoding.java:301-355 | the four cases of a run of one cell implement the edit |
| OceanEncoding.RunLengthEncoding.AtFront | sharks-and-fish/RunLengthEncoding.java:359-381 | the two cases at the beginning of a run implement the edit |
| OceanEncoding.RunLengthEncoding.AtBack | sharks-and-fish/RunLengthEncoding.java:383-405 | the two cases at the end of a run implement the edit |
| OceanEncoding.RunLengthEncoding.InMiddle | sharks-and-fish/RunLengthEncoding.java:407-428 | the split implements the edit |
| OceanEncoding.RunLengthEncoding.Check | sharks-and-fish/RunLengthEncoding.java:606-652 | nothing is reported exactly if the runs are positive, maximally compressed, cover the ocean and have proper hungers |
| OceanEncoding.OceanRoundTrip | sharks-and-fish/RunLengthEncoding.java:163-264 | decoding the encoding of an ocean gives back every cell, with the hunger of sharks |
| OceanEncoding.EncodingRoundTrip | sharks-and-fish/RunLengthEncoding.java:163-264 | encoding the decoding of a compressed encoding gives back every run |
| OceanEncoding.SecondIsRefused | sharks-and-fish/RunLengthEncoding.java:279-598 | a creature in an empty cell stays there; a second one does not change the runs |
| OceanEncoding.AddingCommutes | sharks-and-fish/Ocean.java:105-125 | adding to the encoding and adding to the ocean agree, and the edited runs are the encoding of the new ocean |
| Scheduler.ScheduleInv | pintos/threads/thread.c:498-574 | picking the next thread completes a switch: one thread runs, and the lists are in order |
| Scheduler.DownInv | pintos/threads/synch.c:60-76 | a turn of the loop takes the semaphore or goes to sleep, and keeps the invariant |
| Scheduler.TakeWakes | pintos/threads/synch.c:68-75 | taking a semaphore uses up the wakeup of the thread that takes it |
| Scheduler.TakeLock | pintos/threads/synch.c:192-201 | a lock that is taken had no owner |
| Scheduler.TryDownInv | pintos/threads/synch.c:83-102 | the attempt without waiting keeps the invariant |
| Scheduler.UpInv | pintos/threads/synch.c:108-121 | raising a semaphore wakes the first sleeper and keeps the invariant |
| Scheduler.UpWakes | pintos/threads/synch.c:108-121 | raising a semaphore adds a wakeup for the unit it adds |
| Scheduler.HolderSet | pintos/threads/synch.c:192-201 | setting the holder after the semaphore is down keeps one owner |
| Scheduler.HolderCleared | pintos/threads/synch.c:228-236 | clearing the holder before the semaphore is up keeps one owner |
| Scheduler.ReleasedLock | pintos/threads/synch.c:228-236 | a lock that is released has no owner |
| Scheduler.CreateInv | pintos/threads/thread.c:451-478 | a new thread is blocked and on no list |
| Scheduler.StartInv | pintos/threads/thread.c:231-243 | unblocking puts a thread at the end of the ready list |
| Scheduler.ExitInv | pintos/threads/thread.c:280-297 | an exiting thread leaves the lists in order |
| Scheduler.YieldInv | pintos/threads/thread.c:301-315 | yielding puts every thread but the idle one on the ready list |
| Scheduler.IdleBlockInv | pintos/threads/thread.c:395-415 | the idle thread blocks without a list |
| Scheduler.StepInv | pintos/threads/synch.c:60-236 | every step keeps the invariant |
| Scheduler.RunInv | pintos/threads/synch.c:60-236 | the invariant holds in every state of every run, for any number of threads |
| Scheduler.ListsAreDisjoint | pintos/threads/thread.c:213-315 | the ready list is exactly the ready threads other than the idle one, each once, and no thread is on two lists |
| Scheduler.MutualExclusion | pintos/threads/synch.c:192-236 | a lock has at most one owner, also between the semaphore operation and the update of the holder |
| Scheduler.NoLostWakeup | pintos/threads/synch.c:60-121 | while a semaphore is positive and threads sleep on it, its value is at most the number of woken threads, and one of them is about to run |
| Scheduler.AssertionsHold | pintos/threads/thread.c:231-269 | whom an up unblocks is blocked, and the current thread is running |
| Scheduler.ReadyAdvances | pintos/threads/thread.c:498-505 | a switch moves every ready thread one place forward, and no other step moves it |
| Scheduler.WaitersAdvance | pintos/threads/synch.c:108-121 | raising a semaphore moves every sleeper one place forward, and no other step moves it |
| Scheduler.ReadyThreadRuns | pintos/threads/thread.c:498-574 | in every run a ready thread has the processor after as many switches as its place in the list |
| Scheduler.SleeperWakes | pintos/threads/synch.c:60-121 | in every run a sleeper is ready after as many ups as its place in the list |
| Scheduler.ValueBalance | pintos/threads/synch.c:60-121 | in every run the value is what was there plus the ups minus the completed downs |
| SchedulerRuns.StartMakesReady | pintos/threads/thread.c:202-243 | a thread that is started goes to the end of the ready list, and nothing else moves |
| SchedulerRuns.StartedThreadRuns | pintos/threads/thread.c:231-243 | it has the processor by the time as many switches have happened as threads were ready before it, and one more |
| SchedulerRuns.CreatedWaits | pintos/threads/thread.c:166-202 | a created thread stays blocked, and can be started, until it is |
| SchedulerRuns.ExitedIsGone | pintos/threads/thread.c:281-297 | a thread that exits never runs again, unless its number is given to a new one |
| SchedulerRuns.AlwaysAWayOn | pintos/threads/synch.c:60-236 | in the middle of an operation the running thread can go on with exactly that one; outside of one it can use every semaphore and lock, but for taking a lock that it holds or releasing one that it does not |
| SchedulerRuns.DownSleepsOrTakes | pintos/threads/synch.c:60-76 | without a unit the thread sleeps at the end of the list and the next ready one runs; with one it takes it and, if it is that of a lock, owns the lock alone |
| SchedulerRuns.BalanceSinceNew | pintos/threads/synch.c:44-51 | the value of a semaphore is the one it was made with, plus what was raised and not yet taken |
| SchedulerRuns.UpThenDown | pintos/threads/synch.c:60-121 | raising a semaphore that nobody sleeps on and lowering it again changes nothing |
| SchedulerRuns.NewLockIsFree | pintos/threads/synch.c:175-182 | a new lock has no owner |
| SchedulerRuns.AcquireHolds | pintos/threads/synch.c:192-201 | who acquires a free lock is its holder and may release it |
| SchedulerRuns.ReleaseFrees | pintos/threads/synch.c:228-236 | who releases a lock that nobody waits for leaves it free |
| SchedulerRuns.LockRoundTrip | pintos/threads/synch.c:192-236 | acquiring and releasing a free lock leaves the kernel as it was |
| Conditions.ActInv | pintos/threads/synch.c:288-338 | every step of waiting and signalling threads, with the processor taken away anywhere, keeps the invariant of the condition lists |
| Conditions.KernelInv | pintos/threads/synch.c:60-131 | so does every step of a thread outside of cond_wait and cond_signal |
| Conditions.EnterInv | pintos/threads/synch.c:297-298 | a thread enters the list with a semaphore of its own |
| Conditions.GoOnInv | pintos/threads/synch.c:299-301 | it releases the lock, sleeps, and takes the lock again |
| Conditions.SignalInv | pintos/threads/synch.c:319-321 | a signaller takes the first semaphore off the list, and may then lose the processor |
| Conditions.SignalEndsInv | pintos/threads/synch.c:320-321 | it raises the semaphore, which nobody else is about to raise |
| Conditions.MRunInv | pintos/threads/synch.c:288-338 | every state of every run |
| Conditions.NoSignalLost | pintos/threads/synch.c:299-321 | a thread that was taken off the list, be it between the release and its sleep or asleep, has the processor or is ready, and its semaphore lets it pass; or else the signaller, which is not blocked and holds the lock, is about to raise it |
| Conditions.NoneUnsignalled | pintos/threads/synch.c:299-301 | a thread stays in the list until its condition is signalled, and does not get past its sleep before its semaphore is raised |
| Conditions.SignalTakesFirst | pintos/threads/synch.c:319-321 | a signal takes exactly the first thread off the list, and no semaphore moves yet |
| Conditions.RaiseWakes | pintos/threads/synch.c:320-321 | the raise makes exactly that thread ready if it sleeps, and lets it pass in any case; all other semaphores stay |
| Conditions.ReturnsHolding | pintos/threads/synch.c:301-301 | a thread leaves cond_wait by its own step only, and it is then the only owner of the lock and its holder |
| Conditions.ListAdvances | pintos/threads/synch.c:298-321 | the list moves on at its head with a signal and grows at its end |
| Conditions.WaiterSignalled | pintos/threads/synch.c:331-338 | first come, first served: as many signals as there are threads up to one reach it |
| Conditions.ListByHolder | pintos/threads/synch.c:331-338 | only the holder of the lock changes the list, so the signals of a broadcast go to the threads that were there |
| ConditionRuns.NewCondIsEmpty | pintos/threads/synch.c:259-265 | a new condition has nobody waiting |
| ConditionRuns.EnterQueues | pintos/threads/synch.c:297-298 | who waits is at the end of the list, with a semaphore that is down, and still holds the lock |
| ConditionRuns.WaitReleases | pintos/threads/synch.c:234 | then the lock has no holder |
| ConditionRuns.WaitFrees | pintos/threads/synch.c:235 | then the lock is free, and the first who waits for it is ready |
| ConditionRuns.WaitSleepsOrPasses | pintos/threads/synch.c:300 | the thread sleeps exactly as long as its semaphore was not raised, and passes once it was |
| ConditionRuns.WaitReturns | pintos/threads/synch.c:301 | it returns as the holder of the lock, after a sleep if the lock is taken |
| ConditionRuns.WaitSleeps | pintos/threads/synch.c:288-300 | without a signal a thread has let the lock go and is asleep three steps after it has entered |
| ConditionRuns.WaitEnds | pintos/threads/synch.c:300-302 | a thread that was signalled and finds the lock free has returned with it after three steps |
| ConditionRuns.WakeLetsPass | pintos/threads/synch.c:319-321 | the raise of a signaller lets the thread pass that it took off the list |
| ConditionRuns.Broadcast | pintos/threads/synch.c:336-337 | the loop signals everybody in turn and ends with an empty list |
| ConditionRuns.AllCanPass | pintos/threads/synch.c:336-337 | everybody who waits can pass then |
| ConditionRuns.KernelRun | pintos/threads/synch.c:288-338 | the kernel's part of every run with conditions is a run of the kernel |
| Division.Divl | pintos/lib/arithmetic.c:25-37 | the instruction answers exactly if the quotient fits in 32 bits |
| Division.Nlz | pintos/lib/arithmetic.c:41-73 | the five tests and shifts find the shift that brings the highest bit to the top |
| Division.TwoDigits | pintos/lib/arithmetic.c:106-111 | the two-digit division is exact and its second digit fits in 32 bits |
| Division.Normalized | pintos/lib/arithmetic.c:121-123 | the shifted divisor loses no bit, and its upper half are at least 31 leading bits |
| Division.Estimate | pintos/lib/arithmetic.c:121-124 | dividing by the leading bits gives the quotient or one more |
| Division.DigitShifted | pintos/lib/arithmetic.c:123-123 | halving, dividing and shifting back is division by the leading bits, and does not trap |
| Division.Corrected | pintos/lib/arithmetic.c:124-124 | the remainder test picks the quotient out of the two candidates |
| Division.Udiv64 | pintos/lib/arithmetic.c:77-127 | the floor of the quotient for all 64-bit operands, without a trap unless the divisor is zero |
| Division.SignedQuotient | pintos/lib/arithmetic.c:139-146 | the quotient of the absolute values, with the sign put back, rounds toward zero |
| Division.Sdiv64 | pintos/lib/arithmetic.c:139-146 | rounds toward zero for all operands exactly except the one pair whose quotient is out of range |
| Convolution.OrdersAgree | fast-image-convolution/extra.c:52-81 | the sum over the flipped kernel in one go equals the double sum of the reference |
| Convolution.AgreeIff | fast-image-convolution/extra.c:192-597 | with a kernel of odd sides, fast and reference agree exactly on the outputs whose vector cells were zero |
| Convolution.SameForAllIff | fast-image-convolution/ref.c:5-18 | fast version and reference sum up the same for every image if and only if both sides of the kernel are odd or the kernel is zero |
| Convolution.EvenSideDiffers | fast-image-convolution/ref.c:5-18 | a kernel of two elements for which they do not |
| Convolution.DotResponse | fast-image-convolution/ref.c:13-24 | the answer to an image with a single 1 is the kernel as it stands, around the place of the 1 |
| ConvolutionLoops.Reference | fast-image-convolution/ref.c:10-23 | the four loops add to every pixel the double sum over the kernel as they see it, which for an even side is the kernel moved by one |
| ConvolutionLoops.AddPixel | fast-image-convolution/ref.c:12-21 | the two inner loops add that double sum to one pixel and change no other |
| ConvolutionLoops.SeenCoef | fast-image-convolution/ref.c:5-18 | which element the loops take, and that there is none for the last column and row of an even side |
| ConvolutionLoops.TermFromCenter | fast-image-convolution/ref.c:15-18 | kernel and image are indexed in range, and the summand is that of the flipped kernel |
| ConvolutionLoops.Pad | fast-image-convolution/extra.c:208-252 | the padded image is the image with a border of zeros |
| ConvolutionLoops.PadRow | fast-image-convolution/extra.c:220-246 | one padded row, copied 32, 4 and 1 at a time |
| ConvolutionLoops.PadBlock | fast-image-convolution/extra.c:212-217 | rows above and below the image are zero |
| ConvolutionLoops.Flip | fast-image-convolution/extra.c:254-256 | the kernel back to front |
| ConvolutionLoops.TermAt | fast-image-convolution/extra.c:275-285 | every access is in range, and element i of the flipped kernel meets its cell of the padded image |
| ConvolutionLoops.MulAdd | fast-image-convolution/extra.c:270-272 | one multiplication and addition in four lanes adds the next summand of four pixels |
| ConvolutionLoops.ByRows | fast-image-convolution/extra.c:269-274 | the turns that take a row of the kernel at a time |
| ConvolutionLoops.ByNines | fast-image-convolution/extra.c:60-70 | the turns that take nine elements at a time |
| ConvolutionLoops.FourPixels | fast-image-convolution/extra.c:266-278 | the unrolled turns and the rest compute four pixels, for every kernel |
| ConvolutionLoops.AddOne | fast-image-convolution/extra.c:280-285 | a pixel beyond the vectors is added to what the output held |
| ConvolutionLoops.ConvolveRow | fast-image-convolution/extra.c:261-286 | a row of vectors and of single pixels |
| ConvolutionLoops.Conv2D | fast-image-convolution/extra.c:192-597 | every pixel of the output for every size of image and kernel |
| ConvolutionLoops.RunBoth | fast-image-convolution/extra.c:192-597 | run on equal outputs, the two implementations leave what is said of each; with odd sides they agree if and only if the vector cells were zero |
| RipRouter.WalkStays | rip-router/rip_router.py:44-63 | more links break no walk |
| RipRouter.HeardIsTruth | rip-router/rip_router.py:156-163 | a distance heard from a neighbour, plus one, is the length of a walk through it |
| RipRouter.AnnouncedIsTruth | rip-router/rip_router.py:118-127 | what is announced is true, poisoned or not |
| RipRouter.AnnouncedIsPoisoned | rip-router/rip_router.py:118-127 | the announcement to a neighbour lists every destination but the neighbour, at 100 if the route leads through that neighbour and at its distance otherwise |
| RipRouter.UpdatesGoDirect | rip-router/rip_router.py:128-128 | an update for a neighbour leaves on the link to it |
| RipRouter.NeighborKeeps | rip-router/rip_router.py:171-197 | as long as neighbours are reached directly, no update that comes from its sender touches their entries |
| RipRouter.Router.FindShortestPath | rip-router/rip_router.py:93-106 | the least finite distance of all columns on the lowest port, or a missing key exactly if a column does not list the destination |
| RipRouter.Router.UpdateForwardingTable | rip-router/rip_router.py:171-197 | truth is kept, on whatever port the update came; the entry is no worse than the offer of the sender, exactly unless a missing key stops it, and repeats a column if the port is that of the sender; no change of a distance goes unreported; all other entries stay |
| RipRouter.Router.Recalculate | rip-router/rip_router.py:186-196 | the best of all columns replaces the entry, or the entry goes if none is finite; nothing changes if a column does not list the destination |
| RipRouter.Router.UpdateTables | rip-router/rip_router.py:150-169 | the column repeats the update, with what it leaves out withdrawn; truth is kept; a condition on tables and update decides whether a missing key stops it, and with it whether consistency is kept |
| RipRouter.Router.AddNodes | rip-router/rip_router.py:199-218 | each new destination is listed as announced and gets an entry; all else stays; truth is kept, and consistency if the port is that of the sender |
| RipRouter.Router.SendRoutingUpdate | rip-router/rip_router.py:108-128 | every neighbour that is not a host, and no other, gets the vector meant for it: all destinations but itself, those behind it at 100 |
| RipRouter.Router.DistanceVector | rip-router/rip_router.py:118-127 | the loop builds the announcement with the neighbour left out and its own routes poisoned |
| RipRouter.Router.HandleRoutingUpdate | rip-router/rip_router.py:130-148 | true tables stay true, on whatever port the update comes and whatever happened before; a condition on tables and update decides exactly whether the handler finishes; then the column repeats the update, and a changed distance is announced to every neighbour that is not a host; on the port of the sender consistency is kept exactly if the handler finishes |
| RipRouter.StopsAtWithdrawal | rip-router/rip_router.py:157-161 | in consistent tables it is exactly the withdrawal of a route that some other column fails to list that stops the handler |
| RipRouter.Router.AddNeighbor | rip-router/rip_router.py:44-63 | a new neighbour is listed everywhere and announced, and known distances stay; truth is kept always, and consistency exactly if the neighbour is new |
| RipRouter.MetAgain | rip-router/rip_router.py:52-56 | a neighbour that is met again loses its own distance, while the entry for it says 1 |
| RipRuns.LateWithdrawal | rip-router/rip_router.py:52-56 | a neighbour met after a destination was learned does not list it, so its withdrawal stops the handler |
| RipRuns.LateNeighbor | rip-router/rip_router.py:93-99 | a run from empty tables that ends with a stopped handler |
| RipRuns.MeetTwice | rip-router/rip_router.py:44-63 | a run with two links between two routers that ends with an entry that no column supports |
| RipNetwork.PoisonReaches | rip-router/rip_router.py:122-125 | after a router handled an update meant for it, the column of the sender offers no way to a destination that the sender reached through that router |
| RipNetwork.Network.constructor | rip-router/rip_router.py:9-14 | routers with empty tables tell the truth |
| RipNetwork.Network.LinkUp | rip-router/rip_router.py:37-42 | a link that comes up, also a second one between the same nodes, keeps every table and every update under way true |
| RipNetwork.Network.Discover | rip-router/rip_router.py:44-63 | a router that learns of a link keeps the network true, be the node at its end new or known; it stays consistent exactly if the node is new |
| RipNetwork.Network.Deliver | rip-router/rip_router.py:16-25 | an update that arrives, at any router, on any port, at any time and any number of times, keeps the network true; it disturbs its router exactly if it stops the handler or came on another port than that of its sender; what the sender, if undisturbed, reached through this router when it sent the update, its column does not offer afterwards |
| RipNetwork.Network.NeverUnderReports | rip-router/rip_router.py:27-35 | no entry, no column and no update under way is below the length of a shortest walk, also after stopped handlers, second meetings and detours |
| RipNetwork.Network.EntriesFollowNeighbors | rip-router/rip_router.py:171-197 | in a router that nothing disturbed, an entry is the column value of the neighbour on its port, and a walk from there is one shorter |
| RipNetwork.Network.PacketsFollowWalks | rip-router/rip_router.py:27-35 | a data packet gets a port exactly if a finite distance is known, and the link there is the first of a walk of that length |
| RipNetwork.Network.UpdatesReachNeighbors | rip-router/rip_router.py:128-128 | the updates of such a router leave on a link to the neighbour that they are for |
| Volume.HoldsStays | pintos/filesys/inode.c:46-54 | a file depends on the sectors it owns and on nothing else |
| Volume.CreatedOk | pintos/filesys/inode.c:72-106 | a new file in free sectors is disjoint from all others and reads as zeros |
| Volume.RemovedOk | pintos/filesys/inode.c:163-186 | releasing a file leaves all others as they were |
| Volume.ChunkWrittenOk | pintos/filesys/inode.c:268-314 | a chunk written to its sector is the same chunk written to the flat file, for this file and all others |
| Volume.ByteMoves | pintos/filesys/inode.c:46-54 | every byte of the file after a chunk was written |
| Inodes.FileSystem.Scan | pintos/filesys/free-map.c:27-41 | the first run of free sectors, or none exactly if there is none |
| Inodes.FileSystem.FreeMapAllocate | pintos/filesys/free-map.c:27-41 | the sectors were free and are marked; on failure the map is unchanged |
| Inodes.FileSystem.FreeMapRelease | pintos/filesys/free-map.c:44-50 | exactly the given sectors become free |
| Inodes.FileSystem.InodeCreate | pintos/filesys/inode.c:72-106 | a file of zeros in sectors of its own, or no change |
| Inodes.FileSystem.InodeOpen | pintos/filesys/inode.c:111-142 | at most one inode per file is in memory, and it repeats what the disk says; there is none exactly if memory is short and the file was not open |
| Inodes.FileSystem.InodeRemove | pintos/filesys/inode.c:190-195 | the mark changes nothing on the disk |
| Inodes.FileSystem.InodeClose | pintos/filesys/inode.c:163-186 | the sectors of a removed file come back with the last closer and not before, and were marked as used |
| Inodes.FileSystem.InodeReadAt | pintos/filesys/inode.c:200-250 | returns the bytes of the flat file, as many as there are, or in whole sectors without memory for a buffer; strays from the file or the buffer exactly if there is something to read at a negative offset and the transfer begins |
| Inodes.FileSystem.InodeWriteAt | pintos/filesys/inode.c:257-318 | overwrites the bytes of the flat file and no sector of another file; denied writes change nothing; strays under the same condition |
| Inodes.ChunkBounds | pintos/filesys/inode.c:214-221 | a chunk is left as long as the end is not reached, and it fits into file and sector |
| Inodes.FileSystem.WriteChunk | pintos/filesys/inode.c:284-308 | full sectors and the bounce buffer write the same chunk |
| Inodes.ChunkOnDisk | pintos/filesys/inode.c:207-246 | a chunk of a file lies in one sector, at the offset within it |
| Inodes.BeforeTheFile | pintos/filesys/inode.c:200-318 | a file, and a read and a write before its beginning that stray |
| Inodes.WriteThenRead | pintos/filesys/inode.c:200-318 | what was written is read back, and no other file has changed, unless the write strays |
| Arenas.WithinArena | pintos/threads/malloc.c:284-294 | a block lies within its arena, clear of the header, and its page is found by rounding down |
| Arenas.BlocksDisjoint | pintos/threads/malloc.c:284-294 | different blocks have no byte in common |
| Arenas.FreeCount | pintos/threads/malloc.c:241-252 | the count of free blocks never exceeds the blocks of an arena, and reaches it only if none is in use |
| Arenas.WithArenaOk | pintos/threads/malloc.c:124-146 | a new arena keeps the invariant |
| Arenas.PoppedOk | pintos/threads/malloc.c:148-153 | taking the first free block keeps the invariant |
| Arenas.PushedOk | pintos/threads/malloc.c:238-242 | giving a block back keeps the invariant |
| Arenas.DroppedArenaOk | pintos/threads/malloc.c:241-253 | an arena is given back only with all blocks free, and the assertion on its count holds |
| Arenas.WithBigOk | pintos/threads/malloc.c:105-120 | a big block on pages of its own keeps the invariant |
| Malloc.PageCountEnough | pintos/threads/malloc.c:109-109 | the pages for a big block hold the request if and only if the request does not wrap around |
| Malloc.WrapsAround | pintos/threads/malloc.c:109-109 | a request of 2^32 - 1 bytes gets one page |
| Malloc.Allocator.MallocInit | pintos/threads/malloc.c:71-85 | the seven block sizes |
| Malloc.Allocator.FindDesc | pintos/threads/malloc.c:102-105 | the smallest block size that is large enough |
| Malloc.Allocator.Malloc | pintos/threads/malloc.c:89-154 | a block that was not in use, large enough exactly if the request does not wrap around; no other block moves; the smallest class is used, the head of its free list first, and it fails only without a page |
| Malloc.Allocator.AddArena | pintos/threads/malloc.c:137-146 | the loop puts all blocks of the page on the free list |
| Malloc.Allocator.Free | pintos/threads/malloc.c:218-264 | the block is no longer in use; the bytes of all others stay |
| Malloc.Allocator.DropArena | pintos/threads/malloc.c:241-253 | the page is given back, and no block in use lies on it |
| Malloc.CopyFits | pintos/threads/malloc.c:207-209 | what is copied fits into the new block if and only if the request does not wrap around or the old block fits into one page |
| Malloc.CopyOverruns | pintos/threads/malloc.c:207-209 | the greatest request for a block of three pages is one that does not fit |
| Malloc.Allocator.Realloc | pintos/threads/malloc.c:194-214 | for every request: the copy stays within the new block exactly under that condition; then the common prefix is there and all other blocks keep their bytes; on failure nothing changes |
| Malloc.Allocator.Calloc | pintos/threads/malloc.c:159-175 | the block holds the product of the factors if and only if the product itself does not wrap around; it is cleared, and no other block is |
| Malloc.CutProductPasses | pintos/threads/malloc.c:165-167 | a product that wraps around and passes the test |
| Malloc.Allocator.Memcpy | pintos/threads/malloc.c:209-209 | copies between ranges that do not overlap |

## Left out

- Malloc.Allocator.Realloc: what memory holds after a copy or a clearing that runs over the end of a block; the model stops there
- Inodes.FileSystem.InodeReadAt: what a transfer at a negative offset reads or writes; the model stops there. Offsets so far below zero that the length minus the offset overflows are treated like the others
- OceanEncoding.RunLengthEncoding.AddFish: does not model encodings with a run of length 0, which the constructor from two arrays would accept, but which `check` reports as an error and `nextRun` rules out
- ConvolutionLoops.Conv2D: the rounding of floating-point sums
- Network game: the legality test for an empty chip; the evaluation of boards, which enters as an arbitrary bounded score; text output
- Network game: the loops over rows and columns of step moves are one loop over the numbers of the squares
- Key-value store: sockets, XML, thread pools and files; a crash of the master; removing a slave from the list, which nothing calls
- Key-value store: what happens to a message on the way is a choice of the network, and a reply may be late, lost or garbled, but not forged
- Sharks and fish: the time step of the simulation, the enumeration of runs by `nextRun`, the constructor from two arrays, and the constructor for an empty ocean, whose node lacks the hunger that later reads expect
- Pintos scheduler: priorities, timer statistics, page tables; a page that is reused for a new thread is the same thread number again
- Pintos arithmetic: the remainders, whose results are cut to 32 bits
- Pintos files: the free map's own file, directories, and growing files, which the source does not implement
- Pintos allocator: the list links inside free blocks are kept beside the memory; the locks of the descriptors
- Convolution: threads that share the rows, alignment, and the local copy of the kernel in each thread; the 3-by-3 case is the row-by-row case with all rows unrolled
- Router: links that go down, so re-convergence; minimality of entries, since a destination that was dropped is skipped by later updates; forwarding of data packets beyond the choice of a port
- Image metadata, log parsing, word co-occurrence, drivers and user programs: input and output with easy or external properties
