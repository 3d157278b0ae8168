# A verified model of the game server's bookkeeping

The server keeps a good deal of state in place and by hand: grids that are shifted instead of
rebuilt, weights and counts that are cached, queues shared between threads, references that are
taken and given back, files and player records that are read byte by byte. This project
models those parts in Dafny and proves what they keep.

Code that changes things step by step is modelled by classes and methods with loops. The state is
also described by values, each method is proved to change the value as a function says, and the
properties are proved about those functions, for single steps and for whole runs.

| file | what it models |
|---|---|
| WalkCache.dfy | the grid of walkable tiles that a creature shifts as it walks |
| OtbFormat.dfy, OtbTrees.dfy, OtbLoader.dfy | the node-tree file format, its grammar, the loader and its stack |
| Containers.dfy | containers in containers, cached weights, the iterator, the guard against cycles |
| ItemMove.dfy | moving items and parts of stacks between containers |
| Inventory.dfy | what a player carries: where another item goes, how much of it fits, adding it |
| TaskQueue.dfy | the database task queue: producers, worker, flush and shutdown, lock by lock |
| DecayWheel.dfy | the four buckets that items decay in |
| Trade.dfy | trades between two players, from offer to exchange or cancellation |
| Barter.dfy | the exchange itself: the tests and the two moves between two inventories |
| Money.dfy | paying with coins and from the bank, giving change, adding money |
| ConditionLedger.dfy | what conditions add to speed, skills and stats, and take back |
| ConditionCodec.dfy, ConditionStore.dfy | how conditions are written to bytes and read back |
| DamageList.dfy | the list of hits that a rolled amount of damage is spread over |
| CombatArea.dfy | the patterns of squares that combat hits, turned and reflected |
| Experience.dfy | how the experience of a dead creature is shared out |
| Premium.dfy | premium days |
| ConditionTypes.dfy, ItemTypes.dfy, Wrappers.dfy, Sequences.dfy, Arithmetic.dfy | constants, kinds of items, absent values, lists, numbers |

Where the program does not do what one would expect, the model follows the program and the project
says exactly when it goes wrong:

- a step to the south-east or south-west shifts the walk cache the wrong way, because the distance
  it looks at is never negative (`WalkCache.StepCorrectExactly`, `WalkCache.SouthDiagonalExactly`);
  with a signed distance all eight directions would be right (`WalkCache.SignedMatchesRebuild`);
- mirrored and flipped combat areas are off unless the pattern is square
  (`CombatArea.DiagonalsExactly`, with `CombatArea.TwoInARow` for an input);
- paying from purse and bank together charges part of the sum twice unless the bank cannot pay that
  part again (`Money.PaymentExactly`, `Money.ChargedTwice`);
- sums whose crystal coins wrap around 32 bits are made out wrong, unless they wrap around a multiple
  of 25 times and there is some gold (`Money.MadeExactly`, `Money.MadeWrong`, `Money.RightAgain`);
- money that is added can vanish: when the first thing found for it is an unfinished stack, and
  afterwards, with ever less room and strength, the rest does not get in, because a slot was found
  first, or a full stack became too heavy, or a stack lies where it may not be completed
  (`Inventory.AddExactly`, `Inventory.LostExactly`, `Money.AddedExactly`, with `Money.OverflowLoses`,
  `Money.WeightLoses` and `Money.ContainerLoses` for inputs); the change of a payment never does
  (`Money.ChangeNeverLost`);
- an exchange of goods can give the first item for nothing, as the tests may complete stacks, and do
  not ask whether items may be moved, and the moves do not complete stacks (`Barter.FairExactly`,
  `Barter.GivenForNothing`);
- a shutdown can leave the database worker asleep (`TaskQueue.ShutdownMissesWorkerExactly`,
  `TaskQueue.MissHappens`);
- a damage list totals more than was rolled when one hit of each value does not fit
  (`DamageList.ExactWithDefaultStart`);
- part of a stack can vanish when limits are ignored and the destination is over its capacity
  (`ItemMove.Game.InternalMoveItem`, `ItemMove.VanishingWish`);
- a clock that is set back by a day or more ends a running premium time (`Premium.ClockSetBack`);
- the container called topmost is the one below the topmost, so that the limit on items can be passed
  (`Containers.BelowTopExactly`, `Containers.LimitPassed`).

## Model

| member | source | states |
|---|---|---|
| `WalkCache.Creature.GetWalkCache` | source/src/creature.cpp:329-358 | the answer is the cell for the position, unknown outside the view or on another floor, and always free for the creature's own tile |
| `WalkCache.Creature.UpdateMapCache` | source/src/creature.cpp:296-310 | after a full update every cell of the view holds its tile's walkability |
| `WalkCache.Creature.OnAppear` | source/src/creature.cpp:394-410 | a creature that appears gets a fully rebuilt grid, if it uses one |
| `WalkCache.Creature.OnOwnMove` | source/src/creature.cpp:453-575 | the creature's own move leaves the grid of `Stepped` for one-tile moves on a floor, and a rebuilt grid for teleports and floor changes |
| `WalkCache.Creature.OnOtherMove` | source/src/creature.cpp:576-589 | another creature's move refreshes exactly the tiles it left and entered |
| `WalkCache.StepMatchesRebuild` | source/src/creature.cpp:495-575 | after any one-tile step but the two southern diagonals, every answer is that of a cache rebuilt from scratch, if walkability changed only where the creature was and is |
| `WalkCache.SouthDiagonalBreaks` | source/src/position.h:56-72 | on every southern diagonal step there is a world, untouched by the step, in which an answer comes out wrong |
| `WalkCache.StepCorrectExactly` | source/src/creature.cpp:528-571 | for a one-tile step the shifted cache agrees with a rebuilt one in all worlds if and only if the step is not a southern diagonal |
| `WalkCache.SouthDiagonalExactly` | source/src/creature.cpp:528-571 | away from the map's edge, a southern diagonal step comes out right if and only if two rows of tiles are level in the world at hand |
| `WalkCache.SignedMatchesRebuild` | source/src/creature.cpp:528-571 | with the signed old-minus-new that the test for dy < 0 expects, all eight directions agree with a rebuild |
| `WalkCache.NoticeMatchesRebuild` | source/src/creature.cpp:360-392 | noticing two changed tiles keeps agreement with a rebuilt cache |
| `WalkCache.RunMatchesRebuild` | source/src/creature.cpp:394-589 | in every run of steps, teleports and notices without a southern diagonal, every answer at every moment is the rebuilt one |
| `OtbFormat.RunNode` | source/src/fileloader.cpp:66-103 | reading a printed node inside an open one appends exactly that node, with its property range, to the parent's children |
| `OtbFormat.ParsePrinted` | source/src/fileloader.cpp:55-107 | a file of the grammar is accepted and read as the nodes that its layout says, at the offsets where they lie |
| `OtbFormat.AcceptedWasPrinted` | source/src/fileloader.cpp:55-107 | whatever is accepted is the printed form of some layout |
| `OtbFormat.ParseExactly` | source/src/fileloader.cpp:55-107 | the loader accepts a file if and only if it is in the grammar, and reads it as every layout of it says |
| `OtbTrees.AcceptedRanges` | source/src/fileloader.cpp:55-107 | in an accepted file all property ranges are set, in bounds, in file order and apart, each behind a START, and none holds a bare START or END or ends in a cut escape |
| `OtbTrees.UnescapeEscaped` | source/src/fileloader.cpp:109-124 | taking the escapes out of an escaped string gives the string |
| `OtbTrees.RoundTrip` | source/src/fileloader.cpp:32-124 | what is written for a tree is loadable if and only if the root has properties or children, and is then read back as that very tree |
| `OtbTrees.IdentifierExactly` | source/src/fileloader.cpp:32-45 | a written file is loadable for those who accept its identifier, for everyone if that is four zeros, and for no one else |
| `OtbLoader.Loader.ParseTree` | source/src/fileloader.cpp:55-107 | the stack of nodes that stand inside each other's lists builds the nodes that the machine on values builds, and fails exactly when it does |
| `OtbLoader.Loader.GetProps` | source/src/fileloader.cpp:109-124 | the property bytes are handed out without their escapes, and there are none exactly for an empty range |
| `Containers.WeightIsDeep` | source/src/container.cpp:170-182 | in a good forest the weight taken from the cache is the weight of the item and of everything inside it, added up recursively |
| `Containers.WeightInUnits` | source/src/item.cpp:922-929 | a stack weighs its unit's weight for every piece; an empty stack, and what does not stack, weighs one unit |
| `Containers.TotalIsAllPieces` | source/src/container.cpp:170-182 | the cached total of a container is the sum of those weights over everything that lies in it, at any depth, each item once |
| `Containers.CountShowsInTotals` | source/src/container.cpp:591-671 | when a stack's count has changed by removal or update, the totals of the container and of all around it have changed by so many units, and no others |
| `Containers.AddedIsGood` | source/src/container.cpp:559-589 | putting an item into a container, at any depth, keeps the forest acyclic and every cached weight right |
| `Containers.RemovedIsGood` | source/src/container.cpp:638-671 | so does taking one out |
| `Containers.ReplacedIsGood` | source/src/container.cpp:614-636 | so does replacing one |
| `Containers.UpdatedIsGood` | source/src/container.cpp:591-612 | so does changing an item's kind or count in place |
| `Containers.RunStaysGood` | source/src/container.cpp:554-671 | from a good start, after any sequence of such operations, nothing contains itself and every cached weight is the recursive one |
| `Containers.Item.UpdateItemWeight` | source/src/container.cpp:170-177 | the difference is added to the container and to every container around it, and to nothing else |
| `Containers.Item.AddThing` | source/src/container.cpp:559-578 | the item goes to the front and the weights go up as the value theory says; past the capacity nothing happens |
| `Containers.Item.AddItemBack` | source/src/container.cpp:580-589 | the same at the back of the list |
| `Containers.Item.InternalAddThing` | source/src/container.cpp:754-764 | the same without a look at the capacity |
| `Containers.Item.UpdateThing` | source/src/container.cpp:591-612 | the item gets its new id, and the subtype for a count where the id counts; its weight changes and its containers' with it; for items elsewhere nothing changes |
| `Containers.Item.ReplaceThing` | source/src/container.cpp:614-636 | the old item is out, the new one in its place, and the weights follow both |
| `Containers.Item.RemoveThing` | source/src/container.cpp:638-671 | a part of a stack or the whole item leaves, with its weight; for items elsewhere nothing changes |
| `Containers.Item.QueryAdd` | source/src/container.cpp:328-408 | an item may enter if and only if the container is unlocked and has room, the item is neither the container nor around it, and all limits allow it |
| `Containers.WalkIsLevelOrder` | source/src/container.cpp:786-819 | the walk with a queue gives the items level by level |
| `Containers.WalkOfContainer` | source/src/container.cpp:786-819 | the walk visits everything beneath the container and nothing else, each item once, in level order, and counting along it gives the recursive counts |
| `Containers.Item.HoldingCount` | source/src/container.cpp:250-268 | counting with the iterator gives the recursive count of items, or of containers |
| `Containers.Item.IsHoldingItem` | source/src/container.cpp:270-278 | searching with the iterator finds an item if and only if the container is around it |
| `Containers.ContainerIterator.Advance` | source/src/container.cpp:796-819 | one step of the queue is one step of the walk |
| `Containers.BelowTopExactly` | source/src/container.cpp:94-112 | there is one outermost item around a container; where nothing is around it the walk ends with the container itself, and otherwise with something that lies directly in the outermost |
| `Containers.LimitsMiss` | source/src/container.cpp:380-399 | for a container inside another, the limits count less than the outermost container holds |
| `Containers.LimitPassed` | source/src/container.cpp:380-399 | with two items in the outermost container and a limit of two, a third is within the limits of the inner one |
| `Containers.Item.GetTopParentContainer` | source/src/container.cpp:94-112 | the loop returns the container itself at the top, and otherwise something that lies directly in the outermost |
| `ItemMove.Game.InternalMoveItem` | source/src/game.cpp:1121-1269 | as many pieces leave as route, checks and room foretell, no other container's amounts change, stacks stay between 1 and 100 and items in one place; all of them arrive if and only if it is not so that limits are ignored, the index found lies beyond the capacity and the stack there cannot take them all, and then exactly what it cannot take vanishes |
| `ItemMove.LeavesExactly` | source/src/game.cpp:1147-1203 | with what the container that the move leads to holds, its capacity and its stacks written out: a stack leaves in as many pieces as asked for, with limits at most a hundred for every free place and what the admitted unfinished equal stacks lack, if it has so many; what does not stack leaves if there is a free place; nothing leaves where a check fails |
| `ItemMove.FreePlaceTakesAll` | source/src/container.cpp:424-461 | into a container with a free place a stack goes as a whole, and so does what does not stack |
| `ItemMove.FullTakesNone` | source/src/container.cpp:424-461 | with limits, into a full one without an unfinished equal stack nothing goes |
| `ItemMove.VanishingWish` | source/src/luascript.cpp:7051-7058 | builds a world in which, of eighty pieces moved with limits ignored, thirty vanish |
| `ItemMove.Game.FindDestination` | source/src/game.cpp:1133-1145 | the loop follows containers as the value function says, for sixteen layers, and drops the flags below the first |
| `ItemMove.Game.Transfer` | source/src/game.cpp:1206-1240 | the removal, the merge and the rest as a new stack move as many items as the index allows |
| `ItemMove.Container.QueryMaxCount` | source/src/container.cpp:410-461 | how many may move: all without limits, free slots for what does not stack, and otherwise free slots and what the stack at the index, or all unfinished equal stacks that are admitted one after the other, can take |
| `ItemMove.Container.QueryDestination` | source/src/container.cpp:485-552 | where the item goes, case by case: locked, moved up, into the container at the index, onto the first unfinished equal stack, or to the index |
| `ItemMove.DestinationExactly` | source/src/container.cpp:502-552 | in an open container an item that may be stacked is led to the first equal stack that is not full, and any other to the index asked for |
| `ItemMove.DestinationElsewhere` | source/src/container.cpp:485-530 | a locked container keeps the search to itself, index 254 leads to the container around, and a container that lies at the index is looked into |
| `ItemMove.Container.AddThing` | source/src/container.cpp:559-578 | the item joins this container's amounts and no other's; past the capacity it joins none |
| `ItemMove.Container.RemoveThing` | source/src/container.cpp:638-671 | exactly the amount asked for leaves, and the item leaves the list only when nothing is left of it |
| `TaskQueue.EveryRun` | source/src/databasetasks.cpp:36-107 | in every interleaving tasks leave in the order accepted, each once; the worker sleeps on a non-empty queue only while a producer still owes its notify; after a shutdown nothing is accepted and nothing accepted is left behind |
| `TaskQueue.AcceptedExactly` | source/src/databasetasks.cpp:56-69 | in every run, once no producer is inside the lock, the tasks accepted are, in the order of their addTask, exactly those whose producer took its next step before any stop and before any shutdown set the state |
| `TaskQueue.AllAccepted` | source/src/databasetasks.cpp:56-69 | without a stop or shutdown those are all the tasks that were added |
| `TaskQueue.AllPopped` | source/src/databasetasks.cpp:36-54 | from any such state with nobody in the middle of a call, the worker alone pops every task that was ever added, in that order |
| `TaskQueue.WorkerLeaves` | source/src/databasetasks.cpp:36-54 | after a shutdown a worker that is awake and past the point where it could fall asleep leaves its loop |
| `TaskQueue.ExclusionKept` | source/src/databasetasks.cpp:36-69 | every step keeps that a thread is inside a locked section if and only if it holds the lock |
| `TaskQueue.WakeUpKept` | source/src/databasetasks.cpp:42-67 | every step keeps that no wake-up is lost |
| `TaskQueue.TerminationKept` | source/src/databasetasks.cpp:88-107 | every step keeps that nothing is accepted after termination and that a shutdown drains the queue |
| `TaskQueue.ShutdownMissesWorkerExactly` | source/src/databasetasks.cpp:36-54 | a shutdown can end with the worker asleep if and only if the worker stood between its loop test and the lock when the state was set |
| `TaskQueue.MissHappens` | source/src/databasetasks.cpp:88-107 | from the start there is a run to such a state, and one from there to the end of the shutdown with the worker asleep |
| `DecayWheel.EveryRunIsTidy` | source/src/game.cpp:4839-4950 | after any run an item stands in the buckets or the queue at most once, marked as decaying, with one reference for being listed and one for each release still to come |
| `DecayWheel.DecayTickBounds` | source/src/game.cpp:4931-4942 | the look at which a duration D ends is the n-th with D - 875 < 250 * n < D + 250, and n in closed form |
| `DecayWheel.DecaysOnTime` | source/src/game.cpp:4908-4950 | a queued item that nothing else rewrites is listed exactly once, with one reference, until exactly that look after the cleanup that takes it in; that look decays it and no other does |
| `DecayWheel.StartedDecaysOnTime` | source/src/game.cpp:4839-4857 | the same from startDecay on, whatever else happens to other items meanwhile |
| `DecayWheel.StartWithoutTime` | source/src/game.cpp:4839-4857 | an item without a duration decays at once, if it may, and is not listed; one that may not decay or is decaying already is left alone |
| `DecayWheel.StoppedIsDropped` | source/src/game.cpp:4917-4922 | a listed item that may no longer decay is taken out at the next look at its bucket, its mark taken off, without decaying |
| `DecayWheel.StoppedNeverDecays` | source/src/game.cpp:4917-4922 | in no run does an item that may not decay ever do so |
| `DecayWheel.Game.CheckDecay` | source/src/game.cpp:4908-4950 | looking through a bucket while erasing from it, then cleaning up, does to every item what the value functions say |
| `DecayWheel.Game.CleanUp` | source/src/game.cpp:5141-5169 | releases are carried out once and waiting items enter the bucket for their duration |
| `DecayWheel.Game.StartDecay` | source/src/game.cpp:4839-4857 | an item is marked and queued once, or decays at once without a duration |
| `Trade.EveryRun` | source/src/game.cpp:2749-3140 | from a start where it holds, whatever players do and however items are moved about, links are mutual and never to oneself, nobody without a partner is trading, no two partners are both left accepting, offers are exactly the players' own, each holds one reference, and none is nested in another |
| `Trade.WatchedIsClear` | source/src/player.cpp:1403-1505 | once every player who sees a move has checked the trade, nothing that the move touches is on offer |
| `Trade.RelocatedExactly` | source/src/game.cpp:1195-1232 | what is moved, with all that is inside it, leaves what was around it and comes into what is around its new place, and nothing else changes its place |
| `Trade.TouchedExactly` | source/src/player.cpp:1403-1501 | a move disturbs what is moved, all inside it, all around it, and what it is put into with all around that, and nothing else |
| `Trade.StartKeepsInvExactly` | source/src/game.cpp:2758-2898 | starting a trade keeps all this if and only if it comes to nothing, or the partner is someone else and the item is not yet on offer |
| `Trade.StartRefusedExactly` | source/src/game.cpp:2867-2898 | a start comes to nothing if and only if the player has offered something already, or accepted, or trades with somebody else, or the partner trades with somebody else |
| `Trade.OfferIsAnswered` | source/src/game.cpp:2749-2898 | of two idle players one offers an item and the other answers with a second: both have initiated, each with its item, and both items are on offer and referenced |
| `Trade.BothAccept` | source/src/game.cpp:2900-2999 | when both accept they are idle again and neither item is on offer; if the scripts agree, what the exchange moves changes hands, and nothing otherwise |
| `Trade.WholeTrade` | source/src/game.cpp:2749-2999 | from two idle players through both offers and both acceptances the players and offers are as before, with two releases to come, and a deal that moves both items moves both |
| `Trade.CloseFromEitherSide` | source/src/game.cpp:3098-3140 | it makes no difference which of the two closes the trade |
| `Trade.CloseUndoesStart` | source/src/game.cpp:3098-3140 | closing a trade just started puts everybody and everything back, with one release to come |
| `Trade.CloseUndoesStartAtRelease` | source/src/game.cpp:5141-5152 | once the release is carried out nothing tells that there was a trade |
| `Trade.CloseWaits` | source/src/game.cpp:3098-3103 | a trade whose items are just changing hands is not closed |
| `Trade.ReleaseKeepsInv` | source/src/game.cpp:5148-5152 | after a cleanup an item has a reference from trading if and only if it is on offer |
| `Trade.ExchangeIsAgreed` | source/src/game.cpp:2900-2999 | things change hands only when the second of two linked players accepts, both offer an item and scripts agree; then it is what the exchange of the two inventories moves, between these two and for these offers |
| `Trade.AcceptsExactly` | source/src/game.cpp:2900-2925 | accepting does something if and only if the player has initiated or acknowledged and is in reach; while the partner has not accepted it only marks the player |
| `Trade.AcceptPairsExactly` | source/src/game.cpp:2936-2966 | accepting keeps every gift answered by a whole item for a whole item if and only if nothing is exchanged or the deal is fair |
| `Trade.EveryRunSwaps` | source/src/game.cpp:2943-2966 | if the deals that come up are sound beforehand, in every run nothing is given without the whole of something being returned for it |
| `Barter.FairExactly` | source/src/game.cpp:2943-2966 | both items change hands as wholes, or neither does, if and only if the checks fail, or the first item finds no place, or both find places for all of them, the second in what the player has apart from the first |
| `Barter.ChecksSuffice` | source/src/game.cpp:2945-2963 | for goods that do not stack the checks are enough: what passes them and goes one way comes back the other |
| `Barter.OrdinaryExchange` | source/src/game.cpp:2943-2966 | two things that do not stack, may be moved and hold nothing, between two players without overfull containers, change hands if and only if both have a free place that admits what they are to get, and can bear it; otherwise neither does |
| `Barter.OntoTheOffer` | source/src/game.cpp:1206-1222 | if the first item goes into a container where the second, of the same kind, is the first stack that is not full, what has arrived is added to the second, up to a hundred, and otherwise the second stays as it was |
| `Barter.GivenForNothing` | source/src/game.cpp:2945-2963 | an exchange that passes all checks and moves an axe for no gold |
| `Barter.ArrivesExactly` | source/src/container.cpp:410-552 | a move brings all pieces if and only if the first pocket that the search sees and that offers a place takes them all |
| `Barter.ExchangeItems` | source/src/game.cpp:2943-2966 | the tests and moves, one after the other, bring the amounts of the value function and leave the player without the item given |
| `Barter.TestAddItem` | source/src/game.cpp:1340-1363 | an addition in test mode agrees if and only if a place is found that admits the item and, in a container, the item fits as a whole |
| `Inventory.AddExactly` | source/src/game.cpp:1332-1390 | whether an addition is refused, and how many pieces are lost, follows from the list of unfinished stacks and free places in the order of the search, what is counted as room beside them, and the weight that can be borne: each stack filled drops the first of the list, and the rest goes on with the others |
| `Inventory.LostExactly` | source/src/game.cpp:1365-1390 | an addition loses pieces if and only if the item can be borne, the search ends with an unfinished stack, in a slot or with room for all of the item, and then the rest comes to the end of the list, to a place that is closed, or to one where less than the rest is counted as room for the weight still to be borne |
| `Inventory.AddLands` | source/src/game.cpp:1332-1413 | after an addition everything lies where it did, only equal stacks have grown, to a hundred at most, and what is left of the item lies in front, in a pocket that had a place for it and admits it |
| `Inventory.FreePlaceLosesNone` | source/src/game.cpp:1332-1413 | where all places admit a kind and one of them is free, a stack that can be borne is added, and nothing of it is lost |
| `Inventory.StackIsRefused` | source/src/game.cpp:1340-1356 | a stack is refused that is too heavy, or where no place is free and no equal stack is unfinished |
| `Inventory.SingleIsAdded` | source/src/game.cpp:1332-1413 | what does not stack goes as it is into the first place that admits it and is free, and is refused where there is none that it may go to |
| `Inventory.AddCounts` | source/src/game.cpp:1340-1413 | what is not refused is carried afterwards, but for what is lost |
| `Inventory.FindsFirst` | source/src/player.cpp:2719-2825 | the search finds the first pocket that has a place |
| `Inventory.Player.QueryDestination` | source/src/player.cpp:2719-2825 | the loops over slots, containers and stacks find the place of the value function |
| `Inventory.Player.QueryMaxCount` | source/src/player.cpp:2620-2694 | the loops count the room of the value function |
| `Inventory.Player.InternalAddItem` | source/src/game.cpp:1340-1413 | the item is refused, or added but for what is lost, as the value function says |
| `Trade.Game.PlayerRequestTrade` | source/src/game.cpp:2749-2865 | the request starts a trade as the value function says, or leaves all as it was |
| `Trade.Game.IsAlreadyTraded` | source/src/game.cpp:2818-2852 | the loop finds a clash if and only if the item is on offer, or holds or lies inside something on offer |
| `Trade.Game.InternalStartTrade` | source/src/game.cpp:2867-2898 | players, offers and references change as the value function says, and it fails exactly when it refuses |
| `Trade.Game.PlayerAcceptTrade` | source/src/game.cpp:2900-2999 | accepting changes the two players, the offers and the releases as the value function says for what the two inventories hold; the exchange is carried out on them, what it moves is what is recorded, and the player is left without an item that has gone as a whole |
| `Trade.Game.InternalCloseTrade` | source/src/game.cpp:3098-3140 | closing drops both offers once and sets both players back |
| `Money.PayIsExact` | source/src/game.cpp:1594-1613 | if the coins are worth the sum, purse and tile go down by it but for change that is lost; otherwise all are taken and what is missing is what they fall short by |
| `Money.ChangeNeverLost` | source/src/game.cpp:1602-1609 | whatever room there is, no change is lost, because every stack that it could complete has been taken before |
| `Money.CoinsPayExactly` | source/src/game.cpp:1532-1620 | without the bank, a payment lowers the worth of purse and tile by exactly the sum, change included |
| `Money.BankPaysTheRest` | source/src/game.cpp:1615-1617 | with too few coins all of them go and the bank pays exactly the rest |
| `Money.PaymentExactly` | source/src/game.cpp:1594-1617 | with the bank, a payment takes exactly the sum if and only if the coins are too few or the bank holds less than the sum without the least stacks that stay below it; otherwise it takes that much more |
| `Money.PaidTwice` | source/src/game.cpp:1594-1617 | with the sum in coins and once more in the bank, too much is always taken |
| `Money.ChargedTwice` | source/src/game.cpp:1594-1617 | one gold in the hand and one in the bank: paying one takes both |
| `Money.MadeExactly` | source/src/game.cpp:1622-1663 | the coins made are worth the sum if and only if it is below 4294970000, or its crystal coins fit 32 bits, their worth wraps around a multiple of 25 times, and it is not a multiple of 100 |
| `Money.MadeWrong` | source/src/game.cpp:1628-1629 | for 4294970000 the coins made are worth 4096 too much |
| `Money.WrongUntil` | source/src/game.cpp:1628-1651 | from there on no sum below 107374190001 is made out right |
| `Money.RightAgain` | source/src/game.cpp:1628-1651 | 107374190001 is, by coincidence |
| `Money.AddedOrLost` | source/src/game.cpp:1622-1663 | whatever addMoney makes is with the player, on the tile, or lost |
| `Money.AddedExactly` | source/src/game.cpp:1622-1663 | addMoney adds exactly the sum if and only if no stack that it makes, when its turn comes, loses coins in the way of `Inventory.LostExactly` |
| `Money.OverflowLoses` | source/src/game.cpp:1365-1390 | fifty gold added to a hand with ninety-nine and no other room: forty-nine are lost |
| `Money.WeightLoses` | source/src/game.cpp:1365-1390 | five gold added to a hand with ten, where the player can bear five more but not ninety: all are lost |
| `Money.ContainerLoses` | source/src/game.cpp:1365-1390 | twenty gold added to a container that is full with stacks of ninety-nine and ten, where the player can bear ninety more: there is room for ninety-one, and nineteen are lost |
| `Money.SortedKeeps` | source/src/game.cpp:1545-1585 | the multimap holds exactly the coins found, and the stack worth least comes first |
| `Money.SortedIsStable` | source/src/game.cpp:1545-1585 | among stacks that are worth the same, the multimap has each once and in the order in which they were found |
| `Money.Customer.RemoveMoney` | source/src/game.cpp:1532-1620 | it fails, changing nothing, exactly when the money is not there; otherwise purse, tile and bank change as the value function says |
| `Money.Customer.AddMoney` | source/src/game.cpp:1622-1663 | the loop makes the stacks of the value function and places each of them once |
| `ConditionLedger.EveryRunIsBalanced` | source/src/creature.cpp:1173-1345 | whatever is added, extended, removed or runs out, speed, skills and stats are what they would be without conditions plus what the listed conditions say, and no two listed conditions have the same type, id and sub-id |
| `ConditionLedger.NothingIsLeftBehind` | source/src/creature.cpp:1217-1345 | once all conditions are gone nothing of what they gave is left |
| `ConditionLedger.ExtendKeepsInv` | source/src/condition.cpp:352-375 | a condition added to one of its kind replaces what that one gave |
| `ConditionLedger.SpeedRenewed` | source/src/condition.cpp:1562-1593 | a listed speed condition to which one of its kind is added gives the added speed, or the roll for it, in place of its own, from now on and for the added time, unless it is endless and the added one is not; the creature's speed changes by the difference |
| `ConditionLedger.AttributesRenewed` | source/src/condition.cpp:352-375 | so it is with every skill and stat, but only if the added condition does not end earlier either; otherwise nothing changes |
| `ConditionLedger.TimeRenewed` | source/src/condition.cpp:289-334 | of other conditions the time is renewed under the same terms, and nothing else |
| `ConditionLedger.BeginKeepsInv` | source/src/condition.cpp:402-490 | starting a condition keeps the balance |
| `ConditionLedger.NewIsBegun` | source/src/condition.cpp:402-420 | a condition that is not listed joins the list with its time running from now on, and gives exactly what it says or rolls |
| `ConditionLedger.RefusedStaysOut` | source/src/creature.cpp:1173-1202 | a condition of another kind that refuses to start changes nothing |
| `ConditionLedger.ExecuteIsExact` | source/src/creature.cpp:1327-1345 | executing the conditions keeps, in their order, exactly those that are endless or whose end is not past |
| `ConditionLedger.StartedEndsOnTime` | source/src/condition.cpp:263-287 | a new condition for a time stays listed, however often conditions are executed, exactly until the time is past its start and duration |
| `ConditionLedger.TicksRunDown` | source/src/condition.cpp:137-146 | while a condition stays its ticks run down by the intervals, to zero at least, an endless one's do not, and nothing else of it changes |
| `ConditionLedger.RemoveIsExact` | source/src/creature.cpp:1217-1269 | a removal takes out exactly the conditions it is after, in place, or none if the creature must wait with it |
| `ConditionLedger.StaysExactly` | source/src/creature.cpp:1217-1269 | what stays listed after a removal is everything of another type, or with another id if one is asked for, and everything while a delayed creature must wait with its paralysis |
| `ConditionLedger.HasExactly` | source/src/creature.cpp:1347-1364 | a condition is had if and only if its type is not suppressed and one with that sub-id is listed that is endless or not past its end |
| `ConditionLedger.ParalysisEndsHaste` | source/src/creature.cpp:1026-1033 | a new paralysis ends every haste there is |
| `ConditionLedger.HasteEndsParalysisExactly` | source/src/creature.cpp:1173-1200 | a new haste leaves a paralysis in force if and only if the creature is delayed by its last step, and is then not added unless forced |
| `ConditionLedger.Creature.AddCondition` | source/src/creature.cpp:1173-1202 | the list and the creature change as the value function says |
| `ConditionLedger.Creature.RemoveConditions` | source/src/creature.cpp:1217-1269 | erasing from the list while walking it removes as the value function says |
| `ConditionLedger.Creature.RemoveCondition` | source/src/creature.cpp:1285-1305 | one condition is removed and ended, or kept while the creature must wait |
| `ConditionLedger.Creature.ExecuteConditions` | source/src/creature.cpp:1327-1345 | conditions age and end when their time is over, while the list is walked |
| `ConditionLedger.Creature.HasCondition` | source/src/creature.cpp:1347-1364 | a condition is noticed if and only if it is not suppressed and one with that sub-id is still in time |
| `ConditionLedger.Condition.StartCondition` | source/src/condition.cpp:1536-1550 | starting applies to the creature exactly what the condition then says |
| `ConditionLedger.Condition.EndCondition` | source/src/condition.cpp:497-526 | ending takes exactly that back |
| `ConditionLedger.Condition.AddCondition` | source/src/condition.cpp:1562-1593 | extending takes back what the condition said and applies what it now says |
| `ConditionCodec.RoundTrip` | source/src/condition.cpp:53-261 | a condition of any class, written and read back, is the same condition, with what follows left to be read |
| `ConditionCodec.LoadSaved` | source/src/iologindata.cpp:308-321 | what is saved of a list of conditions is loaded again: every persistent one and no other, in reverse order |
| `ConditionCodec.WhichComeBack` | source/src/condition.cpp:271-282 | of a list that is saved and loaded exactly those conditions come back that end and have the default id or that of combat |
| `ConditionCodec.TicksAreTheIntervals` | source/src/condition.cpp:1120-1147 | a damage condition comes back with the sum of its intervals for ticks |
| `ConditionCodec.CreatedBack` | source/src/condition.cpp:212-261 | the common fields are read back into a new condition of the right class |
| `ConditionCodec.ClassesExactly` | source/src/condition.cpp:148-210 | every type has exactly the class that the switch gives it, with the values that its constructor sets, and other types have none |
| `ConditionCodec.AttributesBack` | source/src/condition.cpp:377-400 | all skills and stats come back in their places |
| `ConditionCodec.DamageBack` | source/src/condition.cpp:1120-1163 | the intervals come back in order |
| `ConditionCodec.SpeedBack` | source/src/condition.cpp:1500-1534 | speed and formula come back |
| `ConditionCodec.LowestFirst` | source/src/fileloader.h:166-171 | numbers are written lowest byte first, negative ones as their 32-bit patterns |
| `ConditionCodec.HeaderLies` | source/src/condition.cpp:113-129 | the tags and values of the common fields stand at fixed places |
| `ConditionCodec.SpeedLies` | source/src/condition.cpp:1516-1534 | so do those of a speed condition |
| `ConditionCodec.DamageLies` | source/src/condition.cpp:1149-1163 | those of a damage condition stand at fixed places, with thirteen bytes for each interval, in order |
| `ConditionCodec.IntervalIs` | source/src/condition.cpp:1149-1163 | an interval is written as its time left, its value and its interval |
| `ConditionCodec.AttributesLie` | source/src/condition.cpp:387-400 | those of an attribute condition stand at fixed places, five bytes for each skill and then each stat |
| `ConditionCodec.RegenerationLies` | source/src/condition.cpp:721-736 | those of a regeneration condition stand at fixed places |
| `ConditionCodec.OutfitLies` | source/src/condition.cpp:1643-1649 | an outfit is written as its thirteen bytes |
| `ConditionCodec.LightLies` | source/src/condition.cpp:1783-1799 | those of a light condition stand at fixed places: colour, level, ticks, interval |
| `ConditionCodec.SoulLies` | source/src/condition.cpp:858-938 | both soul conditions write the same: the gain first, the ticks behind it |
| `ConditionCodec.StaminaLies` | source/src/condition.cpp:1005-1015 | a stamina condition writes its gain as two bytes first, then its ticks |
| `ConditionStore.Condition.Serialize` | source/src/condition.cpp:113-129 | what is appended to the stream is the condition's bytes |
| `ConditionStore.Condition.Unserialize` | source/src/condition.cpp:53-111 | reading property after property ends where, and with what, the value function says, also for broken input |
| `ConditionStore.Condition.CreateCondition` | source/src/condition.cpp:148-261 | a condition is created exactly when the common fields can be read and the type has a class |
| `ConditionStore.SaveConditions` | source/src/iologindata.cpp:908-915 | the stream holds the persistent conditions, each closed by an end mark |
| `ConditionStore.LoadConditions` | source/src/iologindata.cpp:308-321 | the loop loads what the value function says, for any bytes |
| `ConditionStore.SaveAndLoad` | source/src/iologindata.cpp:908-915 | what has been saved of a player's conditions is loaded again: every persistent one and no other, in reverse order |
| `ConditionStore.PropStream.Read32` | source/src/fileloader.h:104-113 | a number is read, lowest byte first, or nothing happens |
| `DamageList.GenerateDamageList` | source/src/condition.cpp:1449-1467 | the loop ends; the list falls, uses every value from start to 1, keeps to its schedule after each value, and totals the amount or, if larger, the sum of one hit of each value |
| `DamageList.ExactTotal` | source/src/condition.cpp:1449-1467 | the total is the amount if and only if one hit of each value fits into it |
| `DamageList.ExactWithDefaultStart` | source/src/condition.cpp:1211-1236 | with the default start that is so for amounts up to 760, for 780, and for no other |
| `DamageList.ConditionDamage.Init` | source/src/condition.cpp:1211-1236 | the condition gets the negated list of the rolled amount, unless it has one already |
| `DamageList.FirstHitExactly` | source/src/condition.cpp:1220-1226 | the first hit is the given start, at most the greatest damage, or without a start the least number of which twenty make up the amount |
| `DamageList.ConditionDamage.GetTotalDamage` | source/src/condition.cpp:1393-1405 | the total reported is that of the hits, whichever kind of damage it is |
| `DamageList.HalfIsTruncated` | source/src/condition.cpp:1393-1405 | the midpoint that is reported for an empty list lies halfway, rounded towards the minimum |
| `CombatArea.QuarterTurns` | source/src/combat.cpp:1273-1321 | the patterns for east, south and west are the one before them turned by a quarter, and a fourth turn gives north again |
| `CombatArea.RotationTurnsOffsets` | source/src/combat.cpp:1273-1321 | a rotation turns every offset from the centre and hits nothing else |
| `CombatArea.TargetInBounds` | source/src/combat.cpp:1247-1318 | every write of a copy is inside the output |
| `CombatArea.MirrorExactly` | source/src/combat.cpp:1255-1263 | mirroring reflects the pattern if and only if it is square or empty |
| `CombatArea.FlipExactly` | source/src/combat.cpp:1264-1272 | flipping does so too |
| `CombatArea.SouthEastExactly` | source/src/combat.cpp:1452-1480 | the south-east pattern is the south-west one mirrored, and the north-west one turned about if and only if that is square or empty |
| `CombatArea.DiagonalsExactly` | source/src/combat.cpp:1452-1480 | the four diagonal patterns are each other's reflections if and only if the list they come from is square or hits nothing |
| `CombatArea.TwoInARow` | source/src/combat.cpp:1452-1480 | for a list of one row of two squares they are not |
| `CombatArea.CopyArea` | source/src/combat.cpp:1242-1322 | the nested loops leave the transformed pattern and its centre in the output |
| `CombatArea.CreateArea` | source/src/combat.cpp:1324-1355 | a list of rows becomes the pattern of its ones and threes, centred at its last two or three |
| `CombatArea.PatternExactly` | source/src/combat.cpp:1324-1355 | in terms of the list alone, a square is hit if and only if its value is one or three, and the centre is the place of the last two or three, or the first corner |
| `CombatArea.WaveCovers` | source/src/combat.cpp:1382-1415 | a wave covers in each row exactly the squares within its half width of the caster's line |
| `CombatArea.AreaCombat.SetupArea` | source/src/combat.cpp:1357-1380 | the four directions hold the list's pattern, each a quarter turn on |
| `CombatArea.AreaCombat.SetupWave` | source/src/combat.cpp:1382-1415 | the four directions hold the wave, each a quarter turn on |
| `CombatArea.AreaCombat.SetupExtArea` | source/src/combat.cpp:1452-1480 | the four diagonals hold the pattern, mirrored, flipped and both |
| `CombatArea.AreaCombat.GetList` | source/src/combat.cpp:1211-1240 | the tiles hit are exactly those in sight that the chosen pattern covers around the target, each once, last in reading order first, with their coordinates in 16 bits |
| `CombatArea.Facing` | source/src/combat.h:206-241 | the direction points towards the target, sideways first without diagonals, and south at oneself |
| `Experience.GainIsTheShare` | source/src/creature.cpp:979-1002 | a share is the largest whole number not above the attacker's part of what was lost |
| `Experience.NeverMoreThanLost` | source/src/creature.cpp:634-670 | whoever is there to receive, no more is handed out than was lost |
| `Experience.ShortByLessThanAttackers` | source/src/creature.cpp:634-670 | if all attackers are there, less than one point for each of them is withheld |
| `Experience.Creature.ShareExperience` | source/src/creature.cpp:634-666 | every receiver's share falls to the leader of the party it shares with or else to itself, each entry of the map is the sum of the shares that fall to it, and the total keeps both bounds |
| `Experience.Creature.GetDamageRatio` | source/src/creature.cpp:979-997 | the loop finds the attacker's part of all damage |
| `Experience.Creature.AddDamagePoints` | source/src/creature.cpp:1004-1024 | positive damage is added for its attacker, and only that |
| `Premium.OnlyTheLastUpdateCounts` | source/src/game.cpp:5262-5290 | a running account updated at any times that do not go back is left as one update at the last of them would leave it |
| `Premium.TwoUpdatesAreOne` | source/src/game.cpp:5271-5284 | an update in between changes nothing, so no part of a day is lost |
| `Premium.OtherwiseTheFirst` | source/src/game.cpp:5267-5289 | an account not started starts at the first update; without days, or with endless ones, only its stamp is wiped |
| `Premium.ClockSetBack` | source/src/game.cpp:5272-5276 | a clock set back by less than a day changes nothing; set back by more, it ends the premium time |
| `Premium.Account.UpdatePremium` | source/src/game.cpp:5262-5294 | the account changes as the value function says, and is saved if it has changed |

## Left out

- Scripts, client messages, spectators, magic effects: taken as absent, or as yes-or-no answers given to the method that asks them.
- Database, XML, configuration, sockets, timers: the text of queries and the loading of settings are not part of this model.
- 32-bit overflow of weights, speeds, skills, damage totals and durations; the places where a width decides something (item counts, `addMoney`, condition fields, positions in the walk cache) are modelled with it.
- Floating-point rounding: ratios and rotations are exact; formulas with floats (speed formulas, percentages of skills and stats) are arbitrary results given to the method.
- Containers: depots, inboxes, browse fields and reward containers, which override their parents or skip weights; the fluid or number of charges that a subtype may stand for; notifications.
- Containers.Item.ReplaceThing: the replaced item loses its parent before its weight is taken off, where the program does so afterwards; the outcome is the same.
- ItemMove: exchanges of two items, which only player slots ask for, the check against a traded item, paginated containers, items that are cleaned up while moving.
- ItemMove.Container.QueryMaxCount: what queryAdd looks at besides room and locks is an answer given to the method.
- Inventory: what equipment, scripts, locks and limits on contents say of a place is one answer that may depend on all that is carried; capacities from 254 on, where an index has another meaning; reward containers and pagination; limits of 32 bits on amounts and weights.
- Barter.ExchangeItems: what arrives is counted and not put in place, and only the player's own side is seen to lose what it gives; items that may not be removed at all are not part of it (the program's pickupable items all may).
- DecayWheel: the other ways into the queue, and clearing an item's decaying mark while it is listed; what an item turns into is queued by startDecay like any other item.
- DecayWheel.Game.CleanUp: imbued items and creatures waiting for release, which the same cleanup handles.
- Trade: the text and order of messages; whether a player is in reach, which is asked and answered.
- Trade.Game.PlayerAcceptTrade: whether the partner is in reach and the scripts agree are yes-or-no answers.
- Trade.Game.PlayerRequestTrade: distances, sight, limits of the client and the hundred-item limit are one yes-or-no answer.
- Trade.Guard: that players who offer something see moves that touch it is taken from the program's closing a trade whose item is more than a step away.
- Money: walking the containers for coins (see Containers for such walks); coins that may not be removed; stacks that are completed on the tile, of which only the worth is kept.
- Inventory.LostExactly: asks that items of a kind weigh the same, no two pockets are one place, and what places say of an item does not depend on counts; so does Inventory.AddExactly.
- Money.AddedExactly: asks the same, for coins, and a sum below 4294970000; from there on see Money.MadeExactly.
- ConditionLedger: the defence flag of attribute conditions, effects of the other kinds of conditions, conditions removed by combat.
- ConditionCodec: percentages, the defence flag and the owner, which the program does not write either; more skills or stats than there is room for, where reading is not defined.
- CombatArea: the round area, which comes from a table of 13 by 13 numbers.
- CombatArea.AreaCombat.GetList: the positions of the tiles are given; tiles that are missing are not created.
- CombatArea.CreateArea: asks for a list of whole rows, as the callers give; other lists would be written out of bounds.
- DamageList: rounding of the averages, which are floats in the program, and the end time.
- Experience: the different formula of a player killed by a player, and what a recipient does with its share.
- Premium: times more than 2^31 days from the epoch.
- TaskQueue: the query itself, callbacks and the join of the thread.
