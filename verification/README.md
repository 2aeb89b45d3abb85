# Verified model of four small in-memory engines

This project models, in Dafny, the core of four programs of one repository
and proves what they promise:

- **Stock reservation** (`inventoryManagement.cpp`, module `Inventory`). An
  `InventoryManager` holds three maps: products with their available count,
  orders, and blocked (reserved) stock. `createOrder` checks every line item
  against the count before the order and reserves all of them or none;
  `confirmOrder` turns a pending reservation into permanent consumption; the
  expiry path `releaseBlockedInventory` returns a pending reservation to
  stock and erases the order. The operations are stated on a value
  (`Ledger`, with `AfterCreateOrder`, `AfterConfirmOrder`, `AfterRelease`),
  and the class's methods, which loop over the line items as the source
  does, are proved to end in exactly those states. The lemmas prove
  all-or-nothing reservation, per-product conservation of available plus
  blocked stock, exact consumption on confirm, non-negativity under distinct
  ids and non-negative quantities, and that once an order is settled
  (confirmed, or released and erased) neither confirm nor expiry acts on it again. This holds whatever
  is done to other order ids in between. Creating an order under the same
  id re-opens it.
- **Task allocation** (`main.go`, module `TaskAllocation`). A
  `TaskAllocator` keeps agents and a logical clock. `PickAgent` is the
  selection loop: it is proved to return the agent with room, fewest active
  tasks, then oldest `LastAssigned`, then earliest index, and -1 exactly when
  every agent is full. `AssignOneTask`, `CompleteTask` and `AddAgent` keep
  `0 <= ActiveTask <= Capacity`.
- **Snake and ladder** (`snakeandladder.cpp`, module `SnakeAndLadder`).
  Classes `Player`, `Board` and `Game`. `NextPosition` is one turn (stay on
  an overshoot past 100, otherwise at most one jump, snake before ladder);
  `PlayRound` is one pass of the game loop over the players with the rolls
  as input. With the board `setupBoard` lays out and die rolls in 1..6, a
  player never leaves squares 0..100.
- **Topic queue** (`inmemoryqueue.cpp`, module `TopicQueue`). A
  `MessageQueue` with a FIFO and a subscriber list per topic. A callback is
  a subscriber id and each call `callback(message, topic)` is a `Delivery`
  appended to a log. Publishing drains the topic at once, so every queue is
  always empty, and each message reaches every subscription of its topic in
  subscription order.

Points where the model follows the code rather than a cleaner design:

- Registering a product id twice overwrites the first entry.
- Reading a product through `operator[]` inserts a zero-count entry. A
  failed `createOrder` therefore leaves zero-count entries for the unknown
  ids it checked, up to the failing item (`CreateOrderAllOrNothing`).
- An unknown product reads as -1. An expired order is erased, not kept with
  an "expired" status. A confirmed order stays with `confirmed = true`.
- There are no typed errors. The boolean results of `CreateOrder`,
  `ConfirmOrder` and `ReleaseBlockedInventory` stand for which message the
  source prints.
- `createOrder` with an order id already in use overwrites that order, as
  the source does. This holds whether the order is pending or confirmed, and
  a settled order becomes pending again (`ReusedIdReopens`). When the
  overwritten order was still pending, its reserved stock stays blocked for
  good. Confirm and expiry only ever walk the items of the order now stored
  under the id, so nothing returns or consumes the earlier reservation
  (`OverwriteStrandsReservation`,
  `FirstReservationStrandedByOverwrite`).
- `createOrder` indexes the quantities with the positions of the product
  ids. The model requires at least as many quantities as product ids. Extra
  quantities are stored with the order and never read.
- Checks are per line item against the count before the order. Two lines
  for the same product can together take more than is available and drive
  the count negative (`DuplicateLineItemsOversell`).

## Model

| member | source | states |
|---|---|---|
| `Inventory.InventoryManager.constructor` | inventoryManagement.cpp:23-28 | a manager starts with no products, no orders and no blocked stock |
| `Inventory.InventoryManager.CreateProduct` | inventoryManagement.cpp:31-35 | the entry for the id becomes the new name and count, replacing any earlier one; orders and blocked stock are untouched |
| `Inventory.InventoryManager.GetInventory` | inventoryManagement.cpp:37-43 | the stored count for a known id and -1 for an unknown one, read without changing anything |
| `Inventory.InventoryManager.CreateOrder` | inventoryManagement.cpp:45-68 | succeeds exactly when every line item fits the count before the order, and the new state is the one `AfterCreateOrder` gives |
| `Inventory.InventoryManager.CheckLineItems` | inventoryManagement.cpp:47-54 | the check answers whether all items fit; the only change is default entries for the ids read, up to the first failing item |
| `Inventory.InventoryManager.BlockLineItems` | inventoryManagement.cpp:57-60 | every item's quantity is subtracted from its count and added to its blocked amount |
| `Inventory.InventoryManager.ConfirmOrder` | inventoryManagement.cpp:70-81 | takes effect exactly for a pending order, and the new state is the one `AfterConfirmOrder` gives |
| `Inventory.InventoryManager.ReleaseBlockedInventory` | inventoryManagement.cpp:83-94 | takes effect exactly for a pending order, and the new state is the one `AfterRelease` gives |
| `Inventory.ShortfallFrom` | inventoryManagement.cpp:49-54 | the index where the check loop stops: every earlier item fits, and the item there does not, unless all fit |
| `Inventory.FirstShortfall` | inventoryManagement.cpp:49-54 | the first item that does not fit; it equals the number of items exactly when all fit |
| `Inventory.AfterCreateOrder` | inventoryManagement.cpp:45-68 | the state after createOrder; well-formed orders stay well-formed |
| `Inventory.AfterConfirmOrder` | inventoryManagement.cpp:70-81 | the state after confirmOrder: available stock and the set of order ids do not change, and an order that exists ends confirmed |
| `Inventory.AfterRelease` | inventoryManagement.cpp:83-94 | the state after the expiry path: a pending order is removed from the orders, any other order stays |
| `Inventory.TouchAllAt` | inventoryManagement.cpp:50 | reading counts through `operator[]` adds only the ids read and changes no product's name or count |
| `Inventory.ShiftStockAt` | inventoryManagement.cpp:57-58 | after the stock loop each product's count is its old count minus (or plus) the total its line items ask, with its name kept |
| `Inventory.ShiftBlockedAt` | inventoryManagement.cpp:59 | after the blocked loop each product's blocked amount is its old amount plus (or minus) the total its line items ask |
| `Inventory.CreateOrderAllOrNothing` | inventoryManagement.cpp:47-67 | when an item does not fit, orders and blocked stock are unchanged and every product keeps its name and count; new entries are only the checked ids |
| `Inventory.CreateOrderReserves` | inventoryManagement.cpp:56-61 | when all items fit, each product's demand leaves its count and joins its blocked amount, and the order is stored unconfirmed |
| `Inventory.CreateOrderConserves` | inventoryManagement.cpp:45-68 | available plus blocked stock of every product is the same after createOrder, whether it succeeds or not |
| `Inventory.CreateOrderKeepsStockNonNegative` | inventoryManagement.cpp:49-59 | with distinct ids and non-negative quantities, non-negative counts and blocked amounts stay non-negative |
| `Inventory.DuplicateLineItemsOversell` | inventoryManagement.cpp:49-58 | two lines for the one available unit of a product both pass the check and the count ends at -1 |
| `Inventory.ConfirmConsumes` | inventoryManagement.cpp:72-76 | confirm leaves available stock alone, lowers available plus blocked stock by exactly the order's demand, and marks the order confirmed |
| `Inventory.ReleaseRestores` | inventoryManagement.cpp:86-91 | release returns the order's demand to the count, keeps available plus blocked stock, and erases the order |
| `Inventory.ConfirmTwiceIsConfirmOnce` | inventoryManagement.cpp:72-79 | a second confirm of an order changes nothing |
| `Inventory.ReleaseAfterConfirmIsNoOp` | inventoryManagement.cpp:86-93 | after a confirm, the expiry path changes nothing |
| `Inventory.ConfirmAfterReleaseIsNoOp` | inventoryManagement.cpp:72-80 | after a release, a confirm finds no order and changes nothing |
| `Inventory.ResolvedIsFinal` | inventoryManagement.cpp:72-93 | on a confirmed or absent order, both confirm and the expiry path leave the ledger unchanged |
| `Inventory.ResolvedStaysResolved` | inventoryManagement.cpp:45-94 | creating, confirming or releasing a different order id keeps a confirmed order confirmed and an absent order absent |
| `Inventory.ReusedIdReopens` | inventoryManagement.cpp:61 | a successful createOrder under an order id leaves that order pending, even if it had been confirmed or released |
| `Inventory.OverwriteStrandsReservation` | inventoryManagement.cpp:59-91 | after a pending order is overwritten and the new order expires, every blocked amount is back to its value before the overwrite, and the order id is gone |
| `Inventory.FirstReservationStrandedByOverwrite` | inventoryManagement.cpp:59-91 | when an order is created, overwritten under the same id, and the second order expires, every blocked amount ends at its value before the first order plus the first order's demand, and no order under the id remains to release it |
| `TaskAllocation.TaskAllocator.constructor` | main.go:42-45 | an allocator starts with no agents and the clock at 0 |
| `TaskAllocation.TaskAllocator.AddAgent` | main.go:47-56 | appends an agent with no active task and LastAssigned 0; a capacity <= 0 becomes 2 |
| `TaskAllocation.PickAgent` | main.go:59-88 | -1 exactly when every agent is at capacity; otherwise an agent with room, with the fewest active tasks, then the oldest LastAssigned, and earliest in the list on a full tie |
| `TaskAllocation.PickIsUnique` | main.go:70-84 | the selection rule determines the agent: two picks are the same index |
| `TaskAllocation.TaskAllocator.AssignOneTask` | main.go:58-99 | with no agent below capacity returns ("", false) and changes nothing; otherwise only the picked agent changes, gaining one task and the new clock value, and the clock rises by one; the capacity bound is kept |
| `TaskAllocation.FirstWithId` | main.go:102-103 | the index of the first agent with the id, or -1 when no agent has it |
| `TaskAllocation.TaskAllocator.CompleteTask` | main.go:101-112 | decrements only the first agent with the id and answers true exactly when its count was above 0; otherwise nothing changes |
| `TaskAllocation.TaskAllocator.Printer` | main.go:114-121 | returns a copy of the agent list |
| `SnakeAndLadder.Player.constructor` | snakeandladder.cpp:14-17 | a player starts on square 0 |
| `SnakeAndLadder.Player.Move` | snakeandladder.cpp:19-21 | the position grows by the steps |
| `SnakeAndLadder.Board.constructor` | snakeandladder.cpp:48-50 | a board of the given size with no snakes and no ladders |
| `SnakeAndLadder.Board.AddSnake` | snakeandladder.cpp:52-54 | the snake on a head replaces any earlier one there |
| `SnakeAndLadder.Board.AddLadder` | snakeandladder.cpp:56-58 | the ladder on a start replaces any earlier one there |
| `SnakeAndLadder.Board.GetNewPosition` | snakeandladder.cpp:60-70 | a snake head sends the player to its tail even when a ladder starts there too; otherwise a ladder start to its end; otherwise the square itself; one jump only |
| `SnakeAndLadder.Board.IsWinningPosition` | snakeandladder.cpp:72-74 | a position wins exactly when it is at least the board size |
| `SnakeAndLadder.NextPosition` | snakeandladder.cpp:113-120 | a player stays put when position + roll > 100; otherwise a snake on square position + roll sends them to its tail, failing that a ladder there takes them to its end, and a square with neither keeps them on it |
| `SnakeAndLadder.TurnStaysOnBoard` | snakeandladder.cpp:113-120 | on a board whose jumps end on 0..100, a die roll from a square in 0..100 lands in 0..100 |
| `SnakeAndLadder.StaysOnBoard` | snakeandladder.cpp:108-120 | on such a board, any number of turns with die rolls keeps a player on 0..100 |
| `SnakeAndLadder.SetupBoardStaysOnBoard` | snakeandladder.cpp:92-104 | on the board setupBoard lays out, no sequence of die rolls takes a player off 0..100 |
| `SnakeAndLadder.Game.constructor` | snakeandladder.cpp:85-90 | one fresh player per name, in order, all on square 0, and an empty board of the given size |
| `SnakeAndLadder.Game.SetupBoard` | snakeandladder.cpp:92-104 | the four snakes and six ladders are added to the board |
| `SnakeAndLadder.Game.PlayRound` | snakeandladder.cpp:109-129 | players take their turns in order, each ending on NextPosition of its old square and roll; the pass stops at the first winning turn, later players do not move, -1 means no turn won, and no player's name changes |
| `TopicQueue.MessageQueue.constructor` | inmemoryqueue.cpp:8-11 | a queue starts with no topics, no subscriptions and no calls made |
| `TopicQueue.MessageQueue.Publish` | inmemoryqueue.cpp:14-17 | the message goes to every subscription of its topic in subscription order, the topic's queue ends empty, and no other topic's queue or subscribers change |
| `TopicQueue.MessageQueue.Subscribe` | inmemoryqueue.cpp:19-21 | the subscriber is appended to the topic's list, even when already there |
| `TopicQueue.MessageQueue.DeliverMessages` | inmemoryqueue.cpp:23-34 | the topic's queued messages are handed out oldest first, each to every subscription, and the queue ends empty |
| `TopicQueue.MessageQueue.CallEach` | inmemoryqueue.cpp:28-32 | one message is handed to every subscription, one call each in subscription order, appended after the earlier calls |
| `TopicQueue.NotifyEach` | inmemoryqueue.cpp:28-31 | a message makes one call per subscription; the j-th call goes to the j-th subscriber with the message and topic |
| `TopicQueue.SubscribedTwiceNotifiedTwice` | inmemoryqueue.cpp:19-31 | a subscriber subscribed twice is called twice for each message |
| `TopicQueue.FanOutConcat` | inmemoryqueue.cpp:24-26 | FIFO: the calls for earlier messages all come before the calls for later ones |
| `TopicQueue.FanOutNoSubscribers` | inmemoryqueue.cpp:25-28 | a topic without subscribers drops its messages: draining makes no call |

## Left out

- The detached expiry thread, its five-minute sleep, the mutex and the steady clock (inventoryManagement.cpp:28, 32, 61, 64, 84). Expiry is a direct, sequential call of the release body. The clock reading stored in an order is a parameter (`now`) that is never inspected.
- The race between a confirm and a firing expiry. This is concurrency; only the sequential orders confirm-then-release and release-then-confirm are modelled.
- All console output and every `main` driver. Parts of two drivers are restated as verified client methods (`Inventory.DemoRun`, `TopicQueue.DemoRun`).
- `Dice::roll`, `srand` and `rand`. This is randomness, so the roll is an input in 1..6.
- The outer `while (!winnerFound)` loop of `startGame`. It repeats `PlayRound` until a turn wins and need not end for a given sequence of rolls, so it is modelled one pass at a time.
- `Player::getName` and `Player::getPosition`. These trivial getters are field reads in the model.
- TaskAllocation.TaskAllocator.Printer: the `sort.Slice` call (main.go:117-119) is a library routine and is not modelled. Its comparator compares an element with itself and is always false, so the model returns the copy in its original order. Go's unstable sort does not promise that order for long lists.
- The comparison `a.LastAssigned > a.LastAssigned` (main.go:85). It is always false and never changes the pick.
- `Producer` and `Consumer` (inmemoryqueue.cpp:37-66). They only print and register lambdas. Callbacks are modelled as subscriber ids.
- Tekken/intro.cpp and the other programs of the repository, which are not part of this model.
- Re-using an order id re-opens its resolution. A later createOrder under a confirmed or released id makes that order pending again, and a still-pending expiry for the old order then acts on the new one. The model keeps this behaviour of the source (`ReusedIdReopens`) and promises finality only while the id is not re-used.
- TopicQueue.MessageQueue.Publish: a callback is an inert subscriber id. In the source it is an arbitrary function that could call publish or subscribe again during delivery, which would change the queues or the subscriber list being walked. The frame clauses of `Publish`, `DeliverMessages` and `CallEach` assume that callbacks do not re-enter the queue.
- Fixed-width integers are not modelled. This covers the C++ `int` counts and the Go `int` and `int64` fields and clock; the model uses unbounded integers, so wrap-around after overflow is absent.
- No lemma states a global ledger invariant, such as blocked stock always equalling the demand of the pending orders. Conservation is proved per operation and per product.
