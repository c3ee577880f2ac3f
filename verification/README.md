# dpapp in Dafny

dpapp is an event-loop runtime in C. This project models its parts that are hard to get right and proves what they promise.
`dafny verify dfyconfig.toml` checks all of it.

**Cross-thread calls** (`CtcChannel`, `CtcWorker`, `EleDeque`, `CtcNetwork`, `CtcLife`, `CtcSystem`, `CtcRequests`,
`CtcProgress`). Every worker thread talks to the master thread over two one-way channels, each made of a staging deque, a
shared deque, a flag and an event counter that carries PUSH tokens in its low half and TAKE tokens in its high half; there
is no lock. `CtcChannel` is one worker's pair of channels as a step system in which every shared access is a step of its
own, so that the two threads may interleave in any way. Its invariant is a token argument. `CtcWorker` has the functions of
the C file as methods over deques linked through their elements (`EleDeque`) and shows that each does a run of those steps.
`CtcNetwork` has the calls themselves (status machine, routing through the master, redirection, cancellation) over channels
that are plain queues. `CtcSystem` puts the channels and the calls together and proves that the system refines the network.
`CtcLife` says what that means for the history of one call, `CtcRequests` that the history is what user code asked for, and
`CtcProgress` that every call comes back.

**The rank-balanced tree and the timer set** (`RankTree`, `RbLinks`, `RbTree`, `TimerSet`). `RankTree` has weak-AVL trees as
values, with contexts for the place of a subtree. `RbLinks` and `RbTree` have the nodes with parent, left and right pointers
and two colour bits, and the operations that change them in place: insertion and removal with their rebalancing loops, the
neighbour walks and the repair after a key was changed in place. `TimerSet` is the one instance in the repository, a priority
queue of deadlines.

**The event loop** (`EdgeReady`, `EventLoop`). `EdgeReady` is one descriptor read by a loop that the kernel tells of arrivals
and of a hang-up only, with both between any two steps, and with operations that take any number of posts. `EventLoop` is the
life of operations on elements, from `dpevp_addv` to the pop.

**Buffers and streaming input and output** (`Arith`, `ByteBuf`, `AsyncIo`, `AsyncMust`, `AsyncOut`). `ByteBuf` is the growable
buffer in memory. `AsyncIo`, `AsyncMust` and `AsyncOut` are the batch loops over a descriptor that gives and takes bytes in
portions of its own choice, and the resumable operations `read_until`, `read_must`, `read_data` and `write_some`.

**Smaller parts** (`Coroutines`, `Ids`, `Alpn`; `Ret` holds the return codes, `Seqs` what several modules say of sequences). The resume chain and the recycle list of the
coroutines, identifiers and their text form, and the cached wire form of the protocol names of a TLS group.

Where the code does not do what it, or its documentation, says it is for:

- `dptmrset_expire` converts a 64-bit distance to `int`. The wait is as computed exactly for deadlines less than 2^31 + 10
  milliseconds away (`TimerSet.WaitIsExact`); one further away may give a negative wait (`TimerSet.WaitTurnsNegative`).
- `dpaio_read_until` is documented to return `DPE_CONTINUE` when the delimiter is not found. It ends with the positive count of
  the bytes read instead, whenever a post finds nothing to report after something was read. Call a burst the bytes between two
  answers of the descriptor that are no data. The operation gives up so if and only if some burst ends before the delimiter
  and before the allowed number of bytes, with something read and nothing left over from whole batches of 8192 bytes; at the
  end of the source the rest of a batch does not count, since it is lost (`AsyncIo.StopsShortIff`). A pause, an error and the
  end right after a full batch are inputs that show it (`AsyncIo.EndAfterFullBatchStops`).
- `dpaio_read_must` is documented to read the whole number of bytes, and `dpaio_read_data` to mean the same. Both succeed with
  fewer when a post finds nothing more or the source ends. `read_must` also compares what was read with what was left before
  the last batch, so that three bytes that come one at a time end it after two. `AsyncMust.ShortIff` has the exact condition
  for both, `AsyncMust.TwoOfThree` the input that tells them apart.
- `dpaio_write_some` with more bytes wanted than there are to write sends all of them and then ends as if the descriptor were
  closed (`AsyncOut.TooLittleToSend`).
- `_dpaio_buf_post` does not report what it read or wrote before a call answered 0: bytes are read that are not reported if and
  only if the source ends behind them and before the batch is full (`AsyncIo.UnreportedIff`), and bytes are written that are
  not reported if and only if the descriptor answers 0 after it took some (`AsyncOut.UntoldIff`). Inputs are in
  `AsyncIo.EndAfterBytesIsUnreported` and `AsyncOut.ClosedAfterBytesIsUntold`.
- `dpbuf_readto` takes the error code of a destination for a length, if and only if the slack is not empty and the destination
  lacks the room and cannot get it. The read cursors then go back by 12, which leaves a valid buffer if and only if the read
  end was at 12 at least (`ByteBuf.Buffer.ReadTo`); `ByteBuf.Buffer.ReadToFullBuffer` ends with cursors at -12.
- `_pow_min_value` lacks the shift by 16. Its results are within the bounds the growth needs all the same
  (`ByteBuf.GrowthBounds`, `ByteBuf.GrowthLimit`). They are powers of two if and only if the bits of `value - 1` have no gap of
  sixteen zeros below the top one, and so for every value up to 2^16 (`ByteBuf.GrowthIsAPowerIff`); for 0x20001 the result is
  none (`ByteBuf.GrowthIsNotAlwaysAPower`).
- `dpaco_delater` does not check whether a coroutine was given back before. For one that does not run, the recycle list stays
  well formed if and only if it was not (`Coroutines.Env.Delater`): given back from any place of the list, the coroutine makes
  the list lead from it to itself, and with the list full it is freed while it is on the list. `dpaco_wrap` does so if and only
  if the coroutine comes to its end, in the first resume, with its own deletion put off (`Coroutines.Env.WrapReturn`).
- A hang-up ends every operation before it reads. Bytes that were there before it are read if and only if the event that wakes
  the operation does not tell of the hang-up yet (`EdgeReady.WaitingReadIsWoken`); afterwards they never are
  (`EdgeReady.HangUpIsForGood`), as with bytes and a hang-up that are collected together (`EdgeReady.BytesBeforeHangUpAreLost`).
- `_dpele_deque_move` forgets what the destination held. It loses nothing exactly if that was empty
  (`EleDeque.Deque.Move`), which the token argument shows for every move that the channels make
  (`CtcChannel.SharedDequeHasOneOwner`).

## Model

| member | source | states |
|---|---|---|
| CtcChannel.StepInv | lib/dpapp/os/linux/dpevp_epoll.c:976-1033 | every step of either thread, in any interleaving, keeps the invariant that each channel has exactly one token, that the shared deque is non-empty exactly while a PUSH token is out, and that an idle sender has staged nothing |
| CtcChannel.PushInv | lib/dpapp/os/linux/dpevp_epoll.c:1001-1021 | a push by either thread keeps the token invariant of both channels |
| CtcChannel.MoveInv | lib/dpapp/os/linux/dpevp_epoll.c:981-999 | a move keeps it, and when a TAKE token is answered with a new batch the overwritten shared deque is empty |
| CtcChannel.TakeInv | lib/dpapp/os/linux/dpevp_epoll.c:1023-1033 | a take keeps it |
| CtcChannel.WriteInv | lib/dpapp/os/linux/dpevp_epoll.c:976-1033 | an eventfd write turns the token in hand into one half of the peer's counter |
| CtcChannel.SharedDequeHasOneOwner | lib/dpapp/os/linux/dpevp_epoll.c:976-1033 | the sender and the receiver are never both about to touch the shared deque; the sender finds it empty, the receiver does not |
| CtcChannel.CountersAreExact | lib/dpapp/os/linux/dpevp_epoll.c:976-979 | each half of a counter is 0 or 1, so that the two masks decode exactly |
| CtcChannel.NoLostWakeup | lib/dpapp/os/linux/dpevp_epoll.c:1115-1123 | while a task is in a channel its token is a pending counter, a write about to be made or a handler at work |
| CtcChannel.StepContents | lib/dpapp/os/linux/dpevp_epoll.c:981-1033 | one step takes tasks from the front of a channel or adds them at its end and does nothing else to it |
| CtcChannel.EveryRunIsFifo | lib/dpapp/os/linux/dpevp_epoll.c:976-1033 | in every run, per direction, what was pushed is what was taken followed by what is in the channel, in order |
| CtcWorker.Channels.PushCommit | lib/dpapp/os/linux/dpevp_epoll.c:1001-1010 | the fields change as by a push step of the worker and the eventfd write after it |
| CtcWorker.Channels.PushAccept | lib/dpapp/os/linux/dpevp_epoll.c:1012-1021 | the same for the master's direction |
| CtcWorker.Channels.MoveCommit | lib/dpapp/os/linux/dpevp_epoll.c:991-999 | the staged batch becomes the shared one and is announced, or the sender becomes idle |
| CtcWorker.Channels.MoveAccept | lib/dpapp/os/linux/dpevp_epoll.c:981-989 | the same for the master's direction |
| CtcWorker.Channels.TakeCommit | lib/dpapp/os/linux/dpevp_epoll.c:1023-1027 | the shared batch goes to the end of the taker's queue and a TAKE token goes back |
| CtcWorker.Channels.TakeAccept | lib/dpapp/os/linux/dpevp_epoll.c:1029-1033 | the same for the worker |
| CtcWorker.Channels.WorkerWake | lib/dpapp/os/linux/dpevp_epoll.c:1115-1123 | the handler of a wake-up does the read, move, take and write steps of the worker, in this order, and brings the batch to its enter queue |
| CtcWorker.Channels.MasterWake | lib/dpapp/os/linux/dpevp_epoll.c:1275-1286 | the same for the master |
| CtcWorker.HandledFields | lib/dpapp/os/linux/dpevp_epoll.c:1115-1123 | what the four steps of a handler come to, field by field |
| CtcWorker.HandlersKeepTokens | lib/dpapp/os/linux/dpevp_epoll.c:1095-1132 | a handler that is not interrupted keeps the token invariant |
| EleDeque.Deque.QueuedIsExact | lib/dpapp/os/linux/dpevp_epoll.c:694-699 | for an element that is in no other deque, the test "already queued" holds exactly if it is in this one |
| EleDeque.Deque.PushBack | lib/dpapp/os/linux/dpevp_epoll.c:694-708 | appends, or does nothing for an element that is in the deque |
| EleDeque.Deque.PopFront | lib/dpapp/os/linux/dpevp_epoll.c:710-724 | takes the first element off, unlinked |
| EleDeque.Deque.Remove | lib/dpapp/os/linux/dpevp_epoll.c:726-741 | takes one element out and keeps the order of the others |
| EleDeque.Deque.PushQ | lib/dpapp/os/linux/dpevp_epoll.c:743-758 | concatenates, and leaves the source empty |
| EleDeque.Deque.Move | lib/dpapp/os/linux/dpevp_epoll.c:760-765 | transfers the source; nothing is lost if and only if the destination was empty |
| CtcNetwork.SubmitOk | lib/dpapp/os/linux/dpevp_epoll.c:1450-1459 | a submission of a call that is at home keeps what is true of every call |
| CtcNetwork.CancelOk | lib/dpapp/os/linux/dpevp_epoll.c:1508-1513 | so does a cancellation, won or lost |
| CtcNetwork.EndOk | lib/dpapp/os/linux/dpevp_epoll.c:1567-1591 | so does the end of a callback, with or without redirection |
| CtcNetwork.ArmOk | lib/dpapp/os/linux/dpevp_epoll.c:1053-1093 | so does every arm of the two reap switches; an arm falls into the next only from COMMIT to CANCEL, and then the CAS there is won |
| CtcNetwork.NextInv | lib/dpapp/os/linux/dpevp_epoll.c:1211-1253 | every move of every thread keeps the invariant: each pointer in exactly one place, each call with the status its place allows |
| CtcLife.StartFollowsItsCommit | lib/dpapp/os/linux/dpevp_epoll.c:1058-1062 | a callback starts only directly after a commit and only on the thread that commit named, so at most once per commit |
| CtcLife.CancelPreventsStart | lib/dpapp/os/linux/dpevp_epoll.c:1508-1513 | a cancellation that wins takes the place of the start: the next event can only be the return to the submitter |
| CtcLife.ReturnAnswersSubmit | lib/dpapp/os/linux/dpevp_epoll.c:1082-1088 | every return answers one submission and goes to the thread that made it |
| CtcLife.CommitsAreConserved | lib/dpapp/os/linux/dpevp_epoll.c:1035-1093 | every commit is started or cancelled once, every submission is returned once, except for the one on its way |
| CtcSystem.StepRefines | lib/dpapp/os/linux/dpevp_epoll.c:976-1093 | every step of the eventfd protocol with N workers is a move of the network of queues or invisible to it, and keeps both invariants |
| CtcSystem.EveryRunIsSafe | lib/dpapp/os/linux/dpevp_epoll.c:1193-1253 | the invariants hold in every reachable state |
| CtcSystem.ExactlyOnePlace | lib/dpapp/os/linux/dpevp_epoll.c:1035-1051 | in every reachable state the pointer of a call is in one place and occurs there once |
| CtcSystem.DownChannelIsAddressed | lib/dpapp/os/linux/dpevp_epoll.c:1193-1209 | what is in the channel to worker w is a call addressed to w, or a finished call that w submitted |
| CtcSystem.EveryRunKeepsItsPromises | lib/dpapp/os/linux/dpevp_epoll.c:1567-1591 | in every run the history of every call is one that `CtcLife` is about, and a call is at home exactly if its history says so |
| CtcRequests.RequestsAreHonoured | lib/dpapp/os/linux/dpevp_epoll.c:1524-1591 | in every run: a submission makes the call pending at the thread asked for; the end of a callback sends the call to where the last redirection since its start asked for, and finishes it if and only if there was none; a cancel is recorded if and only if it wins; nothing else but a start or a return writes history |
| CtcRequests.RequestIsCarried | lib/dpapp/os/linux/dpevp_epoll.c:1524-1542 | a callback at work carries the last redirection asked for since it was started, and no other |
| CtcRequests.UserMayAct | lib/dpapp/os/linux/dpevp_epoll.c:1422-1434 | a thread at rest may submit exactly what is at home, cancel exactly what it submitted and is not home, and redirect or end exactly what it holds |
| CtcProgress.EveryInternalStepRunsDown | lib/dpapp/os/linux/dpevp_epoll.c:981-1093 | every step but a submission, a redirection, the end of a callback that redirected its call, and a cancellation that comes too late lowers a measure over statuses, places and tokens; a cancellation that wins is among those that lower it |
| CtcProgress.LostCancelChangesNothing | lib/dpapp/os/linux/dpevp_epoll.c:1508-1513 | a cancellation that comes too late leaves the whole state as it was |
| CtcProgress.SomethingToDo | lib/dpapp/os/linux/dpevp_epoll.c:1211-1253 | as long as a call is neither at home nor in a callback, some loop step can be made |
| CtcProgress.EveryQuietRunBringsTasksHome | lib/dpapp/os/linux/dpevp_epoll.c:1095-1132 | a run without submissions and redirections, with any cancellations, has no more steps that change anything than the measure, and where no loop step is left every call is at home or in a callback |
| RankTree.PlugInOrder | lib/dpapp/dprbt.h:540-602 | the sequence of a tree is what lies before a place, what is in it and what lies behind it |
| RankTree.PlugWavl | lib/dpapp/dprbt.h:517-534 | the rank rule for a tree splits into that for a place and that for what is around it |
| RankTree.HeightBound | lib/dpapp/dprbt.h:70-79 | 2^height is at most (n + 1)^2 for every tree with n nodes under the rank rule |
| RankTree.PathBound | lib/dpapp/dprbt.h:70-79 | so is every way down to, or up from, any place of the tree |
| RankTree.WayBelow | lib/dpapp/dprbt.h:70-79 | the way from the top through a node to a place below its child obeys the same bound |
| RankTree.GrownRotates | lib/dpapp/dprbt.h:543-551 | when insertion rotates, the grown child has been assigned: what the comment in the source argues |
| RankTree.GrownClimbs | lib/dpapp/dprbt.h:566-571 | with both edges shortened the parent has grown by one rank |
| RankTree.SingleIsWavl | lib/dpapp/dprbt.h:587-592 | the single rotation on insertion restores the rank rule and the old rank |
| RankTree.DoubleIsWavl | lib/dpapp/dprbt.h:573-592 | so does the double rotation |
| RankTree.SingleKeeps | lib/dpapp/dprbt.h:418-426 | a rotation keeps the sequence and repeats no node |
| RankTree.DoubleKeeps | lib/dpapp/dprbt.h:573-592 | so does a double rotation |
| RankTree.LeafShrinks | lib/dpapp/dprbt.h:621-629 | a parent that has lost its only child becomes a leaf of rank 1 and has shrunk by one |
| RankTree.ShrunkClimbs | lib/dpapp/dprbt.h:640-646 | with both edges long the parent loses one rank |
| RankTree.ShrunkSibling | lib/dpapp/dprbt.h:647-656 | otherwise the sibling is there, two ranks above, and so is its inner child when that is to be rotated |
| RankTree.SiblingShrinks | lib/dpapp/dprbt.h:649-655 | with both edges of the sibling long, parent and sibling lose one rank |
| RankTree.RemoveSingleIsWavl | lib/dpapp/dprbt.h:667-684 | the single rotation on removal, with the lower rank always given to the parent, restores the rank rule |
| RankTree.RemoveDoubleIsWavl | lib/dpapp/dprbt.h:656-684 | so does the double rotation |
| RankTree.RemoveSingleKeeps | lib/dpapp/dprbt.h:667-684 | it keeps the sequence and repeats no node |
| RankTree.RemoveDoubleKeeps | lib/dpapp/dprbt.h:656-684 | so does the double rotation |
| RankTree.OnlyChild | lib/dpapp/dprbt.h:710-712 | the only child of a node is a leaf with two short edges, one rank below: clearing its bits changes nothing |
| RankTree.SuccessorWavl | lib/dpapp/dprbt.h:713-728 | with the successor in the place of the removed node only the successor's old place is one rank short |
| RankTree.SuccessorInOrder | lib/dpapp/dprbt.h:713-728 | exactly the removed node leaves the sequence |
| RankTree.ClimbEnd | lib/dpapp/dprbt.h:843-847 | the climb of next and previous ends at the neighbour in the sequence, or at null if there is none |
| RankTree.NearestBelow | lib/dpapp/dprbt.h:839-842 | with a child on that side the neighbour is the nearest node below it |
| RbLinks.Rotate | lib/dpapp/dprbt.h:418-426 | the links of a rotation, with the subtree in between under its new parent |
| RbLinks.RotateInner | lib/dpapp/dprbt.h:573-583 | the inner half of a double rotation on insertion, with the colours of the two nodes that go down |
| RbLinks.RotateInnerRed | lib/dpapp/dprbt.h:656-666 | the inner half of a double rotation on removal |
| RbLinks.NeighboursDecide | lib/dpapp/dprbt.h:930-942 | when one key of a sorted sequence has changed, the sequence is sorted if and only if the two neighbours agree |
| RbLinks.RestIsSorted | lib/dpapp/dprbt.h:936-938 | without the changed element the sequence is sorted |
| RbLinks.InsertKeepsSorted | lib/dpapp/dprbt.h:775-794 | an element put where it belongs keeps the sequence sorted |
| RbLinks.FarMost | lib/dpapp/dprbt.h:714-716 | the walk along one side ends at the node without a child there, with nothing of the subtree beyond it, in as many steps as the node lies deep |
| RbTree.Head.SwapChild | lib/dpapp/dprbt.h:398-406 | the parent's link, or the root, leads to the other node and nothing else has changed |
| RbTree.Head.RotateUp | lib/dpapp/dprbt.h:587-591 | a rotation together with the links above it |
| RbTree.Head.InsertColor | lib/dpapp/dprbt.h:539-602 | after the climb from a fresh leaf: parent links, rank rule, and the sequence with the leaf in its place; the climb has no more steps than the leaf lies deep |
| RbTree.Head.Search | lib/dpapp/dprbt.h:783-792 | ends at an equal element or at the one null link where the element belongs, in a logarithmic number of steps |
| RbTree.Head.Find | lib/dpapp/dprbt.h:796-812 | finds an equal element if and only if there is one |
| RbTree.Head.InsertFinish | lib/dpapp/dprbt.h:753-773 | links the element in and rebalances, in no more steps than the place lies deep |
| RbTree.Head.Insert | lib/dpapp/dprbt.h:775-794 | keeps order, links and rank rule and adds exactly the new node, or returns an equal element with nothing changed; the ways down and up are logarithmic |
| RbTree.Head.RemoveSingle | lib/dpapp/dprbt.h:667-684 | the single rotation on removal in memory |
| RbTree.Head.RemoveDouble | lib/dpapp/dprbt.h:656-684 | the double rotation on removal in memory |
| RbTree.Head.RemoveColor | lib/dpapp/dprbt.h:614-694 | after the climb from a place that is one rank short: parent links, rank rule, and an unchanged sequence, in no more steps than the place lies deep |
| RbTree.Head.Splice | lib/dpapp/dprbt.h:713-731 | the successor takes the removed node's children, parent and colours, and its own child its old place |
| RbTree.Head.RemoveOne | lib/dpapp/dprbt.h:710-733 | removal of a node with one child at most |
| RbTree.Head.RemoveTwo | lib/dpapp/dprbt.h:713-733 | removal of a node with two children; the way to the successor and the climb from its place are logarithmic |
| RbTree.Head.Remove | lib/dpapp/dprbt.h:702-751 | keeps links and rank rule; exactly the given node leaves the sequence; the ways down and up are logarithmic |
| RbTree.Head.MinMax | lib/dpapp/dprbt.h:915-928 | the first or the last of the sequence, or null for the empty tree, in a logarithmic number of steps |
| RbTree.Head.Neighbour | lib/dpapp/dprbt.h:834-849 | the next or the previous of the sequence, or null at its end, in a logarithmic number of steps |
| RbTree.Head.Reinsert | lib/dpapp/dprbt.h:930-942 | after a change of one key in place the whole tree is in order again, and is left alone if it was |
| TimerSet.WaitIsExact | lib/dpapp/os/linux/dpevp_epoll.c:219-223 | the wait never exceeds the distance of the deadline; it is the distance less 10 ms, and at least 1 ms, if and only if that fits in 31 bits |
| TimerSet.WaitTurnsNegative | lib/dpapp/os/linux/dpevp_epoll.c:219-223 | a deadline 2^31 + 10 ms away gives a negative wait |
| TimerSet.WaitIsPositive | lib/dpapp/os/linux/dpevp_epoll.c:219-223 | for exactly which distances the wait is at least 1 ms |
| TimerSet.Timers.Upsert | lib/dpapp/os/linux/dpevp_epoll.c:180-199 | the element is in the set and all is in order, whether it was in before or not; its deadline is the time plus the timeout in milliseconds, rounded down; it is refused only without a timeout |
| TimerSet.Timers.Remove | lib/dpapp/os/linux/dpevp_epoll.c:201-207 | the element is not in the set |
| TimerSet.Timers.Expire | lib/dpapp/os/linux/dpevp_epoll.c:209-230 | takes the least element, and only when it is due; otherwise nothing is due |
| TimerSet.Timers.Alarm | lib/dpapp/os/linux/dpevp_epoll.c:180-230 | an element alone in the set comes out at a time if and only if the time has reached the start plus the timeout, in whole milliseconds |
| TimerSet.Timers.ReapAll | lib/dpapp/os/linux/dpevp_epoll.c:849-875 | elements come out in the order of (deadline, address), each one due, until none that is left is |
| EdgeReady.StepInv | lib/dpapp/os/linux/dpevp_epoll.c:540-595 | every step keeps: bytes in the kernel are known of through the cached event, an edge or a collected event, and so is a hang-up |
| EdgeReady.NoByteGoesUnnoticed | lib/dpapp/os/linux/dpevp_epoll.c:553-571 | in every run, with operations of one batch or many, bytes in the kernel are known of or will be; where an operation waits, be it between two posts, an edge or a collected event tells of them |
| EdgeReady.WaitingReadIsWoken | lib/dpapp/os/linux/dpevp_epoll.c:540-595 | an operation that waits while bytes are there is woken by the loop alone; it reads if and only if the event that wakes it tells of no hang-up, and is over unread otherwise |
| EdgeReady.HangUpIsForGood | lib/dpapp/os/linux/dpevp_epoll.c:540-546 | once a hang-up is cached no run reads a byte any more |
| EdgeReady.BytesBeforeHangUpAreLost | lib/dpapp/os/linux/dpevp_epoll.c:1107-1111 | bytes that are collected together with the hang-up are never read |
| EdgeReady.FullBatchKeepsEvent | lib/dpapp/os/linux/dpasc_epoll.c:137-143 | a batch that ended full leaves the event cached, and the operation, if it goes on, or the next one reads at once |
| EdgeReady.UntilPostFits | lib/dpapp/dpasc.c:402-447 | every post of `read_until` whose reads did not fail is a step of this model: it goes on only as the model permits |
| EdgeReady.MustPostFits | lib/dpapp/dpasc.c:281-306 | so is every post of `read_must` |
| EventLoop.WakeUp | lib/dpapp/os/linux/dpevp_epoll.c:553-571 | a wake-up ends waiting only with no wanted event cached, and otherwise wants none |
| EventLoop.WakeUpPosts | lib/dpapp/os/linux/dpevp_epoll.c:553-571 | a wake-up is a number of posts: before each a wanted event is cached, each but the last answers to wait, and it ends with the last answer that is not to wait, or waiting for events none of which is cached |
| EventLoop.Element.Wake | lib/dpapp/os/linux/dpevp_epoll.c:540-572 | the loop computes `WakeUp`, unless a hang-up or an error is cached, which ends the operation with its code |
| EventLoop.Loop.AddV | lib/dpapp/os/linux/dpevp_epoll.c:1422-1481 | the outcome of an operation's start in all cases: refused, in the ready queue, waiting with its timer, or failed; an element that is no descriptor and whose `prep` goes on waits, is not ready, and has a timer if and only if it has a timeout |
| EventLoop.Loop.ReapEvent | lib/dpapp/os/linux/dpevp_epoll.c:574-595 | an event completes an operation exactly if the wake-up does not go on waiting, and takes its timer away |
| EventLoop.Loop.ReapReady | lib/dpapp/os/linux/dpevp_epoll.c:844-847 | the front of the ready queue comes out, an operation at work, and is idle afterwards |
| EventLoop.Loop.ReapTimer | lib/dpapp/os/linux/dpevp_epoll.c:849-875 | a timeout brings an operation at work out |
| EventLoop.Loop.Over | lib/dpapp/os/linux/dpevp_epoll.c:1339-1372 | the element is idle again |
| EventLoop.Loop.End | lib/dpapp/os/linux/dpevp_epoll.c:1483-1522 | an operation at work goes to the ready queue, once, without timer and wanted events |
| EventLoop.Loop.Perform | lib/dpapp/os/linux/dpevp_epoll.c:1386-1411 | what a call tells its caller is what it changed: an element begins to work exactly if it is told to wait, and stops exactly if it comes out |
| EventLoop.Loop.Play | lib/dpapp/os/linux/dpevp_epoll.c:1386-1522 | over any sequence of calls the waits and the comings out of every element, as told by the results, take turns; an element that is no descriptor, started idle and whose `prep` went on, comes out of the ready queue only after it was ended from outside, and otherwise only by its deadline |
| EventLoop.EachWaitComesOutOnce | lib/dpapp/os/linux/dpevp_epoll.c:1386-1522 | in such a history each wait is followed by its own coming out before the next wait, nothing comes out without a wait, and the numbers differ by the one at work |
| ByteBuf.GrowthBounds | lib/dpapp/dpbuf.c:111-123 | the new capacity is between the request and twice the request |
| ByteBuf.GrowthLimit | lib/dpapp/dpbuf.c:141-145 | the limit turns a request down if and only if it exceeds 2^30 |
| ByteBuf.GrowthIsAPowerIff | lib/dpapp/dpbuf.c:111-123 | the new capacity is a power of two if and only if the bits of the request less one have no sixteen zeros in a row below the top one; it never exceeds the least power of two that is enough |
| ByteBuf.GrowthIsNotAlwaysAPower | lib/dpapp/dpbuf.c:111-123 | the request 0x20001 gives 0x3FFFD: a gap of sixteen zeros |
| ByteBuf.FindExtends | lib/dpapp/dpbuf.c:600-606 | a first occurrence stays the first when more follows |
| ByteBuf.FindResumes | lib/dpapp/dpasc.c:418-421 | a search may resume at any lower bound of what was scanned, less a delimiter's length |
| ByteBuf.BufferIsAStream | lib/dpapp/dpbuf.c:687-883 | any mix of appends and reads hands the bytes out in the order they went in, none lost and none twice |
| ByteBuf.Buffer.New | lib/dpapp/dpbuf.c:40-63 | an empty buffer, exactly if the size is in range and there is memory |
| ByteBuf.Buffer.RecycleData | lib/dpapp/dpbuf.c:419-434 | forgetting what was consumed, or moving the rest to the front, changes neither window nor slack nor the room behind them; afterwards a consumed buffer starts at 0, and what is in front of the rest is at most 1024 bytes or a quarter of the capacity |
| ByteBuf.Buffer.DataResize | lib/dpapp/dpbuf.c:125-155 | growth keeps the contents; it succeeds if and only if the capacity is enough already, or there is memory and the size is below 2^30; the new capacity is at most twice the request |
| ByteBuf.Buffer.Resize | lib/dpapp/dpbuf.c:405-417 | the same for the buffer's own size, which has to be positive |
| ByteBuf.Buffer.ResizeW | lib/dpapp/dpbuf.c:495-504 | exactly the wanted room for writing, with window and slack unchanged, if and only if what is held and the room together fit or can be made to |
| ByteBuf.Buffer.WData | lib/dpapp/dpbuf.c:724-735 | appends the bytes to the slack if and only if the room is there or can be had, and otherwise changes nothing that can be read; a consumed buffer takes everything below its capacity; the capacity grows to no more than a multiple of what is held |
| ByteBuf.Buffer.WFill | lib/dpapp/dpbuf.c:714-722 | the same with one byte repeated |
| ByteBuf.Buffer.WBuf | lib/dpapp/dpbuf.c:687-698 | the same with the front of another buffer's window |
| ByteBuf.Buffer.Relay | lib/dpapp/dpbuf.c:419-444 | any number of appends, each read and consumed before the next, comes out as it went in, within a capacity that depends on the largest of them only |
| ByteBuf.Buffer.RSeek | lib/dpapp/dpbuf.c:647-665 | the read cursor within its bounds |
| ByteBuf.Buffer.WSeek | lib/dpapp/dpbuf.c:667-685 | the write cursor within its bounds |
| ByteBuf.Buffer.ESeek | lib/dpapp/dpbuf.c:771-789 | the border between window and slack within its bounds; what both hold together is unchanged |
| ByteBuf.Buffer.CFind | lib/dpapp/dpbuf.c:589-607 | the first occurrence in the window from a position on |
| ByteBuf.Buffer.RData | lib/dpapp/dpbuf.c:807-817 | the window becomes the first `len` bytes of the slack, or all of it if `len` is negative or too large |
| ByteBuf.Buffer.RMust | lib/dpapp/dpbuf.c:819-829 | all the wanted bytes or none |
| ByteBuf.Buffer.RUntil | lib/dpapp/dpbuf.c:831-844 | up to the end of the first delimiter, or nothing |
| ByteBuf.Buffer.RAll | lib/dpapp/dpbuf.c:859-864 | all of the slack |
| ByteBuf.Buffer.ReadTo | lib/dpapp/dpbuf.c:866-883 | moves the front of the slack to another buffer if and only if that has the room or can get it; if not, the cursors go back by 12, and the buffer stays valid if and only if the read end was at least 12 |
| ByteBuf.Buffer.ReadToFullBuffer | lib/dpapp/dpbuf.c:866-883 | a byte to be moved to a full buffer without memory leaves the cursors at -12 |
| AsyncIo.PullKeepsStream | lib/dpapp/os/linux/dpasc_epoll.c:131-152 | a batch takes bytes in order and leaves the others |
| AsyncIo.Source.Read | lib/dpapp/os/linux/dpasc_epoll.c:108-111 | one read of a descriptor that gives as much as it likes |
| AsyncIo.ReadPost | lib/dpapp/os/linux/dpasc_epoll.c:131-152 | the batch loop puts into memory what the batch takes, and reports it unless the descriptor ended |
| AsyncIo.HitIsFirstInStream | lib/dpapp/dpasc.c:402-447 | for every way the bytes are portioned, a hit is the first delimiter in what was held followed by all that was to come; nothing is lost and at most the given number of bytes is read |
| AsyncIo.PortionsDoNotMatter | lib/dpapp/dpasc.c:356-447 | two hits on the same bytes in different portions are the same hit, with the same bytes still to come |
| AsyncIo.MissIsAMiss | lib/dpapp/dpasc.c:430-436 | without a hit the delimiter is nowhere in what is held, and "not found" means that the given number of bytes was read |
| AsyncIo.SteadySourceDecides | lib/dpapp/dpasc.c:402-447 | a source that does not pause gives a hit if and only if the delimiter ends within the bytes allowed |
| AsyncIo.HitsIff | lib/dpapp/dpasc.c:356-447 | a hit if and only if the delimiter is in what was held followed by all that the operation can reach, burst by burst, or, if it is in what was held, there is a slack to be searched or any byte to come; without a hit it has read just that, and returns `DPE_CONTINUE` if and only if that is all it was allowed |
| AsyncIo.UntilHitsIff | lib/dpapp/dpasc.c:402-447 | the same from any point between two batches |
| AsyncIo.UntilRefusedIff | lib/dpapp/dpasc.c:411-413 | the operation fails if and only if it meets the end or an error before it has read anything to report, and with that code |
| AsyncIo.StopsShortIff | lib/dpapp/dpasc.c:411-413 | the operation succeeds without a hit and short of the allowed bytes if and only if some burst ends there with something read and nothing over from whole batches |
| AsyncIo.UntilStopsShortIff | lib/dpapp/dpasc.c:402-447 | the same from any point between two batches |
| AsyncIo.EndAfterFullBatchStops | lib/dpapp/dpasc.c:411-413 | a source that pauses, fails or ends after a full batch is given up with a positive count and no hit |
| AsyncIo.UnreportedIff | lib/dpapp/os/linux/dpasc_epoll.c:145-147 | bytes are read and not reported if and only if the source ends behind them before the batch is full |
| AsyncIo.ReportByBurst | lib/dpapp/os/linux/dpasc_epoll.c:131-152 | what a batch reports, by the next burst and what ends it |
| AsyncIo.EndAfterBytesIsUnreported | lib/dpapp/os/linux/dpasc_epoll.c:145-147 | some bytes and then the end: the end is all that is reported |
| AsyncIo.Resumed | lib/dpapp/dpasc.c:418-421 | the scan position, although it leaves out what was held before, is good enough to resume at |
| AsyncIo.UntilOp.Prep | lib/dpapp/dpasc.c:356-400 | a delimiter held already is a hit; otherwise there is room for the first batch, if and only if it can be had |
| AsyncIo.UntilOp.Post | lib/dpapp/dpasc.c:402-447 | one batch, searched from the scan position on, has the outcome of a search from the start |
| AsyncIo.UntilOp.Run | lib/dpapp/dpasc.c:356-447 | the whole operation, with a post after every event and after every batch that left the event set, computes the outcome of the form that searches everything again |
| AsyncMust.FilledInOrder | lib/dpapp/dpasc.c:281-306 | what a read of a number of bytes has read is what comes first, and unless the source ended the rest is still to come |
| AsyncMust.ShortIff | lib/dpapp/dpasc.c:281-306 | such a read succeeds with fewer bytes than wanted if and only if some burst ends before, with an end, an empty post, or, for `read_must`, a total no less than what was left before |
| AsyncMust.FullIff | lib/dpapp/dpasc.c:281-306 | such a read succeeds with all that is wanted if and only if some burst brings it there |
| AsyncMust.RefusedIff | lib/dpapp/dpasc.c:289-291 | it fails if and only if it meets the end or an error before it has read anything to report, and with that code |
| AsyncMust.TwoOfThree | lib/dpapp/dpasc.c:296-298 | three bytes one at a time: `read_must` returns 2 with two bytes read, `read_data` returns 3 with all of them |
| AsyncMust.DataOp.Post | lib/dpapp/dpasc.c:463-483 | one batch into memory behind what was read |
| AsyncMust.DataOp.Run | lib/dpapp/dpasc.c:449-483 | the whole operation reads into memory what `Fill` says and returns its code |
| AsyncMust.MustOp.Prep | lib/dpapp/dpasc.c:250-279 | a slack that is large enough goes to the window at once; otherwise there is room for what is missing, exactly if it can be had |
| AsyncMust.MustOp.Post | lib/dpapp/dpasc.c:281-306 | one batch behind what was read; over when the total is no less than what was left before it |
| AsyncMust.MustOp.Run | lib/dpapp/dpasc.c:250-306 | the whole operation adds to the slack what `Fill` says and returns its code, with the window unchanged |
| AsyncOut.WritePost | lib/dpapp/os/linux/dpasc_epoll.c:131-152 | exactly as many bytes are taken as the descriptor's answers allow, from the front; the report is that number, the end if the descriptor answered 0, or its error if none were taken |
| AsyncOut.UntoldIff | lib/dpapp/os/linux/dpasc_epoll.c:145-147 | bytes are taken and not reported if and only if the descriptor answers 0 after it would take some and before it has taken all |
| AsyncOut.ClosedAfterBytesIsUntold | lib/dpapp/os/linux/dpasc_epoll.c:145-147 | some bytes taken and then closed: nothing is reported |
| AsyncOut.WriteOp.Prep | lib/dpapp/dpasc.c:200-219 | the operation begins with the whole readable window |
| AsyncOut.WriteOp.Post | lib/dpapp/dpasc.c:221-248 | a post takes exactly as many bytes of the rest of the window as the answers allow; it succeeds when the total reaches the wanted number, waits below it, and passes on an error only where nothing was taken; the window has lost exactly the reported bytes |
| AsyncOut.WriteOp.Run | lib/dpapp/dpasc.c:200-248 | for every script of answers the result and the number of bytes taken are those of `WriteSome`; what went out is a prefix of the window, in order, and a success means at least the wanted number |
| AsyncOut.ReachesIff | lib/dpapp/dpasc.c:221-248 | the operation succeeds if and only if some burst of answers brings the total to the wanted number before the descriptor is closed, refuses at once, or has taken the whole window |
| AsyncOut.EnoughAtOnce | lib/dpapp/dpasc.c:221-248 | a descriptor that takes it all at once gets the whole window |
| AsyncOut.TooLittleToSend | lib/dpapp/dpasc.c:221-248 | with more wanted than there is, all of it is sent and the end is returned |
| AsyncOut.PushedWelcome | lib/dpapp/os/linux/dpasc_epoll.c:131-152 | a loop of writes takes the bytes before the first answer that takes none, as far as wanted, and ends with that answer |
| AsyncOut.IovTotal | lib/dpapp/os/linux/dpasc_epoll.c:82-91 | the length of all segments together |
| AsyncOut.IovAdvance | lib/dpapp/os/linux/dpasc_epoll.c:93-106 | drops exactly n bytes of what the segments hold together |
| AsyncOut.IovPost | lib/dpapp/os/linux/dpasc_epoll.c:154-183 | exactly as many bytes are taken of what the segments hold as the answers allow, in order, and reported like those of a plain write |
| Coroutines.Env.Create | lib/dpaco/dpaco.c:88-131 | the first coroutine of the recycle list, or a fresh one, which nobody else has; no live coroutine is touched |
| Coroutines.Env.Resume | lib/dpaco/dpaco.c:133-151 | the chain of resumers grows by one, only its top runs, and the value is delivered; nothing but the two coroutines changes, and nothing at all if it cannot be resumed |
| Coroutines.Env.Yield | lib/dpaco/dpaco.c:153-179 | control and value go back to exactly the resumer; a finished coroutine marked for deletion is given back, once; no other coroutine changes |
| Coroutines.Env.Delater | lib/dpaco/dpaco.c:192-218 | at once for one that does not run, put off otherwise; the recycle list stays a list of at most 1024 without a freed coroutine, and nothing is freed twice, if and only if the coroutine was not given back before; given back from place i of a list that is not full, it is reached again after i + 1 links |
| Coroutines.Env.Recycle | lib/dpaco/dpaco.c:199-210 | the same for one that does not run |
| Coroutines.Env.GoesRound | lib/dpaco/dpaco.c:199-206 | a list whose new first element was on it, at any place, or was freed, has no end |
| Coroutines.Env.WrapEnter | lib/dpaco/dpaco.c:220-224 | a new coroutine on top of the chain, which finds the value |
| Coroutines.Env.WrapReturn | lib/dpaco/dpaco.c:220-229 | back in the wrapper the coroutine is given back once, or put off, if and only if it has not come to its end with its deletion put off |
| Ids.PackIsInjective | lib/dplua/dplua_ext.c:49-55 | different fields make different numbers |
| Ids.PackLayout | lib/dplua/dplua_ext.c:49-55 | the fields are at their bits of the number |
| Ids.PackIsOrdered | lib/dplua/dplua_ext.c:49-55 | numbers are ordered by time, then machine, thread and sequence number |
| Ids.Generator.Next | lib/dplua/dplua_ext.c:65-91 | with a clock that does not go back, a number that this thread never issued before; sequence numbers go round, and the last of a round waits for the clock |
| Ids.GeneratorsDoNotClash | lib/dplua/dplua_ext.c:65-91 | threads and machines with different numbers never issue the same identifier |
| Ids.ToBase62 | lib/dplua/dplua_ext.c:9-19 | eleven digits that stand for the value |
| Ids.DigitTable | lib/dplua/dplua_ext.c:11-12 | the digits are 0-9, A-Z and a-z in this order, and no other character has a value |
| Ids.ToUint64 | lib/dplua/dplua_ext.c:21-47 | the value of the digits modulo 2^64, or 0 for anything but digits |
| Ids.RoundTrip | lib/dplua/dplua_ext.c:9-47 | every 64-bit value reads back from its eleven digits |
| Ids.TextOrderIsNumericOrder | lib/dplua/dplua_ext.c:9-19 | texts of equal length are ordered as their numbers |
| Alpn.WireRoundTrip | lib/dpapp/dpssl.c:169-194 | the wire form reads back, by the rules of section 3.1 of RFC 7301, as the list of names |
| Alpn.Group.Contains | lib/dpapp/dpssl.c:155-167 | whether the name is in the list |
| Alpn.Group.NameAt | lib/dpapp/dpssl.c:137-153 | the name at a position, if there is one |
| Alpn.Group.Add | lib/dpapp/dpssl.c:196-227 | appends a new name of 1 to 255 bytes and marks the wire form as old |
| Alpn.Group.Sync | lib/dpapp/dpssl.c:169-194 | afterwards the cached bytes read back as exactly the registered names in order |

## Left out

- The kqueue backend: a second port of the same design with other wake primitives.
- Weak memory ordering: steps are sequentially consistent and eventfd reads and writes atomic; a delivered wake event is taken to mean a counter that is not zero.
- Calls with a post function, detached calls and reference counts: a call with a post function that is reaped straight from COMMIT is completed on the target thread instead of going back.
- The value that `dpevp_end_ctc_` leaves in `ret`, and `dpctc_set_toid` while a call is at work; `dpctc_reto` and `dpevp_end_ctc_` are called on the thread that runs the callback.
- Null pointers given for an element, a buffer or a coroutine: the source turns them away first.
- Reap loops of the cross-thread calls as loops: each pass through the switch is a move of its own in `CtcNetwork`, since other threads act in between.
- Overflow of the 64-bit subtractions in the comparison of timers: deadlines are unbounded integers.
- Rounding of `after * 1000.0` in floating point: `Deadline` takes it over the reals.
- RB augmentation hooks (compiled to 0), `RB_NFIND`, `RB_INSERT_NEXT`, `RB_INSERT_PREV` and the splay trees: not used.
- The set of timers in `EventLoop` is a set of elements; its order is the matter of `TimerSet`.
- `RbTree.Head.Reinsert`: takes ways of `Neighbour`, `Remove` and `Insert` only; their lengths are not added up.
- `EventLoop.Loop.Play`: elements are adopted before the run; a timer goes off only while it is set.
- `EventLoop.Loop.AddV`: detached elements, cross-thread calls and re-submission of an operation at work are not in it.
- `EdgeReady.StepInv`: the read side only; a read that fails is not in it, and an error event is as a hang-up.
- Memory that cannot be had is a parameter of the methods that ask for it.
- Shared views of one buffer, caller-owned constant storage, negative lengths, `dpbuf_rws`, `dpbuf_rcstr`, comparisons and formatted writes.
- `ByteBuf.PowMin`: the last increment at INT_MAX overflows in C; here the result is then above the limit and refused, as a negative size is by `realloc`.
- `read_some`, `write_must`, `write_data`, the message loop, and the socket and TLS variants of the streaming operations.
- `AsyncIo.UntilOp.Run`: a post follows at once when the event is still cached, and otherwise when the descriptor has a further answer; which wake-ups bring it about is the matter of `EdgeReady`.
- `AsyncMust.DataOp.Run`: the memory given is as long as the number of bytes asked for; the same loop over posts as above.
- `Coroutines.Env.Delater`: memory that was freed still holds what it held; reading it is undefined in C.
- `Coroutines.Env.Resume`: nobody resumes a coroutine that is waiting for one it has resumed; the context swap itself and the stack sizes are not part of this model.
- `Ids.Generator.Next`: the clock stays within 41 bits and moves on while the last sequence number waits; identifiers of one millisecond need not be in numeric order.
- OpenSSL, lsquic, sockets, serial lines, pipes, inotify, logging, command line, the Lua glue and the example programs.
