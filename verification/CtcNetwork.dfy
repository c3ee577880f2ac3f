/**
 The cross-thread calls themselves, over channels that are plain queues: thread 0 is the master, every
 other thread reaches the rest only through it.  `CtcSystem` shows that the channels of `CtcChannel`
 behave as these queues.

 A `Task` is a dpctc_t submitted by `dpctc_submit` (post == NULL), not detached and still referenced.
 `place` says which thread's hands or queue the pointer is in, and `log` records what happened to it; the
 code has neither, they are here to be reasoned about and no branch of a step reads them.
 */
module CtcNetwork {
  import opened CtcChannel
  import opened Seqs

  datatype Stat = Initial | Commit | Cancel | Running | Finish

  datatype Place =
    | Home                // with its owner: not being executed
    | InUp(w: nat)        // in the channel from worker w to the master
    | InDown(w: nat)      // in the channel from the master to worker w
    | InEnter(i: nat)     // in thread i's enter_ctcs
    | InHand(i: nat)      // popped by thread i's reap loop and not yet dealt with
    | Held(i: nat)        // given to thread i's binding layer, which runs the callback

  datatype Event =
    | Submitted(who: nat, to: nat)
    | Started(at: nat)
    | Redirected(who: nat, to: nat)
    | Finished(who: nat)
    | Cancelled(who: nat)
    | Returned(at: nat)

  datatype Task = Task(stat: Stat, from: nat, to: nat, reto: bool, place: Place, log: seq<Event>)

  /** `seen` is the status the reap loop's switch is dispatching on. */
  datatype Hand = Empty | Holding(t: TaskId, seen: Stat)

  datatype Net = Net(up: seq<seq<TaskId>>, down: seq<seq<TaskId>>, enter: seq<seq<TaskId>>, hand: seq<Hand>, tasks: seq<Task>)

  // ------------------------------------------------------------------ the code

  /** `_worker_commit_ctc`, `_master_commit_ctc`, `_worker_finish_ctc`, `_master_finish_ctc`: which way to `dest`. */
  function Route(i: nat, dest: nat): Place {
    if dest == i then InEnter(i) else if i == 0 then InDown(dest) else InUp(i)
  }

  /** `dpevp_addv` with `dpctc_submit`. */
  function Submit(i: nat, x: Task, to: nat): Task {
    x.(stat := Commit, from := i, to := to, reto := false, place := Route(i, to), log := x.log + [Submitted(i, to)])
  }

  /** `dpevp_end` on the submitting thread: the CAS from COMMIT to CANCEL, or nothing. */
  function CancelCas(x: Task): Task {
    if x.stat == Commit then x.(stat := Cancel, log := x.log + [Cancelled(x.from)]) else x
  }

  /** `dpctc_reto`. */
  function Reto(x: Task, to: nat): Task {
    if x.stat == Running then x.(to := to, reto := true) else x
  }

  /** `dpevp_end_ctc_`. */
  function EndCtc(i: nat, x: Task): Task {
    if x.reto then
      x.(reto := false, stat := Commit, place := Route(i, x.to), log := x.log + [Redirected(i, x.to)])
    else
      x.(stat := Finish, place := Route(i, x.from), log := x.log + [Finished(i)])
  }

  /** A task returned by a reap function and filtered by `_dpele_asc_over`. */
  function Popped(i: nat, x: Task): Task {
    if x.stat == Running then x.(place := Held(i), log := x.log + [Started(i)])
    else x.(place := Home, log := x.log + [Returned(i)])
  }

  /** One arm of the reap loop's switch: done with the task, or a lost CAS that falls into the next arm. */
  datatype Turn = Done(x: Task) | FallInto(arm: Stat)

  /** `_worker_reap_ctc`. */
  function WorkerArm(i: nat, x: Task, arm: Stat): Turn {
    match arm
    case Commit => if x.stat == Commit then Done(Popped(i, x.(stat := Running))) else FallInto(Cancel)
    case Cancel => if x.stat == Cancel then Done(x.(stat := Finish, place := Route(i, x.from))) else FallInto(Running)
    case Running => Done(Popped(i, x))
    case _ => Done(Popped(i, x))
  }

  /** `_master_reap_ctc`. */
  function MasterArm(x: Task, arm: Stat): Turn {
    match arm
    case Commit =>
      if x.stat == Commit then
        var y := x.(stat := Running);
        if x.to == 0 then Done(Popped(0, y)) else Done(y.(place := InDown(x.to)))
      else FallInto(Cancel)
    case Cancel => if x.stat == Cancel then Done(x.(stat := Finish, place := Route(0, x.from))) else FallInto(Finish)
    case _ => if x.from == 0 then Done(Popped(0, x)) else Done(x.(place := InDown(x.from)))
  }

  function Arm(i: nat, x: Task, arm: Stat): Turn {
    if i == 0 then MasterArm(x, arm) else WorkerArm(i, x, arm)
  }

  datatype Move =
    | SubmitBy(i: nat, t: TaskId, to: nat)
    | CancelBy(i: nat, t: TaskId)
    | RetoBy(i: nat, t: TaskId, to: nat)
    | EndBy(i: nat, t: TaskId)
    | PopBy(i: nat)
    | ArmBy(i: nat)
    | TakeUp(w: nat, k: nat)
    | TakeDown(w: nat, k: nat)

  predicate Shape(n: Net) {
    0 < |n.enter| == |n.hand| == |n.up| == |n.down|
  }

  /** When a thread can make the move.  `dpevp_addv` refuses a task that is being executed, `dpevp_end` one of another thread. */
  predicate CanMove(n: Net, m: Move)
    requires Shape(n)
  {
    match m
    case SubmitBy(i, t, to) => i < |n.enter| && to < |n.enter| && t < |n.tasks| && n.tasks[t].place.Home?
    case CancelBy(i, t) => i < |n.enter| && t < |n.tasks| && !n.tasks[t].place.Home? && n.tasks[t].from == i
    case RetoBy(i, t, to) => i < |n.enter| && to < |n.enter| && t < |n.tasks| && n.tasks[t].place == Held(i)
    case EndBy(i, t) => i < |n.enter| && t < |n.tasks| && n.tasks[t].place == Held(i)
    case PopBy(i) => i < |n.enter| && n.hand[i].Empty? && n.enter[i] != [] && n.enter[i][0] < |n.tasks|
    case ArmBy(i) => i < |n.enter| && n.hand[i].Holding? && n.hand[i].t < |n.tasks|
    case TakeUp(w, k) => 0 < w < |n.enter| && k <= |n.up[w]|
    case TakeDown(w, k) => 0 < w < |n.enter| && k <= |n.down[w]|
  }

  /** Writes task `t` back and hands its pointer to wherever `x.place` says. */
  function Put(n: Net, t: TaskId, x: Task): Net
    requires Shape(n) && t < |n.tasks|
  {
    var m := n.(tasks := n.tasks[t := x]);
    match x.place
    case InUp(w) => if w < |n.up| then m.(up := n.up[w := n.up[w] + [t]]) else m
    case InDown(w) => if w < |n.down| then m.(down := n.down[w := n.down[w] + [t]]) else m
    case InEnter(i) => if i < |n.enter| then m.(enter := n.enter[i := n.enter[i] + [t]]) else m
    case _ => m
  }

  /** The tasks in `ids` now lie in thread `i`'s enter queue. */
  function Entered(tasks: seq<Task>, ids: seq<TaskId>, i: nat): (r: seq<Task>) {
    seq(|tasks|, t requires 0 <= t < |tasks| => if t in ids then tasks[t].(place := InEnter(i)) else tasks[t])
  }

  function Next(n: Net, m: Move): Net
    requires Shape(n) && CanMove(n, m)
  {
    match m
    case SubmitBy(i, t, to) => Put(n, t, Submit(i, n.tasks[t], to))
    case CancelBy(i, t) => n.(tasks := n.tasks[t := CancelCas(n.tasks[t])])
    case RetoBy(i, t, to) => n.(tasks := n.tasks[t := Reto(n.tasks[t], to)])
    case EndBy(i, t) => Put(n, t, EndCtc(i, n.tasks[t]))
    case PopBy(i) =>
      var t := n.enter[i][0];
      n.(enter := n.enter[i := n.enter[i][1..]],
         hand := n.hand[i := Holding(t, n.tasks[t].stat)],
         tasks := n.tasks[t := n.tasks[t].(place := InHand(i))])
    case ArmBy(i) =>
      var t := n.hand[i].t;
      (match Arm(i, n.tasks[t], n.hand[i].seen)
       case Done(x) => Put(n.(hand := n.hand[i := Empty]), t, x)
       case FallInto(arm) => n.(hand := n.hand[i := Holding(t, arm)]))
    case TakeUp(w, k) =>
      n.(up := n.up[w := n.up[w][k..]], enter := n.enter[0 := n.enter[0] + n.up[w][..k]],
         tasks := Entered(n.tasks, n.up[w][..k], 0))
    case TakeDown(w, k) =>
      n.(down := n.down[w := n.down[w][k..]], enter := n.enter[w := n.enter[w] + n.down[w][..k]],
         tasks := Entered(n.tasks, n.down[w][..k], w))
  }

  // ------------------------------------------------------------------ what a task's life must look like

  datatype Phase = AtHome | Pending(from: nat, to: nat) | Executing(from: nat, at: nat) | Ended(from: nat) | Broken

  /**
   The outside view of one task: submitted, then either cancelled by its submitter or started exactly where
   it was sent, then redirected (and pending again) or finished there, and in the end returned to its submitter.
   */
  ghost function Advance(p: Phase, e: Event): Phase {
    match (p, e)
    case (AtHome, Submitted(who, to)) => Pending(who, to)
    case (Pending(from, to), Started(at)) => if at == to then Executing(from, at) else Broken
    case (Pending(from, to), Cancelled(who)) => if who == from then Ended(from) else Broken
    case (Executing(from, at), Redirected(who, to)) => if who == at then Pending(from, to) else Broken
    case (Executing(from, at), Finished(who)) => if who == at then Ended(from) else Broken
    case (Ended(from), Returned(at)) => if at == from then AtHome else Broken
    case (_, _) => Broken
  }

  ghost function Life(log: seq<Event>): Phase {
    if log == [] then AtHome else Advance(Life(log[..|log| - 1]), log[|log| - 1])
  }

  lemma LifeAppend(log: seq<Event>, e: Event)
    ensures Life(log + [e]) == Advance(Life(log), e)
  {
    assert (log + [e])[..|log|] == log;
  }

  /** The phase that status and place stand for. */
  ghost function PhaseOf(x: Task): Phase {
    if x.place.Home? then AtHome
    else match x.stat
         case Commit => Pending(x.from, x.to)
         case Cancel => Ended(x.from)
         case Running => if x.place.Held? then Executing(x.from, x.place.i) else Pending(x.from, x.to)
         case Finish => Ended(x.from)
         case Initial => Broken
  }

  // ------------------------------------------------------------------ invariants

  /** What a task may look like on its way to worker `w`. */
  ghost predicate ForWorker(x: Task, w: nat) {
    || (x.stat in {Commit, Cancel, Running} && x.to == w)
    || (x.stat == Finish && x.from == w)
  }

  ghost predicate TaskOk(x: Task, threads: nat) {
    && Life(x.log) == PhaseOf(x)
    && (!x.place.Home? ==> x.from < threads && x.to < threads)
    && (x.reto ==> x.place.Held?)
    && match x.place
       case Home => x.stat in {Initial, Finish}
       case InUp(w) => 0 < w < threads && x.stat in {Commit, Cancel, Finish}
       case InDown(w) => 0 < w < threads && ForWorker(x, w)
       case InEnter(i) => i < threads && if i == 0 then x.stat in {Commit, Cancel, Finish} else ForWorker(x, i)
       case InHand(i) => i < threads && if i == 0 then x.stat in {Commit, Cancel, Finish} else ForWorker(x, i)
       case Held(i) => i < threads && x.stat == Running && (!x.reto ==> x.to == i)
  }

  ghost predicate TasksOk(n: Net) {
    forall t :: 0 <= t < |n.tasks| ==> TaskOk(n.tasks[t], |n.enter|)
  }

  /** Queue `q` holds exactly the tasks placed at `pl`, each once. */
  ghost predicate QueueOk(q: seq<TaskId>, tasks: seq<Task>, pl: Place) {
    && (forall k :: 0 <= k < |q| ==> q[k] < |tasks| && tasks[q[k]].place == pl)
    && Once(q)
    && (forall t :: 0 <= t < |tasks| && tasks[t].place == pl ==> t in q)
  }

  ghost predicate HandOk(h: Hand, tasks: seq<Task>, i: nat) {
    && (h.Holding? ==> h.t < |tasks| && tasks[h.t].place == InHand(i))
    && (forall t :: 0 <= t < |tasks| && tasks[t].place == InHand(i) ==> h.Holding? && h.t == t)
  }

  /** Every pointer is in exactly one place. */
  ghost predicate Placed(n: Net) {
    && Shape(n)
    && forall i :: 0 <= i < |n.enter| ==>
         && QueueOk(n.up[i], n.tasks, InUp(i))
         && QueueOk(n.down[i], n.tasks, InDown(i))
         && QueueOk(n.enter[i], n.tasks, InEnter(i))
         && HandOk(n.hand[i], n.tasks, i)
  }

  /** A switch arm entered with a stale status is at most one CANCEL behind. */
  ghost predicate SeenOk(n: Net) {
    forall i :: 0 <= i < |n.hand| ==> HandSeen(n.hand[i], n.tasks)
  }

  /** `arm` is what a switch dispatches on for a task whose status is now `stat`. */
  ghost predicate Dispatches(arm: Stat, stat: Stat) {
    arm == stat || (arm == Commit && stat == Cancel)
  }

  ghost predicate HandSeen(h: Hand, tasks: seq<Task>) {
    h.Holding? && h.t < |tasks| ==> Dispatches(h.seen, tasks[h.t].stat)
  }

  ghost predicate NetInv(n: Net) {
    Placed(n) && TasksOk(n) && SeenOk(n)
  }

  // ------------------------------------------------------------------ one task: each step keeps TaskOk

  lemma SubmitOk(i: nat, x: Task, to: nat, threads: nat)
    requires TaskOk(x, threads) && x.place.Home? && i < threads && to < threads
    ensures TaskOk(Submit(i, x, to), threads)
  {
    LifeAppend(x.log, Submitted(i, to));
    hide Life;
  }

  lemma CancelOk(x: Task, threads: nat)
    requires TaskOk(x, threads) && !x.place.Home?
    ensures TaskOk(CancelCas(x), threads)
  {
    LifeAppend(x.log, Cancelled(x.from));
    hide Life;
  }

  lemma EndOk(i: nat, x: Task, threads: nat)
    requires TaskOk(x, threads) && x.place == Held(i)
    ensures TaskOk(EndCtc(i, x), threads)
  {
    LifeAppend(x.log, if x.reto then Redirected(i, x.to) else Finished(i));
    hide Life;
  }

  /**
   The fall-throughs of the switch: a lost CAS from COMMIT lands in the CANCEL arm, whose own CAS then cannot
   lose, so no other arm is ever entered with the wrong status.
   */
  lemma ArmOk(i: nat, x: Task, arm: Stat, threads: nat)
    requires TaskOk(x, threads) && x.place == InHand(i) && Dispatches(arm, x.stat)
    ensures Arm(i, x, arm).Done? ==> TaskOk(Arm(i, x, arm).x, threads) && !Arm(i, x, arm).x.place.InHand?
    ensures Arm(i, x, arm).FallInto? ==> arm == Commit && Arm(i, x, arm).arm == Cancel == x.stat
  {
    LifeAppend(x.log, Started(i));
    LifeAppend(x.log, Returned(i));
    hide Life;
  }

  // ------------------------------------------------------------------ queues under a change of one task

  lemma QueueKeeps(q: seq<TaskId>, tasks: seq<Task>, pl: Place, t: TaskId, x: Task)
    requires QueueOk(q, tasks, pl) && t < |tasks|
    requires x.place == tasks[t].place || (tasks[t].place != pl && x.place != pl)
    ensures QueueOk(q, tasks[t := x], pl)
  {
  }

  lemma QueueAppends(q: seq<TaskId>, tasks: seq<Task>, pl: Place, t: TaskId, x: Task)
    requires QueueOk(q, tasks, pl) && t < |tasks| && tasks[t].place != pl && x.place == pl
    ensures QueueOk(q + [t], tasks[t := x], pl)
  {
    assert (q + [t])[|q|] == t;
    forall u | 0 <= u < |tasks| && tasks[t := x][u].place == pl
      ensures u in q + [t]
    {
      assert u == t || u in q;
    }
  }

  lemma QueuePops(q: seq<TaskId>, tasks: seq<Task>, pl: Place, x: Task)
    requires QueueOk(q, tasks, pl) && q != [] && x.place != pl
    ensures QueueOk(q[1..], tasks[q[0] := x], pl)
  {
    forall u | 0 <= u < |tasks| && tasks[q[0] := x][u].place == pl
      ensures u in q[1..]
    {
      var k :| 0 <= k < |q| && q[k] == u;
      assert q[1..][k - 1] == u;
    }
  }

  lemma HandKeeps(h: Hand, tasks: seq<Task>, i: nat, t: TaskId, x: Task)
    requires HandOk(h, tasks, i) && t < |tasks|
    requires x.place == tasks[t].place || (tasks[t].place != InHand(i) && x.place != InHand(i))
    ensures HandOk(h, tasks[t := x], i)
  {
  }

  ghost predicate InRange(pl: Place, threads: nat) {
    match pl
    case InUp(w) => w < threads
    case InDown(w) => w < threads
    case InEnter(i) => i < threads
    case InHand(i) => i < threads
    case _ => true
  }

  /** `Put` of a task that was in nobody's queue or hand. */
  lemma PutPlaced(n: Net, t: TaskId, x: Task)
    requires Placed(n) && t < |n.tasks| && (n.tasks[t].place.Home? || n.tasks[t].place.Held?)
    requires InRange(x.place, |n.enter|) && !x.place.InHand?
    ensures Placed(Put(n, t, x))
  {
    hide QueueOk, HandOk;
    var m := Put(n, t, x);
    forall i | 0 <= i < |m.enter|
      ensures QueueOk(m.up[i], m.tasks, InUp(i)) && QueueOk(m.down[i], m.tasks, InDown(i))
      ensures QueueOk(m.enter[i], m.tasks, InEnter(i)) && HandOk(m.hand[i], m.tasks, i)
    {
      if x.place == InUp(i) { QueueAppends(n.up[i], n.tasks, InUp(i), t, x); } else { QueueKeeps(n.up[i], n.tasks, InUp(i), t, x); }
      if x.place == InDown(i) { QueueAppends(n.down[i], n.tasks, InDown(i), t, x); } else { QueueKeeps(n.down[i], n.tasks, InDown(i), t, x); }
      if x.place == InEnter(i) { QueueAppends(n.enter[i], n.tasks, InEnter(i), t, x); } else { QueueKeeps(n.enter[i], n.tasks, InEnter(i), t, x); }
      HandKeeps(n.hand[i], n.tasks, i, t, x);
    }
  }

  /** A change of a task that leaves it where it is. */
  lemma StayPlaced(n: Net, t: TaskId, x: Task)
    requires Placed(n) && t < |n.tasks| && x.place == n.tasks[t].place
    ensures Placed(n.(tasks := n.tasks[t := x]))
  {
    forall i | 0 <= i < |n.enter|
      ensures QueueOk(n.up[i], n.tasks[t := x], InUp(i)) && QueueOk(n.down[i], n.tasks[t := x], InDown(i))
      ensures QueueOk(n.enter[i], n.tasks[t := x], InEnter(i))
    {
      QueueKeeps(n.up[i], n.tasks, InUp(i), t, x);
      QueueKeeps(n.down[i], n.tasks, InDown(i), t, x);
      QueueKeeps(n.enter[i], n.tasks, InEnter(i), t, x);
    }
  }

  lemma QueueHead(q: seq<TaskId>, tasks: seq<Task>, pl: Place)
    requires QueueOk(q, tasks, pl) && q != []
    ensures q[0] < |tasks| && tasks[q[0]].place == pl
  {
  }

  lemma HandTakes(h: Hand, tasks: seq<Task>, i: nat, t: TaskId, x: Task)
    requires HandOk(h, tasks, i) && h.Empty? && t < |tasks| && x.place == InHand(i)
    ensures HandOk(Holding(t, x.stat), tasks[t := x], i)
  {
  }

  lemma PopPlaced(n: Net, i: nat)
    requires Placed(n) && CanMove(n, PopBy(i))
    ensures Placed(Next(n, PopBy(i)))
  {
    hide QueueOk, HandOk;
    QueueHead(n.enter[i], n.tasks, InEnter(i));
    var t := n.enter[i][0];
    var x := n.tasks[t].(place := InHand(i));
    forall j | 0 <= j < |n.enter|
      ensures QueueOk(n.up[j], n.tasks[t := x], InUp(j)) && QueueOk(n.down[j], n.tasks[t := x], InDown(j))
      ensures QueueOk(if j == i then n.enter[i][1..] else n.enter[j], n.tasks[t := x], InEnter(j))
      ensures HandOk(if j == i then Holding(t, x.stat) else n.hand[j], n.tasks[t := x], j)
    {
      if j == i { HandTakes(n.hand[i], n.tasks, i, t, x); } else { HandKeeps(n.hand[j], n.tasks, j, t, x); }
      QueueKeeps(n.up[j], n.tasks, InUp(j), t, x);
      QueueKeeps(n.down[j], n.tasks, InDown(j), t, x);
      if j == i { QueuePops(n.enter[i], n.tasks, InEnter(i), x); } else { QueueKeeps(n.enter[j], n.tasks, InEnter(j), t, x); }
    }
  }

  /** Thread `i` lets go of the task in its hand. */
  lemma DropPlaced(n: Net, i: nat, x: Task)
    requires Placed(n) && i < |n.hand| && n.hand[i].Holding? && x.place == Home
    ensures Placed(n.(hand := n.hand[i := Empty], tasks := n.tasks[n.hand[i].t := x]))
  {
    var t := n.hand[i].t;
    forall j | 0 <= j < |n.enter|
      ensures QueueOk(n.up[j], n.tasks[t := x], InUp(j)) && QueueOk(n.down[j], n.tasks[t := x], InDown(j))
      ensures QueueOk(n.enter[j], n.tasks[t := x], InEnter(j))
    {
      QueueKeeps(n.up[j], n.tasks, InUp(j), t, x);
      QueueKeeps(n.down[j], n.tasks, InDown(j), t, x);
      QueueKeeps(n.enter[j], n.tasks, InEnter(j), t, x);
    }
  }

  lemma HandOnPlaced(n: Net, i: nat, x: Task)
    requires Placed(n) && i < |n.hand| && n.hand[i].Holding? && n.hand[i].t < |n.tasks|
    requires InRange(x.place, |n.enter|) && !x.place.InHand?
    ensures Placed(Put(n.(hand := n.hand[i := Empty]), n.hand[i].t, x))
  {
    var t := n.hand[i].t;
    var home := n.tasks[t].(place := Home);
    DropPlaced(n, i, home);
    var m := n.(hand := n.hand[i := Empty], tasks := n.tasks[t := home]);
    PutPlaced(m, t, x);
    PutOverwrites(n.(hand := n.hand[i := Empty]), t, home, x);
    hide Placed, Put, InRange;
  }

  lemma PutOverwrites(n: Net, t: TaskId, y: Task, x: Task)
    requires Shape(n) && t < |n.tasks|
    ensures Put(n.(tasks := n.tasks[t := y]), t, x) == Put(n, t, x)
  {
    assert n.tasks[t := y][t := x] == n.tasks[t := x];
  }

  lemma ArmPlaced(n: Net, i: nat)
    requires NetInv(n) && CanMove(n, ArmBy(i))
    ensures Placed(Next(n, ArmBy(i)))
  {
    var t := n.hand[i].t;
    assert HandOk(n.hand[i], n.tasks, i) && TaskOk(n.tasks[t], |n.enter|) && HandSeen(n.hand[i], n.tasks);
    ArmOk(i, n.tasks[t], n.hand[i].seen, |n.enter|);
    if Arm(i, n.tasks[t], n.hand[i].seen).Done? {
      var x := Arm(i, n.tasks[t], n.hand[i].seen).x;
      assert InRange(x.place, |n.enter|);
      HandOnPlaced(n, i, x);
      hide Placed, TasksOk, SeenOk, Arm, TaskOk, Put, HandOk;
    } else {
      hide TasksOk, SeenOk, Arm, TaskOk, QueueOk;
    }
  }

  // ------------------------------------------------------------------ a batch taken out of a channel

  lemma TakeQueues(q: seq<TaskId>, k: nat, tasks: seq<Task>, pl: Place, into: seq<TaskId>, i: nat)
    requires QueueOk(q, tasks, pl) && k <= |q| && !pl.InEnter? && QueueOk(into, tasks, InEnter(i))
    ensures QueueOk(q[k..], Entered(tasks, q[..k], i), pl)
    ensures QueueOk(into + q[..k], Entered(tasks, q[..k], i), InEnter(i))
  {
    LeftInQueue(q, k, tasks, pl, i);
    JoinsQueue(q[..k], tasks, pl, into, i);
  }

  lemma LeftInQueue(q: seq<TaskId>, k: nat, tasks: seq<Task>, pl: Place, i: nat)
    requires QueueOk(q, tasks, pl) && k <= |q| && !pl.InEnter?
    ensures QueueOk(q[k..], Entered(tasks, q[..k], i), pl)
  {
    var tasks' := Entered(tasks, q[..k], i);
    forall j | 0 <= j < |q[k..]|
      ensures q[k..][j] !in q[..k]
    {
      assert q[k..][j] == q[k + j];
    }
    forall t | 0 <= t < |tasks'| && tasks'[t].place == pl
      ensures t in q[k..]
    {
      assert t in q && t !in q[..k];
      assert q == q[..k] + q[k..];
    }
  }

  lemma JoinsQueue(ids: seq<TaskId>, tasks: seq<Task>, pl: Place, into: seq<TaskId>, i: nat)
    requires forall j :: 0 <= j < |ids| ==> ids[j] < |tasks| && tasks[ids[j]].place == pl
    requires Once(ids) && !pl.InEnter? && QueueOk(into, tasks, InEnter(i))
    ensures QueueOk(into + ids, Entered(tasks, ids, i), InEnter(i))
  {
    OnceJoin(into, ids);
  }

  /** A queue the batch does not come from or go to. */
  lemma OtherQueue(q: seq<TaskId>, tasks: seq<Task>, pl: Place, ids: seq<TaskId>, from: Place, i: nat)
    requires QueueOk(q, tasks, pl) && pl != from && pl != InEnter(i)
    requires forall t :: t in ids ==> t < |tasks| && tasks[t].place == from
    ensures QueueOk(q, Entered(tasks, ids, i), pl)
  {
  }

  lemma OtherHand(h: Hand, tasks: seq<Task>, j: nat, ids: seq<TaskId>, from: Place, i: nat)
    requires HandOk(h, tasks, j) && !from.InHand?
    requires forall t :: t in ids ==> t < |tasks| && tasks[t].place == from
    ensures HandOk(h, Entered(tasks, ids, i), j)
  {
  }

  lemma BatchPlaced(q: seq<TaskId>, tasks: seq<Task>, pl: Place, k: nat)
    requires QueueOk(q, tasks, pl) && k <= |q|
    ensures forall t :: t in q[..k] ==> t < |tasks| && tasks[t].place == pl
  {
  }

  lemma TakeUpPlaced(n: Net, w: nat, k: nat)
    requires Placed(n) && CanMove(n, TakeUp(w, k))
    ensures Placed(Next(n, TakeUp(w, k)))
  {
    var m, ids := Next(n, TakeUp(w, k)), n.up[w][..k];
    BatchPlaced(n.up[w], n.tasks, InUp(w), k);
    hide QueueOk, HandOk, Entered;
    TakeQueues(n.up[w], k, n.tasks, InUp(w), n.enter[0], 0);
    forall i | 0 <= i < |n.enter|
      ensures QueueOk(m.up[i], m.tasks, InUp(i)) && QueueOk(m.down[i], m.tasks, InDown(i))
      ensures QueueOk(m.enter[i], m.tasks, InEnter(i)) && HandOk(m.hand[i], m.tasks, i)
    {
      if i != w { OtherQueue(n.up[i], n.tasks, InUp(i), ids, InUp(w), 0); }
      OtherQueue(n.down[i], n.tasks, InDown(i), ids, InUp(w), 0);
      if i != 0 { OtherQueue(n.enter[i], n.tasks, InEnter(i), ids, InUp(w), 0); }
      OtherHand(n.hand[i], n.tasks, i, ids, InUp(w), 0);
    }
  }

  lemma TakeDownPlaced(n: Net, w: nat, k: nat)
    requires Placed(n) && CanMove(n, TakeDown(w, k))
    ensures Placed(Next(n, TakeDown(w, k)))
  {
    var m, ids := Next(n, TakeDown(w, k)), n.down[w][..k];
    BatchPlaced(n.down[w], n.tasks, InDown(w), k);
    hide QueueOk, HandOk, Entered;
    TakeQueues(n.down[w], k, n.tasks, InDown(w), n.enter[w], w);
    forall i | 0 <= i < |n.enter|
      ensures QueueOk(m.up[i], m.tasks, InUp(i)) && QueueOk(m.down[i], m.tasks, InDown(i))
      ensures QueueOk(m.enter[i], m.tasks, InEnter(i)) && HandOk(m.hand[i], m.tasks, i)
    {
      if i != w { OtherQueue(n.down[i], n.tasks, InDown(i), ids, InDown(w), w); }
      OtherQueue(n.up[i], n.tasks, InUp(i), ids, InDown(w), w);
      if i != w { OtherQueue(n.enter[i], n.tasks, InEnter(i), ids, InDown(w), w); }
      OtherHand(n.hand[i], n.tasks, i, ids, InDown(w), w);
    }
  }

  // ------------------------------------------------------------------ every move keeps the invariant

  lemma MovePlaced(n: Net, m: Move)
    requires NetInv(n) && CanMove(n, m)
    ensures Placed(Next(n, m))
  {
    hide Placed, SeenOk, Put;
    match m
    case SubmitBy(i, t, to) => SubmitOk(i, n.tasks[t], to, |n.enter|); PutPlaced(n, t, Submit(i, n.tasks[t], to));
    case CancelBy(i, t) => StayPlaced(n, t, CancelCas(n.tasks[t]));
    case RetoBy(i, t, to) => StayPlaced(n, t, Reto(n.tasks[t], to));
    case EndBy(i, t) => EndOk(i, n.tasks[t], |n.enter|); PutPlaced(n, t, EndCtc(i, n.tasks[t]));
    case PopBy(i) => PopPlaced(n, i);
    case ArmBy(i) => ArmPlaced(n, i);
    case TakeUp(w, k) => TakeUpPlaced(n, w, k);
    case TakeDown(w, k) => TakeDownPlaced(n, w, k);
  }

  lemma EnteredOk(n: Net, q: seq<TaskId>, pl: Place, i: nat, k: nat)
    requires TasksOk(n) && QueueOk(q, n.tasks, pl) && k <= |q| && i < |n.enter|
    requires (i == 0 && pl.InUp?) || pl == InDown(i)
    ensures forall t :: 0 <= t < |n.tasks| ==> TaskOk(Entered(n.tasks, q[..k], i)[t], |n.enter|)
  {
    forall t | 0 <= t < |n.tasks|
      ensures TaskOk(Entered(n.tasks, q[..k], i)[t], |n.enter|)
    {
      assert TaskOk(n.tasks[t], |n.enter|);
    }
  }

  lemma ChangeOk(n: Net, t: TaskId, x: Task)
    requires Shape(n) && TasksOk(n) && t < |n.tasks| && TaskOk(x, |n.enter|)
    ensures TasksOk(n.(tasks := n.tasks[t := x]))
    ensures TasksOk(Put(n, t, x))
  {
    hide TaskOk;
  }

  lemma ArmTasksOk(n: Net, i: nat)
    requires NetInv(n) && CanMove(n, ArmBy(i))
    ensures TasksOk(Next(n, ArmBy(i)))
  {
    var t := n.hand[i].t;
    assert HandOk(n.hand[i], n.tasks, i) && TaskOk(n.tasks[t], |n.enter|);
    ArmOk(i, n.tasks[t], n.hand[i].seen, |n.enter|);
    hide Placed, TaskOk, SeenOk, Arm;
    if Arm(i, n.tasks[t], n.hand[i].seen).Done? {
      ChangeOk(n.(hand := n.hand[i := Empty]), t, Arm(i, n.tasks[t], n.hand[i].seen).x);
    }
  }

  lemma MoveTasksOk(n: Net, m: Move)
    requires NetInv(n) && CanMove(n, m)
    ensures TasksOk(Next(n, m))
  {
    hide TaskOk, SeenOk, Put, Submit, EndCtc, CancelCas, Reto, Arm, QueueOk, HandOk;
    match m
    case SubmitBy(i, t, to) => SubmitOk(i, n.tasks[t], to, |n.enter|); ChangeOk(n, t, Submit(i, n.tasks[t], to));
    case CancelBy(i, t) => CancelOk(n.tasks[t], |n.enter|); ChangeOk(n, t, CancelCas(n.tasks[t]));
    case RetoBy(i, t, to) => RetoOk(i, n.tasks[t], to, |n.enter|); ChangeOk(n, t, Reto(n.tasks[t], to));
    case EndBy(i, t) => EndOk(i, n.tasks[t], |n.enter|); ChangeOk(n, t, EndCtc(i, n.tasks[t]));
    case PopBy(i) =>
      QueueHead(n.enter[i], n.tasks, InEnter(i));
      var x := n.tasks[n.enter[i][0]];
      PopOk(i, x, |n.enter|);
      ChangeOk(n, n.enter[i][0], x.(place := InHand(i)));
    case ArmBy(i) => ArmTasksOk(n, i);
    case TakeUp(w, k) => EnteredOk(n, n.up[w], InUp(w), 0, k);
    case TakeDown(w, k) => EnteredOk(n, n.down[w], InDown(w), w, k);
  }

  lemma RetoOk(i: nat, x: Task, to: nat, threads: nat)
    requires TaskOk(x, threads) && x.place == Held(i) && to < threads
    ensures TaskOk(Reto(x, to), threads)
  {
  }

  lemma PopOk(i: nat, x: Task, threads: nat)
    requires TaskOk(x, threads) && x.place == InEnter(i)
    ensures TaskOk(x.(place := InHand(i)), threads)
  {
  }

  /** A hand that is not on task `t`, or finds its status as it was or cancelled, still dispatches right. */
  lemma SeenKeeps(h: Hand, tasks: seq<Task>, t: TaskId, x: Task)
    requires HandSeen(h, tasks) && t < |tasks|
    requires h.Holding? && h.t == t ==> x.stat == tasks[t].stat || (tasks[t].stat == Commit && x.stat == Cancel)
    ensures HandSeen(h, tasks[t := x])
  {
  }

  /** Changing one task, with the hands left as they are. */
  lemma ChangeSeen(n: Net, t: TaskId, x: Task)
    requires Shape(n) && SeenOk(n) && t < |n.tasks|
    requires x.stat == n.tasks[t].stat || (n.tasks[t].stat == Commit && x.stat == Cancel)
             || forall i :: 0 <= i < |n.hand| ==> n.hand[i].Empty? || n.hand[i].t != t
    ensures SeenOk(n.(tasks := n.tasks[t := x])) && SeenOk(Put(n, t, x))
  {
    forall i | 0 <= i < |n.hand|
      ensures HandSeen(n.hand[i], n.tasks[t := x])
    {
      SeenKeeps(n.hand[i], n.tasks, t, x);
    }
    hide HandSeen;
  }

  lemma NotInHand(n: Net, t: TaskId)
    requires Placed(n) && t < |n.tasks| && !n.tasks[t].place.InHand?
    ensures forall i :: 0 <= i < |n.hand| ==> n.hand[i].Empty? || n.hand[i].t != t
  {
    forall i | 0 <= i < |n.hand|
      ensures n.hand[i].Empty? || n.hand[i].t != t
    {
      assert HandOk(n.hand[i], n.tasks, i);
    }
    hide Placed;
  }

  lemma PopSeen(n: Net, i: nat)
    requires NetInv(n) && CanMove(n, PopBy(i))
    ensures SeenOk(Next(n, PopBy(i)))
  {
    var t := n.enter[i][0];
    QueueHead(n.enter[i], n.tasks, InEnter(i));
    NotInHand(n, t);
    var x := n.tasks[t].(place := InHand(i));
    hide Placed, TasksOk;
    forall j | 0 <= j < |n.hand|
      ensures j != i ==> HandSeen(n.hand[j], n.tasks[t := x])
    {
      SeenKeeps(n.hand[j], n.tasks, t, x);
    }
  }

  lemma ArmSeen(n: Net, i: nat)
    requires NetInv(n) && CanMove(n, ArmBy(i))
    ensures SeenOk(Next(n, ArmBy(i)))
  {
    var t, seen := n.hand[i].t, n.hand[i].seen;
    assert HandOk(n.hand[i], n.tasks, i) && TaskOk(n.tasks[t], |n.enter|) && HandSeen(n.hand[i], n.tasks);
    ArmOk(i, n.tasks[t], seen, |n.enter|);
    if Arm(i, n.tasks[t], seen).Done? {
      var m := n.(hand := n.hand[i := Empty]);
      assert SeenOk(m) by { hide Placed, TasksOk, Arm; }
      OthersNotOnTask(n, i);
      ChangeSeen(m, t, Arm(i, n.tasks[t], seen).x);
    }
    hide Placed, TasksOk, Arm, TaskOk, HandOk;
  }

  lemma OthersNotOnTask(n: Net, i: nat)
    requires Placed(n) && i < |n.hand| && n.hand[i].Holding?
    ensures forall j :: 0 <= j < |n.hand| && j != i ==> n.hand[j].Empty? || n.hand[j].t != n.hand[i].t
  {
    forall j | 0 <= j < |n.hand| && j != i
      ensures n.hand[j].Empty? || n.hand[j].t != n.hand[i].t
    {
      assert HandOk(n.hand[i], n.tasks, i) && HandOk(n.hand[j], n.tasks, j);
    }
    hide Placed;
  }

  lemma TakeSeen(n: Net, ids: seq<TaskId>, i: nat)
    requires Shape(n) && SeenOk(n)
    ensures forall j :: 0 <= j < |n.hand| ==> HandSeen(n.hand[j], Entered(n.tasks, ids, i))
  {
    forall j | 0 <= j < |n.hand|
      ensures HandSeen(n.hand[j], Entered(n.tasks, ids, i))
    {
      assert HandSeen(n.hand[j], n.tasks);
    }
  }

  lemma MoveSeenOk(n: Net, m: Move)
    requires NetInv(n) && CanMove(n, m)
    ensures SeenOk(Next(n, m))
  {
    match m
    case SubmitBy(i, t, to) => NotInHand(n, t); ChangeSeen(n, t, Submit(i, n.tasks[t], to));
    case CancelBy(i, t) => ChangeSeen(n, t, CancelCas(n.tasks[t]));
    case RetoBy(i, t, to) => ChangeSeen(n, t, Reto(n.tasks[t], to));
    case EndBy(i, t) => NotInHand(n, t); ChangeSeen(n, t, EndCtc(i, n.tasks[t]));
    case PopBy(i) => PopSeen(n, i);
    case ArmBy(i) => ArmSeen(n, i);
    case TakeUp(w, k) => TakeSeen(n, n.up[w][..k], 0);
    case TakeDown(w, k) => TakeSeen(n, n.down[w][..k], w);
    hide Placed, TasksOk, Arm, HandSeen, Put, Submit, EndCtc, Entered;
  }

  lemma NextInv(n: Net, m: Move)
    requires NetInv(n) && CanMove(n, m)
    ensures NetInv(Next(n, m))
  {
    MovePlaced(n, m);
    MoveTasksOk(n, m);
    MoveSeenOk(n, m);
  }
}
