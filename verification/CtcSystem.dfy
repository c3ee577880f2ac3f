/**
 The whole protocol: threads that move cross-thread calls (`CtcNetwork`) over eventfd-driven channels
 (`CtcChannel`).  `pairs[w]` is worker w's pair of channels; `pairs[0]` is not used.
 */
module CtcSystem {
  import opened CtcChannel
  import opened CtcNetwork

  datatype Sys = Sys(pairs: seq<Pair>, enter: seq<seq<TaskId>>, hand: seq<Hand>, tasks: seq<Task>)

  ghost function Ups(pairs: seq<Pair>): (r: seq<seq<TaskId>>) {
    seq(|pairs|, w requires 0 <= w < |pairs| => Contents(pairs[w].worker))
  }

  ghost function Downs(pairs: seq<Pair>): seq<seq<TaskId>> {
    seq(|pairs|, w requires 0 <= w < |pairs| => Contents(pairs[w].master))
  }

  /** The channels seen as queues. */
  ghost function Abs(s: Sys): Net {
    Net(Ups(s.pairs), Downs(s.pairs), s.enter, s.hand, s.tasks)
  }

  ghost predicate WellSized(s: Sys) {
    0 < |s.pairs| == |s.enter| == |s.hand|
  }

  /** Thread `i` is between two channel calls. */
  ghost predicate Quiescent(s: Sys, i: nat)
    requires WellSized(s) && i < |s.pairs|
  {
    if i == 0 then forall w :: 0 < w < |s.pairs| ==> Calm(s.pairs[w].master) else Calm(s.pairs[i].worker)
  }

  function ThreadOf(w: nat, side: Side): nat {
    if side.Worker? then w else 0
  }

  datatype Action =
    | Do(m: Move)                      // a thread works on tasks
    | Channel(w: nat, a: Act)          // a thread reads, moves, takes or writes on worker w's channels

  /** The thread a move belongs to. */
  function Mover(m: Move): nat {
    match m
    case SubmitBy(i, _, _) => i
    case CancelBy(i, _) => i
    case RetoBy(i, _, _) => i
    case EndBy(i, _) => i
    case PopBy(i) => i
    case ArmBy(i) => i
    case TakeUp(_, _) => 0
    case TakeDown(w, _) => w
  }

  /** One thread does one thing at a time: user code and eventfd handlers run only between reap loops. */
  ghost predicate Can(s: Sys, c: Action)
    requires WellSized(s)
  {
    match c
    case Do(m) =>
      && !m.TakeUp? && !m.TakeDown? && CanMove(Abs(s), m)
      && Mover(m) < |s.pairs| && Quiescent(s, Mover(m)) && (m.ArmBy? || s.hand[Mover(m)].Empty?)
    case Channel(w, a) =>
      && 0 < w < |s.pairs| && !a.PushAct? && Enabled(s.pairs[w], a)
      && (a.ReadAct? ==> Quiescent(s, ThreadOf(w, a.side)) && s.hand[ThreadOf(w, a.side)].Empty?)
  }

  /** The task that a move hands on, if it hands one on. */
  ghost function Sends(n: Net, m: Move): (r: seq<TaskId>)
    requires Shape(n) && CanMove(n, m)
    ensures |r| <= 1 && (r != [] ==> r[0] < |n.tasks|)
  {
    match m
    case SubmitBy(_, t, _) => [t]
    case EndBy(_, t) => [t]
    case ArmBy(i) => if Arm(i, n.tasks[n.hand[i].t], n.hand[i].seen).Done? then [n.hand[i].t] else []
    case _ => []
  }

  /** `commit_ctc_f` and `finish_ctc_f` reach a channel through `PushTask`. */
  function PushAlong(pairs: seq<Pair>, t: TaskId, pl: Place): seq<Pair> {
    match pl
    case InUp(w) => if w < |pairs| then pairs[w := pairs[w].(worker := PushTask(pairs[w].worker, t))] else pairs
    case InDown(w) => if w < |pairs| then pairs[w := pairs[w].(master := PushTask(pairs[w].master, t))] else pairs
    case _ => pairs
  }

  ghost function After(s: Sys, c: Action): Sys
    requires WellSized(s) && Can(s, c)
  {
    match c
    case Do(m) =>
      var n, n' := Abs(s), Next(Abs(s), m);
      var sent := Sends(n, m);
      Sys(if sent == [] then s.pairs else PushAlong(s.pairs, sent[0], n'.tasks[sent[0]].place), n'.enter, n'.hand, n'.tasks)
    case Channel(w, a) =>
      var pairs' := s.pairs[w := Step(s.pairs[w], a)];
      if a.TakeAct? then
        var i := ThreadOf(w, a.side);
        var taken := Taken(s.pairs[w].Of(a.side), s.pairs[w].Of(a.side.Other()));
        s.(pairs := pairs', enter := s.enter[i := s.enter[i] + taken], tasks := Entered(s.tasks, taken, i))
      else s.(pairs := pairs')
  }

  ghost predicate SysInv(s: Sys) {
    && WellSized(s)
    && (forall w :: 0 <= w < |s.pairs| ==> PairInv(s.pairs[w]))
    && NetInv(Abs(s))
  }

  function NewTask(): Task {
    Task(Initial, 0, 0, false, Home, [])
  }

  /** All queues empty, every flag set, every task with its owner. */
  ghost predicate Start(s: Sys) {
    && WellSized(s)
    && (forall i :: 0 <= i < |s.pairs| ==> s.pairs[i] == FRESH && s.enter[i] == [] && s.hand[i] == Empty)
    && (forall t :: 0 <= t < |s.tasks| ==> s.tasks[t] == NewTask())
  }

  lemma StartInv(s: Sys)
    requires Start(s)
    ensures SysInv(s)
  {
    FreshInv();
  }

  // ------------------------------------------------------------------ refinement

  /** What an action is on queues: a move, or nothing at all. */
  ghost predicate Simulates(n: Net, c: Action, n': Net)
    requires Shape(n)
  {
    match c
    case Do(m) => CanMove(n, m) && n' == Next(n, m)
    case Channel(w, a) =>
      if !a.TakeAct? then n' == n
      else if a.side.Worker? then exists k: nat :: CanMove(n, TakeDown(w, k)) && n' == Next(n, TakeDown(w, k))
      else exists k: nat :: CanMove(n, TakeUp(w, k)) && n' == Next(n, TakeUp(w, k))
  }

  ghost predicate AllPairs(pairs: seq<Pair>) {
    forall w :: 0 <= w < |pairs| ==> PairInv(pairs[w])
  }

  /** The queues after `t` has been handed to wherever `pl` says. */
  ghost function Appended(qs: seq<seq<TaskId>>, w: nat, t: TaskId): seq<seq<TaskId>> {
    if w < |qs| then qs[w := qs[w] + [t]] else qs
  }

  lemma PushRefines(pairs: seq<Pair>, t: TaskId, pl: Place)
    requires AllPairs(pairs)
    requires pl.InUp? && pl.w < |pairs| ==> Calm(pairs[pl.w].worker)
    requires pl.InDown? && pl.w < |pairs| ==> Calm(pairs[pl.w].master)
    ensures AllPairs(PushAlong(pairs, t, pl))
    ensures Ups(PushAlong(pairs, t, pl)) == if pl.InUp? then Appended(Ups(pairs), pl.w, t) else Ups(pairs)
    ensures Downs(PushAlong(pairs, t, pl)) == if pl.InDown? then Appended(Downs(pairs), pl.w, t) else Downs(pairs)
  {
    hide Low, High;
    match pl
    case InUp(w) =>
      if w < |pairs| {
        var p := pairs[w];
        StepInv(p, PushAct(Worker, t));
        PushContents(p.worker, p.master, t);
        assert Step(p, PushAct(Worker, t)) == p.(worker := PushTask(p.worker, t));
      }
    case InDown(w) =>
      if w < |pairs| {
        var p := pairs[w];
        StepInv(p, PushAct(Master, t));
        PushContents(p.master, p.worker, t);
        assert Step(p, PushAct(Master, t)) == p.(master := PushTask(p.master, t));
      }
    case _ =>
  }

  /** What a move does to the queues between threads. */
  lemma NextQueues(n: Net, m: Move)
    requires Shape(n) && CanMove(n, m) && !m.TakeUp? && !m.TakeDown?
    ensures Sends(n, m) == [] ==> Next(n, m).up == n.up && Next(n, m).down == n.down
    ensures Sends(n, m) != [] ==>
      var t, n' := Sends(n, m)[0], Next(n, m);
      && t < |n'.tasks|
      && n'.up == (if n'.tasks[t].place.InUp? then Appended(n.up, n'.tasks[t].place.w, t) else n.up)
      && n'.down == (if n'.tasks[t].place.InDown? then Appended(n.down, n'.tasks[t].place.w, t) else n.down)
  {
    hide Submit, EndCtc, CancelCas, Reto, Arm;
  }

  /** Thread `i` may hand a task to `pl`: only its own end of a channel, the master only downwards. */
  ghost predicate OwnChannel(i: nat, pl: Place) {
    && (pl.InUp? ==> pl.w == i && i != 0)
    && (pl.InDown? ==> i == 0 && pl.w != 0)
  }

  lemma ArmOnOwnChannel(i: nat, x: Task, arm: Stat)
    requires Arm(i, x, arm).Done?
    ensures OwnChannel(i, Arm(i, x, arm).x.place)
  {
  }

  lemma SendsOnOwnChannels(n: Net, m: Move)
    requires Shape(n) && CanMove(n, m) && Sends(n, m) != []
    ensures Sends(n, m)[0] < |Next(n, m).tasks|
    ensures OwnChannel(Mover(m), Next(n, m).tasks[Sends(n, m)[0]].place)
  {
    if m.ArmBy? {
      var t := n.hand[m.i].t;
      ArmOnOwnChannel(m.i, n.tasks[t], n.hand[m.i].seen);
      hide Arm, OwnChannel;
      assert Next(n, m).tasks[t] == Arm(m.i, n.tasks[t], n.hand[m.i].seen).x;
    }
  }

  lemma DoRefines(s: Sys, m: Move)
    requires SysInv(s) && Can(s, Do(m))
    ensures AllPairs(After(s, Do(m)).pairs)
    ensures Abs(After(s, Do(m))) == Next(Abs(s), m)
  {
    hide Low, High;
    var n, n' := Abs(s), Next(Abs(s), m);
    hide NetInv, PairInv, Next, CanMove, Quiescent, Contents, Sends, OwnChannel, PushAlong;
    NextQueues(n, m);
    NextShape(n, m);
    if Sends(n, m) != [] {
      var t := Sends(n, m)[0];
      SendsOnOwnChannels(n, m);
      CalmSender(s, m, n'.tasks[t].place);
      PushRefines(s.pairs, t, n'.tasks[t].place);
    }
  }

  lemma NextShape(n: Net, m: Move)
    requires Shape(n) && CanMove(n, m)
    ensures Shape(Next(n, m)) && |Next(n, m).enter| == |n.enter| && |Next(n, m).tasks| == |n.tasks|
  {
    hide Submit, EndCtc, CancelCas, Reto, Arm;
  }

  lemma CalmSender(s: Sys, m: Move, pl: Place)
    requires WellSized(s) && Mover(m) < |s.pairs| && Quiescent(s, Mover(m))
    requires OwnChannel(Mover(m), pl)
    ensures pl.InUp? && pl.w < |s.pairs| ==> Calm(s.pairs[pl.w].worker)
    ensures pl.InDown? && pl.w < |s.pairs| ==> Calm(s.pairs[pl.w].master)
  {
  }

  lemma ChannelRefines(s: Sys, w: nat, a: Act)
    requires SysInv(s) && Can(s, Channel(w, a)) && !a.TakeAct?
    ensures Abs(After(s, Channel(w, a))) == Abs(s)
  {
    hide Low, High;
    var p := s.pairs[w];
    StepContents(p, a, Worker);
    StepContents(p, a, Master);
    UpdateQueues(s.pairs, w, Step(p, a));
    assert Contents(Step(p, a).worker) == Contents(p.worker) && Contents(Step(p, a).master) == Contents(p.master);
    assert Ups(s.pairs)[w := Contents(p.worker)] == Ups(s.pairs);
    assert Downs(s.pairs)[w := Contents(p.master)] == Downs(s.pairs);
    hide NetInv, PairInv, Step, Enabled, Quiescent, Contents, Ups, Downs;
  }

  /** The batch a take step moves. */
  ghost function Batch(s: Sys, w: nat, side: Side): seq<TaskId>
    requires WellSized(s) && Can(s, Channel(w, TakeAct(side)))
  {
    Taken(s.pairs[w].Of(side), s.pairs[w].Of(side.Other()))
  }

  lemma AfterTake(s: Sys, w: nat, side: Side)
    requires WellSized(s) && Can(s, Channel(w, TakeAct(side)))
    ensures
      var i, taken, s' := ThreadOf(w, side), Batch(s, w, side), After(s, Channel(w, TakeAct(side)));
      && s'.pairs == s.pairs[w := Step(s.pairs[w], TakeAct(side))]
      && s'.enter == s.enter[i := s.enter[i] + taken] && s'.hand == s.hand && s'.tasks == Entered(s.tasks, taken, i)
  {
    hide Low, High;
  }

  lemma TakeDownRefines(s: Sys, w: nat)
    requires SysInv(s) && Can(s, Channel(w, TakeAct(Worker)))
    ensures
      var m := TakeDown(w, |Batch(s, w, Worker)|);
      CanMove(Abs(s), m) && Abs(After(s, Channel(w, TakeAct(Worker)))) == Next(Abs(s), m)
  {
    hide Low, High, NetInv, Quiescent;
    var p, taken, k := s.pairs[w], Batch(s, w, Worker), |Batch(s, w, Worker)|;
    var s' := After(s, Channel(w, TakeAct(Worker)));
    TakePrefix(p, Worker);
    UpdateQueues(s.pairs, w, Step(p, TakeAct(Worker)));
    assert Ups(s.pairs)[w] == Contents(p.worker) && Downs(s.pairs)[w] == Contents(p.master);
    assert Ups(s.pairs)[w := Ups(s.pairs)[w]] == Ups(s.pairs);
    assert CanMove(Abs(s), TakeDown(w, k)) && taken == Abs(s).down[w][..k];
    AfterTake(s, w, Worker);
    hide SysInv, Can, After, Step, Contents, Enabled, Entered, Ups, Downs, Batch, Taken;
  }

  lemma TakeUpRefines(s: Sys, w: nat)
    requires SysInv(s) && Can(s, Channel(w, TakeAct(Master)))
    ensures
      var m := TakeUp(w, |Batch(s, w, Master)|);
      CanMove(Abs(s), m) && Abs(After(s, Channel(w, TakeAct(Master)))) == Next(Abs(s), m)
  {
    hide Low, High, NetInv, Quiescent;
    var p, taken, k := s.pairs[w], Batch(s, w, Master), |Batch(s, w, Master)|;
    var s' := After(s, Channel(w, TakeAct(Master)));
    TakePrefix(p, Master);
    UpdateQueues(s.pairs, w, Step(p, TakeAct(Master)));
    assert Ups(s.pairs)[w] == Contents(p.worker) && Downs(s.pairs)[w] == Contents(p.master);
    assert Downs(s.pairs)[w := Downs(s.pairs)[w]] == Downs(s.pairs);
    assert CanMove(Abs(s), TakeUp(w, k)) && taken == Abs(s).up[w][..k];
    AfterTake(s, w, Master);
    hide SysInv, Can, After, Step, Contents, Enabled, Entered, Ups, Downs, Batch, Taken;
  }

  lemma UpdateQueues(pairs: seq<Pair>, w: nat, p: Pair)
    requires w < |pairs|
    ensures Ups(pairs[w := p]) == Ups(pairs)[w := Contents(p.worker)]
    ensures Downs(pairs[w := p]) == Downs(pairs)[w := Contents(p.master)]
  {
    hide Contents;
  }

  /** A take removes the oldest tasks of the peer's queue and leaves the taker's own queue alone. */
  lemma TakePrefix(p: Pair, side: Side)
    requires PairInv(p) && Enabled(p, TakeAct(side))
    ensures
      var taken, q := Taken(p.Of(side), p.Of(side.Other())), Contents(p.Of(side.Other()));
      var p' := Step(p, TakeAct(side));
      && |taken| <= |q| && taken == q[..|taken|]
      && Contents(p'.Of(side.Other())) == q[|taken|..]
      && Contents(p'.Of(side)) == Contents(p.Of(side))
  {
    StepContents(p, TakeAct(side), side);
    StepContents(p, TakeAct(side), side.Other());
    var taken := Taken(p.Of(side), p.Of(side.Other()));
    var q, q' := Contents(p.Of(side.Other())), Contents(Step(p, TakeAct(side)).Of(side.Other()));
    assert taken + q' == q;
  }

  /** Every step of the eventfd protocol is a step of the queue system, or invisible to it, and keeps the invariant. */
  lemma StepRefines(s: Sys, c: Action)
    requires SysInv(s) && Can(s, c)
    ensures SysInv(After(s, c))
    ensures Simulates(Abs(s), c, Abs(After(s, c)))
  {
    match c
    case Do(m) => DoStepRefines(s, m);
    case Channel(w, a) => ChannelStepRefines(s, w, a);
  }

  lemma DoStepRefines(s: Sys, m: Move)
    requires SysInv(s) && Can(s, Do(m))
    ensures SysInv(After(s, Do(m))) && Simulates(Abs(s), Do(m), Abs(After(s, Do(m))))
  {
    hide Low, High;
    DoRefines(s, m);
    NextInv(Abs(s), m);
    NextShape(Abs(s), m);
    hide NetInv, PairInv, Next, CanMove, Quiescent, Contents;
  }

  lemma PairsKeepInv(s: Sys, w: nat, a: Act)
    requires SysInv(s) && Can(s, Channel(w, a))
    ensures AllPairs(After(s, Channel(w, a)).pairs)
  {
    hide Low, High;
    CtcChannel.StepInv(s.pairs[w], a);
    hide NetInv, PairInv, Quiescent, Step, Taken, Enabled, Entered;
  }

  lemma ChannelStepRefines(s: Sys, w: nat, a: Act)
    requires SysInv(s) && Can(s, Channel(w, a))
    ensures SysInv(After(s, Channel(w, a))) && Simulates(Abs(s), Channel(w, a), Abs(After(s, Channel(w, a))))
  {
    hide Low, High;
    PairsKeepInv(s, w, a);
    SysInvParts(s);
    SizesKept(s, Channel(w, a));
    hide NetInv, PairInv, Next, CanMove, Can, After, Abs;
    if a.TakeAct? {
      var k := |Batch(s, w, a.side)|;
      var m := if a.side.Worker? then TakeDown(w, k) else TakeUp(w, k);
      if a.side.Worker? { TakeDownRefines(s, w); } else { TakeUpRefines(s, w); }
      NextInv(Abs(s), m);
    } else {
      ChannelRefines(s, w, a);
    }
  }

  lemma SysInvParts(s: Sys)
    requires SysInv(s)
    ensures WellSized(s) && NetInv(Abs(s)) && AllPairs(s.pairs) && Shape(Abs(s))
  {
    hide Low, High;
    hide NetInv, PairInv;
  }

  lemma SizesKept(s: Sys, c: Action)
    requires WellSized(s) && Can(s, c)
    ensures WellSized(After(s, c)) && |After(s, c).pairs| == |s.pairs| && |After(s, c).tasks| == |s.tasks|
  {
    hide Low, High;
    if c.Do? { NextShape(Abs(s), c.m); }
    hide Next, CanMove, Step, Enabled, Taken, Quiescent, Sends;
  }

  // ------------------------------------------------------------------ what holds in every state of every run

  ghost predicate IsRun(b: seq<Sys>, acts: seq<Action>) {
    && |b| == |acts| + 1
    && Start(b[0])
    && (forall i :: 0 <= i < |b| ==> WellSized(b[i]))
    && forall i :: 0 <= i < |acts| ==> Can(b[i], acts[i]) && b[i + 1] == After(b[i], acts[i])
  }

  lemma {:induction false} EveryRunIsSafe(b: seq<Sys>, acts: seq<Action>, n: nat)
    requires IsRun(b, acts) && n <= |acts|
    ensures SysInv(b[n])
  {
    hide Low, High;
    if n == 0 {
      StartInv(b[0]);
    } else {
      EveryRunIsSafe(b, acts, n - 1);
      StepRefines(b[n - 1], acts[n - 1]);
      hide SysInv, Can, After;
      assert b[n - 1 + 1] == After(b[n - 1], acts[n - 1]);
    }
  }

  /** The pointers found at a place. */
  ghost function At(s: Sys, pl: Place): seq<TaskId> {
    match pl
    case InUp(w) => if w < |s.pairs| then Contents(s.pairs[w].worker) else []
    case InDown(w) => if w < |s.pairs| then Contents(s.pairs[w].master) else []
    case InEnter(i) => if i < |s.enter| then s.enter[i] else []
    case InHand(i) => if i < |s.hand| && s.hand[i].Holding? then [s.hand[i].t] else []
    case _ => []
  }

  /**
   No task is ever in two queues, or twice in one, so the "already queued" test of the deque never drops a
   push; and a submitted task that no callback holds is always in one of them.
   */
  lemma ExactlyOnePlace(s: Sys, t: TaskId)
    requires SysInv(s) && t < |s.tasks|
    ensures forall pl, k, pl', k' :: 0 <= k < |At(s, pl)| && 0 <= k' < |At(s, pl')| && At(s, pl)[k] == t == At(s, pl')[k']
              ==> pl == pl' && k == k'
    ensures s.tasks[t].place.Home? || s.tasks[t].place.Held? || t in At(s, s.tasks[t].place)
  {
    hide Low, High;
    var n := Abs(s);
    forall pl, k | 0 <= k < |At(s, pl)|
      ensures At(s, pl)[k] < |s.tasks| && s.tasks[At(s, pl)[k]].place == pl
    {
      AtOk(s, pl);
    }
    forall pl, k, k' | 0 <= k < |At(s, pl)| && 0 <= k' < |At(s, pl)| && At(s, pl)[k] == t == At(s, pl)[k']
      ensures k == k'
    {
      AtOk(s, pl);
    }
    assert TaskOk(n.tasks[t], |n.enter|);
    AtOk(s, s.tasks[t].place);
  }

  lemma AtOk(s: Sys, pl: Place)
    requires SysInv(s)
    ensures forall k :: 0 <= k < |At(s, pl)| ==> At(s, pl)[k] < |s.tasks| && s.tasks[At(s, pl)[k]].place == pl
    ensures forall j, k :: 0 <= j < k < |At(s, pl)| ==> At(s, pl)[j] != At(s, pl)[k]
    ensures !pl.Home? && !pl.Held? && InRange(pl, |s.enter|) ==>
      forall t :: 0 <= t < |s.tasks| && s.tasks[t].place == pl ==> t in At(s, pl)
  {
    hide Low, High;
    var n := Abs(s);
    hide Contents, TaskOk;
    match pl
    case InUp(w) => if w < |s.pairs| { assert QueueOk(n.up[w], n.tasks, InUp(w)); }
    case InDown(w) => if w < |s.pairs| { assert QueueOk(n.down[w], n.tasks, InDown(w)); }
    case InEnter(i) => if i < |s.enter| { assert QueueOk(n.enter[i], n.tasks, InEnter(i)); }
    case InHand(i) => if i < |s.hand| { assert HandOk(n.hand[i], n.tasks, i); }
    case _ =>
  }

  /** A channel to worker `w` only ever carries calls addressed to `w` and answers owed to `w`. */
  lemma DownChannelIsAddressed(s: Sys, w: nat, k: nat)
    requires SysInv(s) && w < |s.pairs| && k < |At(s, InDown(w))|
    ensures
      var t := At(s, InDown(w))[k];
      && t < |s.tasks|
      && (if s.tasks[t].stat == Finish then s.tasks[t].from == w
          else s.tasks[t].stat in {Commit, Cancel, Running} && s.tasks[t].to == w)
  {
    AtOk(s, InDown(w));
    assert TaskOk(s.tasks[At(s, InDown(w))[k]], |s.enter|);
  }

  /** What happened to a task, in any run, is an unbroken life: `CtcLife` spells out what that means. */
  lemma EveryRunKeepsItsPromises(b: seq<Sys>, acts: seq<Action>, n: nat, t: TaskId)
    requires IsRun(b, acts) && n <= |acts| && t < |b[n].tasks|
    ensures Life(b[n].tasks[t].log) != Broken
    ensures Life(b[n].tasks[t].log).AtHome? <==> b[n].tasks[t].place.Home?
  {
    hide Low, High;
    EveryRunIsSafe(b, acts, n);
    assert TaskOk(Abs(b[n]).tasks[t], |b[n].enter|);
  }
}
