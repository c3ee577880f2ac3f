/**
 Progress of the cross-thread calls: every step a thread takes by itself runs a measure down, and while a
 submitted task is neither back at its owner nor held by a callback, some thread has such a step to take.
 A wake event is taken to be delivered exactly while the counter it announces is not zero.
 */
module CtcProgress {
  import opened CtcChannel
  import opened CtcNetwork
  import opened CtcSystem

  // ------------------------------------------------------------------ sums

  ghost function Total(xs: seq<nat>): nat {
    if xs == [] then 0 else Total(xs[..|xs| - 1]) + xs[|xs| - 1]
  }

  lemma {:induction false} TotalUpdate(xs: seq<nat>, i: nat, v: nat)
    requires i < |xs|
    ensures Total(xs[i := v]) + xs[i] == Total(xs) + v
  {
    var n := |xs| - 1;
    if i == n {
      assert xs[i := v][..n] == xs[..n];
    } else {
      TotalUpdate(xs[..n], i, v);
      assert xs[i := v][..n] == xs[..n][i := v];
    }
  }

  lemma {:induction false} TotalMonotone(xs: seq<nat>, ys: seq<nat>)
    requires |xs| == |ys| && forall i :: 0 <= i < |xs| ==> xs[i] <= ys[i]
    ensures Total(xs) <= Total(ys)
  {
    if xs != [] { TotalMonotone(xs[..|xs| - 1], ys[..|ys| - 1]); }
  }

  // ------------------------------------------------------------------ the measure

  /** Steps between a task and its owner: hops still to make, by status and place. */
  ghost function Stage(x: Task): nat {
    match x.place
    case Home => 0
    case Held(_) => 8
    case InHand(i) => if x.stat == Finish then (if i == x.from then 1 else 4) else if x.stat == Running then 9 else if i == 0 then 15 else 12
    case InEnter(i) => if x.stat == Finish then (if i == x.from then 2 else 5) else if x.stat == Running then 10 else if i == 0 then 16 else 13
    case InDown(_) => if x.stat == Finish then 3 else if x.stat == Running then 11 else 14
    case InUp(_) => if x.stat == Finish then 6 else 17
  }

  ghost function TaskCost(x: Task): nat {
    40 * Stage(x) + Count(x.stat == Commit)
  }

  /** How far the token of `s`'s channel is from resting in the flag, and one more lap if a batch waits. */
  ghost function ChannelCost(s: End, r: End): nat {
    3 * (TakeInHand(s.pc) + 2 * High(s.fd) + 3 * Count(r.out.Took?) + 4 * PushInHand(r.pc) + 5 * Low(r.fd) + 6 * Count(s.out.Push?))
    + 30 * Count(s.staging != [])
  }

  ghost function HandlerCost(h: Handler): nat {
    match h
    case Ready => 0
    case AtMove(_) => 2
    case AtTake(_) => 1
  }

  ghost function EndsCost(e: End, peer: End): nat {
    ChannelCost(e, peer) + ChannelCost(peer, e) + HandlerCost(e.pc) + HandlerCost(peer.pc)
  }

  ghost function PairCost(p: Pair): nat {
    EndsCost(p.worker, p.master)
  }

  ghost function HandCost(h: Hand): nat {
    Count(h.Holding? && h.seen == Commit)
  }

  ghost function TaskCosts(tasks: seq<Task>): seq<nat> {
    seq(|tasks|, t requires 0 <= t < |tasks| => TaskCost(tasks[t]))
  }

  ghost function PairCosts(pairs: seq<Pair>): seq<nat> {
    seq(|pairs|, w requires 0 <= w < |pairs| => PairCost(pairs[w]))
  }

  ghost function HandCosts(hand: seq<Hand>): seq<nat> {
    seq(|hand|, i requires 0 <= i < |hand| => HandCost(hand[i]))
  }

  ghost function Measure(s: Sys): nat {
    Total(TaskCosts(s.tasks)) + Total(PairCosts(s.pairs)) + Total(HandCosts(s.hand))
  }

  lemma TaskUpdate(tasks: seq<Task>, t: TaskId, x: Task)
    requires t < |tasks|
    ensures Total(TaskCosts(tasks[t := x])) + TaskCost(tasks[t]) == Total(TaskCosts(tasks)) + TaskCost(x)
  {
    assert TaskCosts(tasks[t := x]) == TaskCosts(tasks)[t := TaskCost(x)];
    TotalUpdate(TaskCosts(tasks), t, TaskCost(x));
  }

  lemma PairUpdate(pairs: seq<Pair>, w: nat, p: Pair)
    requires w < |pairs|
    ensures Total(PairCosts(pairs[w := p])) + PairCost(pairs[w]) == Total(PairCosts(pairs)) + PairCost(p)
  {
    assert PairCosts(pairs[w := p]) == PairCosts(pairs)[w := PairCost(p)];
    TotalUpdate(PairCosts(pairs), w, PairCost(p));
  }

  lemma HandUpdate(hand: seq<Hand>, i: nat, h: Hand)
    requires i < |hand|
    ensures Total(HandCosts(hand[i := h])) + HandCost(hand[i]) == Total(HandCosts(hand)) + HandCost(h)
  {
    assert HandCosts(hand[i := h]) == HandCosts(hand)[i := HandCost(h)];
    TotalUpdate(HandCosts(hand), i, HandCost(h));
  }

  // ------------------------------------------------------------------ channel steps

  lemma ReadCost(e: End, peer: End)
    requires BothInv(e, peer) && Calm(e) && e.fd > 0
    ensures EndsCost(ReadFd(e), peer) < EndsCost(e, peer)
  {
    assert Low(0) == 0 && High(0) == 0;
    hide Low, High;
  }

  lemma MoveCost(e: End, peer: End)
    requires BothInv(e, peer) && e.pc.AtMove? && e.out.Quiet?
    ensures EndsCost(MoveShared(e), peer) < EndsCost(e, peer)
  {
    hide Low, High;
  }

  lemma TakeCost(e: End, peer: End)
    requires BothInv(e, peer) && e.pc.AtTake? && e.out.Quiet?
    ensures EndsCost(TakeShared(e, peer).0, TakeShared(e, peer).1) < EndsCost(e, peer)
  {
    hide Low, High;
    var e', peer' := TakeShared(e, peer).0, TakeShared(e, peer).1;
    assert ChannelCost(e', peer') == ChannelCost(e, peer);
  }

  lemma WriteCost(e: End, peer: End)
    requires BothInv(e, peer) && !e.out.Quiet?
    ensures EndsCost(e.(out := Quiet), peer.(fd := peer.fd + Amount(e.out))) < EndsCost(e, peer)
  {
    WriteArithmetic(peer.fd, e.out);
    hide Low, High, Amount;
  }

  lemma PushCost(e: End, peer: End, t: TaskId)
    requires BothInv(e, peer) && Calm(e)
    ensures EndsCost(PushTask(e, t), peer) <= EndsCost(e, peer) + 30
  {
    hide Low, High;
  }

  lemma StepCost(p: Pair, a: Act)
    requires PairInv(p) && Enabled(p, a)
    ensures if a.PushAct? then PairCost(Step(p, a)) <= PairCost(p) + 30 else PairCost(Step(p, a)) < PairCost(p)
  {
    hide Low, High;
    var e, peer := p.Of(a.side), p.Of(a.side.Other());
    EndsCostSymmetric(p, a.side);
    EndsCostSymmetric(Step(p, a), a.side);
    EndsStepCost(e, peer, a);
    hide ChannelInv, EndsCost, PairCost, StepEnds, BothInv, PairInv, Enabled;
  }

  lemma EndsCostSymmetric(p: Pair, side: Side)
    ensures EndsCost(p.Of(side), p.Of(side.Other())) == PairCost(p)
  {
    hide Low, High;
    hide ChannelCost, HandlerCost;
  }

  lemma EndsStepCost(e: End, peer: End, a: Act)
    requires BothInv(e, peer)
    requires match a
             case PushAct(_, _) => Calm(e)
             case ReadAct(_) => Calm(e) && e.fd > 0
             case MoveAct(_) => e.pc.AtMove? && e.out.Quiet?
             case TakeAct(_) => e.pc.AtTake? && e.out.Quiet?
             case WriteAct(_) => !e.out.Quiet?
    ensures
      var r := StepEnds(e, peer, a);
      if a.PushAct? then EndsCost(r.0, r.1) <= EndsCost(e, peer) + 30 else EndsCost(r.0, r.1) < EndsCost(e, peer)
  {
    hide EndsCost, ChannelInv;
    match a
    case PushAct(_, t) => PushCost(e, peer, t);
    case ReadAct(_) => ReadCost(e, peer);
    case MoveAct(_) => MoveCost(e, peer);
    case TakeAct(_) => TakeCost(e, peer);
    case WriteAct(_) => WriteCost(e, peer);
  }

  // ------------------------------------------------------------------ moves of tasks

  /**
   What a thread may do without starting anything anew: everything but submissions, redirections, and the end of a callback
   that has redirected its call.  Of the cancels, these are the ones that win.
   */
  ghost predicate Internal(s: Sys, c: Action)
    requires WellSized(s) && Can(s, c)
  {
    match c
    case Channel(_, _) => true
    case Do(m) => m.PopBy? || m.ArmBy? || (m.EndBy? && !s.tasks[m.t].reto) || (m.CancelBy? && s.tasks[m.t].stat == Commit)
  }

  /** A cancel that comes too late. */
  ghost predicate LosesCancel(s: Sys, c: Action)
    requires WellSized(s) && Can(s, c)
  {
    c.Do? && c.m.CancelBy? && s.tasks[c.m.t].stat != Commit
  }

  lemma LostCancelChangesNothing(s: Sys, c: Action)
    requires WellSized(s) && Can(s, c) && LosesCancel(s, c)
    ensures After(s, c) == s
  {
    hide Low, High, Quiescent;
    assert s.tasks[c.m.t := s.tasks[c.m.t]] == s.tasks;
  }

  /** Handing a task on brings it at least one stage nearer to its owner. */
  lemma ArmStage(i: nat, x: Task, arm: Stat, threads: nat)
    requires TaskOk(x, threads) && x.place == InHand(i) && Dispatches(arm, x.stat)
    ensures Arm(i, x, arm).Done? ==> TaskCost(Arm(i, x, arm).x) + 38 < TaskCost(x)
  {
  }

  lemma EndStage(i: nat, x: Task, threads: nat)
    requires TaskOk(x, threads) && x.place == Held(i) && !x.reto
    ensures TaskCost(EndCtc(i, x)) + 38 < TaskCost(x)
  {
  }

  lemma PopStage(i: nat, x: Task)
    requires x.place == InEnter(i)
    ensures TaskCost(x.(place := InHand(i))) + 38 < TaskCost(x)
  {
  }

  lemma EnterStage(x: Task, i: nat, threads: nat)
    requires TaskOk(x, threads) && ((x.place.InUp? && i == 0) || x.place == InDown(i))
    ensures TaskCost(x.(place := InEnter(i))) <= TaskCost(x)
  {
  }

  /** Putting a task into a channel costs at most one lap of its token. */
  lemma PushAlongCost(pairs: seq<Pair>, t: TaskId, pl: Place)
    requires AllPairs(pairs)
    requires pl.InUp? && pl.w < |pairs| ==> Calm(pairs[pl.w].worker)
    requires pl.InDown? && pl.w < |pairs| ==> Calm(pairs[pl.w].master)
    ensures Total(PairCosts(PushAlong(pairs, t, pl))) <= Total(PairCosts(pairs)) + 30
  {
    hide Low, High;
    hide PairCost, PairInv, PairCosts, Total;
    match pl
    case InUp(w) =>
      if w < |pairs| {
        PairUpdate(pairs, w, pairs[w].(worker := PushTask(pairs[w].worker, t)));
        StepCost(pairs[w], PushAct(Worker, t));
      }
    case InDown(w) =>
      if w < |pairs| {
        PairUpdate(pairs, w, pairs[w].(master := PushTask(pairs[w].master, t)));
        StepCost(pairs[w], PushAct(Master, t));
      }
    case _ =>
  }

  lemma PopRunsDown(s: Sys, i: nat)
    requires SysInv(s) && Can(s, Do(PopBy(i)))
    ensures Measure(After(s, Do(PopBy(i)))) < Measure(s)
  {
    hide Low, High;
    var n := Abs(s);
    assert QueueOk(n.enter[i], n.tasks, InEnter(i));
    var t := s.enter[i][0];
    PopStage(i, s.tasks[t]);
    hide SysInv, TaskCost, Total, PairCosts, Quiescent, QueueOk, Measure;
    MeasureChange(s, After(s, Do(PopBy(i))), t, s.tasks[t].(place := InHand(i)), i, Holding(t, s.tasks[t].stat));
  }

  lemma AfterEnd(s: Sys, i: nat, t: TaskId)
    requires WellSized(s) && Can(s, Do(EndBy(i, t)))
    ensures
      var x, s' := EndCtc(i, s.tasks[t]), After(s, Do(EndBy(i, t)));
      s'.pairs == PushAlong(s.pairs, t, x.place) && s'.hand == s.hand && s'.tasks == s.tasks[t := x]
  {
    hide EndCtc, PushAlong, Quiescent;
  }

  lemma EndRunsDown(s: Sys, i: nat, t: TaskId)
    requires SysInv(s) && Can(s, Do(EndBy(i, t))) && !s.tasks[t].reto
    ensures Measure(After(s, Do(EndBy(i, t)))) < Measure(s)
  {
    hide Low, High;
    SysInvParts(s);
    assert TaskOk(s.tasks[t], |s.enter|) by { assert TaskOk(Abs(s).tasks[t], |s.enter|); }
    AfterEnd(s, i, t);
    EndStage(i, s.tasks[t], |s.enter|);
    var x := EndCtc(i, s.tasks[t]);
    assert OwnChannel(i, x.place);
    assert s.hand[i := s.hand[i]] == s.hand;
    CalmSender(s, EndBy(i, t), x.place);
    hide SysInv, NetInv, After, TaskCost, Total, PairCosts, Quiescent, PushAlong, EndCtc, TaskOk, Measure, OwnChannel;
    PushAlongCost(s.pairs, t, x.place);
    MeasureChange(s, After(s, Do(EndBy(i, t))), t, x, i, s.hand[i]);
  }

  /** The measure, when one task, one hand and the channels change. */
  lemma MeasureChange(s: Sys, s': Sys, t: TaskId, x: Task, i: nat, h: Hand)
    requires t < |s.tasks| && i < |s.hand| && s'.tasks == s.tasks[t := x] && s'.hand == s.hand[i := h]
    requires TaskCost(x) + 38 < TaskCost(s.tasks[t]) && Total(PairCosts(s'.pairs)) <= Total(PairCosts(s.pairs)) + 30
    ensures Measure(s') < Measure(s)
  {
    TaskUpdate(s.tasks, t, x);
    HandUpdate(s.hand, i, h);
    hide TaskCost, Total, TaskCosts, PairCosts, HandCosts, PairCost;
  }

  /** The parts of the state that count, after one arm of a reap loop. */
  lemma AfterArm(s: Sys, i: nat)
    requires WellSized(s) && Can(s, Do(ArmBy(i)))
    ensures
      var t, s' := s.hand[i].t, After(s, Do(ArmBy(i)));
      match Arm(i, s.tasks[t], s.hand[i].seen)
      case Done(x) => s'.pairs == PushAlong(s.pairs, t, x.place) && s'.hand == s.hand[i := Empty] && s'.tasks == s.tasks[t := x]
      case FallInto(arm) => s'.pairs == s.pairs && s'.hand == s.hand[i := Holding(t, arm)] && s'.tasks == s.tasks
  {
    hide Arm, PushAlong, Quiescent;
  }

  /** What a reap loop knows about the task in its hand. */
  lemma InHandOk(s: Sys, i: nat)
    requires SysInv(s) && i < |s.hand| && s.hand[i].Holding?
    ensures s.hand[i].t < |s.tasks| && s.tasks[s.hand[i].t].place == InHand(i)
    ensures TaskOk(s.tasks[s.hand[i].t], |s.enter|) && Dispatches(s.hand[i].seen, s.tasks[s.hand[i].t].stat)
  {
    hide Low, High;
    assert HandOk(Abs(s).hand[i], s.tasks, i) && HandSeen(Abs(s).hand[i], s.tasks);
    hide Placed, TaskOk, PairInv;
  }

  lemma ArmRunsDown(s: Sys, i: nat)
    requires SysInv(s) && Can(s, Do(ArmBy(i)))
    ensures Measure(After(s, Do(ArmBy(i)))) < Measure(s)
  {
    hide Low, High;
    var t, seen, s' := s.hand[i].t, s.hand[i].seen, After(s, Do(ArmBy(i)));
    InHandOk(s, i);
    SysInvParts(s);
    AfterArm(s, i);
    ArmOk(i, s.tasks[t], seen, |s.enter|);
    ArmStage(i, s.tasks[t], seen, |s.enter|);
    hide SysInv, NetInv, After, TaskCost, Quiescent, PushAlong, Arm, TaskOk, Measure, PairCosts, Total;
    if Arm(i, s.tasks[t], seen).Done? {
      var x := Arm(i, s.tasks[t], seen).x;
      ArmOnOwnChannel(i, s.tasks[t], seen);
      CalmSender(s, ArmBy(i), x.place);
      PushAlongCost(s.pairs, t, x.place);
      MeasureChange(s, s', t, x, i, Empty);
    } else {
      FallRunsDown(s, s', i);
    }
  }

  lemma FallRunsDown(s: Sys, s': Sys, i: nat)
    requires i < |s.hand| && s.hand[i].Holding? && s.hand[i].seen == Commit
    requires s' == s.(hand := s.hand[i := Holding(s.hand[i].t, Cancel)], enter := s'.enter)
    ensures Measure(s') < Measure(s)
  {
    HandUpdate(s.hand, i, Holding(s.hand[i].t, Cancel));
    hide TaskCost, Total, TaskCosts, PairCosts, HandCosts, PairCost;
  }

  lemma ChannelRunsDown(s: Sys, w: nat, a: Act)
    requires SysInv(s) && Can(s, Channel(w, a))
    ensures Measure(After(s, Channel(w, a))) < Measure(s)
  {
    hide Low, High;
    StepCost(s.pairs[w], a);
    PairUpdate(s.pairs, w, Step(s.pairs[w], a));
    if a.TakeAct? { TakeCosts(s, w, a.side); }
    hide SysInv, TaskCost, Total, TaskCosts, PairCosts, HandCosts, Quiescent, PairCost, Step, Entered, Enabled, Taken;
  }

  lemma TakeCosts(s: Sys, w: nat, side: Side)
    requires SysInv(s) && Can(s, Channel(w, TakeAct(side)))
    ensures Total(TaskCosts(Entered(s.tasks, Batch(s, w, side), ThreadOf(w, side)))) <= Total(TaskCosts(s.tasks))
  {
    hide Low, High;
    var i, taken := ThreadOf(w, side), Batch(s, w, side);
    TakenOk(s, w, side);
    hide SysInv, Can, TaskCost, Total, Batch, TaskOk;
    forall t | 0 <= t < |s.tasks|
      ensures TaskCosts(Entered(s.tasks, taken, i))[t] <= TaskCosts(s.tasks)[t]
    {
      if t in taken { EnterStage(s.tasks[t], i, |s.enter|); }
    }
    TotalMonotone(TaskCosts(Entered(s.tasks, taken, i)), TaskCosts(s.tasks));
  }

  lemma TakenOk(s: Sys, w: nat, side: Side)
    requires SysInv(s) && Can(s, Channel(w, TakeAct(side)))
    ensures forall t :: t in Batch(s, w, side) ==>
      t < |s.tasks| && TaskOk(s.tasks[t], |s.enter|) && s.tasks[t].place == if side.Worker? then InDown(w) else InUp(w)
  {
    hide Low, High;
    var n := Abs(s);
    TakePrefix(s.pairs[w], side);
    assert QueueOk(n.down[w], n.tasks, InDown(w)) && QueueOk(n.up[w], n.tasks, InUp(w));
    hide PairInv, TaskOk, Contents, Taken, Quiescent, Enabled, Step;
  }

  lemma AfterCancel(s: Sys, i: nat, t: TaskId)
    requires WellSized(s) && Can(s, Do(CancelBy(i, t)))
    ensures After(s, Do(CancelBy(i, t))) == s.(tasks := s.tasks[t := CancelCas(s.tasks[t])])
  {
    hide CancelCas, Quiescent;
  }

  lemma CancelCost(x: Task)
    requires x.stat == Commit
    ensures TaskCost(CancelCas(x)) < TaskCost(x)
  {
  }

  lemma CancelRunsDown(s: Sys, i: nat, t: TaskId)
    requires SysInv(s) && Can(s, Do(CancelBy(i, t))) && s.tasks[t].stat == Commit
    ensures Measure(After(s, Do(CancelBy(i, t)))) < Measure(s)
  {
    hide Low, High;
    AfterCancel(s, i, t);
    CancelCost(s.tasks[t]);
    TaskUpdate(s.tasks, t, CancelCas(s.tasks[t]));
    hide SysInv, Total, TaskCost, CancelCas, TaskCosts, PairCosts, HandCosts, Quiescent, After;
  }

  /** Left to themselves the threads come to rest: every internal step, a cancel that wins among them, runs the measure down. */
  lemma EveryInternalStepRunsDown(s: Sys, c: Action)
    requires SysInv(s) && Can(s, c) && Internal(s, c)
    ensures SysInv(After(s, c)) && Measure(After(s, c)) < Measure(s)
  {
    hide Low, High;
    StepRefines(s, c);
    hide SysInv, Can, After, Measure;
    match c
    case Channel(w, a) => ChannelRunsDown(s, w, a);
    case Do(m) =>
      match m
      case PopBy(i) => PopRunsDown(s, i);
      case ArmBy(i) => ArmRunsDown(s, i);
      case EndBy(i, t) => EndRunsDown(s, i, t);
      case CancelBy(i, t) => CancelRunsDown(s, i, t);
      case _ =>
  }

  // ------------------------------------------------------------------ no deadlock, no lost wakeup

  /** A step of the event loops: no user code is waited for. */
  ghost predicate LoopStep(s: Sys, c: Action)
    requires WellSized(s)
  {
    Can(s, c) && match c case Channel(_, _) => true case Do(m) => m.PopBy? || m.ArmBy?
  }

  /** A thread in the middle of an eventfd handler can go on with it. */
  lemma HandlerCanGoOn(s: Sys, w: nat, side: Side) returns (c: Action)
    requires WellSized(s) && 0 < w < |s.pairs| && !Calm(s.pairs[w].Of(side))
    ensures LoopStep(s, c)
  {
    var e := s.pairs[w].Of(side);
    c := Channel(w, if !e.out.Quiet? then WriteAct(side) else if e.pc.AtMove? then MoveAct(side) else TakeAct(side));
  }

  lemma BusyThreadCanGoOn(s: Sys, i: nat) returns (c: Action)
    requires WellSized(s) && i < |s.pairs| && !Quiescent(s, i)
    ensures LoopStep(s, c)
  {
    if i == 0 {
      var w :| 0 < w < |s.pairs| && !Calm(s.pairs[w].master);
      c := HandlerCanGoOn(s, w, Master);
    } else {
      c := HandlerCanGoOn(s, i, Worker);
    }
  }

  /** With both handlers at rest and both counters zero, both channels are empty. */
  lemma RestingChannelsAreEmpty(p: Pair)
    requires PairInv(p) && Calm(p.worker) && Calm(p.master) && p.worker.fd == 0 && p.master.fd == 0
    ensures Contents(p.worker) == [] && Contents(p.master) == []
  {
    if Contents(p.worker) != [] { NoLostWakeup(p.worker, p.master); }
    if Contents(p.master) != [] { NoLostWakeup(p.master, p.worker); }
  }

  /** With every handler, hand and counter at rest, a task on its way can only lie in an enter queue. */
  lemma RestingTaskIsInEnter(s: Sys, t: TaskId)
    requires SysInv(s) && t < |s.tasks| && !s.tasks[t].place.Home? && !s.tasks[t].place.Held?
    requires forall i :: 0 <= i < |s.pairs| ==> Quiescent(s, i) && s.hand[i].Empty?
    requires forall w :: 0 < w < |s.pairs| ==> s.pairs[w].worker.fd == 0 && s.pairs[w].master.fd == 0
    ensures s.tasks[t].place.InEnter? && s.tasks[t].place.i < |s.enter| && t in s.enter[s.tasks[t].place.i]
  {
    hide Low, High;
    var pl := s.tasks[t].place;
    ExactlyOnePlace(s, t);
    assert TaskOk(Abs(s).tasks[t], |s.enter|);
    if pl.InUp? || pl.InDown? {
      assert Quiescent(s, pl.w) && Quiescent(s, 0);
      RestingChannelsAreEmpty(s.pairs[pl.w]);
    }
  }

  lemma HandCanGoOn(s: Sys, i: nat)
    requires SysInv(s) && i < |s.hand| && s.hand[i].Holding? && Quiescent(s, i)
    ensures LoopStep(s, Do(ArmBy(i)))
  {
    hide Low, High;
    assert HandOk(Abs(s).hand[i], s.tasks, i);
    hide NetInv, PairInv, Quiescent;
  }

  lemma EnterCanGoOn(s: Sys, i: nat)
    requires SysInv(s) && i < |s.hand| && s.hand[i].Empty? && Quiescent(s, i) && s.enter[i] != []
    ensures LoopStep(s, Do(PopBy(i)))
  {
    hide Low, High;
    assert QueueOk(Abs(s).enter[i], s.tasks, InEnter(i));
    hide NetInv, PairInv, Quiescent;
  }

  lemma CounterCanBeRead(s: Sys, w: nat, side: Side)
    requires WellSized(s) && 0 < w < |s.pairs| && s.pairs[w].Of(side).fd > 0
    requires Quiescent(s, ThreadOf(w, side)) && s.hand[ThreadOf(w, side)].Empty?
    ensures LoopStep(s, Channel(w, ReadAct(side)))
  {
  }

  /** As long as a submitted task is neither home again nor held by a callback, some event loop has a step to take. */
  lemma SomethingToDo(s: Sys, t: TaskId) returns (c: Action)
    requires SysInv(s) && t < |s.tasks| && !s.tasks[t].place.Home? && !s.tasks[t].place.Held?
    ensures LoopStep(s, c)
  {
    hide Low, High;
    hide SysInv, Quiescent, LoopStep;
    assert WellSized(s) by { SysInvSized(s); }
    if i: nat :| i < |s.pairs| && !Quiescent(s, i) {
      c := BusyThreadCanGoOn(s, i);
    } else if i: nat :| i < |s.hand| && s.hand[i].Holding? {
      HandCanGoOn(s, i);
      c := Do(ArmBy(i));
    } else if w: nat :| 0 < w < |s.pairs| && s.pairs[w].worker.fd > 0 {
      CounterCanBeRead(s, w, Worker);
      c := Channel(w, ReadAct(Worker));
    } else if w: nat :| 0 < w < |s.pairs| && s.pairs[w].master.fd > 0 {
      CounterCanBeRead(s, w, Master);
      c := Channel(w, ReadAct(Master));
    } else {
      RestingTaskIsInEnter(s, t);
      EnterCanGoOn(s, s.tasks[t].place.i);
      c := Do(PopBy(s.tasks[t].place.i));
    }
  }

  lemma SysInvSized(s: Sys)
    requires SysInv(s)
    ensures WellSized(s)
  {
  }

  /** A stretch of a run in which nobody submits or redirects; anything else may happen, also cancels. */
  ghost predicate IsQuietRun(b: seq<Sys>, acts: seq<Action>) {
    && |b| == |acts| + 1
    && SysInv(b[0])
    && (forall i :: 0 <= i < |b| ==> WellSized(b[i]))
    && forall i :: 0 <= i < |acts| ==>
         Can(b[i], acts[i]) && (Internal(b[i], acts[i]) || LosesCancel(b[i], acts[i])) && b[i + 1] == After(b[i], acts[i])
  }

  /** The steps among the first `n` that are not cancels that come too late. */
  ghost function Effective(b: seq<Sys>, acts: seq<Action>, n: nat): nat
    requires IsQuietRun(b, acts) && n <= |acts|
  {
    if n == 0 then 0 else Effective(b, acts, n - 1) + Count(Internal(b[n - 1], acts[n - 1]))
  }

  lemma {:induction false} QuietRunRunsDown(b: seq<Sys>, acts: seq<Action>, n: nat)
    requires IsQuietRun(b, acts) && n <= |acts|
    ensures SysInv(b[n]) && Measure(b[n]) + Effective(b, acts, n) <= Measure(b[0])
  {
    if n > 0 {
      QuietRunRunsDown(b, acts, n - 1);
      hide SysInv, Can, After, Measure, Internal, LosesCancel;
      assert b[n - 1 + 1] == After(b[n - 1], acts[n - 1]);
      if Internal(b[n - 1], acts[n - 1]) {
        EveryInternalStepRunsDown(b[n - 1], acts[n - 1]);
      } else {
        LostCancelChangesNothing(b[n - 1], acts[n - 1]);
      }
    }
  }

  /**
   Without new submissions and redirections, and however often calls are cancelled, the threads stop after at most `Measure`
   steps that change anything, and where they stop every task that no callback holds is back with its owner.
   */
  lemma EveryQuietRunBringsTasksHome(b: seq<Sys>, acts: seq<Action>)
    requires IsQuietRun(b, acts)
    ensures Effective(b, acts, |acts|) <= Measure(b[0])
    ensures
      var last := b[|acts|];
      (forall c :: !LoopStep(last, c)) ==>
        forall t :: 0 <= t < |last.tasks| ==> last.tasks[t].place.Home? || last.tasks[t].place.Held?
  {
    var last := b[|acts|];
    QuietRunRunsDown(b, acts, |acts|);
    hide SysInv, Can, After, Measure, Internal, LosesCancel, Effective;
    if forall c :: !LoopStep(last, c) {
      forall t | 0 <= t < |last.tasks|
        ensures last.tasks[t].place.Home? || last.tasks[t].place.Held?
      {
        if !last.tasks[t].place.Home? && !last.tasks[t].place.Held? {
          var c := SomethingToDo(last, t);
        }
      }
    }
  }
}
