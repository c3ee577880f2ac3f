/**
 What user code asks for is what happens: over whole runs, the history of a call is tied to the moves that were made, and
 where a callback has redirected its call the end of that callback sends it there.
 */
module CtcRequests {
  import opened CtcChannel
  import opened CtcNetwork
  import opened CtcSystem

  datatype Option<T> = None | Some(value: T)

  /** In step `n` of a run the callback of `t` was started. */
  ghost predicate StartsIn(b: seq<Sys>, n: nat, t: TaskId) {
    && n + 1 < |b| && t < |b[n].tasks| && t < |b[n + 1].tasks|
    && exists at :: b[n + 1].tasks[t].log == b[n].tasks[t].log + [Started(at)]
  }

  /** Where `t` was redirected to last, in the first `n` steps, since its callback was started. */
  ghost function Requested(b: seq<Sys>, acts: seq<Action>, n: nat, t: TaskId): Option<nat>
    requires n <= |acts|
  {
    if n == 0 || StartsIn(b, n - 1, t) then None
    else if acts[n - 1].Do? && acts[n - 1].m.RetoBy? && acts[n - 1].m.t == t then Some(acts[n - 1].m.to)
    else Requested(b, acts, n - 1, t)
  }

  // ------------------------------------------------------------------ one step

  /** A callback that is at work stays so, with its request, and none begins. */
  ghost predicate Keeps(x: Task, y: Task) {
    && y.log == x.log && (x.place.Held? ==> y.place == x.place && y.reto == x.reto && y.to == x.to)
    && (y.place.Held? ==> x.place.Held?)
  }

  /** What a move may do to task `x`, number `t`. */
  ghost predicate Follows(t: TaskId, x: Task, m: Move, y: Task) {
    match m
    case SubmitBy(i, u, to) => if u == t then y.log == x.log + [Submitted(i, to)] && !y.place.Held? else y == x
    case CancelBy(i, u) =>
      if u == t && x.stat == Commit then y.log == x.log + [Cancelled(i)] && !x.place.Held? && !y.place.Held? else y == x
    case RetoBy(i, u, to) => if u == t then y.log == x.log && y.place == x.place == Held(i) && y.reto && y.to == to else y == x
    case EndBy(i, u) =>
      if u == t then
        x.place == Held(i) && !y.place.Held? && y.log == x.log + [if x.reto then Redirected(i, x.to) else Finished(i)]
      else y == x
    case ArmBy(i) =>
      || Keeps(x, y)
      || (y.log == x.log + [Started(i)] && !y.reto)
      || (y.log == x.log + [Returned(i)] && !y.place.Held?)
    case _ => Keeps(x, y)
  }

  lemma MoveFollows(n: Net, m: Move, t: TaskId)
    requires NetInv(n) && CanMove(n, m) && t < |n.tasks|
    ensures t < |Next(n, m).tasks| && Follows(t, n.tasks[t], m, Next(n, m).tasks[t])
  {
    assert TaskOk(n.tasks[t], |n.enter|);
    hide NetInv, Life, Follows, Next, CanMove;
    match m
    case ArmBy(i) => ArmFollows(n, i, t);
    case PopBy(i) => PopFollows(n, i, t);
    case TakeUp(w, k) => TakeFollows(n, m, n.up[w], k, InUp(w), t);
    case TakeDown(w, k) => TakeFollows(n, m, n.down[w], k, InDown(w), t);
    case _ => UserFollows(n, m, t);
  }

  lemma UserFollows(n: Net, m: Move, t: TaskId)
    requires Shape(n) && CanMove(n, m) && t < |n.tasks| && TaskOk(n.tasks[t], |n.enter|)
    requires m.SubmitBy? || m.CancelBy? || m.RetoBy? || m.EndBy?
    ensures t < |Next(n, m).tasks| && Follows(t, n.tasks[t], m, Next(n, m).tasks[t])
  {
    hide Life;
  }

  lemma ArmFollows(n: Net, i: nat, t: TaskId)
    requires NetInv(n) && CanMove(n, ArmBy(i)) && t < |n.tasks|
    ensures t < |Next(n, ArmBy(i)).tasks| && Follows(t, n.tasks[t], ArmBy(i), Next(n, ArmBy(i)).tasks[t])
  {
    assert HandOk(n.hand[i], n.tasks, i);
    assert TaskOk(n.tasks[n.hand[i].t], |n.enter|);
    ArmWrites(i, n.tasks[n.hand[i].t], n.hand[i].seen);
    hide Placed, TasksOk, Life, SeenOk, Arm, TaskOk;
  }

  /** An arm of the switch starts a callback, returns a call, or hands it on. */
  lemma ArmWrites(i: nat, x: Task, arm: Stat)
    requires !x.reto && !x.place.Held?
    ensures Arm(i, x, arm).Done? ==>
      var y := Arm(i, x, arm).x;
      || (y.log == x.log && !y.place.Held?)
      || (y.log == x.log + [Started(i)] && !y.reto)
      || (y.log == x.log + [Returned(i)] && !y.place.Held?)
  {
  }

  lemma PopFollows(n: Net, i: nat, t: TaskId)
    requires NetInv(n) && CanMove(n, PopBy(i)) && t < |n.tasks|
    ensures t < |Next(n, PopBy(i)).tasks| && Follows(t, n.tasks[t], PopBy(i), Next(n, PopBy(i)).tasks[t])
  {
    assert QueueOk(n.enter[i], n.tasks, InEnter(i));
    hide Placed, TasksOk, Life, SeenOk;
  }

  lemma TakeFollows(n: Net, m: Move, q: seq<TaskId>, k: nat, pl: Place, t: TaskId)
    requires NetInv(n) && CanMove(n, m) && t < |n.tasks|
    requires
      || (m.TakeUp? && k == m.k && q == n.up[m.w] && pl == InUp(m.w))
      || (m.TakeDown? && k == m.k && q == n.down[m.w] && pl == InDown(m.w))
    ensures t < |Next(n, m).tasks| && Follows(t, n.tasks[t], m, Next(n, m).tasks[t])
  {
    assert QueueOk(q, n.tasks, pl);
    hide Placed, TasksOk, Life, SeenOk;
  }

  /** What user code on a thread at rest may do: submit what is at home, cancel what it submitted, deal with what it holds. */
  lemma UserMayAct(s: Sys, i: nat, t: TaskId, to: nat)
    requires WellSized(s) && i < |s.pairs| && to < |s.pairs| && t < |s.tasks| && Quiescent(s, i) && s.hand[i].Empty?
    ensures Can(s, Do(SubmitBy(i, t, to))) <==> s.tasks[t].place.Home?
    ensures Can(s, Do(CancelBy(i, t))) <==> !s.tasks[t].place.Home? && s.tasks[t].from == i
    ensures Can(s, Do(RetoBy(i, t, to))) <==> s.tasks[t].place == Held(i)
    ensures Can(s, Do(EndBy(i, t))) <==> s.tasks[t].place == Held(i)
  {
    hide Quiescent;
  }

  // ------------------------------------------------------------------ whole runs

  lemma StepFollows(s: Sys, c: Action, t: TaskId)
    requires SysInv(s) && Can(s, c) && t < |s.tasks|
    ensures t < |After(s, c).tasks|
    ensures if c.Do? then Follows(t, s.tasks[t], c.m, After(s, c).tasks[t]) else Keeps(s.tasks[t], After(s, c).tasks[t])
  {
    hide Low, High;
    StepRefines(s, c);
    SysInvParts(s);
    hide SysInv, NetInv, Can, After, Follows, CanMove, Next;
    match c
    case Do(m) => MoveFollows(Abs(s), m, t);
    case Channel(w, a) =>
      if a.TakeAct? {
        ghost var m: Move;
        if a.side.Worker? {
          var k: nat :| CanMove(Abs(s), TakeDown(w, k)) && Abs(After(s, c)) == Next(Abs(s), TakeDown(w, k));
          m := TakeDown(w, k);
        } else {
          var k: nat :| CanMove(Abs(s), TakeUp(w, k)) && Abs(After(s, c)) == Next(Abs(s), TakeUp(w, k));
          m := TakeUp(w, k);
        }
        MoveFollows(Abs(s), m, t);
        TakeKeeps(t, s.tasks[t], m, After(s, c).tasks[t]);
      }
  }

  lemma TakeKeeps(t: TaskId, x: Task, m: Move, y: Task)
    requires Follows(t, x, m, y) && (m.TakeUp? || m.TakeDown?)
    ensures Keeps(x, y)
  {
  }

  /** The step from state `n` of a run, as far as task `t` goes. */
  lemma RunFollows(b: seq<Sys>, acts: seq<Action>, n: nat, t: TaskId)
    requires CtcSystem.IsRun(b, acts) && n < |acts| && t < |b[0].tasks|
    ensures t < |b[n].tasks| && t < |b[n + 1].tasks| && TaskOk(b[n].tasks[t], |b[n].enter|)
    ensures
      var x, y := b[n].tasks[t], b[n + 1].tasks[t];
      && (if acts[n].Do? then Follows(t, x, acts[n].m, y) else Keeps(x, y))
      && (acts[n].Do? && acts[n].m.SubmitBy? && acts[n].m.t == t ==> x.place.Home?)
  {
    hide Low, High;
    EveryRunIsSafe(b, acts, n);
    SameTasks(b, acts, n);
    StepFollows(b[n], acts[n], t);
    assert b[n + 1] == After(b[n], acts[n]);
    assert TaskOk(Abs(b[n]).tasks[t], |b[n].enter|);
    hide SysInv, Can, After, Follows, Keeps, TaskOk;
  }

  lemma {:induction false} SameTasks(b: seq<Sys>, acts: seq<Action>, n: nat)
    requires CtcSystem.IsRun(b, acts) && n <= |acts|
    ensures |b[n].tasks| == |b[0].tasks|
  {
    hide Low, High;
    if n > 0 {
      SameTasks(b, acts, n - 1);
      assert b[n - 1 + 1] == After(b[n - 1], acts[n - 1]);
      SizesKept(b[n - 1], acts[n - 1]);
    }
    hide Can, After;
  }

  /** A callback at work carries the last request made since it was started. */
  lemma {:induction false} RequestIsCarried(b: seq<Sys>, acts: seq<Action>, n: nat, t: TaskId)
    requires CtcSystem.IsRun(b, acts) && n <= |acts| && t < |b[0].tasks|
    ensures t < |b[n].tasks|
    ensures
      var x, r := b[n].tasks[t], Requested(b, acts, n, t);
      x.place.Held? ==> (x.reto <==> r.Some?) && (r.Some? ==> x.to == r.value)
    decreases n
  {
    hide Low, High;
    hide WellSized, Can, After, Life, TaskOk;
    if n > 0 {
      RequestIsCarried(b, acts, n - 1, t);
      RunFollows(b, acts, n - 1, t);
    }
  }

  /** What a move may write into the history `log` of task `t`, where `r` is the request that its callback has made. */
  ghost predicate Writes(t: TaskId, stat: Stat, log: seq<Event>, m: Move, r: Option<nat>, log': seq<Event>) {
    match m
    case SubmitBy(i, u, to) => if u == t then log' == log + [Submitted(i, to)] && Life(log') == Pending(i, to) else log' == log
    case CancelBy(i, u) => log' == if u == t && stat == Commit then log + [Cancelled(i)] else log
    case EndBy(i, u) =>
      if u != t then log' == log
      else
        && Life(log).Executing? && Life(log).at == i
        && (match r
            case Some(to) => log' == log + [Redirected(i, to)] && Life(log') == Pending(Life(log).from, to)
            case None => log' == log + [Finished(i)] && Life(log') == Ended(Life(log).from))
    case ArmBy(i) => log' == log || log' == log + [Started(i)] || log' == log + [Returned(i)]
    case _ => log' == log
  }

  lemma MoveWrites(t: TaskId, x: Task, m: Move, y: Task, threads: nat, r: Option<nat>)
    requires TaskOk(x, threads) && Follows(t, x, m, y) && (m.SubmitBy? && m.t == t ==> x.place.Home?)
    requires x.place.Held? ==> (x.reto <==> r.Some?) && (r.Some? ==> x.to == r.value)
    ensures Writes(t, x.stat, x.log, m, r, y.log)
  {
    if (m.SubmitBy? || m.EndBy?) && m.t == t {
      LifeAppend(x.log, y.log[|x.log|]);
    }
    hide Life;
  }

  /**
   A submission is recorded as made and makes the call pending at the thread asked for.  The end of a callback sends the call
   to where the last redirection since its start asked for, and is the end of the call iff there was none.  A cancel is
   recorded iff it wins, and nothing else but a start or a return writes history.
   */
  lemma RequestsAreHonoured(b: seq<Sys>, acts: seq<Action>, n: nat, t: TaskId)
    requires CtcSystem.IsRun(b, acts) && n < |acts| && t < |b[0].tasks|
    ensures t < |b[n].tasks| && t < |b[n + 1].tasks|
    ensures
      var x, log' := b[n].tasks[t], b[n + 1].tasks[t].log;
      match acts[n]
      case Channel(_, _) => log' == x.log
      case Do(m) => Writes(t, x.stat, x.log, m, Requested(b, acts, n, t), log')
  {
    hide Low, High;
    hide WellSized, Can, After, Follows, TaskOk, Life, Writes;
    RunFollows(b, acts, n, t);
    RequestIsCarried(b, acts, n, t);
    if acts[n].Do? {
      MoveWrites(t, b[n].tasks[t], acts[n].m, b[n + 1].tasks[t], |b[n].enter|, Requested(b, acts, n, t));
    }
  }
}
