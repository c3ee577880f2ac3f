/**
 The channel functions of `worker_t` as they change its fields.  Each of them, and each wake-up handler as a whole, does to
 the deques, flags and counters what a run of steps of `CtcChannel` by the same thread does; what the other thread may do
 in between is the matter of that module.
 */
module CtcWorker {
  import opened CtcChannel
  import opened EleDeque

  function Ids(s: seq<Ele>): (r: seq<TaskId>)
    ensures |r| == |s|
  {
    seq(|s|, i requires 0 <= i < |s| => s[i].id)
  }

  lemma IdsJoin(a: seq<Ele>, b: seq<Ele>)
    ensures Ids(a + b) == Ids(a) + Ids(b)
  {
  }

  /** The eventfd write that a step has decided on, if any. */
  function Wrote(p: Pair, side: Side): Pair {
    if p.Of(side).out.Quiet? then p else Step(p, WriteAct(side))
  }

  /** A push by a thread that is not interrupted. */
  function PushCalled(p: Pair, side: Side, t: TaskId): Pair
    requires Calm(p.Of(side))
  {
    Wrote(Step(p, PushAct(side, t)), side)
  }

  /** A wake-up handler that is not interrupted. */
  function Handled(p: Pair, side: Side): Pair
    requires Calm(p.Of(side)) && p.Of(side).fd > 0
  {
    var moved := Wrote(Step(Step(p, ReadAct(side)), MoveAct(side)), side);
    Wrote(Step(moved, TakeAct(side)), side)
  }

  /** What such a handler brings to the enter queue of its thread. */
  function Brought(p: Pair, side: Side): seq<TaskId>
    requires p.Of(side).fd > 0
  {
    if HasPush(p.Of(side).fd) then p.Of(side.Other()).shared else []
  }

  lemma PushCalledFields(p: Pair, side: Side, t: TaskId)
    requires Calm(p.Of(side)) && Calm(p.Of(side.Other()))
    ensures
      var e, peer := p.Of(side), p.Of(side.Other());
      PushCalled(p, side, t) ==
        if e.idle then p.With(side, e.(idle := false, shared := e.shared + [t])).With(side.Other(), peer.(fd := peer.fd + INCR))
        else p.With(side, e.(staging := e.staging + [t]))
  {
  }

  lemma IdsOne(ctc: Ele)
    ensures Ids([ctc]) == [ctc.id]
  {
  }

  /** The eventfd counters before and after a handler that is not interrupted, and the flags and deques of its thread. */
  lemma HandledFields(p: Pair, side: Side)
    requires Calm(p.Of(side)) && Calm(p.Of(side.Other())) && p.Of(side).fd > 0
    ensures
      var e, peer := p.Of(side), p.Of(side.Other());
      var take, push := HasTake(e.fd), HasPush(e.fd);
      var full := take && e.staging != [];
      Handled(p, side) ==
        Pair(FRESH_END, FRESH_END)
          .With(side, e.(fd := 0,
                         shared := if take then e.staging else e.shared, staging := if take then [] else e.staging,
                         idle := e.idle || (take && e.staging == [])))
          .With(side.Other(), peer.(fd := peer.fd + (if full then INCR else 0) + (if push then TAKE else 0),
                                    shared := if push then [] else peer.shared))
  {
    hide Low, High;
  }

  class Channels {
    const commiting: Deque
    const commited: Deque
    const accepting: Deque
    const accepted: Deque
    var isRequest: bool
    var isRespond: bool
    var commitFd: nat     // counter of commit_wake, read by the master
    var acceptFd: nat     // counter of accept_wake, read by the worker

    /** The state as `CtcChannel` sees it, between two calls. */
    ghost function State(): Pair
      reads this, commiting, commited, accepting, accepted
    {
      Pair(End(Ids(commiting.contents), Ids(commited.contents), isRequest, acceptFd, Ready, Quiet),
           End(Ids(accepting.contents), Ids(accepted.contents), isRespond, commitFd, Ready, Quiet))
    }

    /** Four deques with nothing in common. */
    ghost predicate Valid()
      reads this, commiting, commited, accepting, accepted
      reads commiting.Members(), commited.Members(), accepting.Members(), accepted.Members()
    {
      && commiting.Valid() && commited.Valid() && accepting.Valid() && accepted.Valid()
      && commiting != commited && commiting != accepting && commiting != accepted
      && commited != accepting && commited != accepted && accepting != accepted
      && commiting.Members() !! commited.Members() && commiting.Members() !! accepting.Members()
      && commiting.Members() !! accepted.Members() && commited.Members() !! accepting.Members()
      && commited.Members() !! accepted.Members() && accepting.Members() !! accepted.Members()
    }

    constructor ()
      ensures Valid() && State() == FRESH
    {
      commiting := new Deque();
      commited := new Deque();
      accepting := new Deque();
      accepted := new Deque();
      isRequest, isRespond, commitFd, acceptFd := true, true, 0, 0;
    }

    /** `_worker_push_commit_ctc`. */
    method PushCommit(ctc: Ele)
      requires Valid() && ctc.Lone()
      requires ctc !in commiting.Members() + commited.Members() + accepting.Members() + accepted.Members()
      modifies this`isRequest, this`commitFd, commiting, commited, commiting.Members(), commited.Members(), ctc
      ensures Valid() && State() == PushCalled(old(State()), Worker, ctc.id)
    {
      hide Low, High, Chained, PushCalled, Ids;
      PushCalledFields(State(), Worker, ctc.id);
      IdsOne(ctc);
      IdsJoin(commited.contents, [ctc]);
      IdsJoin(commiting.contents, [ctc]);
      if isRequest {
        isRequest := false;
        commited.PushBack(ctc);
        commitFd := commitFd + INCR;
      } else {
        commiting.PushBack(ctc);
      }
    }

    /** `_worker_push_accept_ctc`. */
    method PushAccept(ctc: Ele)
      requires Valid() && ctc.Lone()
      requires ctc !in commiting.Members() + commited.Members() + accepting.Members() + accepted.Members()
      modifies this`isRespond, this`acceptFd, accepting, accepted, accepting.Members(), accepted.Members(), ctc
      ensures Valid() && State() == PushCalled(old(State()), Master, ctc.id)
    {
      hide Low, High, Chained, PushCalled, Ids;
      PushCalledFields(State(), Master, ctc.id);
      IdsOne(ctc);
      IdsJoin(accepted.contents, [ctc]);
      IdsJoin(accepting.contents, [ctc]);
      if isRespond {
        isRespond := false;
        accepted.PushBack(ctc);
        acceptFd := acceptFd + INCR;
      } else {
        accepting.PushBack(ctc);
      }
    }

    /** `_worker_move_commit_ctc`. */
    method MoveCommit()
      requires Valid()
      modifies this`isRequest, this`commitFd, commiting, commited
      ensures Valid() && commited.contents == old(commiting.contents) && commiting.contents == []
      ensures commitFd == old(commitFd) + (if old(commiting.contents) != [] then INCR else 0)
      ensures isRequest == (old(isRequest) || old(commiting.contents) == [])
    {
      commited.Move(commiting);
      if commited.head != null {
        commitFd := commitFd + INCR;
      } else {
        isRequest := true;
      }
    }

    /** `_worker_move_accept_ctc`. */
    method MoveAccept()
      requires Valid()
      modifies this`isRespond, this`acceptFd, accepting, accepted
      ensures Valid() && accepted.contents == old(accepting.contents) && accepting.contents == []
      ensures acceptFd == old(acceptFd) + (if old(accepting.contents) != [] then INCR else 0)
      ensures isRespond == (old(isRespond) || old(accepting.contents) == [])
    {
      accepted.Move(accepting);
      if accepted.head != null {
        acceptFd := acceptFd + INCR;
      } else {
        isRespond := true;
      }
    }

    /** `_worker_take_commit_ctc`. */
    method TakeCommit(ctcs: Deque)
      requires Valid() && Outside(ctcs)
      modifies this`acceptFd, commited, commited.Members(), ctcs, ctcs.Members()
      ensures Valid() && Outside(ctcs)
      ensures ctcs.contents == old(ctcs.contents) + old(commited.contents) && commited.contents == []
      ensures acceptFd == old(acceptFd) + TAKE
    {
      hide Chained;
      ctcs.PushQ(commited);
      acceptFd := acceptFd + TAKE;
    }

    /** `_worker_take_accept_ctc`. */
    method TakeAccept(ctcs: Deque)
      requires Valid() && Outside(ctcs)
      modifies this`commitFd, accepted, accepted.Members(), ctcs, ctcs.Members()
      ensures Valid() && Outside(ctcs)
      ensures ctcs.contents == old(ctcs.contents) + old(accepted.contents) && accepted.contents == []
      ensures commitFd == old(commitFd) + TAKE
    {
      hide Chained;
      ctcs.PushQ(accepted);
      commitFd := commitFd + TAKE;
    }

    /** A deque apart from the four of the channel. */
    ghost predicate Outside(ctcs: Deque)
      reads this, commiting, commited, accepting, accepted, ctcs, ctcs.Members()
    {
      && ctcs.Valid() && ctcs != commiting && ctcs != commited && ctcs != accepting && ctcs != accepted
      && ctcs.Members() !! commiting.Members() + commited.Members() + accepting.Members() + accepted.Members()
    }

    /** The branch of `_worker_reap_efd` for the wake-up descriptor. */
    method WorkerWake(enter: Deque)
      requires Valid() && Outside(enter) && acceptFd > 0
      modifies this, commiting, commited, accepted, accepted.Members(), enter, enter.Members()
      ensures Valid() && Outside(enter)
      ensures State() == Handled(old(State()), Worker)
      ensures Ids(enter.contents) == old(Ids(enter.contents)) + Brought(old(State()), Worker)
    {
      hide Low, High, Chained, Handled, Ids, HasTake, HasPush, Deque.Valid;
      HandledFields(State(), Worker);
      IdsJoin(enter.contents, accepted.contents);
      var ctcEv := acceptFd;
      acceptFd := 0;
      if HasTake(ctcEv) {
        MoveCommit();
      }
      if HasPush(ctcEv) {
        TakeAccept(enter);
      }
    }

    /** The branch of `_master_reap_efd` for this worker's wake-up descriptor. */
    method MasterWake(enter: Deque)
      requires Valid() && Outside(enter) && commitFd > 0
      modifies this, accepting, accepted, commited, commited.Members(), enter, enter.Members()
      ensures Valid() && Outside(enter)
      ensures State() == Handled(old(State()), Master)
      ensures Ids(enter.contents) == old(Ids(enter.contents)) + Brought(old(State()), Master)
    {
      hide Low, High, Chained, Handled, Ids, HasTake, HasPush, Deque.Valid;
      HandledFields(State(), Master);
      IdsJoin(enter.contents, commited.contents);
      var ctcEv := commitFd;
      commitFd := 0;
      if HasTake(ctcEv) {
        MoveAccept();
      }
      if HasPush(ctcEv) {
        TakeCommit(enter);
      }
    }
  }

  /** A handler that is not interrupted keeps the token argument, and so does a push. */
  lemma HandlersKeepTokens(p: Pair, side: Side)
    requires PairInv(p) && Calm(p.Of(side)) && p.Of(side).fd > 0
    ensures PairInv(Handled(p, side)) && Calm(Handled(p, side).Of(side))
  {
    hide ChannelInv;
    var p1 := Step(p, ReadAct(side));
    StepInv(p, ReadAct(side));
    var p2 := Step(p1, MoveAct(side));
    StepInv(p1, MoveAct(side));
    if !p2.Of(side).out.Quiet? {
      StepInv(p2, WriteAct(side));
    }
    var p3 := Wrote(p2, side);
    var p4 := Step(p3, TakeAct(side));
    StepInv(p3, TakeAct(side));
    if !p4.Of(side).out.Quiet? {
      StepInv(p4, WriteAct(side));
    }
  }
}
