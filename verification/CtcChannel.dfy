/**
 One worker's pair of one-way cross-thread channels to the master.

 The code for the two directions is the same text with the names exchanged, so a single record, `End`,
 describes what one thread holds on its side of the pair:
   staging   commiting_ctcs (worker) / accepting_ctcs (master), touched by this thread only
   shared    commited_ctcs  (worker) / accepted_ctcs  (master), touched by both threads
   idle      is_request_ctc (worker) / is_respond_ctc (master)
   fd        counter of the eventfd this thread reads: accept_wake (worker) / commit_wake (master)
   pc        where its eventfd handler stands, with the local copy of the counter it read
   out       an eventfd write that has been decided on but not yet made
 The deque update and the eventfd write that follows it are separate steps, so every interleaving of the
 two threads between them is a run of this system.
 */
module CtcChannel {
  import opened Seqs

  type TaskId = nat

  /** Low half of the counter: PUSH tokens.  High half: TAKE tokens. */
  const INCR: nat := 1
  const TAKE: nat := 0x1_0000_0000

  datatype Signal = Quiet | Push | Took

  datatype Handler = Ready | AtMove(ev: nat) | AtTake(ev: nat)

  datatype End = End(staging: seq<TaskId>, shared: seq<TaskId>, idle: bool, fd: nat, pc: Handler, out: Signal)

  datatype Side = Worker | Master {
    function Other(): Side {
      if Worker? then Master else Worker
    }
  }

  datatype Pair = Pair(worker: End, master: End) {
    function Of(side: Side): End {
      if side.Worker? then worker else master
    }

    function With(side: Side, e: End): Pair {
      if side.Worker? then this.(worker := e) else this.(master := e)
    }
  }

  function Low(n: nat): nat { n % TAKE }
  function High(n: nat): nat { n / TAKE }

  /** `ctc_ev & _CTC_TAKE_MASK` and `ctc_ev & _CTC_PUSH_MASK` as tests. */
  predicate HasTake(ev: nat) { High(ev) != 0 }
  predicate HasPush(ev: nat) { Low(ev) != 0 }

  const FRESH_END := End([], [], true, 0, Ready, Quiet)
  const FRESH := Pair(FRESH_END, FRESH_END)

  /** A thread makes its channel calls one after another. */
  predicate Calm(e: End) { e.pc.Ready? && e.out.Quiet? }

  // ------------------------------------------------------------------ the code, one shared access a step

  /** `_worker_push_commit_ctc` / `_worker_push_accept_ctc`, up to the eventfd write. */
  function PushTask(e: End, t: TaskId): End {
    if e.idle then e.(idle := false, shared := e.shared + [t], out := Push)
    else e.(staging := e.staging + [t])
  }

  /** The atomic eventfd read that starts a handler. */
  function ReadFd(e: End): End {
    e.(fd := 0, pc := AtMove(e.fd))
  }

  /** `_worker_move_commit_ctc` / `_worker_move_accept_ctc`, up to the eventfd write; the destination is overwritten. */
  function MoveShared(e: End): End
    requires e.pc.AtMove?
  {
    var next := e.(pc := AtTake(e.pc.ev));
    if !HasTake(e.pc.ev) then next
    else if e.staging != [] then next.(shared := e.staging, staging := [], out := Push)
    else next.(shared := [], idle := true)
  }

  /** What `_worker_take_accept_ctc` / `_worker_take_commit_ctc` appends to the taker's enter queue. */
  function Taken(e: End, peer: End): seq<TaskId>
    requires e.pc.AtTake?
  {
    if HasPush(e.pc.ev) then peer.shared else []
  }

  function TakeShared(e: End, peer: End): (r: (End, End))
    requires e.pc.AtTake?
  {
    if HasPush(e.pc.ev) then (e.(pc := Ready, out := Took), peer.(shared := []))
    else (e.(pc := Ready), peer)
  }

  /** The atomic eventfd write. */
  function Amount(s: Signal): nat {
    match s
    case Quiet => 0
    case Push => INCR
    case Took => TAKE
  }

  datatype Act = PushAct(side: Side, t: TaskId) | ReadAct(side: Side) | MoveAct(side: Side) | TakeAct(side: Side) | WriteAct(side: Side)

  predicate Enabled(p: Pair, a: Act) {
    var e := p.Of(a.side);
    match a
    case PushAct(_, _) => Calm(e)
    case ReadAct(_) => Calm(e) && e.fd > 0
    case MoveAct(_) => e.pc.AtMove? && e.out.Quiet?
    case TakeAct(_) => e.pc.AtTake? && e.out.Quiet?
    case WriteAct(_) => !e.out.Quiet?
  }

  /** The acting thread's end and its peer's after the action. */
  function StepEnds(e: End, peer: End, a: Act): (r: (End, End))
    requires a.MoveAct? ==> e.pc.AtMove?
    requires a.TakeAct? ==> e.pc.AtTake?
  {
    match a
    case PushAct(_, t) => (PushTask(e, t), peer)
    case ReadAct(_) => (ReadFd(e), peer)
    case MoveAct(_) => (MoveShared(e), peer)
    case TakeAct(_) => TakeShared(e, peer)
    case WriteAct(_) => (e.(out := Quiet), peer.(fd := peer.fd + Amount(e.out)))
  }

  function Step(p: Pair, a: Act): Pair
    requires Enabled(p, a)
  {
    var r := StepEnds(p.Of(a.side), p.Of(a.side.Other()), a);
    p.With(a.side, r.0).With(a.side.Other(), r.1)
  }

  // ------------------------------------------------------------------ the token argument

  function Count(b: bool): nat { if b then 1 else 0 }

  /** Tokens a handler has read and not yet acted on. */
  ghost function PushInHand(h: Handler): nat { if h.Ready? then 0 else Low(h.ev) }
  ghost function TakeInHand(h: Handler): nat { if h.AtMove? then High(h.ev) else 0 }

  /** Everything that lets the sender `s` or the receiver `r` touch `s.shared`, counted. */
  ghost function Tokens(s: End, r: End): nat {
    Count(s.idle) + Count(s.out.Push?) + Low(r.fd) + PushInHand(r.pc)
    + Count(r.out.Took?) + High(s.fd) + TakeInHand(s.pc)
  }

  /** The batch in `shared` is on its way to the receiver. */
  ghost predicate Posted(s: End, r: End) {
    s.out.Push? || Low(r.fd) != 0 || PushInHand(r.pc) != 0
  }

  ghost predicate ChannelInv(s: End, r: End) {
    && Tokens(s, r) == 1
    && (Posted(s, r) <==> s.shared != [])
    && (s.idle ==> s.staging == [])
  }

  ghost predicate PairInv(p: Pair) {
    ChannelInv(p.worker, p.master) && ChannelInv(p.master, p.worker)
  }

  /** What the sender has pushed and the receiver has not taken, oldest first. */
  function Contents(s: End): seq<TaskId> { s.shared + s.staging }

  lemma FreshInv()
    ensures PairInv(FRESH)
  {
  }

  lemma WriteArithmetic(fd: nat, s: Signal)
    ensures Low(fd + Amount(Took)) == Low(fd) && High(fd + Amount(Took)) == High(fd) + 1
    ensures Low(fd) == 0 ==> Low(fd + Amount(Push)) == 1 && High(fd + Amount(Push)) == High(fd)
  {
  }

  ghost predicate BothInv(e: End, peer: End) {
    ChannelInv(e, peer) && ChannelInv(peer, e)
  }

  lemma PushInv(e: End, peer: End, t: TaskId)
    requires BothInv(e, peer) && Calm(e)
    ensures BothInv(PushTask(e, t), peer)
  {
    hide Low, High;
  }

  lemma ReadInv(e: End, peer: End)
    requires BothInv(e, peer) && Calm(e)
    ensures BothInv(ReadFd(e), peer)
  {
    assert Low(0) == 0 && High(0) == 0;
    hide Low, High;
    var e' := ReadFd(e);
    assert Tokens(e', peer) == Tokens(e, peer) && Tokens(peer, e') == Tokens(peer, e);
  }

  lemma MoveInv(e: End, peer: End)
    requires BothInv(e, peer) && e.pc.AtMove? && e.out.Quiet?
    ensures BothInv(MoveShared(e), peer)
    ensures e.staging != [] && HasTake(e.pc.ev) ==> e.shared == []
  {
    hide Low, High;
  }

  lemma TakeInv(e: End, peer: End)
    requires BothInv(e, peer) && e.pc.AtTake? && e.out.Quiet?
    ensures BothInv(TakeShared(e, peer).0, TakeShared(e, peer).1)
  {
    hide Low, High;
  }

  lemma WriteInv(e: End, peer: End)
    requires BothInv(e, peer) && !e.out.Quiet?
    ensures BothInv(e.(out := Quiet), peer.(fd := peer.fd + Amount(e.out)))
  {
    WriteArithmetic(peer.fd, e.out);
    hide Low, High, Amount;
  }

  lemma StepInv(p: Pair, a: Act)
    requires PairInv(p) && Enabled(p, a)
    ensures PairInv(Step(p, a))
  {
    hide ChannelInv;
    var e, peer := p.Of(a.side), p.Of(a.side.Other());
    match a
    case PushAct(_, t) => PushInv(e, peer, t);
    case ReadAct(_) => ReadInv(e, peer);
    case MoveAct(_) => MoveInv(e, peer);
    case TakeAct(_) => TakeInv(e, peer);
    case WriteAct(_) => WriteInv(e, peer);
  }

  // ------------------------------------------------------------------ what the token buys

  /** The thread holding `s` is about to read or write `s.shared` as its sender. */
  predicate SenderTouches(s: End) {
    s.out.Quiet? && ((s.pc.Ready? && s.idle) || (s.pc.AtMove? && HasTake(s.pc.ev)))
  }

  /** The thread holding `r` is about to read and empty its peer's `shared` as the receiver. */
  predicate ReceiverTouches(r: End) {
    r.out.Quiet? && r.pc.AtTake? && HasPush(r.pc.ev)
  }

  /** One token: never two owners of a shared deque, and an overwrite only ever hits an empty one. */
  lemma SharedDequeHasOneOwner(s: End, r: End)
    requires ChannelInv(s, r)
    ensures !(SenderTouches(s) && ReceiverTouches(r))
    ensures SenderTouches(s) ==> s.shared == []
    ensures ReceiverTouches(r) ==> s.shared != []
  {
    hide Low, High;
  }

  /** Each half of a counter is 0 or 1, so no carry ever crosses the masks and the two tests decode exactly. */
  lemma CountersAreExact(p: Pair, side: Side)
    requires PairInv(p)
    ensures p.Of(side).fd in {0, INCR, TAKE, TAKE + INCR}
    ensures p.Of(side).pc.AtMove? ==> p.Of(side).pc.ev in {0, INCR, TAKE, TAKE + INCR}
  {
    var e, peer := p.Of(side), p.Of(side.Other());
    assert ChannelInv(peer, e) && ChannelInv(e, peer);
  }

  /** Nothing is stranded: while a task is in the channel its token is somewhere between the two threads. */
  lemma NoLostWakeup(s: End, r: End)
    requires ChannelInv(s, r) && Contents(s) != []
    ensures !s.idle
    ensures s.out.Push? || r.fd > 0 || !r.pc.Ready? || r.out.Took? || s.fd > 0 || s.pc.AtMove?
  {
  }

  // ------------------------------------------------------------------ whole runs

  /** `b` is the sequence of states that the actions `acts` go through from the start. */
  ghost predicate IsRun(b: seq<Pair>, acts: seq<Act>) {
    && |b| == |acts| + 1
    && b[0] == FRESH
    && forall i :: 0 <= i < |acts| ==> Enabled(b[i], acts[i]) && b[i + 1] == Step(b[i], acts[i])
  }

  /** What the action `a` puts into, and takes out of, the channel that `side` sends on. */
  ghost function Pushed(a: Act, side: Side): seq<TaskId> {
    if a.PushAct? && a.side == side then [a.t] else []
  }

  ghost function Removed(p: Pair, a: Act, side: Side): seq<TaskId>
    requires Enabled(p, a)
  {
    if a.TakeAct? && a.side == side.Other() then Taken(p.Of(a.side), p.Of(side)) else []
  }

  ghost function Sent(acts: seq<Act>, n: nat, side: Side): seq<TaskId>
    requires n <= |acts|
  {
    if n == 0 then [] else Sent(acts, n - 1, side) + Pushed(acts[n - 1], side)
  }

  ghost function Received(b: seq<Pair>, acts: seq<Act>, n: nat, side: Side): seq<TaskId>
    requires IsRun(b, acts) && n <= |acts|
  {
    if n == 0 then [] else Received(b, acts, n - 1, side) + Removed(b[n - 1], acts[n - 1], side)
  }

  lemma PushContents(s: End, r: End, t: TaskId)
    requires ChannelInv(s, r)
    ensures Contents(PushTask(s, t)) == Contents(s) + [t]
  {
    hide Tokens, Posted;
  }

  lemma MoveContents(s: End, r: End)
    requires ChannelInv(s, r) && s.pc.AtMove? && s.out.Quiet?
    ensures Contents(MoveShared(s)) == Contents(s)
  {
    SharedDequeHasOneOwner(s, r);
    hide Tokens, Posted, Low, High;
  }

  lemma TakeContents(r: End, s: End)
    requires r.pc.AtTake?
    ensures Taken(r, s) + Contents(TakeShared(r, s).1) == Contents(s)
    ensures Contents(TakeShared(r, s).0) == Contents(r)
  {
  }

  /** One action moves the ends of the queue and nothing else. */
  lemma StepContents(p: Pair, a: Act, side: Side)
    requires PairInv(p) && Enabled(p, a)
    ensures Removed(p, a, side) + Contents(Step(p, a).Of(side)) == Contents(p.Of(side)) + Pushed(a, side)
  {
    var e, peer := p.Of(a.side), p.Of(a.side.Other());
    hide Low, High, ChannelInv;
    if a.MoveAct? {
      MoveContents(e, peer);
    } else if a.TakeAct? {
      TakeContents(e, peer);
    } else if a.PushAct? {
      PushContents(e, peer, a.t);
    }
  }

  /** In every run: the invariant, and per direction sent == received ++ in the channel, in order. */
  lemma {:induction false} EveryRunIsFifo(b: seq<Pair>, acts: seq<Act>, n: nat, side: Side)
    requires IsRun(b, acts) && n <= |acts|
    ensures PairInv(b[n])
    ensures Sent(acts, n, side) == Received(b, acts, n, side) + Contents(b[n].Of(side))
  {
    if n == 0 {
      FreshInv();
    } else {
      hide PairInv, Step, Enabled, Contents, Removed, Pushed;
      EveryRunIsFifo(b, acts, n - 1, side);
      var p, a := b[n - 1], acts[n - 1];
      assert b[n - 1 + 1] == Step(p, a);
      StepInv(p, a);
      StepContents(p, a, side);
      var r, c, c' := Received(b, acts, n - 1, side), Contents(p.Of(side)), Contents(b[n].Of(side));
      Regroup(r, c, Pushed(a, side));
      Regroup(r, Removed(p, a, side), c');
    }
  }
}
