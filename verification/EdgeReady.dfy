/**
 One descriptor, read from by an event loop that is told only of changes: the kernel reports that bytes have arrived or that
 the peer has hung up, not that bytes are there.  What was reported is cached until a read finds nothing; a hang-up stays.
 Bytes and the hang-up may arrive between any two steps of the loop.
 */
module EdgeReady {
  import opened AsyncIo
  import opened AsyncMust
  import opened ByteBuf
  import opened Ret

  /** What an event says: bytes, or the end of bytes, to be read; a hang-up. */
  datatype Signal = Signal(data: bool, hup: bool)

  const NONE := Signal(false, false)

  /** Where the loop stands with this descriptor. */
  datatype Pc =
    | Idle                            // not at work on it
    | Reading(got: nat)               // in the batch of reads of a post
    | Emptied(got: nat, over: bool)   // a read found nothing, or the end; the cached event is about to be cleared

  /**
   `avail`: bytes in the kernel.  `hung`: the peer has hung up.  `edge`: not yet collected by `epoll_wait`.  `inbox`:
   collected, not yet fed to the element.  `able`, `hup`: the read bit and the hang-up bit of `able_events`; `want`: the read
   bit of `want_events`.  `total`: what earlier posts of the operation have read; `room`: what the next one reads at most.
   */
  datatype State = State(avail: nat, hung: bool, edge: Signal, inbox: Signal, able: bool, hup: bool, want: bool,
                         total: nat, room: nat, pc: Pc)

  datatype Act =
    | Arrive(n: nat)              // the kernel
    | HangUp                      // the kernel
    | Collect                     // epoll_wait
    | Feed                        // _dpefd_feed
    | Begin(size: nat)            // dpevp_addv: the operation is prepared and the wake loop entered
    | Read(n: nat, next: nat)     // one read of _dpaio_buf_post; with it a full batch ends, the post asks for `next` bytes more
    | Clear(next: nat)            // the event is taken off able_events; the post asks for `next` bytes more, or ends the operation
    | Stop                        // the end of an operation from outside: a timeout or dpevp_end

  /** What a post may ask for after a batch that was not full; 0 ends the operation. */
  predicate Permitted(got: nat, over: bool, total: nat, room: nat, next: nat) {
    if over then next == 0
    else if got == 0 then next == if total > 0 then 0 else room
    else true
  }

  predicate Enabled(s: State, a: Act) {
    match a
    case Arrive(n) => n > 0 && !s.hung
    case HangUp => !s.hung
    case Collect => s.pc.Idle? && s.inbox == NONE && s.edge != NONE
    case Feed => s.pc.Idle? && s.inbox != NONE
    case Begin(size) => s.pc.Idle? && !s.want && size > 0
    case Read(n, next) =>
      && s.pc.Reading?
      && if s.avail == 0 then n == 0 && next == 0
         else 0 < n <= s.avail && s.pc.got + n <= s.room && (s.pc.got + n < s.room ==> next == 0)
    case Clear(next) => s.pc.Emptied? && Permitted(s.pc.got, s.pc.over, s.total, s.room, next)
    case Stop => s.pc.Idle? && s.want
  }

  function Step(s: State, a: Act): State
    requires Enabled(s, a)
  {
    match a
    case Arrive(n) => s.(avail := s.avail + n, edge := s.edge.(data := true))
    case HangUp => s.(hung := true, edge := Signal(true, true))
    case Collect => s.(edge := NONE, inbox := s.edge)
    case Feed =>
      var s' := s.(inbox := NONE, able := s.able || s.inbox.data, hup := s.hup || s.inbox.hup);
      if !s'.want then s'
      else if s'.hup then s'.(want := false)
      else if s'.able then s'.(pc := Reading(0))
      else s'
    case Begin(size) =>
      if s.hup then s
      else
        var s' := s.(want := true, total := 0, room := size);
        if s'.able then s'.(pc := Reading(0)) else s'
    case Read(n, next) =>
      if s.avail == 0 then s.(pc := Emptied(s.pc.got, s.hung))
      else if s.pc.got + n < s.room then s.(avail := s.avail - n, pc := Reading(s.pc.got + n))
      else if next == 0 then s.(avail := s.avail - n, want := false, pc := Idle)
      else s.(avail := s.avail - n, total := s.total + s.room, room := next, pc := Reading(0))
    case Clear(next) =>
      if next == 0 then s.(able := false, want := false, pc := Idle)
      else s.(able := false, total := s.total + s.pc.got, room := next, pc := Idle)
    case Stop => s.(want := false)
  }

  const START := State(0, false, NONE, NONE, false, false, false, 0, 0, Idle)

  ghost predicate Inv(s: State) {
    && (s.avail > 0 ==> s.edge.data || s.inbox.data || (s.able && !s.pc.Emptied?))
    && (s.pc.Idle? && s.want ==> !s.able)
    && (!s.pc.Idle? ==> s.able && s.want)
    && (s.pc.Reading? ==> s.pc.got < s.room)
    && (s.want ==> s.room > 0)
    && (s.edge.hup ==> s.edge.data) && (s.inbox.hup ==> s.inbox.data)
    && (s.hung <==> s.hup || s.edge.hup || s.inbox.hup)
    && (s.hup ==> s.pc.Idle? && !s.want)
  }

  lemma StepInv(s: State, a: Act)
    requires Inv(s) && Enabled(s, a)
    ensures Inv(Step(s, a))
  {
  }

  predicate IsRun(s: State, acts: seq<Act>)
    decreases |acts|
  {
    acts == [] || (Enabled(s, acts[0]) && IsRun(Step(s, acts[0]), acts[1..]))
  }

  function Run(s: State, acts: seq<Act>): State
    requires IsRun(s, acts)
    decreases |acts|
  {
    if acts == [] then s else Run(Step(s, acts[0]), acts[1..])
  }

  lemma {:induction false} RunInv(s: State, acts: seq<Act>)
    requires Inv(s) && IsRun(s, acts)
    ensures Inv(Run(s, acts))
    decreases |acts|
  {
    if acts != [] {
      StepInv(s, acts[0]);
      RunInv(Step(s, acts[0]), acts[1..]);
    }
  }

  /**
   Edges refine levels: whatever has happened, bytes that are there are known of, or will be; and where an operation waits,
   be it for its first batch or between two posts, they will be, so that the wait is not in vain.
   */
  lemma NoByteGoesUnnoticed(acts: seq<Act>)
    requires IsRun(START, acts)
    ensures
      var s := Run(START, acts);
      && (s.avail > 0 ==> s.able || s.edge.data || s.inbox.data)
      && (s.avail > 0 && (s.pc.Emptied? || (s.pc.Idle? && s.want)) ==> s.edge.data || s.inbox.data)
      && (s.hung ==> s.hup || s.edge.hup || s.inbox.hup)
  {
    RunInv(START, acts);
  }

  // ------------------------------------------------------------------ waking up

  /** What the loop does by itself until it looks at a waiting operation. */
  function Wakeup(s: State): seq<Act> {
    if s.inbox != NONE then [Feed] else [Collect, Feed]
  }

  /** Whether the event that it then feeds tells of a hang-up. */
  predicate HangUpIsTold(s: State) {
    if s.inbox != NONE then s.inbox.hup else s.edge.hup
  }

  /**
   A waiting operation whose bytes have arrived is woken by the loop alone.  It reads iff the event that wakes it tells of no
   hang-up; otherwise it is over with no byte read.
   */
  lemma WaitingReadIsWoken(acts: seq<Act>)
    requires IsRun(START, acts)
    ensures
      var s := Run(START, acts);
      s.pc.Idle? && s.want && s.avail > 0 ==>
        && IsRun(s, Wakeup(s))
        && var s' := Run(s, Wakeup(s));
           && (s'.pc.Reading? <==> !HangUpIsTold(s))
           && (s'.pc.Reading? ==> Enabled(s', Read(1, 0)) && Step(s', Read(1, 0)).avail == s.avail - 1)
           && (!s'.pc.Reading? ==> s'.pc.Idle? && !s'.want && s'.hup && s'.avail == s.avail)
  {
    RunInv(START, acts);
    var s := Run(START, acts);
    if s.pc.Idle? && s.want && s.avail > 0 {
      if s.inbox != NONE {
        OneStep(s, Feed);
      } else {
        var s1 := Step(s, Collect);
        StepInv(s, Collect);
        OneStep(s1, Feed);
        assert Wakeup(s)[1..] == [Feed];
      }
    }
  }

  lemma OneStep(s: State, a: Act)
    requires Enabled(s, a)
    ensures IsRun(s, [a]) && Run(s, [a]) == Step(s, a)
  {
    assert [a][1..] == [];
    assert IsRun(Step(s, a), []) && Run(Step(s, a), []) == Step(s, a);
  }

  /** Once a hang-up is cached no operation reads any more: what is left in the kernel stays there. */
  lemma {:induction false} HangUpIsForGood(s: State, acts: seq<Act>)
    requires Inv(s) && s.hup && IsRun(s, acts)
    ensures
      var s' := Run(s, acts);
      s'.hup && !s'.want && s'.pc.Idle? && s'.avail == s.avail
    decreases |acts|
  {
    if acts != [] {
      StepInv(s, acts[0]);
      HangUpIsForGood(Step(s, acts[0]), acts[1..]);
    }
  }

  /** Bytes and a hang-up together, while an operation waits: the bytes are never read, whatever follows. */
  lemma BytesBeforeHangUpAreLost(n: nat, more: seq<Act>)
    requires n > 0
    ensures
      var s := State(n, true, NONE, NONE, true, true, false, 0, 1, Idle);
      && IsRun(START, [Begin(1), Arrive(n), HangUp, Collect, Feed])
      && Run(START, [Begin(1), Arrive(n), HangUp, Collect, Feed]) == s
      && (IsRun(s, more) ==> Run(s, more).avail == n)
  {
    var acts := [Begin(1), Arrive(n), HangUp, Collect, Feed];
    var s1 := Step(START, Begin(1));
    var s2 := Step(s1, Arrive(n));
    var s3 := Step(s2, HangUp);
    var s4 := Step(s3, Collect);
    OneStep(s4, Feed);
    assert acts[1..] == [Arrive(n), HangUp, Collect, Feed] && acts[1..][1..] == [HangUp, Collect, Feed];
    assert acts[1..][1..][1..] == [Collect, Feed] && acts[1..][1..][1..][1..] == [Feed];
    assert IsRun(s3, [Collect, Feed]) && IsRun(s2, [HangUp, Collect, Feed]);
    assert Run(s3, [Collect, Feed]) == Step(s4, Feed);
    assert Run(s2, [HangUp, Collect, Feed]) == Step(s4, Feed);
    var s := Step(s4, Feed);
    if IsRun(s, more) {
      HangUpIsForGood(s, more);
    }
  }

  /** A full batch leaves the cached event alone: the operation, or the next one, reads at once. */
  lemma FullBatchKeepsEvent(s: State, n: nat, next: nat)
    requires Inv(s) && Enabled(s, Read(n, next)) && s.avail > 0 && s.pc.got + n == s.room
    ensures
      var s' := Step(s, Read(n, next));
      && s'.able
      && if next > 0 then s'.want && s'.pc == Reading(0) && s'.room == next
         else !s'.want && forall size :: size > 0 ==> Step(s', Begin(size)).pc == Reading(0)
  {
  }

  // ------------------------------------------------------------------ the operations

  /** A post of `read_until` asks for no more than is permitted here, unless a read failed. */
  method UntilPostFits(op: UntilOp, memory: bool) returns (ret: int, inva: bool)
    requires op.Ready()
    modifies op`total, op`flag, op`ioLen, op.src, op.buf, op.buf.data
    ensures
      var b := Pull(old(op.src.script), old(op.ioLen));
      && inva == b.end.Ended? && |b.got| <= old(op.ioLen) && (!inva ==> |b.got| == old(op.ioLen))
      && (ret == WAIT ==> op.ioLen > 0)
      && (inva && b.end.code in {WAIT, EOF} ==>
            Permitted(|b.got|, b.end.code == EOF, old(op.total), old(op.ioLen), if ret == WAIT then op.ioLen else 0))
  {
    hide Find, Pull, Proper;
    ret, inva := op.Post(memory);
  }

  /** So does a post of `read_must`. */
  method MustPostFits(op: MustOp, ghost held: seq<byte>, ghost got: seq<byte>) returns (ret: int, inva: bool)
    requires op.Ready(held, got)
    modifies op`total, op`ioLen, op.src, op.buf`wbeg, op.buf.data
    ensures
      var b := Pull(old(op.src.script), old(op.ioLen));
      && inva == b.end.Ended? && |b.got| <= old(op.ioLen) && (!inva ==> |b.got| == old(op.ioLen))
      && (ret == WAIT ==> op.ioLen > 0)
      && (inva && b.end.code in {WAIT, EOF} ==>
            Permitted(|b.got|, b.end.code == EOF, old(op.total), old(op.ioLen), if ret == WAIT then op.ioLen else 0))
  {
    hide Pull, Proper;
    ret, inva := op.Post(held, got);
  }
}
