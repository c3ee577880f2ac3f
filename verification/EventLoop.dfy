/**
 Operations on the elements of one event loop, from `dpevp_addv` to `dpevp_pop`: immediate success, a wake-up by events, a
 timeout and `dpevp_end` may each bring an operation to its end, and each operation that was left waiting comes out once.
 Elements here are attached and of the kinds EFD, USD and TMR, and are not re-submitted while at work.
 */
module EventLoop {
  import opened Ret
  import opened Seqs

  datatype Event = In | Pri | Out | Err | Hup

  datatype Kind = Efd | Usd | Tmr

  /** What one call of an operation's `post` answers: its return value, and the events it takes off or waits for. */
  datatype Answer = Answer(ret: int, inva: set<Event>, want: set<Event>)

  /** A post that settles in the end. */
  predicate Settles(answers: seq<Answer>) {
    answers != [] && answers[|answers| - 1].ret != WAIT
  }

  /** What is left of a wake-up: the return value, and the cached and the wanted events. */
  datatype Woken = Woken(ret: int, able: set<Event>, want: set<Event>)

  /** The wake-up as a recursion over what `post` says. */
  function WakeUp(able: set<Event>, want: set<Event>, answers: seq<Answer>): (w: Woken)
    requires Settles(answers)
    ensures w.ret == WAIT ==> w.able * w.want == {}
    ensures w.ret != WAIT ==> w.want == {}
    ensures w.able <= able
    decreases |answers|
  {
    if able * want == {} then Woken(WAIT, able, want)
    else if answers[0].ret != WAIT then Woken(answers[0].ret, able - answers[0].inva, {})
    else
      var want' := if answers[0].want != {} then answers[0].want else want;
      WakeUp(able - answers[0].inva, want', answers[1..])
  }

  /** The events that are still cached before post number `k`, and those that are wanted then. */
  function AbleAt(able: set<Event>, answers: seq<Answer>, k: nat): set<Event>
    requires k <= |answers|
  {
    if k == 0 then able else AbleAt(able, answers, k - 1) - answers[k - 1].inva
  }

  function WantAt(want: set<Event>, answers: seq<Answer>, k: nat): set<Event>
    requires k <= |answers|
  {
    if k == 0 then want else if answers[k - 1].want != {} then answers[k - 1].want else WantAt(want, answers, k - 1)
  }

  /**
   A wake-up calls `post` as long as a wanted event is cached and the answer is to wait.  After `k` posts it ends, with the
   last answer that is not to wait, or waiting for events none of which is cached.
   */
  ghost predicate Posted(able: set<Event>, want: set<Event>, answers: seq<Answer>, k: nat, w: Woken)
    requires k <= |answers|
  {
    && (forall j :: 0 <= j < k ==> AbleAt(able, answers, j) * WantAt(want, answers, j) != {})
    && (forall j :: 0 <= j < k - 1 ==> answers[j].ret == WAIT)
    && if k > 0 && answers[k - 1].ret != WAIT then w == Woken(answers[k - 1].ret, AbleAt(able, answers, k), {})
       else
         && AbleAt(able, answers, k) * WantAt(want, answers, k) == {}
         && w == Woken(WAIT, AbleAt(able, answers, k), WantAt(want, answers, k))
  }

  /** The wake-up is `k` posts long, for one `k`. */
  lemma {:induction false} WakeUpPosts(able: set<Event>, want: set<Event>, answers: seq<Answer>) returns (k: nat)
    requires Settles(answers)
    ensures k <= |answers| && Posted(able, want, answers, k, WakeUp(able, want, answers))
    decreases |answers|
  {
    if able * want == {} {
      k := 0;
    } else if answers[0].ret != WAIT {
      k := 1;
    } else {
      var able', want' := able - answers[0].inva, if answers[0].want != {} then answers[0].want else want;
      var n := WakeUpPosts(able', want', answers[1..]);
      k := n + 1;
      forall j | 0 <= j <= n
        ensures AbleAt(able, answers, j + 1) == AbleAt(able', answers[1..], j)
        ensures WantAt(want, answers, j + 1) == WantAt(want', answers[1..], j)
      {
        OnePostOn(able, want, answers, j);
      }
      forall j | 0 <= j < k
        ensures AbleAt(able, answers, j) * WantAt(want, answers, j) != {}
      {
        if j > 0 {
          assert AbleAt(able, answers, j - 1 + 1) == AbleAt(able', answers[1..], j - 1);
        }
      }
      forall j | 0 <= j < k - 1
        ensures answers[j].ret == WAIT
      {
        if j > 0 {
          assert answers[j] == answers[1..][j - 1];
        }
      }
    }
  }

  lemma {:induction false} OnePostOn(able: set<Event>, want: set<Event>, answers: seq<Answer>, j: nat)
    requires j + 1 <= |answers|
    ensures AbleAt(able, answers, j + 1) == AbleAt(able - answers[0].inva, answers[1..], j)
    ensures WantAt(want, answers, j + 1) == WantAt(if answers[0].want != {} then answers[0].want else want, answers[1..], j)
  {
    if j > 0 {
      OnePostOn(able, want, answers, j - 1);
      assert answers[1..][j - 1] == answers[j];
    }
  }

  /** `DPEVT_GET_ERR`. */
  function Error(able: set<Event>): int {
    if Hup in able then CONNRESET else if Err in able then BADFD else OK
  }

  class Element {
    const kind: Kind
    var able: set<Event>     // able_events
    var want: set<Event>     // want_events
    var doing: bool          // asc_type != NULL
    var isTiming: bool
    var hasTimeout: bool     // tmr_spec is there and not negative
    var ret: int

    constructor (kind: Kind)
      ensures this.kind == kind && Idle()
    {
      this.kind := kind;
      able, want, doing, isTiming, hasTimeout, ret := {}, {}, false, false, false, OK;
    }

    predicate Idle()
      reads this
    {
      !doing && !isTiming && want == {}
    }

    /** `_dpefd_wake`: calls `post` as long as it waits for something that is there.  `answers` is what it will say. */
    method Wake(inva: set<Event>, want0: set<Event>, answers: seq<Answer>) returns (res: int)
      requires Settles(answers)
      modifies this`able, this`want
      ensures
        if Hup in old(able) then res == CONNRESET && want == {} && able == old(able)
        else if Err in old(able) then res == BADFD && want == {} && able == old(able)
        else Woken(res, able, want) == WakeUp(old(able) - inva, want0, answers)
    {
      res := Error(able);
      if res < 0 {
        want := {};
        return;
      }
      able := able - inva;
      want := want0;
      res := WAIT;
      var i := 0;
      while able * want != {}
        invariant 0 <= i < |answers| && res == WAIT
        invariant WakeUp(old(able) - inva, want0, answers) == WakeUp(able, want, answers[i..])
        decreases |answers| - i
      {
        var a := answers[i];
        res := a.ret;
        able := able - a.inva;
        if res == WAIT {
          if a.want != {} {
            want := a.want;
          }
        } else {
          want := {};
          break;
        }
        assert answers[i..][1..] == answers[i + 1..];
        i := i + 1;
      }
    }
  }

  /** A call of `dpevp_addv`, an event for `e`, a look at the ready queue, a deadline that has come, or `dpevp_end`. */
  datatype Call =
    | Submit(e: Element, prepared: int, inva: set<Event>, want: set<Event>, answers: seq<Answer>)
    | Happen(e: Element, evs: set<Event>, answers: seq<Answer>)
    | Take(post: bool, ret: int)
    | Due(e: Element, post: bool, ret: int)
    | Stop(e: Element, ret: int)

  /** An operation was left waiting, or came out. */
  datatype Turn = Waited | Popped

  /** What call number `at` told. */
  datatype Note = Note(e: Element, turn: Turn, at: nat)

  datatype Phase = Resting | Waiting | Broken

  function PhaseWhen(doing: bool): Phase {
    if doing then Waiting else Resting
  }

  /** What the history says about one element. */
  function Turns(history: seq<Note>, e: Element): seq<Turn> {
    if history == [] then []
    else Turns(history[..|history| - 1], e) + if history[|history| - 1].e == e then [history[|history| - 1].turn] else []
  }

  lemma {:induction false} TurnsJoin(a: seq<Note>, b: seq<Note>, e: Element)
    ensures Turns(a + b, e) == Turns(a, e) + Turns(b, e)
  {
    if b == [] {
      assert a + b == a;
    } else {
      var n := |b| - 1;
      assert (a + b)[..|a + b| - 1] == a + b[..n] && (a + b)[|a + b| - 1] == b[n];
      TurnsJoin(a, b[..n], e);
    }
  }

  /** The call after which `e` was left waiting last, or -1. */
  function LastWait(history: seq<Note>, e: Element): int {
    if history == [] then -1
    else
      var last := history[|history| - 1];
      if last.e == e && last.turn.Waited? then last.at else LastWait(history[..|history| - 1], e)
  }

  /** Between calls `a` and `b` the operation of `e` was ended from outside. */
  ghost predicate StoppedBetween(calls: seq<Call>, e: Element, a: int, b: int) {
    exists k :: 0 <= k < |calls| && a < k < b && calls[k].Stop? && calls[k].e == e
  }

  /** What is known before call `k` of an element at work that is no descriptor: how its operation began, and why it is ready. */
  ghost predicate Traced(calls: seq<Call>, history: seq<Note>, e: Element, k: nat, inReady: bool) {
    var a := LastWait(history, e);
    && 0 <= a < k <= |calls| && calls[a].Submit? && calls[a].e == e
    && (inReady && calls[a].prepared == CONTINUE ==> StoppedBetween(calls, e, a, k))
  }

  /**
   An element that is no descriptor came out: because its deadline had come, or from the ready queue; and if its `prep` had
   answered that it goes on, then from the ready queue only after it was ended from outside.
   */
  ghost predicate CameOutRightly(calls: seq<Call>, history: seq<Note>, note: Note) {
    var a := LastWait(history, note.e);
    && 0 <= a < note.at < |calls| && calls[a].Submit? && calls[a].e == note.e
    && ((calls[note.at].Due? && calls[note.at].e == note.e) || calls[note.at].Take?)
    && (calls[note.at].Take? && calls[a].prepared == CONTINUE ==> StoppedBetween(calls, note.e, a, note.at))
  }

  /** One call later. */
  lemma TracedOn(calls: seq<Call>, history: seq<Note>, note: seq<Note>, e: Element, k: nat, was: bool, wasReady: bool, now: bool, isReady: bool)
    requires k < |calls| && |note| <= 1 && (note != [] ==> note[0].at == k)
    requires was ==> Traced(calls, history, e, k, wasReady)
    requires Turns(note, e) == if was == now then [] else if now then [Waited] else [Popped]
    requires !was && now ==> calls[k].Submit? && calls[k].e == e && (calls[k].prepared == CONTINUE ==> !isReady)
    requires was && now && isReady && !wasReady ==> calls[k].Stop? && calls[k].e == e
    ensures now ==> Traced(calls, history + note, e, k + 1, isReady)
  {
    if note == [] {
      assert history + note == history;
    } else {
      assert note == [note[0]] && note[..0] == [] && (history + note)[..|history|] == history;
      assert Turns(note, e) == if note[0].e == e then [note[0].turn] else [];
    }
    if now {
      if was {
        var a := LastWait(history, e);
        assert LastWait(history + note, e) == a;
        if isReady && calls[a].prepared == CONTINUE {
          if wasReady {
            var j :| 0 <= j < |calls| && a < j < k && calls[j].Stop? && calls[j].e == e;
            assert StoppedBetween(calls, e, a, k + 1);
          } else {
            assert StoppedBetween(calls, e, a, k + 1);
          }
        }
      }
    }
  }

  lemma ComesOut(calls: seq<Call>, history: seq<Note>, note: Note, wasReady: bool)
    requires note.at < |calls| && Traced(calls, history, note.e, note.at, wasReady)
    requires (calls[note.at].Due? && calls[note.at].e == note.e) || (calls[note.at].Take? && wasReady)
    ensures CameOutRightly(calls, history, note)
  {
  }

  lemma NotesJoin(history: seq<Note>, note: seq<Note>)
    requires |note| <= 1
    ensures forall j :: 0 <= j < |history| ==> (history + note)[..j] == history[..j] && (history + note)[j] == history[j]
    ensures note != [] ==> (history + note)[..|history|] == history && (history + note)[|history|] == note[0]
  {
  }

  /** A wait and its coming out by turns. */
  function PhaseOf(start: Phase, turns: seq<Turn>): Phase {
    if turns == [] then start
    else
      match (PhaseOf(start, turns[..|turns| - 1]), turns[|turns| - 1])
      case (Resting, Waited) => Waiting
      case (Waiting, Popped) => Resting
      case _ => Broken
  }

  lemma NoTurns(start: Phase)
    ensures PhaseOf(start, []) == start
  {
  }

  lemma TakesTurn(start: Phase, turns: seq<Turn>, was: bool, now: bool)
    requires PhaseOf(start, turns) == PhaseWhen(was)
    ensures
      var turn := if now == was then [] else if now then [Waited] else [Popped];
      PhaseOf(start, turns + turn) == PhaseWhen(now)
  {
    if now == was {
      assert turns + [] == turns;
    } else {
      var turn := if now then Waited else Popped;
      assert (turns + [turn])[..|turns|] == turns;
    }
  }

  function Number(turns: seq<Turn>, t: Turn): nat {
    if turns == [] then 0 else Number(turns[..|turns| - 1], t) + if turns[|turns| - 1] == t then 1 else 0
  }

  /** Each wait comes out once, before the next one, and nothing comes out that did not wait. */
  lemma {:induction false} EachWaitComesOutOnce(turns: seq<Turn>)
    requires PhaseOf(Resting, turns) != Broken
    ensures forall i :: 0 <= i < |turns| ==> turns[i] == if i % 2 == 0 then Waited else Popped
    ensures Number(turns, Waited) == Number(turns, Popped) + (if PhaseOf(Resting, turns).Waiting? then 1 else 0)
    ensures PhaseOf(Resting, turns).Waiting? <==> |turns| % 2 == 1
  {
    if turns != [] {
      EachWaitComesOutOnce(turns[..|turns| - 1]);
    }
  }

  class Loop {
    var ready: seq<Element>
    var timers: set<Element>
    ghost var all: set<Element>

    /** What every call keeps for an element. */
    ghost predicate Sound(e: Element)
      reads this, e
    {
      && (e in ready ==> e.doing && !e.isTiming && e.want == {})
      && (e.isTiming <==> e in timers)
      && (e.isTiming ==> e.doing)
      && (!e.doing ==> e.want == {} && e !in ready)
      && (e.want != {} ==> e.kind.Efd? && e.able * e.want == {})
    }

    ghost predicate Valid()
      reads this, all
    {
      && (forall e :: e in all ==> Sound(e))
      && (forall e :: e in ready ==> e in all)
      && timers <= all
      && Once(ready)
    }

    /** Everything is in order but for `e`. */
    ghost predicate Others(e: Element)
      reads this, all
    {
      && (forall x :: x in all && x != e ==> Sound(x))
      && (forall x :: x in ready ==> x in all)
      && timers <= all
      && Once(ready)
    }

    constructor ()
      ensures Valid() && all == {} && ready == []
    {
      ready, timers, all := [], {}, {};
    }

    /** A new element comes under the care of this loop. */
    ghost method Adopt(e: Element)
      requires Valid() && e !in all && e.Idle()
      modifies this`all
      ensures Valid() && all == old(all) + {e}
    {
      assert e !in ready && e !in timers;
      all := all + {e};
    }

    /** `_dpele_deque_push_back` on the ready queue: nothing happens if `e` is in it already. */
    method PushReady(e: Element)
      modifies this`ready
      ensures ready == if e in old(ready) then old(ready) else old(ready) + [e]
    {
      if e !in ready {
        ready := ready + [e];
      }
    }

    /** `_dptmrset_remove`. */
    method StopTimer(e: Element)
      requires e.isTiming <==> e in timers
      modifies this`timers, e`isTiming
      ensures timers == old(timers) - {e} && !e.isTiming
    {
      if e.isTiming {
        timers := timers - {e};
        e.isTiming := false;
      }
    }

    /** The end of `dpevp_addv`, for an element whose operation was idle before. */
    method Finish(e: Element, ret: int) returns (res: int)
      requires Others(e) && e in all && e !in ready && e !in timers && !e.isTiming && e.doing
      requires if ret == WAIT then e.want != {} ==> e.kind.Efd? && e.able * e.want == {} else e.want == {}
      modifies this`ready, this`timers, e
      ensures Valid()
      ensures res == if ret >= 0 then WAIT else ret
      ensures e.doing <==> res == WAIT
      ensures e.able == old(e.able) && e.want == old(e.want) && e.ret == if ret == WAIT then INPROGRESS else ret
      ensures ready == if ret >= 0 then old(ready) + [e] else old(ready)
      ensures timers == if ret == WAIT && e.hasTimeout then old(timers) + {e} else old(timers)
    {
      e.ret := ret;
      if ret >= 0 {
        PushReady(e);
        res := WAIT;
      } else if ret == WAIT {
        e.ret := INPROGRESS;
        if e.hasTimeout {
          timers := timers + {e};
          e.isTiming := true;
        }
        res := WAIT;
      } else {
        e.doing := false;
        res := ret;
      }
    }

    /** What `ret`, the result of the start of an operation, makes of an element: ready at once, waiting, or refused. */
    ghost predicate Started(ready0: seq<Element>, timers0: set<Element>, e: Element, ret: int, res: int)
      reads this, e
    {
      if ret >= 0 then res == WAIT && e.ret == ret && ready == ready0 + [e] && timers == timers0
      else if ret == WAIT then
        res == WAIT && e.ret == INPROGRESS && ready == ready0 && timers == if e.hasTimeout then timers0 + {e} else timers0
      else res == e.ret == ret && ready == ready0 && timers == timers0
    }

    /**
     `dpevp_addv`.  `prepared` is what the operation's `prep` returns, with the events it takes off and waits for, and
     `answers` is what its `post` will say.
     */
    method AddV(e: Element, prepared: int, inva: set<Event>, want: set<Event>, answers: seq<Answer>) returns (res: int)
      requires Valid() && e in all
      requires Settles(answers)
      modifies this`ready, this`timers, e
      ensures Valid()
      ensures old(e.doing) ==> res == PERM && unchanged(e) && unchanged(this)
      ensures !old(e.doing) ==> (e.doing <==> res == WAIT)
      ensures !old(e.doing) && prepared != CONTINUE ==> Started(old(ready), old(timers), e, prepared, res) && e.able == old(e.able)
      ensures !old(e.doing) && prepared == CONTINUE && !e.kind.Efd? ==>
        && res == WAIT && e.ret == INPROGRESS && e !in ready && ready == old(ready) && e.able == old(e.able)
        && (e in timers <==> e.hasTimeout) && timers - {e} == old(timers)
      ensures !old(e.doing) && prepared == CONTINUE && e.kind.Efd? ==>
        if Hup in old(e.able) then Started(old(ready), old(timers), e, CONNRESET, res) && e.able == old(e.able)
        else if Err in old(e.able) then Started(old(ready), old(timers), e, BADFD, res) && e.able == old(e.able)
        else
          var w := WakeUp(old(e.able) - inva, want, answers);
          Started(old(ready), old(timers), e, w.ret, res) && e.able == w.able && e.want == w.want
    {
      if e.doing {
        return PERM;
      }
      e.doing := true;
      var ret := prepared;
      if ret == CONTINUE {
        if e.kind.Efd? {
          ret := e.Wake(inva, want, answers);
        } else {
          ret := WAIT;
        }
      }
      res := Finish(e, ret);
    }

    /** `_dpele_asc_over` for an attached element: the operation is over; `ret` is what a last `post` makes of it, if any. */
    method Over(e: Element, post: bool, ret: int)
      requires e.doing && !e.isTiming && e !in ready && e in all && e !in timers
      modifies e
      ensures Sound(e) && !e.doing
      ensures e.able == old(e.able)
      ensures e.ret == if post && !e.kind.Efd? then ret else old(e.ret)
    {
      e.want := {};
      e.doing := false;
      if post && !e.kind.Efd? {
        e.ret := ret;
      }
    }

    /** `_worker_reap_efd` for one event: `_dpefd_feed`, and what follows if it completes the operation. */
    method ReapEvent(e: Element, evs: set<Event>, answers: seq<Answer>) returns (popped: bool)
      requires Valid() && e in all && e.kind.Efd?
      requires Settles(answers)
      modifies this`timers, e
      ensures Valid()
      ensures
        var able := old(e.able) + evs;
        var w := if Hup in able then Woken(CONNRESET, able, {})
                 else if Err in able then Woken(BADFD, able, {})
                 else WakeUp(able, old(e.want), answers);
        && (popped <==> old(e.doing) && old(e.want) != {} && w.ret != WAIT)
        && (if old(e.want) == {} then e.able == able else e.able == w.able && e.want == w.want)
        && e.ret == (if old(e.want) == {} then old(e.ret) else if popped then w.ret else INPROGRESS)
      ensures e.doing == (old(e.doing) && !popped)
      ensures timers == if popped then old(timers) - {e} else old(timers)
    {
      e.able := e.able + evs;
      assert e.able - {} == e.able;
      if e.want == {} || !e.doing {
        return false;
      }
      var ret := e.Wake({}, e.want, answers);
      if ret == WAIT {
        e.ret := INPROGRESS;
        return false;
      }
      e.ret := ret;
      StopTimer(e);
      Over(e, false, 0);
      return true;
    }

    /** `_dpevp_reap_usd`: the front of the ready queue. */
    method ReapReady(post: bool, ret: int) returns (e: Element?)
      requires Valid()
      modifies this`ready, all
      ensures Valid()
      ensures e == null <==> old(ready) == []
      ensures e == null ==> ready == old(ready)
      ensures e != null ==>
        && e in old(ready) && old(ready) == [e] + ready && old(e.doing) && !e.doing
        && e.ret == (if post && !e.kind.Efd? then ret else old(e.ret)) && e.able == old(e.able)
      ensures forall x :: x in all && x != e ==> unchanged(x)
    {
      if |ready| == 0 {
        return null;
      }
      e := ready[0];
      assert e in ready && Sound(e);
      ready := ready[1..];
      assert e !in ready;
      Over(e, post, ret);
    }

    /** `_dpevp_reap_tmr`: `e` is the element whose deadline has come. */
    method ReapTimer(e: Element, post: bool, ret: int)
      requires Valid() && e in timers
      modifies this`timers, e
      ensures Valid()
      ensures old(e.doing) && !e.doing
      ensures e.ret == (if post && !e.kind.Efd? then ret else TIME) && ready == old(ready) && timers == old(timers) - {e}
    {
      StopTimer(e);
      e.ret := TIME;
      Over(e, post, ret);
    }

    /** `dpevp_end`. */
    method End(e: Element, ret: int)
      requires Valid() && e in all
      modifies this`ready, this`timers, e
      ensures Valid()
      ensures e.doing == old(e.doing)
      ensures old(e.doing) ==> e in ready && e.ret == ret && !e.isTiming
      ensures ready == if !old(e.doing) || e in old(ready) then old(ready) else old(ready) + [e]
      ensures timers == old(timers) - {e}
    {
      if !e.doing {
        return;
      }
      StopTimer(e);
      if e.kind.Efd? {
        e.want := {};
      }
      e.ret := ret;
      PushReady(e);
    }

    // ---------------------------------------------------------------- runs

    /**
     Any calls, in any order, by whoever uses the loop and by the loop itself, and what their results tell: which operations
     were left waiting, and which came out.  For each element these take turns, and the element is at work exactly after a
     wait whose operation has not come out.
     */
    method Play(calls: seq<Call>) returns (history: seq<Note>)
      requires Valid() && forall k :: 0 <= k < |calls| ==> Possible(calls[k])
      modifies this, all
      ensures Valid() && all == old(all)
      ensures forall e :: e in all ==>
        PhaseOf(PhaseWhen(old(e.doing)), Turns(history, e)) == PhaseWhen(e.doing)
      ensures forall j :: 0 <= j < |history| ==>
        history[j].e in all
        && (history[j].turn.Popped? && !history[j].e.kind.Efd? && !old(history[j].e.doing) ==>
              CameOutRightly(calls, history[..j], history[j]))
    {
      hide Valid, PhaseOf, Traced, CameOutRightly;
      history := [];
      NoTurns(Waiting);
      NoTurns(Resting);
      for k := 0 to |calls|
        invariant Valid() && all == old(all)
        invariant forall e :: e in all ==>
          PhaseOf(PhaseWhen(old(e.doing)), Turns(history, e)) == PhaseWhen(e.doing)
        invariant forall e :: e in all && !e.kind.Efd? && !old(e.doing) && e.doing ==>
          Traced(calls, history, e, k, e in ready)
        invariant forall j :: 0 <= j < |history| ==>
          history[j].e in all
          && (history[j].turn.Popped? && !history[j].e.kind.Efd? && !old(history[j].e.doing) ==>
                CameOutRightly(calls, history[..j], history[j]))
      {
        label Before:
        var note := Perform(calls[k], k);
        forall e | e in all && !e.kind.Efd? && !old(e.doing) && e.doing
          ensures Traced(calls, history + note, e, k + 1, e in ready)
        {
          TracedOn(calls, history, note, e, k, old@Before(e.doing), old@Before(e in ready), e.doing, e in ready);
        }
        if note != [] && note[0].turn.Popped? && !note[0].e.kind.Efd? && !old(note[0].e.doing) {
          ComesOut(calls, history, note[0], old@Before(note[0].e in ready));
        }
        NotesJoin(history, note);
        forall e | e in all
          ensures PhaseOf(PhaseWhen(old(e.doing)), Turns(history + note, e)) == PhaseWhen(e.doing)
        {
          TurnsJoin(history, note, e);
          TakesTurn(PhaseWhen(old(e.doing)), Turns(history, e), old@Before(e.doing), e.doing);
        }
        history := history + note;
      }
    }

    ghost predicate Possible(call: Call)
      reads this`all
    {
      match call
      case Submit(e, _, _, _, answers) => e in all && Settles(answers)
      case Happen(e, _, answers) => e in all && e.kind.Efd? && Settles(answers)
      case Due(e, _, _) => e in all
      case Stop(e, _) => e in all
      case Take(_, _) => true
    }

    /** Call number `at`, and what its result tells.  A timer that is not set does not go off. */
    method Perform(call: Call, at: nat) returns (note: seq<Note>)
      requires Valid() && Possible(call)
      modifies this`ready, this`timers, all
      ensures Valid() && |note| <= 1 && (note != [] ==> note[0].at == at && note[0].e in all)
      ensures note != [] && note[0].turn.Popped? ==> old(note[0].e.doing)
      ensures call.Stop? && old(call.e.doing) ==> call.e in ready && call.e.ret == call.ret
      ensures note != [] && note[0].turn.Popped? && !note[0].e.kind.Efd? ==>
        (call.Due? && call.e == note[0].e) || (call.Take? && note[0].e in old(ready))
      ensures forall e :: e in all && !e.kind.Efd? ==>
        && (e.doing && !old(e.doing) ==> call.Submit? && call.e == e && (call.prepared == CONTINUE ==> e !in ready))
        && (e.doing && old(e.doing) && e in ready && e !in old(ready) ==> call.Stop? && call.e == e)
      ensures forall e :: e in all ==>
        Turns(note, e) == if e.doing == old(e.doing) then [] else if e.doing then [Waited] else [Popped]
    {
      note := [];
      match call {
        case Submit(e, prepared, inva, want, answers) =>
          var res := AddV(e, prepared, inva, want, answers);
          if res == WAIT {
            note := [Note(e, Waited, at)];
          }
        case Happen(e, evs, answers) =>
          var popped := ReapEvent(e, evs, answers);
          if popped {
            note := [Note(e, Popped, at)];
          }
        case Take(post, ret) =>
          var e := ReapReady(post, ret);
          assert forall x :: x in ready ==> x in old(ready);
          if e != null {
            note := [Note(e, Popped, at)];
          }
        case Due(e, post, ret) =>
          if e in timers {
            ReapTimer(e, post, ret);
            note := [Note(e, Popped, at)];
          }
        case Stop(e, ret) =>
          End(e, ret);
      }
    }
  }
}
