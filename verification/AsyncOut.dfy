/**
 Streaming output: buffered and vectored writes to a descriptor that takes as many bytes at a time as it likes.
 */
module AsyncOut {
  import opened ByteBuf
  import opened AsyncIo
  import opened Ret
  import opened Seqs

  // ------------------------------------------------------------------ what a descriptor takes

  /** One answer of the kernel to a write: so many bytes at most, none for now, closed, or an error. */
  datatype Taking = Accept(n: nat) | Full | Closed | Refuse(errno: int)

  ghost predicate Fair(script: seq<Taking>) {
    forall i :: 0 <= i < |script| ==>
      match script[i]
      case Accept(n) => n > 0
      case Refuse(errno) => errno > 0 && -errno != WAIT && -errno != EOF
      case _ => true
  }

  /** What a loop of writes gets rid of, what answers are left, and how it ended. */
  datatype Given = Given(gone: nat, rest: seq<Taking>, end: End)

  /** The bytes of `want` that a loop of writes gets rid of. */
  function Push(script: seq<Taking>, want: nat): (g: Given)
    ensures g.gone <= want && (g.end.Full? <==> g.gone == want)
    decreases |script|
  {
    if want == 0 then Given(0, script, End.Full)
    else if script == [] then Given(0, [], Ended(WAIT))
    else
      match script[0]
      case Accept(n) =>
        if n < want then
          var g := Push(script[1..], want - n);
          Given(n + g.gone, g.rest, g.end)
        else Given(want, script[1..], End.Full)
      case Full => Given(0, script[1..], Ended(WAIT))
      case Closed => Given(0, script[1..], Ended(EOF))
      case Refuse(errno) => Given(0, script[1..], Ended(-errno))
  }

  /** What `_dpaio_buf_post` returns for a loop of writes. */
  function Told(g: Given): int {
    if g.end == Ended(EOF) then EOF else if g.end.Full? || g.gone > 0 then g.gone else g.end.code
  }

  /** The bytes that would be taken before the first answer that takes none. */
  function Welcome(script: seq<Taking>): nat {
    if script == [] || !script[0].Accept? then 0 else script[0].n + Welcome(script[1..])
  }

  function AfterWelcome(script: seq<Taking>): seq<Taking> {
    if script == [] || !script[0].Accept? then script else AfterWelcome(script[1..])
  }

  /** What the answer after those bytes comes to, if it is no bytes: none for now, closed, or an error. */
  function StopCode(script: seq<Taking>): int {
    var after := AfterWelcome(script);
    if after == [] || after[0].Full? then WAIT else if after[0].Refuse? then -after[0].errno else EOF
  }

  function Remaining(script: seq<Taking>): seq<Taking> {
    var after := AfterWelcome(script);
    if after == [] then [] else after[1..]
  }

  /** How many of `want` bytes are taken in one go. */
  function Taken(script: seq<Taking>, want: nat): nat {
    if Welcome(script) < want then Welcome(script) else want
  }

  lemma {:induction false} PushedWelcome(script: seq<Taking>, want: nat)
    requires Fair(script) && want > 0
    ensures
      var g := Push(script, want);
      && g.gone == Taken(script, want) && Fair(g.rest) && Fair(Remaining(script))
      && (Welcome(script) < want ==> g.end == Ended(StopCode(script)) && g.rest == Remaining(script))
      && StopCode(script) < 0
      && (StopCode(script) == EOF <==> AfterWelcome(script) != [] && AfterWelcome(script)[0].Closed?)
    decreases |script|
  {
    if script != [] && script[0].Accept? {
      PushedWelcome(script[1..], if script[0].n < want then want - script[0].n else want);
      assert script[0].n > 0;
    }
  }

  lemma PushNothing(script: seq<Taking>)
    ensures Push(script, 0) == Given(0, script, End.Full)
  {
  }

  /** What a loop of writes reports, by the answers alone. */
  function Report(script: seq<Taking>, want: nat): int {
    if want == 0 || (Welcome(script) < want && StopCode(script) == EOF) then EOF
    else if Taken(script, want) > 0 then Taken(script, want)
    else StopCode(script)
  }

  lemma ToldIsReport(script: seq<Taking>, want: nat)
    requires Fair(script) && want > 0
    ensures Told(Push(script, want)) == Report(script, want)
  {
    PushedWelcome(script, want);
  }

  /** A loop of writes, by the answers alone. */
  lemma PushAll(script: seq<Taking>, want: nat)
    requires Fair(script)
    ensures
      if want == 0 then Taken(script, want) == 0 && Report(script, want) == EOF
      else
        var g := Push(script, want);
        && g.gone == Taken(script, want) && Report(script, want) == Told(g) && (g.end.Ended? ==> g.end.code < 0)
        && (Welcome(script) < want ==> g.rest == Remaining(script))
  {
    if want > 0 {
      PushedWelcome(script, want);
      ToldIsReport(script, want);
    }
  }

  lemma ToldIs(g: Given)
    ensures Told(g) == if g.end == Ended(EOF) then EOF else if g.end.Full? || g.gone > 0 then g.gone else g.end.code
  {
  }

  /** Bytes are taken that are not reported iff the descriptor answers 0 after it took some and before it took all. */
  lemma UntoldIff(script: seq<Taking>, want: nat)
    requires Fair(script) && want > 0
    ensures
      var g, after := Push(script, want), AfterWelcome(script);
      && (Told(g) > 0 ==> Told(g) == g.gone)
      && (Told(g) <= 0 && g.gone > 0 <==> 0 < Welcome(script) < want && after != [] && after[0].Closed?)
  {
    PushedWelcome(script, want);
  }

  lemma ClosedAfterBytesIsUntold(n: nat, want: nat)
    requires 0 < n < want
    ensures Push([Accept(n), Closed], want) == Given(n, [], Ended(EOF)) && Told(Push([Accept(n), Closed], want)) == EOF
  {
    assert [Accept(n), Closed][1..] == [Closed];
  }

  /** A descriptor to write to; `sent` is all that it has taken. */
  class Sink {
    var script: seq<Taking>
    ghost var sent: seq<byte>

    constructor (script: seq<Taking>)
      ensures this.script == script && sent == []
    {
      this.script := script;
      sent := [];
    }

    /** `write`: nothing to write counts as nothing taken. */
    method Write(bytes: seq<byte>) returns (res: int)
      requires Fair(script)
      modifies this
      ensures Fair(script) && res <= |bytes|
      ensures sent == old(sent) + (if res > 0 then bytes[..res] else [])
      ensures bytes == [] ==> res == 0
      ensures res != EOF
      ensures bytes != [] ==>
        res == if old(script) == [] then WAIT
               else match old(script)[0]
                    case Accept(n) => if |bytes| < n then |bytes| else n
                    case Full => WAIT
                    case Closed => 0
                    case Refuse(errno) => -errno
      ensures bytes != [] ==>
        var g := Push(old(script), |bytes|);
        if res > 0 then
          var g' := Push(script, |bytes| - res);
          g == Given(res + g'.gone, g'.rest, g'.end)
        else g == Given(0, script, Ended(if res == 0 then EOF else res))
    {
      if bytes == [] {
        return 0;
      }
      if script == [] {
        return WAIT;
      }
      var next := script[0];
      match next {
        case Accept(n) =>
          res := if |bytes| < n then |bytes| else n;
          sent := sent + bytes[..res];
        case Full =>
          res := WAIT;
        case Closed =>
          res := 0;
        case Refuse(errno) =>
          res := -errno;
      }
      script := script[1..];
    }
  }

  lemma PrefixGrows(bytes: seq<byte>, m: nat, n: nat)
    requires m + n <= |bytes|
    ensures bytes[..m] + bytes[m..][..n] == bytes[..m + n]
  {
  }

  /**
   `_dpaio_buf_post` with `write`: `gone` bytes were taken.  That is what it returns, unless none were or the descriptor
   answered 0.
   */
  method WritePost(sink: Sink, bytes: seq<byte>) returns (ret: int, inva: bool, ghost gone: nat)
    requires Fair(sink.script)
    modifies sink
    ensures Fair(sink.script)
    ensures gone == Taken(old(sink.script), |bytes|) <= |bytes| && sink.sent == old(sink.sent) + bytes[..gone]
    ensures ret == Report(old(sink.script), |bytes|)
    ensures Welcome(old(sink.script)) < |bytes| ==> sink.script == Remaining(old(sink.script))
    ensures ret > 0 ==> ret == gone
    ensures ret <= 0 && ret != EOF ==> gone == 0 && ret < 0
    ensures inva <==> ret == EOF || gone < |bytes|
  {
    hide Push, Fair, Told, Report, Welcome, AfterWelcome, StopCode, Remaining;
    var total := 0;
    gone := 0;
    ghost var before, script := sink.sent, sink.script;
    PushAll(script, |bytes|);
    while true
      invariant gone == total && (total < |bytes| || (bytes == [] && total == 0)) && Fair(sink.script)
      invariant sink.sent == before + bytes[..total]
      invariant bytes != [] ==>
        var g := Push(sink.script, |bytes| - total);
        Push(script, |bytes|) == Given(total + g.gone, g.rest, g.end)
      decreases |bytes| - total
    {
      var res := sink.Write(bytes[total..]);
      if res > 0 {
        PrefixGrows(bytes, total, res);
        assert before + bytes[..total] + bytes[total..][..res] == before + (bytes[..total] + bytes[total..][..res]);
        total := total + res;
        gone := total;
        if total == |bytes| {
          PushNothing(sink.script);
          ToldIs(Push(script, |bytes|));
          return total, false, gone;
        }
      } else {
        ToldIs(Push(script, |bytes|));
        if res == 0 {
          return EOF, true, gone;
        }
        return if total > 0 then total else res, true, gone;
      }
    }
  }

  // ------------------------------------------------------------------ writing from a buffer

  /** What is left of a stretch of memory from a later position on. */
  lemma Later(d: array<byte>, i: nat, j: nat, k: nat, all: seq<byte>, n: nat)
    requires i <= j <= k <= d.Length && n <= |all| && d[i..k] == all[n..]
    ensures n + (j - i) <= |all| && d[j..k] == all[n + (j - i)..]
  {
    assert d[j..k] == d[i..k][j - i..];
  }

  /** How `write_some` ends, and how many bytes are taken until then. */
  datatype Ending = Ending(code: int, gone: nat)

  /**
   The whole operation by the answers alone, burst by burst, for `patience` posts: `total` of `window` bytes are gone, and
   `len` are the fewest that make a success.  A post with nothing left to write ends it like a descriptor that is closed.
   */
  function WriteSome(len: int, window: nat, patience: nat, total: nat, script: seq<Taking>): (e: Ending)
    requires total <= window && total < len
    decreases patience
  {
    var sum := total + Taken(script, window - total);
    if patience == 0 then Ending(WAIT, total)
    else if total == window || (sum < window && StopCode(script) == EOF) then Ending(EOF, sum)
    else if sum >= len then Ending(sum, sum)
    else if sum == total && StopCode(script) != WAIT then Ending(StopCode(script), total)
    else WriteSome(len, window, patience - 1, sum, Remaining(script))
  }

  /** Some burst brings the total to `len` before the descriptor is closed, refuses at once, or takes the whole window. */
  predicate Reaches(len: int, window: nat, patience: nat, total: nat, script: seq<Taking>)
    requires total <= window && total < len
    decreases patience
  {
    var more := Welcome(script);
    && patience > 0 && total < window
    && if total + more >= window then window >= len
       else
         && StopCode(script) != EOF
         && (total + more >= len
             || ((more > 0 || StopCode(script) == WAIT) && Reaches(len, window, patience - 1, total + more, Remaining(script))))
  }

  /** `write_some` succeeds iff some burst brings it to `len`. */
  lemma {:induction false} ReachesIff(len: int, window: nat, patience: nat, total: nat, script: seq<Taking>)
    requires total <= window && total < len && Fair(script)
    ensures
      var e := WriteSome(len, window, patience, total, script);
      && (e.code > 0 <==> Reaches(len, window, patience, total, script))
      && (e.code > 0 ==> e.code == e.gone >= len)
    decreases patience
  {
    hide Welcome, StopCode, Remaining, Fair;
    if patience > 0 && total < window {
      PushedWelcome(script, window - total);
      var sum := total + Taken(script, window - total);
      if sum < len {
        ReachesIff(len, window, patience - 1, sum, Remaining(script));
        if sum == window {
          assert !Reaches(len, window, patience - 1, sum, Remaining(script));
        }
      }
    }
  }

  /** A descriptor that takes all at once, with a window that is large enough: all of it goes out. */
  lemma EnoughAtOnce(len: int, window: nat, patience: nat, script: seq<Taking>)
    requires 0 < len <= window <= Welcome(script) && patience > 0
    ensures WriteSome(len, window, patience, 0, script) == Ending(window, window)
  {
  }

  /** More bytes wanted than there are: with all of them gone the operation ends as if the descriptor were closed. */
  lemma TooLittleToSend(len: int, window: nat, patience: nat, script: seq<Taking>)
    requires 0 < window < len && window <= Welcome(script) && patience > 1
    ensures WriteSome(len, window, patience, 0, script) == Ending(EOF, window)
  {
    assert Taken(script, window) == window;
    assert WriteSome(len, window, patience - 1, window, Remaining(script)) == Ending(EOF, window);
  }

  /** The script does not matter when nothing is left to write. */
  lemma NothingLeft(len: int, window: nat, patience: nat, script: seq<Taking>, script': seq<Taking>)
    requires window < len
    ensures WriteSome(len, window, patience, window, script) == WriteSome(len, window, patience, window, script')
  {
  }

  /** `_dpaio_stm_t` for `dpaio_write_some`. */
  class WriteOp {
    const buf: Buffer
    const sink: Sink
    const len: int      // the fewest bytes to write
    var total: int
    var from: int       // io.buf, as a position in the buffer
    var ioLen: int

    constructor (buf: Buffer, sink: Sink, len: int)
      ensures this.buf == buf && this.sink == sink && this.len == len
    {
      this.buf, this.sink, this.len := buf, sink, len;
      total, from, ioLen := 0, 0, 0;
    }

    /** Between two posts: `all` was the window at the start, and `total` bytes of it are gone. */
    ghost predicate Ready(all: seq<byte>, sent0: seq<byte>)
      reads this, buf, buf.data, sink
    {
      && buf.Valid() && Fair(sink.script) && 0 <= total <= |all| && total < len
      && from == buf.rbeg && ioLen == buf.rend - buf.rbeg
      && buf.data[buf.rbeg..buf.rend] == all[total..] && sink.sent == sent0 + all[..total]
    }

    /** `_dpaio_write_some_prep`. */
    method Prep() returns (ret: int)
      requires buf.Valid() && Fair(sink.script)
      modifies this
      ensures ret == if len <= 0 then INVAL else CONTINUE
      ensures ret == CONTINUE ==> total == 0 && Ready(buf.Window().window, sink.sent)
    {
      hide Buffer.Window, Buffer.Held, Split, Fair;
      buf.WindowBytes();
      if len <= 0 {
        return INVAL;
      }
      total := 0;
      from := buf.rbeg;
      ioLen := buf.rend - buf.rbeg;
      ghost var all := buf.Window().window;
      assert all[0..] == all && sink.sent + all[..0] == sink.sent;
      return CONTINUE;
    }

    /** `_dpaio_write_some_post`. */
    method Post(ghost all: seq<byte>, ghost sent0: seq<byte>) returns (ret: int, ghost gone: nat)
      requires Ready(all, sent0)
      modifies this`total, this`from, this`ioLen, buf`rbeg, sink
      ensures buf.Valid() && Fair(sink.script) && old(total) <= total <= |all|
      ensures buf.data[buf.rbeg..buf.rend] == all[total..]
      ensures total <= gone <= |all| && sink.sent == sent0 + all[..gone]
      ensures
        var script, sum := old(sink.script), old(total) + Taken(old(sink.script), |all| - old(total));
        && gone == sum && total == (if ret == EOF then old(total) else sum)
        && ret == (if old(total) == |all| || (sum < |all| && StopCode(script) == EOF) then EOF
                   else if sum >= len then sum
                   else if sum == old(total) then StopCode(script)
                   else WAIT)
        && (sum < |all| ==> sink.script == Remaining(script))
      ensures ret != EOF ==> gone == total
      ensures ret > 0 ==> ret == total >= len
      ensures ret <= 0 ==> total < len
      ensures ret == WAIT ==> Ready(all, sent0)
    {
      hide Welcome, StopCode, Remaining, Fair, Push;
      var r, inva, n := WritePost(sink, buf.data[from..from + ioLen]);
      gone := total + n;
      Regroup(sent0, all[..total], all[total..][..n]);
      PrefixGrows(all, total, n);
      if r <= 0 {
        return if total >= len then total else r, gone;
      }
      total := total + r;
      var _ := buf.RSeek(r, Seek.Cur);
      Later(buf.data, from, buf.rbeg, buf.rend, all, old(total));
      if total >= len {
        return total, gone;
      }
      from := from + r;
      ioLen := ioLen - r;
      return WAIT, gone;
    }

    /**
     The operation from start to end, however little is taken at a time: what was taken is a prefix of the window, the
     window has lost just that, and a success means at least `len` bytes.  Only where the descriptor answers 0 may more be
     gone than is accounted for.
     */
    method Run(patience: nat) returns (ret: int, ghost gone: nat)
      requires buf.Valid() && Fair(sink.script)
      modifies this, buf`rbeg, sink
      ensures
        var all := old(buf.Window().window);
        && buf.Valid() && gone <= |all| && sink.sent == old(sink.sent) + all[..gone]
        && 0 <= |all| - (buf.rend - buf.rbeg) <= gone
        && buf.data[buf.rbeg..buf.rend] == all[|all| - (buf.rend - buf.rbeg)..]
        && (ret != EOF ==> buf.rend - buf.rbeg == |all| - gone)
        && (ret > 0 ==> ret == gone >= len)
        && (if len <= 0 then ret == INVAL && gone == 0
            else Ending(ret, gone) == WriteSome(len, |all|, patience, 0, old(sink.script)))
    {
      hide Buffer.Window, Buffer.Held, Split, Fair, Push, Ready, Told, WriteSome;
      ghost var all, sent0 := buf.Window().window, sink.sent;
      gone := 0;
      AtStart(all);
      ret := Prep();
      if ret != CONTINUE {
        return;
      }
      ret, gone := Posts(all, sent0, patience);
      WhatIsLeft(all);
    }

    /** The posts of a run. */
    method Posts(ghost all: seq<byte>, ghost sent0: seq<byte>, patience: nat) returns (ret: int, ghost gone: nat)
      requires Ready(all, sent0) && total == 0 && len > 0
      modifies this`total, this`from, this`ioLen, buf`rbeg, sink
      ensures buf.Valid() && 0 <= total <= gone <= |all| && sink.sent == sent0 + all[..gone]
      ensures buf.data[buf.rbeg..buf.rend] == all[total..]
      ensures ret != EOF ==> gone == total
      ensures ret > 0 ==> ret == total >= len
      ensures Ending(ret, gone) == WriteSome(len, |all|, patience, 0, old(sink.script))
    {
      hide Welcome, StopCode, Remaining, Fair, Taken;
      ret, gone := WAIT, 0;
      var posts := 0;
      ghost var script := sink.script;
      while ret == WAIT && posts < patience
        invariant buf.Valid() && 0 <= total <= gone <= |all| && sink.sent == sent0 + all[..gone]
        invariant buf.data[buf.rbeg..buf.rend] == all[total..]
        invariant ret == WAIT ==> Ready(all, sent0)
        invariant ret != EOF ==> gone == total
        invariant ret > 0 ==> ret == total >= len
        invariant posts <= patience
        invariant
          WriteSome(len, |all|, patience, 0, script) ==
            if ret == WAIT then WriteSome(len, |all|, patience - posts, total, sink.script) else Ending(ret, gone)
      {
        ghost var rest := Remaining(sink.script);
        ret, gone := Post(all, sent0);
        posts := posts + 1;
        if total == |all| < len {
          NothingLeft(len, |all|, patience - posts, sink.script, rest);
        }
      }
    }

    lemma AtStart(all: seq<byte>)
      requires buf.Valid() && all == buf.Window().window
      ensures |all| == buf.rend - buf.rbeg && buf.data[buf.rbeg..buf.rend] == all == all[0..]
      ensures sink.sent == sink.sent + all[..0]
    {
      buf.WindowBytes();
    }

    lemma WhatIsLeft(all: seq<byte>)
      requires buf.Valid() && 0 <= total <= |all| && buf.data[buf.rbeg..buf.rend] == all[total..]
      ensures buf.rend - buf.rbeg == |all| - total
    {
      assert |buf.data[buf.rbeg..buf.rend]| == |all[total..]|;
    }
  }

  // ------------------------------------------------------------------ vectored writing

  /** What the segments of an `iovec` hold, one after the other. */
  function Flat(iov: seq<seq<byte>>): seq<byte> {
    if iov == [] then [] else iov[0] + Flat(iov[1..])
  }

  lemma FlatHead(iov: seq<seq<byte>>)
    requires iov != []
    ensures Flat(iov) == iov[0] + Flat(iov[1..])
  {
  }

  function Drop(s: seq<byte>, n: nat): seq<byte> {
    if n <= |s| then s[n..] else []
  }

  lemma DropWithin(a: seq<byte>, b: seq<byte>, n: nat)
    ensures n < |a| ==> Drop(a + b, n) == a[n..] + b
    ensures n >= |a| ==> Drop(a + b, n) == Drop(b, n - |a|)
  {
  }

  /** `_dpioc_iov_total`. */
  method IovTotal(iov: array<seq<byte>>) returns (total: nat)
    ensures total == |Flat(iov[..])|
  {
    total := 0;
    var i := 0;
    assert iov[..] == iov[0..];
    while i < iov.Length
      invariant 0 <= i <= iov.Length
      invariant total + |Flat(iov[i..])| == |Flat(iov[..])|
    {
      FlatHead(iov[i..]);
      assert iov[i..][1..] == iov[i + 1..];
      total := total + |iov[i]|;
      i := i + 1;
    }
  }

  /**
   `_dpioc_iov_advance`: drops exactly `n` bytes from the front, whole segments by moving on, a part of one in place.
   Segments may be empty.
   */
  method IovAdvance(iov: array<seq<byte>>, from: nat, n: nat) returns (to: nat)
    requires from <= iov.Length
    modifies iov
    ensures from <= to <= iov.Length
    ensures Flat(iov[to..]) == Drop(old(Flat(iov[from..])), n)
    ensures to == iov.Length ==> n >= |old(Flat(iov[from..]))|
  {
    to := from;
    var left := n;
    ghost var all := Flat(iov[from..]);
    while to < iov.Length && left > 0
      invariant from <= to <= iov.Length && 0 <= left && iov[..] == old(iov[..])
      invariant Drop(all, n) == Drop(Flat(iov[to..]), left)
      invariant n - left == |all| - |Flat(iov[to..])| >= 0
    {
      FlatHead(iov[to..]);
      assert iov[to..][1..] == iov[to + 1..];
      DropWithin(iov[to], Flat(iov[to + 1..]), left);
      var seg := |iov[to]|;
      if left < seg {
        ghost var tail := iov[to + 1..];
        iov[to] := iov[to][left..];
        assert iov[to..][1..] == iov[to + 1..] == tail;
        FlatHead(iov[to..]);
        return;
      }
      left := left - seg;
      to := to + 1;
    }
    assert Drop(Flat(iov[to..]), left) == Flat(iov[to..]);
  }

  lemma PortionGoes(before: seq<byte>, all: seq<byte>, m: nat, n: nat)
    requires m + n <= |all|
    ensures before + all[..m] + all[m..][..n] == before + all[..m + n] && Drop(all[m..], n) == all[m + n..]
    ensures m + n == |all| ==> all[..m + n] == all
  {
    PrefixGrows(all, m, n);
    Regroup(before, all[..m], all[m..][..n]);
  }

  /**
   `_dpaio_iov_post` with `writev`: works on a copy of the vector.  A full return has moved the whole of it, in order.
   */
  method IovPost(sink: Sink, iov: array<seq<byte>>, totalLen: nat) returns (ret: int, inva: bool, ghost gone: nat)
    requires Fair(sink.script) && totalLen == |Flat(iov[..])| > 0
    modifies sink
    ensures Fair(sink.script)
    ensures gone == Taken(old(sink.script), totalLen) <= totalLen && sink.sent == old(sink.sent) + Flat(iov[..])[..gone]
    ensures ret == Report(old(sink.script), totalLen)
    ensures ret > 0 ==> ret == gone
    ensures ret == totalLen ==> sink.sent == old(sink.sent) + Flat(iov[..])
    ensures ret <= 0 && ret != EOF ==> gone == 0 && ret < 0
    ensures inva <==> ret == EOF || gone < totalLen
  {
    hide Push, Fair, Flat, Drop, Told, Report, Welcome, AfterWelcome, StopCode, Remaining, Taken;
    PushAll(sink.script, totalLen);
    var work := new seq<byte>[iov.Length](i requires 0 <= i < iov.Length reads iov => iov[i]);
    ghost var all, before, script := Flat(iov[..]), sink.sent, sink.script;
    assert work[0..] == iov[..];
    var p, total := 0, 0;
    gone := 0;
    while true
      invariant fresh(work) && 0 <= p <= work.Length && gone == total < totalLen && Fair(sink.script)
      invariant sink.sent == before + all[..total] && Flat(work[p..]) == all[total..]
      invariant
        var g := Push(sink.script, totalLen - total);
        Push(script, totalLen) == Given(total + g.gone, g.rest, g.end)
      decreases totalLen - total
    {
      var res := sink.Write(Flat(work[p..]));
      if res > 0 {
        PortionGoes(before, all, total, res);
        total := total + res;
        gone := total;
        p := IovAdvance(work, p, res);
        if total == totalLen {
          PushNothing(sink.script);
          ToldIs(Push(script, totalLen));
          return total, false, gone;
        }
      } else {
        ToldIs(Push(script, totalLen));
        if res == 0 {
          return EOF, true, gone;
        }
        return if total > 0 then total else res, true, gone;
      }
    }
  }
}
