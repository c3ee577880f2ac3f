/**
 Reads of a number of bytes that is to be reached: `read_data` into memory, and `read_must` into a buffer, which compares
 what it has read with what was left before the last batch.
 */
module AsyncMust {
  import opened AsyncIo
  import opened ByteBuf
  import opened Ret
  import opened Seqs

  /** How such a read ends: the return value, the bytes read, and what is left in the descriptor. */
  datatype Filled = Filled(code: int, got: seq<byte>, rest: seq<Chunk>)

  /** The whole operation, `got` being read already; `hasty` is `read_must`. */
  ghost function Fill(hasty: bool, want: int, got: seq<byte>, script: seq<Chunk>): (f: Filled)
    requires |got| < want && Proper(script)
    ensures f.code > 0 ==> f.code == |f.got| <= want
    decreases want - |got|, |script|
  {
    PullKeepsStream(script, want - |got|);
    var b := Pull(script, want - |got|);
    if Reported(b) <= 0 then
      if got != [] then Filled(|got|, got, b.rest)
      else if Reported(b) != WAIT || b.rest == [] then Filled(Reported(b), got, b.rest)
      else Fill(hasty, want, got, b.rest)
    else
      BatchMoves(got, script, want - |got|);
      var all := got + b.got;
      if |all| >= (if hasty then want - |got| else want) then Filled(|all|, all, b.rest)
      else if b.end.Ended? && b.rest == [] then Filled(WAIT, all, b.rest)
      else Fill(hasty, want, all, b.rest)
  }

  /** `Fill`, one batch at a time. */
  lemma FillStep(hasty: bool, want: int, got: seq<byte>, script: seq<Chunk>)
    requires |got| < want && Proper(script)
    ensures
      var b := Pull(script, want - |got|);
      var all := got + b.got;
      && Proper(b.rest) && |b.rest| <= |script| && (Reported(b) <= 0 ==> b.end.Ended?)
      && (Reported(b) <= 0 && Reported(b) != EOF && b.rest != [] ==> |b.rest| < |script|)
      && (Reported(b) > 0 ==> Reported(b) == |b.got|)
      && Fill(hasty, want, got, script) ==
         if Reported(b) <= 0 then
           if got != [] then Filled(|got|, got, b.rest)
           else if Reported(b) != WAIT || b.rest == [] then Filled(Reported(b), got, b.rest)
           else Fill(hasty, want, got, b.rest)
         else if |all| >= (if hasty then want - |got| else want) then Filled(|all|, all, b.rest)
         else if b.end.Ended? && b.rest == [] then Filled(WAIT, all, b.rest)
         else Fill(hasty, want, all, b.rest)
  {
    PullKeepsStream(script, want - |got|);
    if Reported(Pull(script, want - |got|)) > 0 {
      BatchMoves(got, script, want - |got|);
    }
  }

  /** The bytes read are those that come first, and unless the source ended nothing is lost. */
  lemma {:induction false} FilledInOrder(hasty: bool, want: int, got: seq<byte>, script: seq<Chunk>)
    requires |got| < want && Proper(script)
    ensures
      var f := Fill(hasty, want, got, script);
      && f.got <= got + Stream(script) && got <= f.got
      && (f.got + Stream(f.rest) == got + Stream(script) || (f.rest != [] && f.rest[0].Eof?))
    decreases want - |got|, |script|
  {
    hide Pull, Proper, Fill, Stream;
    var b := Pull(script, want - |got|);
    FillStep(hasty, want, got, script);
    PullKeepsStream(script, want - |got|);
    Regroup(got, b.got, Stream(b.rest));
    if Reported(b) <= 0 {
      if b.end == Ended(EOF) {
        EndStays(script, want - |got|);
      } else {
        DryBatch(script, want - |got|);
        if got == [] && Reported(b) == WAIT && b.rest != [] {
          FilledInOrder(hasty, want, got, b.rest);
        }
      }
    } else {
      var all := got + b.got;
      if |all| < (if hasty then want - |got| else want) && !(b.end.Ended? && b.rest == []) {
        FilledInOrder(hasty, want, all, b.rest);
      }
    }
  }

  lemma {:induction false} EndStays(script: seq<Chunk>, room: nat)
    requires Proper(script) && Pull(script, room).end == Ended(EOF)
    ensures Pull(script, room).rest != [] && Pull(script, room).rest[0].Eof?
    decreases |script|
  {
    if script[0].Data? {
      EndStays(script[1..], room - |script[0].bytes|);
    }
  }

  // ------------------------------------------------------------------ falling short

  /**
   Some burst ends with fewer bytes read than wanted, and the read is over: by the end of the source after something was
   read, by a look that finds nothing more, or, with `read_must`, by having read no less than was left before the burst.
   */
  ghost predicate FallsShort(hasty: bool, want: int, total: nat, script: seq<Chunk>)
    requires total < want
    decreases |script|
  {
    var more, rest := |BurstBytes(script)|, AfterBurst(script);
    && total + more < want
    && if rest != [] && rest[0].Eof? then total > 0
       else if more == 0 && total > 0 then true
       else if hasty && more > 0 && total + more >= want - total then true
       else
         && rest != [] && rest[1..] != [] && !(rest[0].Fail? && total + more == 0)
         && FallsShort(hasty, want, total + more, rest[1..])
  }

  /** A read succeeds with fewer bytes than wanted iff it falls short at the end of a burst. */
  lemma {:induction false} ShortIff(hasty: bool, want: int, got: seq<byte>, script: seq<Chunk>)
    requires |got| < want && Proper(script)
    ensures 0 < Fill(hasty, want, got, script).code < want <==> FallsShort(hasty, want, |got|, script)
    decreases want - |got|, |script|
  {
    hide Pull, Proper, Fill, BurstBytes, AfterBurst;
    var room := want - |got|;
    var b := Pull(script, room);
    var more, rest := |BurstBytes(script)|, AfterBurst(script);
    FillStep(hasty, want, got, script);
    PullKeepsStream(script, room);
    if room <= more {
      FullFromBurst(script, room);
    } else {
      ShortFromBurst(script, room);
      assert |got + b.got| == |got| + more;
      if rest != [] && !rest[0].Eof? && rest[1..] != [] {
        if more > 0 && !(hasty && |got| + more >= want - |got|) {
          ShortIff(hasty, want, got + b.got, rest[1..]);
        } else if more == 0 && got == [] && rest[0].Dry? {
          ShortIff(hasty, want, got, rest[1..]);
        }
      }
    }
  }

  /** Three bytes wanted that come one at a time: `read_must` succeeds with two of them, and `read_data` with all three. */
  lemma TwoOfThree(x: byte, y: byte, z: byte)
    ensures
      var script := [Data([x]), Dry, Data([y]), Dry, Data([z])];
      && Proper(script)
      && Fill(true, 3, [], script) == Filled(2, [x, y], script[4..])
      && Fill(false, 3, [], script) == Filled(3, [x, y, z], [])
  {
    hide Fill, Pull;
    var script := [Data([x]), Dry, Data([y]), Dry, Data([z])];
    assert script[1..][1..] == script[2..] && script[2..][1..][1..] == script[4..];
    ByteAndPause(script, x, 3);
    ByteAndPause(script[2..], y, 2);
    LastByte(script[4..], z);
    FillStep(true, 3, [], script);
    FillStep(false, 3, [], script);
    assert [] + [x] == [x] && [x] + [y] == [x, y] && [x, y] + [z] == [x, y, z];
    FillStep(true, 3, [x], script[2..]);
    FillStep(false, 3, [x], script[2..]);
    FillStep(false, 3, [x, y], script[4..]);
  }

  /** Some burst brings the total to what is wanted, with no burst before it that ends the read. */
  ghost predicate Fulfils(hasty: bool, want: int, total: nat, script: seq<Chunk>)
    requires total < want
    decreases |script|
  {
    var more, rest := |BurstBytes(script)|, AfterBurst(script);
    total + more >= want
    || (!(rest != [] && rest[0].Eof?) && (more > 0 || (total == 0 && rest != [] && rest[0].Dry?))
        && !(hasty && total + more >= want - total)
        && rest != [] && rest[1..] != [] && Fulfils(hasty, want, total + more, rest[1..]))
  }

  /** A read succeeds with all that is wanted iff some burst brings it there. */
  lemma {:induction false} FullIff(hasty: bool, want: int, got: seq<byte>, script: seq<Chunk>)
    requires |got| < want && Proper(script)
    ensures Fill(hasty, want, got, script).code == want <==> Fulfils(hasty, want, |got|, script)
    decreases want - |got|, |script|
  {
    hide Pull, Proper, Fill, BurstBytes, AfterBurst;
    var room := want - |got|;
    var b := Pull(script, room);
    var more, rest := |BurstBytes(script)|, AfterBurst(script);
    FillStep(hasty, want, got, script);
    PullKeepsStream(script, room);
    if room <= more {
      FullFromBurst(script, room);
    } else {
      ShortFromBurst(script, room);
      assert |got + b.got| == |got| + more;
      if rest != [] && !rest[0].Eof? && rest[1..] != [] {
        if more > 0 && !(hasty && |got| + more >= want - |got|) {
          FullIff(hasty, want, got + b.got, rest[1..]);
        } else if more == 0 && got == [] && rest[0].Dry? {
          FullIff(hasty, want, got, rest[1..]);
        }
      }
    }
  }

  /** A read fails iff it meets an end or an error before it has read anything, and with that code. */
  lemma {:induction false} RefusedIff(hasty: bool, want: int, got: seq<byte>, script: seq<Chunk>)
    requires |got| < want && Proper(script)
    ensures
      var f := Fill(hasty, want, got, script);
      if got != [] then f.code > 0 || f.code == WAIT
      else
        && (f.code <= 0 && f.code != WAIT <==> Refusal(want, script) < 0)
        && (f.code <= 0 && f.code != WAIT ==> f.code == Refusal(want, script) && f.got == [])
    decreases want - |got|, |script|
  {
    hide Pull, Proper, Fill, BurstBytes, AfterBurst;
    var room := want - |got|;
    var b := Pull(script, room);
    FillStep(hasty, want, got, script);
    PullKeepsStream(script, room);
    ReportByBurst(script, room);
    if |BurstBytes(script)| < room {
      ShortFromBurst(script, room);
    }
    if Reported(b) > 0 {
      if |got + b.got| < want {
        RefusedIff(hasty, want, got + b.got, b.rest);
      }
    } else if got == [] && Reported(b) == WAIT && b.rest != [] {
      RefusedIff(hasty, want, got, b.rest);
    }
  }

  lemma ByteAndPause(script: seq<Chunk>, x: byte, room: nat)
    requires |script| > 2 && script[0] == Data([x]) && script[1] == Dry && room > 1
    ensures Pull(script, room) == Batch([x], script[2..], Ended(WAIT))
  {
    assert script[1..][0] == Dry && script[1..][1..] == script[2..] && [x] + [] == [x];
  }

  lemma LastByte(script: seq<Chunk>, x: byte)
    requires script == [Data([x])]
    ensures Pull(script, 1) == Batch([x], [], Full)
  {
    assert script[1..] == [] && [x] + [] == [x];
  }

  // ------------------------------------------------------------------ into memory

  /** `_dpaio_stm_t` for `dpaio_read_data`. */
  class DataOp {
    const data: array<byte>
    const src: Source
    const len: int
    var total: int      // io.total
    var from: int       // io.buf, as a position in `data`
    var ioLen: int      // io.len

    constructor (data: array<byte>, src: Source, len: int)
      ensures this.data == data && this.src == src && this.len == len
    {
      this.data, this.src, this.len := data, src, len;
      total, from, ioLen := 0, 0, 0;
    }

    /** Between two posts: `got` has been read. */
    ghost predicate Ready(got: seq<byte>)
      reads this, data, src
    {
      && Proper(src.script) && 0 <= total < len <= data.Length && from == total && ioLen == len - total
      && data[..total] == got
    }

    /** `_dpaio_read_data_prep`. */
    method Prep() returns (ret: int)
      requires Proper(src.script) && len <= data.Length
      modifies this
      ensures ret == if len <= 0 then INVAL else CONTINUE
      ensures ret == CONTINUE ==> Ready([])
    {
      if len <= 0 {
        return INVAL;
      }
      total, from, ioLen := 0, 0, len;
      return CONTINUE;
    }

    /** `_dpaio_read_data_post`. */
    method Post(ghost got: seq<byte>) returns (ret: int, inva: bool)
      requires Ready(got)
      modifies this, src, data
      ensures Proper(src.script) && 0 <= total <= len
      ensures
        var b := Pull(old(src.script), len - old(total));
        && src.script == b.rest && inva == b.end.Ended?
        && if Reported(b) <= 0 then
             ret == (if got != [] then |got| else Reported(b)) && data[..total] == got && Ready(got)
           else
             && |b.got| == Reported(b) && total == |got + b.got| && data[..total] == got + b.got
             && if total >= len then ret == total else ret == WAIT && Ready(got + b.got)
    {
      hide Pull, Proper, Reported;
      FillStep(false, len, got, src.script);
      ghost var b := Pull(src.script, len - total);
      ret, inva := ReadPost(src, data, from, ioLen);
      if ret <= 0 {
        return if total > 0 then total else ret, inva;
      }
      HeldGrows(data, 0, total, ret, got, b.got);
      total := total + ret;
      if total >= len {
        return total, inva;
      }
      from := from + ret;
      ioLen := ioLen - ret;
      return WAIT, inva;
    }

    /** The operation from start to end: `Fill`, that goes on until all is read. */
    method Run() returns (ret: int, ghost f: Filled)
      requires Proper(src.script) && len <= data.Length
      modifies this, src, data
      ensures len <= 0 ==> ret == INVAL
      ensures len > 0 ==>
        && f == Fill(false, len, [], old(src.script)) && ret == f.code && src.script == f.rest
        && |f.got| <= len && data[..|f.got|] == f.got
    {
      hide Pull, Proper, Reported, Fill;
      f := Filled(INVAL, [], src.script);
      ret := Prep();
      if ret != CONTINUE {
        return;
      }
      f := Fill(false, len, [], src.script);
      ghost var got: seq<byte> := [];
      ret := WAIT;
      var more := true;
      while ret == WAIT && more
        invariant Proper(src.script) && |got| <= len && data[..|got|] == got
        invariant ret == WAIT && more ==> Ready(got) && f == Fill(false, len, got, src.script)
        invariant !(ret == WAIT && more) ==> ret == f.code && src.script == f.rest && got == f.got
        decreases ret == WAIT && more, len - total, |src.script|
      {
        FillStep(false, len, got, src.script);
        ghost var b := Pull(src.script, len - total);
        var inva;
        ret, inva := Post(got);
        if Reported(b) > 0 {
          got := got + b.got;
        }
        more := ret != WAIT || !inva || |src.script| > 0;
      }
    }
  }

  // ------------------------------------------------------------------ into a buffer

  lemma SplitFurther(held: seq<byte>, n: nat, m: nat)
    requires n + m <= |held|
    ensures var v := Split(held, n); Split(held, n + m) == View(v.window + v.slack[..m], v.slack[m..])
  {
    assert held[..n] + held[n..][..m] == held[..n + m];
  }

  /** `_dpaio_stm_t` for `dpaio_read_must`. */
  class MustOp {
    const buf: Buffer
    const src: Source
    const len: int      // how much is to be in the slack
    var total: int      // io.total
    var ioLen: int      // io.len; io.buf is the write position of the buffer
    ghost var want: int // the bytes to read

    constructor (buf: Buffer, src: Source, len: int)
      ensures this.buf == buf && this.src == src && this.len == len
    {
      this.buf, this.src, this.len := buf, src, len;
      total, ioLen, want := 0, 0, 0;
    }

    /** Between two posts: the buffer holds `held` and behind it `got`, which has been read. */
    ghost predicate Ready(held: seq<byte>, got: seq<byte>)
      reads this, buf, buf.data, src
    {
      && buf.Valid() && Proper(src.script) && total == |got| < want && ioLen == want - total == buf.size - buf.wbeg
      && buf.Held() == held + got
    }

    /** The slack holds enough. */
    method Grant() returns (ret: int)
      requires buf.Valid() && 0 < len <= |buf.Window().slack|
      modifies buf`rend
      ensures buf.Valid() && buf.Held() == old(buf.Held()) && ret == len
      ensures
        var v := old(buf.Window());
        buf.Window() == View(v.window + v.slack[..len], v.slack[len..])
    {
      hide Split, Buffer.Window, Buffer.Held;
      buf.WindowIs();
      buf.HeldLength();
      SplitFurther(buf.Held(), buf.rend - buf.rbeg, len);
      ret := buf.ESeek(len, Seek.Cur);
    }

    /** `_dpaio_read_must_prep`. */
    method Prep(memory: bool) returns (ret: int)
      requires buf.Valid() && Proper(src.script)
      modifies this, buf, buf.data
      ensures buf.Valid() && (buf.data == old(buf.data) || fresh(buf.data))
      ensures buf.Held() == old(buf.Held())
      ensures
        var v := old(buf.Window());
        if len <= 0 then ret == INVAL && buf.Window() == v
        else if |v.slack| >= len then ret == len && buf.Window() == View(v.window + v.slack[..len], v.slack[len..])
        else
          && buf.Window() == v && want == len - |v.slack|
          && ret == (if old(buf.CanWiden(len - (buf.wbeg - buf.rend), memory)) then CONTINUE else NOMEM)
          && (ret == CONTINUE ==> Ready(old(buf.Held()), []) && buf.rend - buf.rbeg == old(buf.rend - buf.rbeg))
    {
      hide Split, Buffer.Window, Buffer.Held, Proper;
      if len <= 0 {
        return INVAL;
      }
      buf.WindowIs();
      total := 0;
      var esz := buf.wbeg - buf.rend;
      if esz >= len {
        ret := Grant();
        return;
      }
      want := len - esz;
      var ok := buf.ResizeW(len - esz, memory);
      if !ok {
        return NOMEM;
      }
      ioLen := len - esz;
      assert buf.Held() + [] == buf.Held();
      return CONTINUE;
    }

    /** `_dpaio_read_must_post`. */
    method Post(ghost held: seq<byte>, ghost got: seq<byte>) returns (ret: int, inva: bool)
      requires Ready(held, got)
      modifies this`total, this`ioLen, src, buf`wbeg, buf.data
      ensures buf.Valid() && Proper(src.script)
      ensures
        var b := Pull(old(src.script), want - old(total));
        && src.script == b.rest && inva == b.end.Ended?
        && if Reported(b) <= 0 then
             ret == (if got != [] then |got| else Reported(b)) && Ready(held, got)
           else
             && |b.got| == Reported(b) && total == |got + b.got| && buf.Held() == held + (got + b.got)
             && if total >= want - |got| then ret == total else ret == WAIT && Ready(held, got + b.got)
    {
      hide Pull, Proper, Reported, Split, Buffer.Window;
      FillStep(true, want, got, src.script);
      ghost var b := Pull(src.script, want - total);
      ret, inva := ReadBehind(src, buf, ioLen);
      if ret <= 0 {
        return if total > 0 then total else ret, inva;
      }
      Regroup(held, got, b.got);
      total := total + ret;
      var _ := buf.WSeek(ret, Seek.Cur);
      if total >= ioLen {
        return total, inva;
      }
      ioLen := ioLen - ret;
      return WAIT, inva;
    }

    /** The operation from start to end: `Fill`, that is content with what was left before the last batch. */
    method Run(memory: bool) returns (ret: int, ghost f: Filled)
      requires buf.Valid() && Proper(src.script)
      modifies this, src, buf, buf.data
      ensures buf.Valid() && Proper(src.script)
      ensures
        var v := old(buf.Window());
        if len <= 0 then ret == INVAL && buf.Window() == v
        else if |v.slack| >= len then ret == len && buf.Window() == View(v.window + v.slack[..len], v.slack[len..])
        else if !old(buf.CanWiden(len - (buf.wbeg - buf.rend), memory)) then ret == NOMEM && buf.Window() == v
        else
          && f == Fill(true, len - |v.slack|, [], old(src.script)) && ret == f.code && src.script == f.rest
          && buf.Window() == View(v.window, v.slack + f.got)
    {
      hide Pull, Proper, Reported, Fill, Split, Buffer.Window, Buffer.Held;
      ghost var held, n, v := buf.Held(), buf.rend - buf.rbeg, buf.Window();
      buf.WindowIs();
      f := Filled(INVAL, [], src.script);
      ret := Prep(memory);
      if ret != CONTINUE {
        return;
      }
      f := Fill(true, want, [], src.script);
      ghost var got: seq<byte> := [];
      assert held + [] == held;
      ret := WAIT;
      var more := true;
      while ret == WAIT && more
        invariant buf.Valid() && Proper(src.script) && (buf.data == old(buf.data) || fresh(buf.data))
        invariant buf.rend - buf.rbeg == n && buf.Held() == held + got && want == len - |v.slack|
        invariant ret == WAIT && more ==> Ready(held, got) && f == Fill(true, want, got, src.script)
        invariant !(ret == WAIT && more) ==> ret == f.code && src.script == f.rest && got == f.got
        decreases ret == WAIT && more, want - total, |src.script|
      {
        FillStep(true, want, got, src.script);
        ghost var b := Pull(src.script, want - total);
        var inva;
        ret, inva := Post(held, got);
        if Reported(b) > 0 {
          got := got + b.got;
        }
        more := ret != WAIT || !inva || |src.script| > 0;
      }
      buf.WindowIs();
      buf.HeldLength();
      SlackGrows(held, n, got);
    }
  }

  lemma SlackGrows(held: seq<byte>, n: nat, got: seq<byte>)
    requires n <= |held|
    ensures var v := Split(held, n); Split(held + got, n) == View(v.window, v.slack + got)
  {
    SplitAppend(held, n, got);
  }
}
