/**
 Streaming input and output over a descriptor that gives and takes bytes in portions of its own choice: the batch
 loops of `dpasc_epoll.c` and the resumable operations of `dpasc.c` on top of them.
 */
module AsyncIo {
  import opened ByteBuf
  import opened Ret
  import opened Seqs

  const BATCH_SIZE := 8192

  // ------------------------------------------------------------------ what a descriptor gives

  /** One answer of the kernel: some bytes, nothing for now, the end, or an error. */
  datatype Chunk = Data(bytes: seq<byte>) | Dry | Eof | Fail(errno: int)

  ghost predicate Proper(script: seq<Chunk>) {
    forall i :: 0 <= i < |script| ==>
      match script[i]
      case Data(bytes) => bytes != []
      case Fail(errno) => errno > 0 && -errno != WAIT && -errno != EOF
      case _ => true
  }

  /** All the bytes that are still to come. */
  function Stream(script: seq<Chunk>): seq<byte> {
    if script == [] || script[0].Eof? then []
    else (if script[0].Data? then script[0].bytes else []) + Stream(script[1..])
  }

  /** How a batch ended: all that was asked for has come, or a call brought nothing. */
  datatype End = Full | Ended(code: int)

  datatype Batch = Batch(got: seq<byte>, rest: seq<Chunk>, end: End)

  /** The bytes that a loop of reads takes from `script`, up to `room`. */
  function Pull(script: seq<Chunk>, room: nat): (b: Batch)
    ensures |b.got| <= room && (b.end.Full? <==> |b.got| == room)
    decreases |script|
  {
    if room == 0 then Batch([], script, Full)
    else if script == [] then Batch([], [], Ended(WAIT))
    else
      match script[0]
      case Data(bytes) =>
        if |bytes| <= room then
          var b := Pull(script[1..], room - |bytes|);
          Batch(bytes + b.got, b.rest, b.end)
        else Batch(bytes[..room], [Data(bytes[room..])] + script[1..], Full)
      case Dry => Batch([], script[1..], Ended(WAIT))
      case Eof => Batch([], script, Ended(EOF))
      case Fail(errno) => Batch([], script[1..], Ended(-errno))
  }

  function Rest(script: seq<Chunk>, n: nat): seq<Chunk>
    requires script != [] && script[0].Data? && n <= |script[0].bytes|
  {
    if n == |script[0].bytes| then script[1..] else [Data(script[0].bytes[n..])] + script[1..]
  }

  lemma RestStream(script: seq<Chunk>, n: nat)
    requires script != [] && script[0].Data? && n <= |script[0].bytes|
    ensures script[0].bytes[..n] + Stream(Rest(script, n)) == Stream(script)
    ensures Proper(script) ==> Proper(Rest(script, n))
  {
    var all := script[0].bytes;
    StreamData(script);
    if n < |all| {
      hide Stream;
      StreamData(Rest(script, n));
      assert Rest(script, n)[1..] == script[1..];
      Regroup(all[..n], all[n..], Stream(script[1..]));
      assert all[..n] + all[n..] == all;
    } else {
      assert all[..n] == all;
    }
  }

  lemma StreamData(script: seq<Chunk>)
    requires script != [] && script[0].Data?
    ensures Stream(script) == script[0].bytes + Stream(script[1..])
  {
  }

  /** Taking a portion first changes nothing. */
  lemma PullPortion(script: seq<Chunk>, room: nat, n: nat)
    requires script != [] && script[0].Data? && room > 0
    requires n == if |script[0].bytes| <= room then |script[0].bytes| else room
    ensures
      var b := Pull(Rest(script, n), room - n);
      Pull(script, room) == Batch(script[0].bytes[..n] + b.got, b.rest, b.end)
  {
    var all := script[0].bytes;
    assert all[..|all|] == all;
    if n == room {
      assert Pull(Rest(script, n), 0) == Batch([], Rest(script, n), Full);
      assert all[..n] + [] == all[..n];
      if n == |all| {
        assert Pull(script[1..], 0) == Batch([], script[1..], Full);
      }
    }
  }

  /** A batch takes the bytes in order and leaves the others. */
  lemma {:induction false} PullKeepsStream(script: seq<Chunk>, room: nat)
    ensures Pull(script, room).got + Stream(Pull(script, room).rest) == Stream(script)
    ensures Proper(script) ==> Proper(Pull(script, room).rest)
    ensures |Pull(script, room).rest| <= |script|
    ensures Pull(script, room).end.Ended? && Pull(script, room).end != Ended(EOF) && script != [] ==> |Pull(script, room).rest| < |script|
    decreases |script|
  {
    if room != 0 && script != [] && script[0].Data? {
      var bytes := script[0].bytes;
      if |bytes| <= room {
        PullKeepsStream(script[1..], room - |bytes|);
        var b := Pull(script[1..], room - |bytes|);
        Regroup(bytes, b.got, Stream(b.rest));
      } else {
        RestStream(script, room);
      }
    }
  }

  /** A descriptor to read from. */
  class Source {
    var script: seq<Chunk>

    constructor (script: seq<Chunk>)
      ensures this.script == script
    {
      this.script := script;
    }

    /** `read`: at most `room` bytes; 0 for the end, a negative code for an error. */
    method Read(room: nat) returns (res: int, bytes: seq<byte>)
      requires room > 0 && Proper(script)
      modifies this
      ensures Proper(script)
      ensures res > 0 ==> |bytes| == res <= room
      ensures res <= 0 ==> bytes == [] && res != EOF
      ensures
        var b := Pull(old(script), room);
        if res > 0 then
          var b' := Pull(script, room - res);
          b == Batch(bytes + b'.got, b'.rest, b'.end)
        else b == Batch([], script, Ended(if res == 0 then EOF else res))
      ensures |script| <= |old(script)|
    {
      bytes := [];
      if script == [] {
        return WAIT, bytes;
      }
      var next := script[0];
      match next {
        case Data(all) =>
          var n := if |all| <= room then |all| else room;
          PullPortion(script, room, n);
          RestStream(script, n);
          res, bytes := n, all[..n];
          script := Rest(script, n);
        case Dry =>
          res := WAIT;
          script := script[1..];
        case Eof =>
          res := 0;
        case Fail(errno) =>
          res := -errno;
          script := script[1..];
      }
    }
  }

  /** What `_dpaio_buf_post` returns for a batch: at the end of the source, the bytes that came before it are not reported. */
  function Reported(b: Batch): int {
    if b.end == Ended(EOF) then EOF
    else if b.end.Full? || b.got != [] then |b.got|
    else b.end.code
  }

  lemma ReportedIs(b: Batch)
    ensures b.end == Ended(EOF) ==> Reported(b) == EOF
    ensures b.end != Ended(EOF) ==> Reported(b) == if b.end.Full? || |b.got| > 0 then |b.got| else b.end.code
  {
  }

  lemma PullNothing(script: seq<Chunk>, got: seq<byte>)
    ensures Pull(script, 0) == Batch([], script, Full) && got + [] == got
  {
  }

  /** `_dpaio_buf_post` with `read`: fills `data` from `at` on with up to `len` bytes. */
  method ReadPost(src: Source, data: array<byte>, at: nat, len: nat) returns (ret: int, inva: bool)
    requires Proper(src.script) && len > 0 && at + len <= data.Length
    modifies src, data
    ensures Proper(src.script)
    ensures data[..at] == old(data[..at])
    ensures
      var b := Pull(old(src.script), len);
      && src.script == b.rest && ret == Reported(b) && inva == b.end.Ended?
      && (ret > 0 ==> |b.got| == ret && data[at..at + ret] == b.got)
  {
    hide Pull, Stream, Proper, Reported;
    var total := 0;
    ghost var before, got := src.script, [];
    while true
      invariant 0 <= total < len && |got| == total && Proper(src.script)
      invariant data[..at] == old(data[..at]) && data[at..at + total] == got
      invariant
        var b := Pull(src.script, len - total);
        Pull(before, len) == Batch(got + b.got, b.rest, b.end)
      decreases len - total
    {
      var res, bytes := src.Read(len - total);
      if res > 0 {
        ghost var b := Pull(src.script, len - total - res);
        Regroup(got, bytes, b.got);
        Append(data, at, total, bytes);
        got := got + bytes;
        total := total + res;
        if total == len {
          PullNothing(src.script, got);
          ReportedIs(Pull(before, len));
          return total, false;
        }
      } else {
        PullNothing(src.script, got);
        ReportedIs(Pull(before, len));
        if res == 0 {
          return EOF, true;
        }
        return if total > 0 then total else res, true;
      }
    }
  }

  method Append(data: array<byte>, at: nat, total: nat, bytes: seq<byte>)
    requires at + total + |bytes| <= data.Length
    modifies data
    ensures data[..at] == old(data[..at])
    ensures data[at..at + total + |bytes|] == old(data[at..at + total]) + bytes
  {
    ghost var was := data[..at + total];
    Copy(data, at + total, bytes);
    assert data[..at] == data[..at + total][..at];
    assert data[at..at + total + |bytes|] == data[..at + total][at..] + data[at + total..at + total + |bytes|];
    assert was[at..] == old(data[at..at + total]);
  }

  // ------------------------------------------------------------------ reading up to a delimiter

  /** How `dpaio_read_until` ends, with all the bytes that the buffer then holds and what is left in the descriptor. */
  datatype Outcome =
    | Hit(len: nat, held: seq<byte>, rest: seq<Chunk>)
    | Exhausted(held: seq<byte>, rest: seq<Chunk>)
    | Stopped(code: int, held: seq<byte>, rest: seq<Chunk>)
    | Blocked(held: seq<byte>, rest: seq<Chunk>)

  function Room(max: int, total: int): (r: nat)
    requires total < max
    ensures 0 < r <= max - total
  {
    if max - total > BATCH_SIZE then BATCH_SIZE else max - total
  }

  /**
   The operation without its scan position: after each batch all that is held is searched again.  `total` bytes of
   `held` were read by the operation itself.  After a batch that was not full the operation waits for an event, and it
   waits for ever when the descriptor has no further answer.
   */
  function Until(held: seq<byte>, until: seq<byte>, max: int, total: nat, script: seq<Chunk>): Outcome
    requires total < max
    decreases max - total, |script|
  {
    PullKeepsStream(script, Room(max, total));
    var b := Pull(script, Room(max, total));
    var ret := Reported(b);
    if ret <= 0 then
      if total > 0 then Stopped(total, held, b.rest)
      else if ret != WAIT then Stopped(ret, held, b.rest)
      else if b.rest == [] then Blocked(held, b.rest)
      else Until(held, until, max, total, b.rest)
    else
      var h := held + b.got;
      var i := Find(h, until, 0);
      if i >= 0 then Hit(i + |until|, h, b.rest)
      else if total + ret >= max then Exhausted(h, b.rest)
      else if b.end.Ended? && b.rest == [] then Blocked(h, b.rest)
      else Until(h, until, max, total + ret, b.rest)
  }

  /** From the start: what the buffer already holds is searched first, if there is any slack. */
  function UntilFrom(v: View, until: seq<byte>, max: int, script: seq<Chunk>): Outcome
    requires max > 0
  {
    var held := v.window + v.slack;
    if v.slack != [] && Find(held, until, 0) >= 0 then Hit(Find(held, until, 0) + |until|, held, script)
    else Until(held, until, max, 0, script)
  }

  /** No byte is read that is not held afterwards, unless the descriptor ended. */
  predicate Accounted(held: seq<byte>, script: seq<Chunk>, o: Outcome) {
    o.held + Stream(o.rest) == held + Stream(script)
  }

  /** A batch that brought something has moved just that. */
  lemma BatchMoves(held: seq<byte>, script: seq<Chunk>, room: nat)
    requires Reported(Pull(script, room)) > 0 && Proper(script)
    ensures
      var b := Pull(script, room);
      && (held + b.got) + Stream(b.rest) == held + Stream(script)
      && Reported(b) == |b.got|
  {
    PullKeepsStream(script, room);
    EndCode(script, room);
    var b := Pull(script, room);
    Regroup(held, b.got, Stream(b.rest));
  }

  /** A batch that brought nothing has moved nothing. */
  lemma DryBatch(script: seq<Chunk>, room: nat)
    requires room > 0 && Proper(script) && Reported(Pull(script, room)) <= 0 && Pull(script, room).end != Ended(EOF)
    ensures Pull(script, room).got == [] && Stream(Pull(script, room).rest) == Stream(script)
    ensures Reported(Pull(script, room)) != EOF
  {
    PullKeepsStream(script, room);
    var b := Pull(script, room);
    assert [] + Stream(b.rest) == Stream(b.rest);
  }

  /** A batch can only tell of errors that the descriptor told of. */
  lemma {:induction false} EndCode(script: seq<Chunk>, room: nat)
    requires Proper(script)
    ensures
      var b := Pull(script, room);
      b.end.Ended? ==> b.end.code < 0
    decreases |script|
  {
    if room != 0 && script != [] && script[0].Data? && |script[0].bytes| <= room {
      EndCode(script[1..], room - |script[0].bytes|);
    }
  }

  /**
   Whatever the portions are in which the bytes come, a hit is the first occurrence of the delimiter in what the buffer
   held followed by all that was to come; the rest stays in the slack and in the descriptor, in order.
   */
  lemma {:induction false} HitIsFirstInStream(held: seq<byte>, until: seq<byte>, max: int, total: nat, script: seq<Chunk>)
    requires total < max && Proper(script) && Until(held, until, max, total, script).Hit?
    ensures
      var o := Until(held, until, max, total, script);
      && o.len == Find(held + Stream(script), until, 0) + |until| && Find(held + Stream(script), until, 0) >= 0
      && o.len <= |o.held| && Accounted(held, script, o) && |o.held| <= |held| + max - total
    decreases max - total, |script|
  {
    hide Pull, Stream, Proper, Find;
    var room := Room(max, total);
    var b := Pull(script, room);
    PullKeepsStream(script, room);
    if Reported(b) > 0 {
      BatchMoves(held, script, room);
      var h := held + b.got;
      if Find(h, until, 0) >= 0 {
        FindExtends(h, until, Stream(b.rest));
      } else {
        HitIsFirstInStream(h, until, max, total + Reported(b), b.rest);
      }
    } else {
      DryBatch(script, room);
      HitIsFirstInStream(held, until, max, total, b.rest);
    }
  }

  /** Two descriptors with the same bytes in different portions: two hits are the same hit. */
  lemma PortionsDoNotMatter(v: View, until: seq<byte>, max: int, script: seq<Chunk>, script': seq<Chunk>)
    requires max > 0 && Proper(script) && Proper(script') && Stream(script) == Stream(script')
    requires UntilFrom(v, until, max, script).Hit? && UntilFrom(v, until, max, script').Hit?
    ensures
      var o, o' := UntilFrom(v, until, max, script), UntilFrom(v, until, max, script');
      && o.len == o'.len <= |o.held| && o.len <= |o'.held|
      && o.held[..o.len] == o'.held[..o.len]
      && o.held[o.len..] + Stream(o.rest) == o'.held[o.len..] + Stream(o'.rest)
  {
    hide Pull, Stream, Proper, Until;
    var held := v.window + v.slack;
    var o, o' := UntilFrom(v, until, max, script), UntilFrom(v, until, max, script');
    if !(v.slack != [] && Find(held, until, 0) >= 0) {
      HitIsFirstInStream(held, until, max, 0, script);
      HitIsFirstInStream(held, until, max, 0, script');
      SameCut(o.held, Stream(o.rest), o'.held, Stream(o'.rest), o.len);
    }
  }

  lemma SameCut(a: seq<byte>, b: seq<byte>, a': seq<byte>, b': seq<byte>, n: nat)
    requires a + b == a' + b' && n <= |a| && n <= |a'|
    ensures a[..n] == a'[..n] && a[n..] + b == a'[n..] + b'
  {
    assert a[..n] == (a + b)[..n] && a'[..n] == (a' + b')[..n];
    assert a[n..] + b == (a + b)[n..] && a'[n..] + b' == (a' + b')[n..];
  }

  /** Without a hit, the delimiter is nowhere in what is held, and never more than `max` bytes are read. */
  lemma {:induction false} MissIsAMiss(held: seq<byte>, until: seq<byte>, max: int, total: nat, script: seq<Chunk>)
    requires total < max && Proper(script) && !Until(held, until, max, total, script).Hit? && Find(held, until, 0) == -1
    ensures
      var o := Until(held, until, max, total, script);
      && Find(o.held, until, 0) == -1 && held <= o.held && |o.held| <= |held| + max - total
      && (o.Exhausted? ==> Accounted(held, script, o) && |o.held| == |held| + max - total)
    decreases max - total, |script|
  {
    hide Pull, Stream, Proper, Find;
    var room := Room(max, total);
    var b := Pull(script, room);
    PullKeepsStream(script, room);
    if Reported(b) > 0 {
      BatchMoves(held, script, room);
      if total + Reported(b) < max && !(b.end.Ended? && b.rest == []) {
        MissIsAMiss(held + b.got, until, max, total + Reported(b), b.rest);
      }
    } else if total == 0 && Reported(b) == WAIT && b.rest != [] {
      DryBatch(script, room);
      MissIsAMiss(held, until, max, total, b.rest);
    }
  }

  /** The next `n` bytes come without a pause. */
  ghost predicate Steady(script: seq<Chunk>, n: int) {
    n <= 0 || (script != [] && script[0].Data? && Steady(script[1..], n - |script[0].bytes|))
  }

  lemma {:induction false} SteadyBatch(script: seq<Chunk>, room: nat, n: int)
    requires Proper(script) && Steady(script, n) && room <= n
    ensures Pull(script, room).end.Full? && Steady(Pull(script, room).rest, n - room)
    decreases |script|
  {
    if room > 0 {
      var bytes := script[0].bytes;
      if |bytes| <= room {
        SteadyBatch(script[1..], room - |bytes|, n - |bytes|);
      } else {
        var rest := [Data(bytes[room..])] + script[1..];
        assert rest[1..] == script[1..];
      }
    }
  }

  /** A source that does not pause is read until the delimiter, or until `max` bytes hold none. */
  lemma {:induction false} SteadySourceDecides(held: seq<byte>, until: seq<byte>, max: int, total: nat, script: seq<Chunk>)
    requires total < max && Proper(script) && Steady(script, max - total) && until != [] && Find(held, until, 0) == -1
    ensures
      var o := Until(held, until, max, total, script);
      && max - total <= |Stream(script)|
      && (o.Hit? <==> Find(held + Stream(script)[..max - total], until, 0) >= 0)
      && (o.Exhausted? <==> Find(held + Stream(script)[..max - total], until, 0) == -1)
    decreases max - total
  {
    hide Pull, Stream, Proper, Find, Steady;
    var room := Room(max, total);
    var b := Pull(script, room);
    SteadyBatch(script, room, max - total);
    PullKeepsStream(script, room);
    var h := held + b.got;
    if total + room < max {
      if Find(h, until, 0) == -1 {
        SteadySourceDecides(h, until, max, total + room, b.rest);
        PrefixJoins(held, b.got, Stream(b.rest), max - total);
      } else {
        SteadyStream(b.rest, max - total - room);
        PrefixJoins(held, b.got, Stream(b.rest), max - total);
        FindExtends(h, until, Stream(b.rest)[..max - total - room]);
      }
    } else {
      assert Stream(script)[..room] == b.got;
    }
  }

  lemma PrefixJoins(held: seq<byte>, got: seq<byte>, more: seq<byte>, n: nat)
    requires |got| <= n <= |got + more|
    ensures held + (got + more)[..n] == (held + got) + more[..n - |got|]
  {
  }

  lemma {:induction false} SteadyStream(script: seq<Chunk>, n: int)
    requires Steady(script, n)
    ensures n <= |Stream(script)|
  {
    if n > 0 {
      SteadyStream(script[1..], n - |script[0].bytes|);
    }
  }

  lemma Absent(s: seq<byte>, m: seq<byte>)
    requires |m| == 1 && m[0] !in s
    ensures Find(s, m, 0) == -1
  {
    forall i | 0 <= i < |s|
      ensures !Occurs(s, m, i)
    {
      assert s[i] in s && s[i..i + 1][0] == s[i];
    }
  }

  // ------------------------------------------------------------------ stopping short

  /** A burst: the bytes that come before the next answer that is not data. */
  function BurstBytes(script: seq<Chunk>): seq<byte> {
    if script == [] || !script[0].Data? then [] else script[0].bytes + BurstBytes(script[1..])
  }

  /** The answer that ends the burst, and what comes after it. */
  function AfterBurst(script: seq<Chunk>): (rest: seq<Chunk>)
    ensures |rest| <= |script| && (rest != [] ==> !rest[0].Data?)
  {
    if script == [] || !script[0].Data? then script else AfterBurst(script[1..])
  }

  /** `script` goes on with the bytes of its burst from `n` on. */
  ghost predicate LaterInBurst(rest: seq<Chunk>, script: seq<Chunk>, n: nat) {
    n <= |BurstBytes(script)| && BurstBytes(rest) == BurstBytes(script)[n..] && AfterBurst(rest) == AfterBurst(script)
  }

  /** A batch that the burst fills takes its first bytes. */
  lemma {:induction false} FullFromBurst(script: seq<Chunk>, room: nat)
    requires Proper(script) && room <= |BurstBytes(script)|
    ensures
      var b := Pull(script, room);
      b.end.Full? && b.got == BurstBytes(script)[..room] && LaterInBurst(b.rest, script, room)
    decreases |script|
  {
    var burst := BurstBytes(script);
    if room == 0 {
      assert burst[..0] == [] && burst[0..] == burst;
    } else {
      var bytes, more := script[0].bytes, BurstBytes(script[1..]);
      if |bytes| <= room {
        FullFromBurst(script[1..], room - |bytes|);
        assert burst[..room] == bytes + more[..room - |bytes|] && burst[room..] == more[room - |bytes|..];
      } else {
        var rest := [Data(bytes[room..])] + script[1..];
        assert rest[1..] == script[1..];
        assert burst[..room] == bytes[..room] && burst[room..] == bytes[room..] + more;
      }
    }
  }

  /** A batch that the burst does not fill takes all of it, and ends as the burst does. */
  lemma {:induction false} ShortFromBurst(script: seq<Chunk>, room: nat)
    requires Proper(script) && |BurstBytes(script)| < room
    ensures
      var b, rest := Pull(script, room), AfterBurst(script);
      && b.got == BurstBytes(script)
      && (rest == [] || rest[0].Dry? ==> b.end == Ended(WAIT))
      && (rest != [] && rest[0].Eof? ==> b.end == Ended(EOF))
      && (rest != [] && rest[0].Fail? ==>
            b.end == Ended(-rest[0].errno) && b.end.code < 0 && b.end.code != WAIT && b.end.code != EOF)
      && b.rest == if rest != [] && !rest[0].Eof? then rest[1..] else rest
    decreases |script|
  {
    if script != [] && script[0].Data? {
      ShortFromBurst(script[1..], room - |script[0].bytes|);
    } else if script != [] {
      assert Proper([script[0]] + script[1..]);
    }
  }

  /**
   At the end of some burst the operation has read something of `max` bytes without the delimiter, and the last post
   finds nothing to report: the bytes since the last full batch are none, or they are lost with the end of the source.
   It then reports the number of bytes read as if it had succeeded.  A burst that ends inside a batch is waited for.
   */
  predicate GivesUp(held: seq<byte>, until: seq<byte>, max: int, total: nat, script: seq<Chunk>)
    requires total < max
    decreases |script|
  {
    var bytes, rest := BurstBytes(script), AfterBurst(script);
    var over, ended := |bytes| % BATCH_SIZE, rest != [] && rest[0].Eof?;
    var seen := if ended then |bytes| - over else |bytes|;
    && total + |bytes| < max
    && Find(held + bytes[..seen], until, 0) == -1
    && if ended then total + seen > 0
       else if over == 0 && total + |bytes| > 0 then true
       else
         && rest != [] && rest[1..] != [] && !(rest[0].Fail? && total + |bytes| == 0)
         && GivesUp(held + bytes, until, max, total + |bytes|, rest[1..])
  }

  /** A full batch without the delimiter does not change the answer, and one with it makes it no. */
  lemma {:induction false} GivesUpAfterBatch(held: seq<byte>, until: seq<byte>, max: int, total: nat, script: seq<Chunk>)
    requires total + BATCH_SIZE < max && Proper(script) && BATCH_SIZE <= |BurstBytes(script)|
    ensures
      var b := Pull(script, BATCH_SIZE);
      && b.end.Full?
      && GivesUp(held, until, max, total, script) ==
         (Find(held + b.got, until, 0) == -1 && GivesUp(held + b.got, until, max, total + BATCH_SIZE, b.rest))
  {
    hide Pull, Proper, Find;
    var bytes, rest := BurstBytes(script), AfterBurst(script);
    var b := Pull(script, BATCH_SIZE);
    FullFromBurst(script, BATCH_SIZE);
    var more := BurstBytes(b.rest);
    var over := |bytes| % BATCH_SIZE;
    assert |more| % BATCH_SIZE == over;
    var seen := if rest != [] && rest[0].Eof? then |bytes| - over else |bytes|;
    assert BATCH_SIZE <= seen;
    assert held + bytes[..seen] == (held + b.got) + more[..seen - BATCH_SIZE];
    assert held + bytes == (held + b.got) + more;
    FindExtendsOr(held + b.got, until, more[..seen - BATCH_SIZE]);
  }

  lemma FindExtendsOr(s: seq<byte>, m: seq<byte>, t: seq<byte>)
    ensures Find(s, m, 0) == -1 || Find(s + t, m, 0) >= 0
  {
    NotFound(s, m);
    if Find(s, m, 0) >= 0 {
      FindExtends(s, m, t);
    }
  }

  /** What is held already with the delimiter in it is never given up: the first byte that comes makes it a hit. */
  lemma {:induction false} FoundIsNotGivenUp(held: seq<byte>, until: seq<byte>, max: int, script: seq<Chunk>)
    requires max > 0 && Proper(script) && Find(held, until, 0) >= 0
    ensures
      var o := Until(held, until, max, 0, script);
      !(o.Stopped? && o.code > 0) && !GivesUp(held, until, max, 0, script)
    decreases |script|
  {
    hide Pull, Proper, Find, GivesUp;
    var room := Room(max, 0);
    var b := Pull(script, room);
    NotGivenUp(held, until, max, script);
    UntilStep(held, until, max, 0, script);
    if Reported(b) > 0 {
      FindExtendsOr(held, until, b.got);
      NotFound(held + b.got, until);
    } else if Reported(b) == WAIT && b.rest != [] {
      PullKeepsStream(script, room);
      FoundIsNotGivenUp(held, until, max, b.rest);
    }
  }

  lemma NotGivenUp(held: seq<byte>, until: seq<byte>, max: int, script: seq<Chunk>)
    requires max > 0 && Find(held, until, 0) >= 0
    ensures !GivesUp(held, until, max, 0, script)
  {
    hide Find;
    var bytes, rest := BurstBytes(script), AfterBurst(script);
    var seen := if rest != [] && rest[0].Eof? then |bytes| - |bytes| % BATCH_SIZE else |bytes|;
    FindExtendsOr(held, until, bytes[..seen]);
  }

  lemma NoRoomNoGivingUp(held: seq<byte>, until: seq<byte>, max: int, total: nat, script: seq<Chunk>)
    requires total < max <= total + |BurstBytes(script)|
    ensures !GivesUp(held, until, max, total, script)
  {
  }

  /** A burst of less than a batch. */
  lemma GivesUpShort(held: seq<byte>, until: seq<byte>, max: int, total: nat, script: seq<Chunk>)
    requires total < max && |BurstBytes(script)| < Room(max, total) && Find(held, until, 0) == -1
    ensures
      var bytes, rest := BurstBytes(script), AfterBurst(script);
      GivesUp(held, until, max, total, script) ==
        if rest != [] && rest[0].Eof? then total > 0
        else if bytes == [] && total > 0 then true
        else
          && Find(held + bytes, until, 0) == -1 && rest != [] && rest[1..] != [] && !(rest[0].Fail? && total + |bytes| == 0)
          && GivesUp(held + bytes, until, max, total + |bytes|, rest[1..])
  {
    hide Find;
    var bytes, rest := BurstBytes(script), AfterBurst(script);
    assert held + bytes[..0] == held && bytes[..|bytes|] == bytes;
    assert |bytes| % BATCH_SIZE == |bytes|;
  }

  lemma UntilShort(held: seq<byte>, until: seq<byte>, max: int, total: nat, script: seq<Chunk>)
    requires total < max && |BurstBytes(script)| < Room(max, total) && Find(held, until, 0) == -1 && Proper(script)
    ensures
      var o, bytes, rest := Until(held, until, max, total, script), BurstBytes(script), AfterBurst(script);
      if rest != [] && rest[0].Eof? then o.Stopped? && (o.code > 0 <==> total > 0)
      else if bytes == [] && total > 0 then o.Stopped? && o.code > 0
      else if Find(held + bytes, until, 0) >= 0 || rest == [] || rest[1..] == [] || (rest[0].Fail? && bytes == []) then
        !(o.Stopped? && o.code > 0)
      else o == Until(held + bytes, until, max, total + |bytes|, rest[1..])
  {
    hide Pull, Proper, Find, Until, BurstBytes, AfterBurst;
    UntilStep(held, until, max, total, script);
    ShortFromBurst(script, Room(max, total));
    var bytes, rest := BurstBytes(script), AfterBurst(script);
    if bytes == [] {
      assert held + bytes == held;
    }
    NotFound(held + bytes, until);
  }

  lemma {:induction false} UntilStopsShortIff(held: seq<byte>, until: seq<byte>, max: int, total: nat, script: seq<Chunk>)
    requires total < max && Proper(script) && (total > 0 ==> Find(held, until, 0) == -1)
    ensures
      var o := Until(held, until, max, total, script);
      o.Stopped? && o.code > 0 <==> GivesUp(held, until, max, total, script)
    decreases max - total, |script|
  {
    hide Pull, Proper, Find, Until, GivesUp, BurstBytes, AfterBurst;
    var room := Room(max, total);
    var b := Pull(script, room);
    var bytes, rest := BurstBytes(script), AfterBurst(script);
    UntilStep(held, until, max, total, script);
    PullKeepsStream(script, room);
    NotFound(held, until);
    NotFound(held + b.got, until);
    if Find(held, until, 0) >= 0 {
      FoundIsNotGivenUp(held, until, max, script);
    } else if room <= |bytes| {
      FullFromBurst(script, room);
      if room == BATCH_SIZE && total + room < max {
        GivesUpAfterBatch(held, until, max, total, script);
        if Find(held + b.got, until, 0) == -1 {
          UntilStopsShortIff(held + b.got, until, max, total + room, b.rest);
        }
      } else {
        NoRoomNoGivingUp(held, until, max, total, script);
      }
    } else {
      GivesUpShort(held, until, max, total, script);
      UntilShort(held, until, max, total, script);
      if rest != [] && !rest[0].Eof? && rest[1..] != [] && Find(held + bytes, until, 0) == -1 {
        if bytes != [] || (total == 0 && rest[0].Dry?) {
          ShortFromBurst(script, room);
          UntilStopsShortIff(held + bytes, until, max, total + |bytes|, rest[1..]);
        }
      }
    }
  }

  /** The end, or the error, that a read of up to `room` bytes meets before it has anything to report; 0 for none. */
  function Refusal(room: nat, script: seq<Chunk>): int
    decreases |script|
  {
    var n, rest := |BurstBytes(script)|, AfterBurst(script);
    if n >= room then 0
    else if rest != [] && rest[0].Eof? then EOF
    else if n > 0 || rest == [] then 0
    else if rest[0].Fail? then -rest[0].errno
    else if rest[1..] == [] then 0
    else Refusal(room, rest[1..])
  }

  /** The operation fails iff it meets an end or an error before it has read anything, and with that code. */
  lemma {:induction false} UntilRefusedIff(held: seq<byte>, until: seq<byte>, max: int, total: nat, script: seq<Chunk>)
    requires total < max && Proper(script)
    ensures
      var o := Until(held, until, max, total, script);
      if total > 0 then o.Stopped? ==> o.code > 0
      else
        && (o.Stopped? && o.code < 0 <==> Refusal(Room(max, 0), script) < 0)
        && (o.Stopped? && o.code < 0 ==> o.code == Refusal(Room(max, 0), script) && o.held == held)
    decreases max - total, |script|
  {
    hide Pull, Proper, Find, Until, BurstBytes, AfterBurst;
    var room := Room(max, total);
    var b := Pull(script, room);
    var bytes, rest := BurstBytes(script), AfterBurst(script);
    UntilStep(held, until, max, total, script);
    PullKeepsStream(script, room);
    ReportByBurst(script, room);
    if Reported(b) > 0 {
      BatchMoves(held, script, room);
      if total + Reported(b) < max {
        UntilRefusedIff(held + b.got, until, max, total + Reported(b), b.rest);
      }
    } else if total == 0 && Reported(b) == WAIT && b.rest != [] {
      ShortFromBurst(script, room);
      UntilRefusedIff(held, until, max, 0, b.rest);
    }
    if |bytes| < room {
      ShortFromBurst(script, room);
    }
  }

  /** All that the operation reads if it never meets the delimiter, burst by burst. */
  function Reach(max: int, total: nat, script: seq<Chunk>): (r: seq<byte>)
    requires total < max
    ensures |r| <= max - total
    decreases |script|
  {
    var bytes, rest := BurstBytes(script), AfterBurst(script);
    var over := |bytes| % BATCH_SIZE;
    if total + |bytes| >= max then bytes[..max - total]
    else if rest != [] && rest[0].Eof? then bytes[..|bytes| - over]
    else if over == 0 && total + |bytes| > 0 then bytes
    else if rest == [] || rest[1..] == [] || (rest[0].Fail? && total + |bytes| == 0) then bytes
    else bytes + Reach(max, total + |bytes|, rest[1..])
  }

  /** `Reach`, one burst at a time. */
  lemma ReachIs(max: int, total: nat, script: seq<Chunk>)
    requires total < max
    ensures
      var bytes, rest := BurstBytes(script), AfterBurst(script);
      Reach(max, total, script) ==
        if total + |bytes| >= max then bytes[..max - total]
        else if rest != [] && rest[0].Eof? then bytes[..|bytes| - |bytes| % BATCH_SIZE]
        else if |bytes| % BATCH_SIZE == 0 && total + |bytes| > 0 then bytes
        else if rest == [] || rest[1..] == [] || (rest[0].Fail? && total + |bytes| == 0) then bytes
        else bytes + Reach(max, total + |bytes|, rest[1..])
  {
  }

  lemma {:induction false} ReachAfterBatch(max: int, total: nat, script: seq<Chunk>)
    requires total + BATCH_SIZE < max && Proper(script) && BATCH_SIZE <= |BurstBytes(script)|
    ensures
      var b := Pull(script, BATCH_SIZE);
      Reach(max, total, script) == b.got + Reach(max, total + BATCH_SIZE, b.rest)
  {
    hide Pull, Proper, Reach, BurstBytes, AfterBurst;
    ReachIs(max, total, script);
    var bytes, rest := BurstBytes(script), AfterBurst(script);
    var b := Pull(script, BATCH_SIZE);
    FullFromBurst(script, BATCH_SIZE);
    var more := BurstBytes(b.rest);
    var over := |bytes| % BATCH_SIZE;
    assert |more| % BATCH_SIZE == over && bytes == b.got + more;
    ReachIs(max, total + BATCH_SIZE, b.rest);
    if total + |bytes| >= max {
      assert bytes[..max - total] == b.got + more[..max - total - BATCH_SIZE];
    } else if rest != [] && rest[0].Eof? {
      assert bytes[..|bytes| - over] == b.got + more[..|more| - over];
    } else if !(over == 0 && total + |bytes| > 0)
           && !(rest == [] || rest[1..] == [] || (rest[0].Fail? && total + |bytes| == 0)) {
      Regroup(b.got, more, Reach(max, total + |bytes|, rest[1..]));
    }
  }

  /** What a burst that ends inside a batch comes to. */
  lemma ReachShort(max: int, total: nat, script: seq<Chunk>)
    requires total < max && |BurstBytes(script)| < Room(max, total)
    ensures
      var bytes, rest := BurstBytes(script), AfterBurst(script);
      Reach(max, total, script) ==
        if rest != [] && rest[0].Eof? then []
        else if bytes == [] && total > 0 then []
        else if rest == [] || rest[1..] == [] || (rest[0].Fail? && total + |bytes| == 0) then bytes
        else bytes + Reach(max, total + |bytes|, rest[1..])
  {
    assert |BurstBytes(script)| % BATCH_SIZE == |BurstBytes(script)|;
    assert BurstBytes(script)[..0] == [];
  }

  /**
   A hit iff the delimiter is in what was held followed by all that the operation can reach; and without one it has read
   just that, and says so with `CONTINUE` iff that is all it was allowed.
   */
  lemma {:induction false} UntilHitsIff(held: seq<byte>, until: seq<byte>, max: int, total: nat, script: seq<Chunk>)
    requires total < max && Proper(script) && Find(held, until, 0) == -1
    ensures
      var o, all := Until(held, until, max, total, script), held + Reach(max, total, script);
      && (o.Hit? <==> Find(all, until, 0) >= 0)
      && (!o.Hit? ==> o.held == all)
      && (o.Exhausted? <==> Find(all, until, 0) == -1 && |all| == |held| + max - total)
    decreases max - total, |script|
  {
    hide Pull, Proper, Find, Until, Reach, BurstBytes, AfterBurst, Stream;
    var room := Room(max, total);
    var b := Pull(script, room);
    var bytes, rest := BurstBytes(script), AfterBurst(script);
    var h, all := held + b.got, held + Reach(max, total, script);
    UntilStep(held, until, max, total, script);
    PullKeepsStream(script, room);
    NotFound(h, until);
    NotFound(all, until);
    if room <= |bytes| {
      FullFromBurst(script, room);
      if total + room < max {
        ReachAfterBatch(max, total, script);
        Regroup(held, b.got, Reach(max, total + room, b.rest));
        if Find(h, until, 0) == -1 {
          UntilHitsIff(h, until, max, total + room, b.rest);
        } else {
          FindExtendsOr(h, until, Reach(max, total + room, b.rest));
        }
      } else {
        ReachAll(max, total, script);
      }
    } else {
      ShortFromBurst(script, room);
      ReachShort(max, total, script);
      assert held + [] == held;
      if rest != [] && !rest[0].Eof? && rest[1..] != [] && !(bytes == [] && (total > 0 || rest[0].Fail?)) {
        var more := Reach(max, total + |bytes|, rest[1..]);
        Regroup(held, bytes, more);
        if Find(h, until, 0) == -1 {
          UntilHitsIff(h, until, max, total + |bytes|, rest[1..]);
        } else {
          FindExtendsOr(h, until, more);
        }
      }
    }
  }

  lemma ReachAll(max: int, total: nat, script: seq<Chunk>)
    requires total < max <= total + |BurstBytes(script)|
    ensures Reach(max, total, script) == BurstBytes(script)[..max - total]
  {
  }

  /** With the delimiter held already, the first byte that comes makes a hit. */
  lemma {:induction false} FoundHitsIff(held: seq<byte>, until: seq<byte>, max: int, script: seq<Chunk>)
    requires max > 0 && Proper(script) && Find(held, until, 0) >= 0
    ensures
      var o := Until(held, until, max, 0, script);
      && (o.Hit? <==> Reach(max, 0, script) != [])
      && (!o.Hit? ==> o.held == held && !o.Exhausted?)
    decreases |script|
  {
    hide Pull, Proper, Find, Until, Reach, BurstBytes, AfterBurst;
    var room := Room(max, 0);
    var b := Pull(script, room);
    var bytes, rest := BurstBytes(script), AfterBurst(script);
    UntilStep(held, until, max, 0, script);
    PullKeepsStream(script, room);
    FindExtendsOr(held, until, b.got);
    if room <= |bytes| {
      FullFromBurst(script, room);
      if room < max {
        ReachAfterBatch(max, 0, script);
      } else {
        ReachAll(max, 0, script);
      }
    } else {
      ShortFromBurst(script, room);
      ReachShort(max, 0, script);
      if bytes == [] && rest != [] && rest[0].Dry? && rest[1..] != [] {
        FoundHitsIff(held, until, max, rest[1..]);
        assert [] + Reach(max, 0, rest[1..]) == Reach(max, 0, rest[1..]);
      }
    }
  }

  /**
   The whole operation: a hit iff the delimiter is in what the buffer holds followed by all that can be reached; if it is in
   what the buffer holds, iff that has a slack to be searched or any byte comes.
   */
  lemma HitsIff(v: View, until: seq<byte>, max: int, script: seq<Chunk>)
    requires max > 0 && Proper(script)
    ensures
      var o, held, more := UntilFrom(v, until, max, script), v.window + v.slack, Reach(max, 0, script);
      && (o.Hit? <==> if Find(held, until, 0) >= 0 then v.slack != [] || more != [] else Find(held + more, until, 0) >= 0)
      && (!o.Hit? ==> o.held == held + more && (o.Exhausted? <==> |more| == max))
      && (o.Exhausted? ==> !o.Hit?)
  {
    hide Pull, Proper, Find, Until, Reach;
    var held := v.window + v.slack;
    NotFound(held, until);
    NotFound(held + Reach(max, 0, script), until);
    if Find(held, until, 0) >= 0 {
      FoundHitsIff(held, until, max, script);
      assert held + [] == held;
    } else {
      UntilHitsIff(held, until, max, 0, script);
    }
  }

  /** `dpaio_read_until` succeeds without the delimiter and short of `max` bytes iff it gives up at the end of a burst. */
  lemma StopsShortIff(v: View, until: seq<byte>, max: int, script: seq<Chunk>)
    requires max > 0 && Proper(script)
    ensures
      var o := UntilFrom(v, until, max, script);
      o.Stopped? && o.code > 0 <==> GivesUp(v.window + v.slack, until, max, 0, script)
  {
    hide Pull, Proper, Find, Until, GivesUp;
    var held := v.window + v.slack;
    UntilStopsShortIff(held, until, max, 0, script);
    if Find(held, until, 0) >= 0 {
      NotGivenUp(held, until, max, script);
    }
  }

  /** A batch of reads takes bytes that it does not report iff the source ends behind them before the batch is full. */
  lemma {:induction false} UnreportedIff(script: seq<Chunk>, room: nat)
    requires Proper(script) && room > 0
    ensures
      var b, burst, rest := Pull(script, room), BurstBytes(script), AfterBurst(script);
      && (Reported(b) > 0 ==> Reported(b) == |b.got|)
      && (Reported(b) <= 0 && b.got != [] <==> 0 < |burst| < room && rest != [] && rest[0].Eof?)
  {
    hide Pull, Proper, BurstBytes, AfterBurst;
    EndCode(script, room);
    if room <= |BurstBytes(script)| {
      FullFromBurst(script, room);
    } else {
      ShortFromBurst(script, room);
    }
  }

  /** What a batch reports, by the next burst and what ends it. */
  lemma {:induction false} ReportByBurst(script: seq<Chunk>, room: nat)
    requires Proper(script) && room > 0
    ensures
      var n, rest := |BurstBytes(script)|, AfterBurst(script);
      Reported(Pull(script, room)) ==
        if n >= room then room
        else if rest != [] && rest[0].Eof? then EOF
        else if n > 0 then n
        else if rest != [] && rest[0].Fail? then -rest[0].errno
        else WAIT
  {
    hide Pull, Proper, BurstBytes, AfterBurst;
    if room <= |BurstBytes(script)| {
      FullFromBurst(script, room);
    } else {
      ShortFromBurst(script, room);
    }
  }

  lemma EndAfterBytesIsUnreported(x: seq<byte>, room: nat)
    requires 0 < |x| < room
    ensures Pull([Data(x), Eof], room) == Batch(x, [Eof], Ended(EOF)) && Reported(Pull([Data(x), Eof], room)) == EOF
  {
    assert [Data(x), Eof][1..] == [Eof] && x + [] == x;
  }

  /** A full batch, and then no answer for now, an error or the end: the operation gives up after the batch. */
  lemma EndAfterFullBatchStops(bytes: seq<byte>, until: seq<byte>, stop: Chunk)
    requires |bytes| == BATCH_SIZE && |until| == 1 && until[0] !in bytes && !stop.Data? && Proper([stop])
    ensures
      var script := [Data(bytes), stop, Data(until)];
      Until([], until, 10000, 0, script) == Stopped(BATCH_SIZE, bytes, if stop.Eof? then script[1..] else script[2..])
  {
    hide Find;
    var script := [Data(bytes), stop, Data(until)];
    assert script[1..] == [stop, Data(until)] && script[1..][1..] == [Data(until)] && script[2..] == [Data(until)];
    assert Pull(script[1..], 0) == Batch([], script[1..], Full);
    assert bytes + [] == bytes && [] + bytes == bytes;
    assert Pull(script, BATCH_SIZE) == Batch(bytes, script[1..], Full);
    Absent(bytes, until);
    assert [stop][0] == stop;
    assert Room(10000, 0) == BATCH_SIZE && Room(10000, BATCH_SIZE) == 10000 - BATCH_SIZE;
  }

  // ------------------------------------------------------------------ the resumable operation

  /** The return value of the whole operation. */
  function Code(o: Outcome): int {
    match o
    case Hit(len, _, _) => len
    case Exhausted(_, _) => CONTINUE
    case Stopped(code, _, _) => code
    case Blocked(_, _) => WAIT
  }

  /** What the buffer shows afterwards. */
  function Shown(o: Outcome): View
    requires o.Hit? ==> o.len <= |o.held|
  {
    if o.Hit? then Split(o.held, o.len) else View(o.held, [])
  }

  /** After a successful batch of reads into the room behind what is held. */
  lemma HeldGrows(d: array<byte>, rbeg: nat, wbeg: nat, n: nat, held: seq<byte>, got: seq<byte>)
    requires rbeg <= wbeg && wbeg + n <= d.Length && d[rbeg..wbeg] == held && d[wbeg..wbeg + n] == got
    ensures d[rbeg..wbeg + n] == held + got
  {
  }

  lemma RoomToWiden(buf: Buffer, s: nat, memory: bool)
    requires buf.Valid() && s > 0
    ensures memory && buf.wbeg + s < 0x4000_0000 ==> buf.CanWiden(s, memory)
  {
  }

  /** A batch of reads into the room behind what a buffer holds; its cursors are the caller's business. */
  method ReadBehind(src: Source, buf: Buffer, len: nat) returns (ret: int, inva: bool)
    requires Proper(src.script) && buf.Valid() && 0 < len <= buf.size - buf.wbeg
    modifies src, buf.data
    ensures buf.Valid() && Proper(src.script) && buf.Held() == old(buf.Held())
    ensures
      var b := Pull(old(src.script), len);
      && src.script == b.rest && ret == Reported(b) && inva == b.end.Ended?
      && (ret > 0 ==> |b.got| == ret && buf.data[buf.rbeg..buf.wbeg + ret] == old(buf.Held()) + b.got)
  {
    hide Pull, Proper, Stream, Reported;
    ghost var held, b := buf.Held(), Pull(src.script, len);
    ghost var was := buf.data[..buf.wbeg];
    Part(was, buf.rbeg, buf.wbeg, buf.wbeg);
    ret, inva := ReadPost(src, buf.data, buf.wbeg, len);
    assert buf.data[..buf.wbeg] == was;
    Part(buf.data[..buf.wbeg], buf.rbeg, buf.wbeg, buf.wbeg);
    assert buf.data[buf.rbeg..buf.wbeg] == buf.data[..buf.wbeg][buf.rbeg..buf.wbeg] == was[buf.rbeg..buf.wbeg] == held;
    if ret > 0 {
      HeldGrows(buf.data, buf.rbeg, buf.wbeg, ret, held, b.got);
    }
  }

  /** `_dpaio_stm_t` for `dpaio_read_until` on a plain descriptor. */
  class UntilOp {
    const buf: Buffer
    const src: Source
    const until: seq<byte>
    const len: int      // the most bytes to read
    var total: int      // io.total
    var flag: int       // io.flag: how much was searched without success, or less
    var ioLen: int      // io.len; io.buf is the write position of the buffer

    constructor (buf: Buffer, src: Source, until: seq<byte>, len: int)
      ensures this.buf == buf && this.src == src && this.until == until && this.len == len
    {
      this.buf, this.src, this.until, this.len := buf, src, until, len;
      total, flag, ioLen := 0, 0, 0;
    }

    /** Between two posts. */
    ghost predicate Ready()
      reads this, buf, buf.data, src
    {
      && buf.Valid() && Proper(src.script) && until != [] && 0 <= total < len
      && ioLen == Room(len, total) == buf.size - buf.wbeg && buf.rend == buf.wbeg
      && total <= |buf.Held()| && 0 <= flag <= |buf.Held()| && (flag == 0 || Find(buf.Held(), until, 0) == -1)
    }

    /** The search in `prep`, of what the buffer holds already. */
    method Search() returns (idx: int)
      requires buf.Valid() && until != []
      modifies buf`rend
      ensures buf.Valid() && buf.Held() == old(buf.Held()) && buf.rend == buf.wbeg
      ensures Find(buf.Held(), until, 0) >= 0 ==> idx == Find(buf.Held(), until, 0)
      ensures Find(buf.Held(), until, 0) == -1 ==> idx < 0
    {
      hide Split, Buffer.Window, Buffer.Held, Find;
      var _ := buf.ESeek(0, Seek.End);
      buf.WholeWindow();
      idx := buf.CFind(until, 0);
    }

    /** The window up to the end of a hit. */
    method Cut(n: nat)
      requires buf.Valid() && n <= |buf.Held()|
      modifies buf`rend
      ensures buf.Valid() && buf.Window() == Split(old(buf.Held()), n)
    {
      hide Split, Buffer.Window, Find;
      var _ := buf.ESeek(n, Seek.Set);
      buf.WindowIs();
    }

    /** Room for the next batch. */
    method Widen(memory: bool) returns (ok: bool)
      requires buf.Valid() && Proper(src.script) && until != [] && 0 <= total < len && buf.rend == buf.wbeg
      requires total <= |buf.Held()| && 0 <= flag <= |buf.Held()| && (flag == 0 || Find(buf.Held(), until, 0) == -1)
      modifies this`ioLen, buf, buf.data
      ensures buf.Valid() && (buf.data == old(buf.data) || fresh(buf.data))
      ensures buf.Held() == old(buf.Held()) && buf.wbeg <= old(buf.wbeg) && buf.rend == buf.wbeg
      ensures ok ==> Ready()
      ensures ok <==> old(buf.CanWiden(Room(len, total), memory))
      ensures memory && old(buf.wbeg) + len - total < 0x4000_0000 ==> ok
    {
      hide Split, Buffer.Window, Buffer.Held, Find, Proper;
      RoomToWiden(buf, Room(len, total), memory);
      var bytes := len - total;
      if bytes > BATCH_SIZE {
        bytes := BATCH_SIZE;
      }
      ok := buf.ResizeW(bytes, memory);
      if ok {
        ioLen := buf.size - buf.wbeg;
      }
    }

    /** `_dpaio_read_until_prep`. */
    method Prep(memory: bool) returns (ret: int)
      requires buf.Valid() && Proper(src.script)
      modifies this, buf, buf.data
      ensures buf.Valid() && (buf.data == old(buf.data) || fresh(buf.data))
      ensures ret == INVAL <==> until == [] || len <= 0
      ensures ret == INVAL ==> buf.Window() == old(buf.Window())
      ensures ret != INVAL ==>
        var v, held := old(buf.Window()), old(buf.Held());
        if v.slack != [] && Find(held, until, 0) >= 0 then
          ret == Find(held, until, 0) + |until| && buf.Window() == Split(held, ret)
        else
          && buf.Held() == held && buf.rend == buf.wbeg && (ret == NOMEM || ret == CONTINUE)
          && (ret == CONTINUE ==> Ready() && total == 0 && buf.wbeg <= old(buf.wbeg))
          && (ret == CONTINUE <==> old(buf.CanWiden(Room(len, 0), memory)))
          && (memory && old(buf.wbeg) + len < 0x4000_0000 ==> ret == CONTINUE)
    {
      hide Split, Buffer.Window, Buffer.Held, Find, Proper;
      if |until| < 1 || len <= 0 {
        return INVAL;
      }
      total := 0;
      if buf.wbeg - buf.rend > 0 {
        var idx := Search();
        if idx >= 0 {
          FoundInside(buf.Held(), until);
          Cut(idx + |until|);
          return idx + |until|;
        }
        NotFound(buf.Held(), until);
        flag := buf.rend - buf.rbeg;
      } else {
        flag := 0;
      }
      buf.HeldLength();
      var ok := Widen(memory);
      return if ok then CONTINUE else NOMEM;
    }

    /** The batch of reads in `post`, and the cursors after it. */
    method Fill() returns (ret: int, inva: bool)
      requires Ready()
      modifies src, buf`wbeg, buf`rend, buf.data
      ensures buf.Valid() && Proper(src.script)
      ensures
        var b := Pull(old(src.script), Room(len, total));
        && src.script == b.rest && ret == Reported(b) && inva == b.end.Ended?
        && buf.Held() == (if ret > 0 then old(buf.Held()) + b.got else old(buf.Held()))
        && buf.rend == buf.wbeg == old(buf.wbeg) + (if ret > 0 then ret else 0)
        && (ret > 0 ==> ret == |b.got|)
    {
      hide Find, Pull, Proper, Stream, Reported, Split, Buffer.Window;
      ret, inva := ReadBehind(src, buf, ioLen);
      if ret > 0 {
        var _ := buf.WSeek(ret, Seek.Cur);
        var _ := buf.ESeek(0, Seek.End);
      }
    }

    /** The search in `post`, from where a delimiter may have begun that was cut off. */
    method Rescan(ghost h0: seq<byte>, ghost got: seq<byte>) returns (idx: int)
      requires buf.Valid() && buf.rend == buf.wbeg && buf.Held() == h0 + got && until != []
      requires 0 <= flag <= |h0| && (flag == 0 || Find(h0, until, 0) == -1)
      ensures Find(buf.Held(), until, 0) >= 0 ==> idx == Find(buf.Held(), until, 0)
      ensures Find(buf.Held(), until, 0) == -1 ==> idx < 0
    {
      hide Find, Split, Buffer.Window, Buffer.Held;
      var left := flag - |until| + 1;
      if left < 0 {
        left := 0;
      }
      buf.HeldLength();
      buf.WholeWindow();
      Resumed(h0, got, until, left, flag);
      idx := buf.CFind(until, left);
    }

    /** `_dpaio_read_until_post`. */
    method Post(memory: bool) returns (ret: int, inva: bool)
      requires Ready()
      modifies this`total, this`flag, this`ioLen, src, buf, buf.data
      ensures buf.Valid() && (buf.data == old(buf.data) || fresh(buf.data)) && Proper(src.script)
      ensures
        var b := Pull(old(src.script), Room(len, old(total)));
        var rep := Reported(b);
        var held := old(buf.Held()) + b.got;
        && src.script == b.rest && inva == b.end.Ended?
        && if rep <= 0 then
             ret == (if old(total) > 0 then old(total) else rep) && buf.Held() == old(buf.Held()) && Ready() && total == old(total)
             && buf.wbeg == old(buf.wbeg)
           else if Find(held, until, 0) >= 0 then
             ret == Find(held, until, 0) + |until| && buf.Window() == Split(held, ret)
           else
             && buf.Held() == held && buf.rend == buf.wbeg && flag == total == old(total) + rep && buf.wbeg <= old(buf.wbeg) + rep
             && if total >= len then ret == CONTINUE
                else
                  && ret == (if Buffer.Widens(old(buf.rbeg), old(buf.wbeg) + rep, old(buf.maxs), old(buf.noRecycle),
                                              Room(len, total), memory)
                             then WAIT else total)
                  && (ret == WAIT ==> Ready())
                  && (memory && old(buf.wbeg) + len - old(total) < 0x4000_0000 ==> ret == WAIT)
    {
      hide Find, Pull, Proper, Stream, Reported, Split, Buffer.Window, Buffer.Held, Buffer.Widens, Buffer.CanWiden;
      ghost var h0, b := buf.Held(), Pull(src.script, Room(len, total));
      ret, inva := Fill();
      if ret <= 0 {
        return if total > 0 then total else ret, inva;
      }
      total := total + ret;
      var idx := Rescan(h0, b.got);
      if idx >= 0 {
        FoundInside(buf.Held(), until);
        Cut(idx + |until|);
        return idx + |until|, inva;
      }
      NotFound(buf.Held(), until);
      flag := total;
      buf.HeldLength();
      if total >= len {
        return CONTINUE, inva;
      }
      buf.WidensIs(Room(len, total), memory);
      var ok := Widen(memory);
      return if ok then WAIT else total, inva;
    }

    /**
     The operation from start to end, with memory for the buffer to grow: a post follows at once when the last one left
     the event set, and otherwise as soon as the descriptor has a further answer.  It does what `UntilFrom` says, although
     it searches no byte twice but for a delimiter's length.
     */
    method Run() returns (ret: int, ghost o: Outcome)
      requires buf.Valid() && Proper(src.script) && (len > 0 ==> buf.wbeg + len < 0x4000_0000)
      modifies this, src, buf, buf.data
      ensures buf.Valid() && Proper(src.script)
      ensures until == [] || len <= 0 ==> ret == INVAL && buf.Window() == old(buf.Window()) && src.script == old(src.script)
      ensures until != [] && len > 0 ==>
        && o == UntilFrom(old(buf.Window()), until, len, old(src.script))
        && ret == Code(o) && src.script == o.rest && (o.Hit? ==> o.len <= |o.held|) && buf.Window() == Shown(o)
    {
      hide Find, Pull, Proper, Stream, Reported, Split, Buffer.Window, Buffer.Held, Until, Room;
      ghost var v, held := buf.Window(), buf.Held();
      buf.WindowIs();
      ret := Prep(true);
      if ret == INVAL {
        o := Blocked(held, src.script);
        return;
      }
      if ret != CONTINUE {
        FoundInside(held, until);
        o := Hit(Find(held, until, 0) + |until|, held, src.script);
        return;
      }
      o := Until(held, until, len, 0, src.script);
      ret := WAIT;
      var more := true;
      while ret == WAIT && more
        invariant buf.Valid() && Proper(src.script) && (buf.data == old(buf.data) || fresh(buf.data))
        invariant ret == WAIT && more ==>
          Ready() && buf.wbeg + len - total < 0x4000_0000 && o == Until(buf.Held(), until, len, total, src.script)
        invariant !(ret == WAIT && more) ==>
          ret == Code(o) && src.script == o.rest && (o.Hit? ==> o.len <= |o.held|) && buf.Window() == Shown(o)
        decreases ret == WAIT && more, len - total, |src.script|
      {
        UntilStep(buf.Held(), until, len, total, src.script);
        FoundInside(buf.Held() + Pull(src.script, Room(len, total)).got, until);
        var inva;
        ret, inva := Post(true);
        more := ret != WAIT || !inva || |src.script| > 0;
        if buf.rend == buf.wbeg {
          buf.WholeWindow();
        }
      }
    }
  }

  /** `Until`, one batch at a time. */
  lemma UntilStep(held: seq<byte>, until: seq<byte>, max: int, total: nat, script: seq<Chunk>)
    requires total < max
    ensures
      var b := Pull(script, Room(max, total));
      var ret, h := Reported(b), held + b.got;
      && |b.rest| <= |script| && (ret <= 0 ==> b.end.Ended?)
      && (ret <= 0 && ret != EOF && b.rest != [] ==> |b.rest| < |script|)
      && Until(held, until, max, total, script) ==
         if ret <= 0 then
           if total > 0 then Stopped(total, held, b.rest)
           else if ret != WAIT then Stopped(ret, held, b.rest)
           else if b.rest == [] then Blocked(held, b.rest)
           else Until(held, until, max, total, b.rest)
         else if Find(h, until, 0) >= 0 then Hit(Find(h, until, 0) + |until|, h, b.rest)
         else if total + ret >= max then Exhausted(h, b.rest)
         else if b.end.Ended? && b.rest == [] then Blocked(h, b.rest)
         else Until(h, until, max, total + ret, b.rest)
  {
    PullKeepsStream(script, Room(max, total));
  }

  /** The scan position is good enough to resume at. */
  lemma Resumed(held: seq<byte>, got: seq<byte>, until: seq<byte>, left: nat, flag: nat)
    requires until != [] && flag <= |held| && (flag == 0 || Find(held, until, 0) == -1)
    requires left == if flag - |until| + 1 < 0 then 0 else flag - |until| + 1
    ensures left <= |held| && Find(held + got, until, left) == Find(held + got, until, 0)
  {
    if flag > 0 {
      FindResumes(held, got, until, left);
    }
  }

  lemma FoundInside(s: seq<byte>, m: seq<byte>)
    ensures Find(s, m, 0) >= 0 ==> Find(s, m, 0) + |m| <= |s|
  {
  }

  lemma NotFound(s: seq<byte>, m: seq<byte>)
    ensures Find(s, m, 0) < 0 ==> Find(s, m, 0) == -1
  {
  }
}
