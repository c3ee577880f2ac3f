/**
 The growable byte buffer of `dpbuf.c`, with one owner: one block of memory with the cursors `rbeg <= rend <= wbeg`.
 What lies between the first two is the readable window, what lies between the last two is the slack.
 */
module ByteBuf {
  import opened Arith
  import opened Ret
  import opened Seqs

  newtype byte = x: int | 0 <= x < 256

  const MAX_SIZE := 0x4fff_ffff
  const S_SIZE := 1024
  const INT_MAX := 0x7fff_ffff

  // ------------------------------------------------------------------ growth

  /** The shifts of `_pow_min_value`, one after the other: each bit is spread over the places below it. */
  function Spread2(x: nat): nat {
    Or(x, x / 2)
  }

  function Spread4(x: nat): nat {
    Or(Spread2(x), Spread2(x) / 4)
  }

  function Spread8(x: nat): nat {
    Or(Spread4(x), Spread4(x) / 16)
  }

  function Spread16(x: nat): nat {
    Or(Spread8(x), Spread8(x) / 256)
  }

  /** `_pow_min_value`. */
  function PowMin(value: nat): nat {
    if value == 0 then 1 else Spread16(value - 1) + 1
  }

  lemma {:induction false} Smear(x: nat, k: nat)
    ensures x <= Spread2(x) <= Spread16(x)
    ensures x < Pow2(k) ==> Spread16(x) < Pow2(k)
  {
    hide Or;
    OrAbove(x, x / 2);
    OrAbove(Spread2(x), Spread2(x) / 4);
    OrAbove(Spread4(x), Spread4(x) / 16);
    OrAbove(Spread8(x), Spread8(x) / 256);
    if x < Pow2(k) {
      OrBelow(x, x / 2, k);
      OrBelow(Spread2(x), Spread2(x) / 4, k);
      OrBelow(Spread4(x), Spread4(x) / 16, k);
      OrBelow(Spread8(x), Spread8(x) / 256, k);
    }
  }

  /** The new capacity is between the request and twice the request. */
  lemma GrowthBounds(value: nat)
    requires value > 0
    ensures value <= PowMin(value) <= 2 * value
  {
    hide Spread16;
    if value == 1 {
      Smear(0, 0);
    } else {
      var k := Above(value - 1);
      Smear(value - 1, k + 1);
    }
  }

  lemma Pow2Thirty()
    ensures Pow2(29) == 0x2000_0000 && Pow2(30) == 0x4000_0000 && Pow2(31) == 0x8000_0000
  {
    assert Pow2(10) == 1024;
    assert Pow2(20) == 1024 * Pow2(10);
    assert Pow2(29) == 512 * Pow2(20);
  }

  /** The limit on the new capacity turns down exactly the requests beyond 2^30. */
  lemma GrowthLimit(value: nat)
    requires 0 < value <= INT_MAX
    ensures PowMin(value) <= MAX_SIZE <==> value <= 0x4000_0000
  {
    hide Pow2, Or;
    Pow2Thirty();
    var x := value - 1;
    Smear(x, 30);
    if x >= 0x4000_0000 {
      OrTop(x, x / 2, 29);
    }
  }

  lemma Spread2Bits(x: nat)
    ensures (Spread2(x) % 2 == 1 <==> x % 4 != 0) && Spread2(x) / 2 == Spread2(x / 2)
  {
    hide Or;
    OrBits(x, x / 2);
  }

  lemma Spread4Bits(x: nat)
    ensures (Spread4(x) % 2 == 1 <==> x % 16 != 0) && Spread4(x) / 2 == Spread4(x / 2)
  {
    hide Or, Spread2;
    OrBits(Spread2(x), Spread2(x) / 4);
    Spread2Bits(x);
    Spread2Bits(x / 2);
    Spread2Bits(x / 4);
  }

  lemma Spread8Bits(x: nat)
    ensures (Spread8(x) % 2 == 1 <==> x % 256 != 0) && Spread8(x) / 2 == Spread8(x / 2)
  {
    hide Or, Spread4;
    OrBits(Spread4(x), Spread4(x) / 16);
    Spread4Bits(x);
    Spread4By16(x);
    Spread4By16(x / 2);
    Spread4Bits(x / 16);
  }

  lemma Spread4By16(x: nat)
    ensures Spread4(x) / 16 == Spread4(x / 16)
  {
    hide Spread4;
    Spread4Bits(x);
    Spread4Bits(x / 2);
    Spread4Bits(x / 4);
    Spread4Bits(x / 8);
  }

  lemma Spread8By16(x: nat)
    ensures Spread8(x) / 16 == Spread8(x / 16)
  {
    hide Spread8;
    Spread8Bits(x);
    Spread8Bits(x / 2);
    Spread8Bits(x / 4);
    Spread8Bits(x / 8);
  }

  /** The lowest bit comes out set exactly if one of the sixteen lowest was; the others come out as those of `x / 2`. */
  lemma Spread16Bits(x: nat)
    ensures (Spread16(x) % 2 == 1 <==> x % 0x1_0000 != 0) && Spread16(x) / 2 == Spread16(x / 2)
  {
    hide Or, Spread8;
    OrBits(Spread8(x), Spread8(x) / 256);
    Spread8Bits(x);
    Spread8By16(x);
    Spread8By16(x / 16);
    Spread8By16(x / 2);
    Spread8By16(x / 32);
    Spread8Bits(x / 256);
    assert Spread8(x) / 256 == Spread8(x / 256);
    SixteenBits(x);
  }

  lemma SixteenBits(x: nat)
    ensures x % 0x1_0000 == 0 <==> x % 256 == 0 && x / 256 % 256 == 0
  {
  }

  /** Sixteen zero bits in a row, with a one somewhere above them. */
  predicate HasGap(x: nat) {
    x >= 0x1_0000 && (x % 0x1_0000 == 0 || HasGap(x / 2))
  }

  lemma {:induction false} SpreadIsAllOnes(x: nat)
    ensures IsPower(Spread16(x) + 1) <==> !HasGap(x)
  {
    hide Spread16, IsPower, HasGap;
    if x > 0 {
      Spread16Bits(x);
      Smear(x, 0);
      OnesStep(Spread16(x));
      SpreadIsAllOnes(x / 2);
      SmallHasNoGap(x / 2);
      GapStep(x);
    } else {
      SpreadZero();
    }
  }

  lemma {:induction false} SpreadZero()
    ensures Spread16(0) == 0 && IsPower(1) && !HasGap(0)
  {
    assert Or(0, 0) == 0;
    hide Or;
    assert Spread2(0) == 0 && Spread4(0) == 0 && Spread8(0) == 0;
  }

  lemma {:induction false} GapStep(x: nat)
    ensures HasGap(x) <==> x >= 0x1_0000 && (x % 0x1_0000 == 0 || HasGap(x / 2))
  {
  }

  /**
   The last shift, by 16, is missing: the new capacity is a power of two exactly if the bits of `value - 1` have no gap of
   sixteen zeros.  It never exceeds the least power of two that is enough.
   */
  lemma GrowthIsAPowerIff(value: nat)
    requires value > 0
    ensures (exists k: nat :: PowMin(value) == Pow2(k)) <==> !HasGap(value - 1)
    ensures forall k: nat :: value <= Pow2(k) ==> PowMin(value) <= Pow2(k)
    ensures value <= 0x1_0000 ==> exists k: nat :: PowMin(value) == Pow2(k)
  {
    SpreadIsAllOnes(value - 1);
    PowerIsPow2(PowMin(value));
    hide Spread16, IsPower, HasGap;
    forall k: nat | value <= Pow2(k)
      ensures PowMin(value) <= Pow2(k)
    {
      Smear(value - 1, k);
    }
    SmallHasNoGap(value - 1);
  }

  lemma {:induction false} SmallHasNoGap(x: nat)
    ensures x < 0x1_0000 ==> !HasGap(x)
  {
  }

  /** A request whose capacity is not a power of two. */
  lemma GrowthIsNotAlwaysAPower()
    ensures PowMin(0x2_0001) == 0x3_FFFD
  {
    hide Or;
    assert Pow2(10) == 0x400;
    assert Pow2(14) == 16 * Pow2(10);
    assert Pow2(17) == 8 * Pow2(14);
    OrDisjoint(1, 0x1_0000, 0x2_0000, 17);
    OrDisjoint(3, 0xC000, 0x1_0000, 16);
    OrDisjoint(15, 0x3C00, 0x4000, 14);
    OrDisjoint(255, 0x3FC, 0x400, 10);
  }

  // ------------------------------------------------------------------ search

  ghost predicate Occurs(s: seq<byte>, m: seq<byte>, i: int) {
    0 <= i && i + |m| <= |s| && s[i..i + |m|] == m
  }

  /** `memmem` from position `from`: the first occurrence, or -1. */
  function Find(s: seq<byte>, m: seq<byte>, from: nat): (r: int)
    ensures r == -1 || (from <= r && Occurs(s, m, r))
    ensures forall i :: from <= i && (r == -1 || i < r) ==> !Occurs(s, m, i)
    decreases |s| - from
  {
    if from + |m| > |s| then -1
    else if s[from..from + |m|] == m then from
    else Find(s, m, from + 1)
  }

  /** What is found is not changed by what follows. */
  lemma FindExtends(s: seq<byte>, m: seq<byte>, t: seq<byte>)
    requires Find(s, m, 0) >= 0
    ensures Find(s + t, m, 0) == Find(s, m, 0)
  {
    var i := Find(s, m, 0);
    assert (s + t)[i..i + |m|] == s[i..i + |m|];
    assert Occurs(s + t, m, i);
    var j := Find(s + t, m, 0);
    assert (s + t)[j..j + |m|] == s[j..j + |m|];
    assert Occurs(s, m, j);
  }

  /**
   A search may resume at any lower bound of what was scanned without success, less the length of a delimiter that
   may have begun there.
   */
  lemma FindResumes(s: seq<byte>, t: seq<byte>, m: seq<byte>, from: nat)
    requires m != [] && Find(s, m, 0) == -1 && from <= (if |s| - |m| + 1 < 0 then 0 else |s| - |m| + 1)
    ensures Find(s + t, m, from) == Find(s + t, m, 0)
  {
    forall i | 0 <= i < from
      ensures !Occurs(s + t, m, i)
    {
      if Occurs(s + t, m, i) {
        assert (s + t)[i..i + |m|] == s[i..i + |m|];
        assert Occurs(s, m, i);
      }
    }
    SameFind(s + t, m, from);
  }

  lemma {:induction false} SameFind(s: seq<byte>, m: seq<byte>, from: nat)
    requires forall i :: 0 <= i < from ==> !Occurs(s, m, i)
    ensures Find(s, m, from) == Find(s, m, 0)
  {
    var r, q := Find(s, m, from), Find(s, m, 0);
    if q >= 0 {
      assert Occurs(s, m, q);
    }
  }

  // ------------------------------------------------------------------ the buffer as two sequences

  /** The readable window and the slack behind it. */
  datatype View = View(window: seq<byte>, slack: seq<byte>)

  datatype Op =
    | Append(bytes: seq<byte>)
    | ReadData(len: int)
    | ReadMust(len: int)
    | ReadUntil(until: seq<byte>)
    | ReadAll
    | ReadTo(size: int)

  function Take(v: View, n: nat): View
    requires n <= |v.slack|
  {
    View(v.slack[..n], v.slack[n..])
  }

  /** How many bytes an operation takes out of the slack. */
  function Amount(op: Op, slack: seq<byte>): (n: nat)
    ensures n <= |slack|
  {
    match op
    case Append(_) => 0
    case ReadData(len) => if len < 0 || len > |slack| then |slack| else len
    case ReadMust(len) => if len < 0 || len > |slack| then 0 else len
    case ReadUntil(until) => if until != [] && Find(slack, until, 0) >= 0 then Find(slack, until, 0) + |until| else 0
    case ReadAll => |slack|
    case ReadTo(size) => if size <= 0 || size > |slack| then |slack| else size
  }

  /** The view after a successful operation. */
  function Apply(v: View, op: Op): View {
    match op
    case Append(bytes) => View(v.window, v.slack + bytes)
    case ReadTo(_) => View([], v.slack[Amount(op, v.slack)..])
    case _ => Take(v, Amount(op, v.slack))
  }

  function Final(v: View, ops: seq<Op>): View
    decreases |ops|
  {
    if ops == [] then v else Final(Apply(v, ops[0]), ops[1..])
  }

  /** What the reads hand out, one after the other. */
  function Handed(v: View, ops: seq<Op>): seq<byte>
    decreases |ops|
  {
    if ops == [] then [] else v.slack[..Amount(ops[0], v.slack)] + Handed(Apply(v, ops[0]), ops[1..])
  }

  function Appended(ops: seq<Op>): seq<byte> {
    if ops == [] then [] else (if ops[0].Append? then ops[0].bytes else []) + Appended(ops[1..])
  }

  /** Any mix of appends and reads: the bytes come out in the order they went in, none lost and none twice. */
  lemma {:induction false} BufferIsAStream(v: View, ops: seq<Op>)
    ensures Handed(v, ops) + Final(v, ops).slack == v.slack + Appended(ops)
    decreases |ops|
  {
    hide Amount, Apply, Find;
    if ops != [] {
      var v', taken := Apply(v, ops[0]), v.slack[..Amount(ops[0], v.slack)];
      BufferIsAStream(v', ops[1..]);
      Regroup(taken, Handed(v', ops[1..]), Final(v', ops[1..]).slack);
      OneOperation(v, ops[0], Appended(ops[1..]));
    }
  }

  /** One operation takes from the front of the slack or adds behind it. */
  lemma OneOperation(v: View, op: Op, more: seq<byte>)
    ensures
      var taken := v.slack[..Amount(op, v.slack)];
      taken + (Apply(v, op).slack + more) == v.slack + ((if op.Append? then op.bytes else []) + more)
  {
    hide Find;
    var n := Amount(op, v.slack);
    if op.Append? {
      Regroup(v.slack, op.bytes, more);
    } else {
      assert v.slack[..n] + v.slack[n..] == v.slack;
      Regroup(v.slack[..n], v.slack[n..], more);
    }
  }

  // ------------------------------------------------------------------ the buffer in memory

  function Concat(chunks: seq<seq<byte>>): seq<byte> {
    if chunks == [] then [] else Concat(chunks[..|chunks| - 1]) + chunks[|chunks| - 1]
  }

  lemma ConcatOn(chunks: seq<seq<byte>>, i: nat)
    requires i < |chunks|
    ensures Concat(chunks[..i + 1]) == Concat(chunks[..i]) + chunks[i]
  {
    assert chunks[..i + 1][..i] == chunks[..i];
  }

  lemma ConcatAll(chunks: seq<seq<byte>>)
    ensures chunks[..|chunks|] == chunks && Concat(chunks[..0]) == []
  {
  }

  function Clamp(v: int, l: int, h: int): (r: int)
    ensures l <= h ==> l <= r <= h && (l <= v <= h ==> r == v) && (v < l ==> r == l) && (v > h ==> r == h)
  {
    var t := if v < l then l else v;
    if t < h then t else h
  }

  datatype Seek = Set | Cur | End

  function Split(held: seq<byte>, n: nat): View
    requires n <= |held|
  {
    View(held[..n], held[n..])
  }

  lemma SplitAppend(held: seq<byte>, n: nat, src: seq<byte>)
    requires n <= |held|
    ensures Split(held + src, n) == Apply(Split(held, n), Append(src))
  {
    assert (held + src)[..n] == held[..n];
    assert (held + src)[n..] == held[n..] + src;
  }

  lemma SplitIsTake(v: View, n: nat)
    requires n <= |v.slack|
    ensures Split(v.slack, n) == Take(v, n)
  {
  }

  lemma ReadToIs(v: View, size: int)
    ensures
      var n := Amount(Op.ReadTo(size), v.slack);
      && Apply(v, Op.ReadTo(size)) == View([], v.slack[n..])
      && n == if size <= 0 || size > |v.slack| then |v.slack| else size
  {
  }

  lemma AppendIs(v: View, src: seq<byte>)
    ensures Apply(v, Append(src)) == View(v.window, v.slack + src)
    ensures |v.slack| == 0 ==> v.slack + src == src
  {
  }

  lemma TakeIs(v: View, n: nat)
    requires n <= |v.slack|
    ensures Take(v, n) == View(v.slack[..n], v.slack[n..]) && v.slack[0..] == v.slack && v.slack[..0] == []
  {
  }

  lemma UntilIsTake(v: View, until: seq<byte>)
    ensures
      var n := Amount(ReadUntil(until), v.slack);
      && Apply(v, ReadUntil(until)) == Take(v, n)
      && n == (if until != [] && Find(v.slack, until, 0) >= 0 then Find(v.slack, until, 0) + |until| else 0)
  {
  }

  /** All of it in the window, or none. */
  lemma SplitEnds(held: seq<byte>)
    ensures Split(held, |held|) == View(held, []) && Split(held, 0) == View([], held)
  {
  }

  lemma Front(d: array<byte>, a: nat, n: nat, b: nat)
    requires a + n <= b <= d.Length
    ensures d[a..a + n] == d[a..b][..n]
  {
  }

  lemma Tail(d: array<byte>, a: nat, b: nat, c: nat)
    requires a <= b <= c <= d.Length
    ensures d[a..c][b - a..] == d[b..c] && d[a..c][..b - a] == d[a..b]
  {
  }

  lemma SplitJoins(held: seq<byte>, n: nat)
    requires n <= |held|
    ensures Split(held, n).window + Split(held, n).slack == held
  {
  }

  /** `memmove` to the front. */
  method MoveFront(d: array<byte>, beg: nat, n: nat)
    requires beg + n <= d.Length
    modifies d
    ensures d[0..n] == old(d[beg..beg + n])
  {
    forall i | 0 <= i < n {
      d[i] := d[beg + i];
    }
  }

  /** `memcpy`. */
  method Copy(d: array<byte>, at: nat, src: seq<byte>)
    requires at + |src| <= d.Length
    modifies d
    ensures d[..at] == old(d[..at]) && d[at..at + |src|] == src
  {
    forall i | 0 <= i < |src| {
      d[at + i] := src[i];
    }
  }

  /** `realloc`. */
  method Grow(d: array<byte>, n: nat) returns (e: array<byte>)
    requires d.Length <= n
    ensures fresh(e) && e.Length == n && e[..d.Length] == d[..]
  {
    e := new byte[n];
    forall i | 0 <= i < d.Length {
      e[i] := d[i];
    }
  }

  lemma Part(s: seq<byte>, i: nat, j: nat, k: nat)
    requires i <= j <= k <= |s|
    ensures s[..j][i..] == s[..k][i..j] == s[i..j]
  {
  }

  class Buffer {
    var data: array<byte>
    var maxs: int
    var rbeg: int
    var rend: int
    var wbeg: int
    var size: int
    var noRecycle: bool

    ghost predicate Valid()
      reads this, data
    {
      && 0 <= rbeg <= rend <= wbeg <= size < data.Length
      && maxs <= data.Length <= maxs + 1
    }

    /** The bytes that are not consumed yet. */
    ghost function Held(): seq<byte>
      requires 0 <= rbeg <= wbeg <= data.Length
      reads this`data, this`rbeg, this`wbeg, data
    {
      data[rbeg..wbeg]
    }

    ghost function Window(): (v: View)
      requires 0 <= rbeg <= rend <= wbeg <= data.Length
      reads this`data, this`rbeg, this`rend, this`wbeg, data
      ensures |v.window| == rend - rbeg && |v.slack| == wbeg - rend
    {
      Split(Held(), rend - rbeg)
    }

    lemma WindowBytes()
      requires Valid()
      ensures Window().window == data[rbeg..rend] && Window().slack == data[rend..wbeg]
    {
      Tail(data, rbeg, rend, wbeg);
    }

    lemma HeldLength()
      requires Valid()
      ensures |Held()| == wbeg - rbeg
    {
    }

    lemma WholeWindow()
      requires Valid() && rend == wbeg
      ensures Window() == View(Held(), [])
    {
      SplitEnds(Held());
    }

    lemma WindowIs()
      requires Valid()
      ensures Window() == Split(Held(), rend - rbeg) && Window().window + Window().slack == Held()
    {
      SplitJoins(Held(), rend - rbeg);
    }

    /** `dpbuf_new` and `_dpbuf_data_new`; `memory` says whether the allocation succeeds. */
    static method New(size: int, memory: bool) returns (self: Buffer?)
      ensures self != null <==> 0 <= size < INT_MAX && memory
      ensures self != null ==>
        fresh(self) && fresh(self.data) && self.Valid() && self.Window() == View([], []) && self.size == self.maxs == size
      ensures self != null ==> self.rbeg == self.rend == self.wbeg == 0 && !self.noRecycle
    {
      if size < 0 || size >= INT_MAX || !memory {
        return null;
      }
      self := new Buffer(size);
    }

    constructor (size: nat)
      ensures Valid() && fresh(data) && Window() == View([], []) && this.size == size == maxs
      ensures rbeg == rend == wbeg == 0 && !noRecycle
    {
      data := new byte[size + 1];
      maxs, rbeg, rend, wbeg, this.size, noRecycle := size, 0, 0, 0, size, false;
    }

    /** Where the write position is once what can be recycled is. */
    function Recycled(): int
      requires Valid()
      reads this, data
    {
      if rbeg == wbeg then 0
      else if rbeg > S_SIZE && maxs / rbeg < 4 then wbeg - rbeg
      else wbeg
    }

    /** Whether the block of memory holds `n` bytes and a terminator, or can be made to. */
    predicate CanExtend(n: int, memory: bool)
      reads this
    {
      n > 0 && (maxs > n || (memory && n < 0x4000_0000))
    }

    /** Whether there can be exactly `s` bytes of room for writing. */
    predicate CanWiden(s: int, memory: bool)
      requires Valid()
      reads this, data
    {
      s >= 0 && CanExtend((if noRecycle then wbeg else Recycled()) + s, memory)
    }

    /** The same, by the fields it depends on. */
    static predicate Widens(rbeg: nat, wbeg: nat, maxs: int, noRecycle: bool, s: int, memory: bool) {
      var at := if noRecycle then wbeg
                else if rbeg == wbeg then 0
                else if rbeg > S_SIZE && maxs / rbeg < 4 then wbeg - rbeg
                else wbeg;
      s >= 0 && at + s > 0 && (maxs > at + s || (memory && at + s < 0x4000_0000))
    }

    lemma WidensIs(s: int, memory: bool)
      requires Valid()
      ensures CanWiden(s, memory) == Widens(rbeg, wbeg, maxs, noRecycle, s, memory)
    {
    }

    /** Whether there is room for `len` bytes, or can be. */
    predicate CanHold(len: int, memory: bool)
      requires Valid()
      reads this, data
    {
      size - wbeg >= len || CanWiden(len, memory)
    }

    /** A capacity that is enough for `m` bytes held at a time, whatever went before. */
    static function Enough(m: int): int {
      3 * m + 2 * S_SIZE + 2
    }

    static lemma EnoughIs(rbeg: nat, maxs: int, m: nat)
      requires rbeg <= S_SIZE || maxs / rbeg >= 4
      ensures maxs <= rbeg + m ==> 2 * (rbeg + m) + 2 <= Enough(m)
    {
      if rbeg > S_SIZE {
        assert maxs >= maxs / rbeg * rbeg;
        assert maxs / rbeg * rbeg >= 4 * rbeg;
      }
    }

    /** `_dpbuf_recycle_data`: forgets what was consumed, or moves what is held to the front. */
    method RecycleData()
      requires Valid()
      modifies this`rbeg, this`rend, this`wbeg, this`size, data
      ensures 0 <= rbeg <= wbeg <= data.Length && Held() == old(Held()) && rend - rbeg == old(rend - rbeg)
      ensures Valid() && Window() == old(Window()) && size - wbeg == old(size - wbeg) && wbeg <= old(wbeg)
      ensures wbeg == old(Recycled())
      ensures old(rbeg == wbeg) || rbeg != old(rbeg) ==> data[size] == 0
      ensures rbeg == wbeg ==> wbeg == 0
      ensures rbeg <= S_SIZE || maxs / rbeg >= 4
      ensures rbeg == 0 || (rbeg == old(rbeg) && wbeg == old(wbeg))
      ensures old(rbeg != wbeg && (rbeg <= S_SIZE || maxs / rbeg >= 4)) ==> rbeg == old(rbeg)
    {
      hide Split, Window;
      WindowIs();
      var beg := rbeg;
      if beg == wbeg {
        size := size - wbeg;
        rbeg, rend, wbeg := 0, 0, 0;
        Terminate(size);
      } else if beg > S_SIZE && maxs / beg < 4 {
        ghost var held := Held();
        MoveFront(data, beg, wbeg - beg);
        rbeg, rend, wbeg, size := 0, rend - beg, wbeg - beg, size - beg;
        assert Held() == held;
        Terminate(size);
      }
      WindowIs();
    }

    /** The zero byte behind the buffer's contents. */
    method Terminate(at: nat)
      requires Valid() && wbeg <= at < data.Length
      modifies data
      ensures Valid() && Held() == old(Held()) && data[at] == 0
    {
      data[at] := 0;
      assert data[rbeg..wbeg] == old(data[rbeg..wbeg]);
    }

    /** `_dpbuf_data_resize`: room for `n` bytes and a terminator. */
    method DataResize(n: nat, memory: bool) returns (ok: bool)
      requires Valid() && wbeg <= n
      modifies this`data, this`maxs, data
      ensures data == old(data) || fresh(data)
      ensures Valid() && Held() == old(Held())
      ensures ok ==> n < data.Length && data[n] == 0
      ensures !ok ==> data == old(data)
      ensures if ok && old(maxs) <= n then n < maxs <= 2 * n + 2 else maxs == old(maxs)
      ensures ok <==> old(maxs) > n || (memory && n < 0x4000_0000)
    {
      if maxs > n {
        Terminate(n);
        return true;
      }
      if n >= INT_MAX {
        return false;
      }
      GrowthBounds(n + 1);
      GrowthLimit(n + 1);
      var newsz := PowMin(n + 1);
      if newsz > MAX_SIZE || !memory {
        return false;
      }
      ghost var was := data[..];
      var tmp := Grow(data, newsz);
      Part(was, rbeg, wbeg, data.Length);
      Part(tmp[..], rbeg, wbeg, data.Length);
      data := tmp;
      maxs := newsz;
      assert Held() == was[rbeg..wbeg];
      Terminate(n);
      return true;
    }

    /** `_dpbuf_resize`. */
    method Resize(n: int, memory: bool) returns (ok: bool)
      requires Valid() && (n > 0 ==> wbeg <= n)
      modifies this`data, this`maxs, this`size, data
      ensures 0 <= rbeg <= wbeg <= data.Length && Held() == old(Held()) && rend - rbeg == old(rend - rbeg)
      ensures Valid() && Window() == old(Window()) && (data == old(data) || fresh(data))
      ensures size == if ok then n else old(size)
      ensures ok ==> data[size] == 0
      ensures if ok && old(maxs) <= n then n < maxs <= 2 * n + 2 else maxs == old(maxs)
      ensures ok <==> old(CanExtend(n, memory))
    {
      hide Split, Window, Held;
      if n <= 0 {
        return false;
      }
      WindowIs();
      ok := DataResize(n, memory);
      if ok {
        size := n;
      }
      WindowIs();
    }

    /** `dpbuf_resizew`: exactly `s` bytes of room for writing. */
    method ResizeW(s: int, memory: bool) returns (ok: bool)
      requires Valid()
      modifies this`rbeg, this`rend, this`wbeg, this`size, this`data, this`maxs, data
      ensures 0 <= rbeg <= wbeg <= data.Length && Held() == old(Held()) && rend - rbeg == old(rend - rbeg)
      ensures Valid() && Window() == old(Window()) && (data == old(data) || fresh(data))
      ensures ok ==> size == wbeg + s && s >= 0 && size > 0 && data[size] == 0
      ensures wbeg <= old(wbeg)
      ensures ok <==> old(CanWiden(s, memory))
      ensures !ok ==> size - wbeg == old(size - wbeg)
      ensures maxs == old(maxs) || (!noRecycle ==> maxs <= Enough(|old(Held())| + s))
      ensures old(rbeg == wbeg) && !noRecycle && 0 < s < old(maxs) ==> ok && maxs == old(maxs)
    {
      hide Split, Window, Held;
      if s < 0 {
        return false;
      }
      ghost var held := wbeg - rbeg;
      HeldLength();
      if !noRecycle {
        RecycleData();
        EnoughIs(rbeg, maxs, held + s);
      }
      ok := Resize(wbeg + s, memory);
    }

    /** `dpbuf_reset` for writing. */
    method ResetW()
      requires Valid()
      modifies this`rbeg, this`rend, this`wbeg
      ensures Valid() && Window() == View([], []) && wbeg == 0
    {
      rbeg, rend, wbeg := 0, 0, 0;
    }

    /** `_dpbuf_wcheck`. */
    method WCheck(len: int, memory: bool) returns (ok: bool)
      requires Valid()
      modifies this`rbeg, this`rend, this`wbeg, this`size, this`data, this`maxs, data
      ensures Valid() && Window() == old(Window()) && (data == old(data) || fresh(data))
      ensures ok ==> size - wbeg >= len
      ensures wbeg <= old(wbeg)
      ensures ok <==> old(CanHold(len, memory))
      ensures maxs == old(maxs) || (!noRecycle ==> maxs <= Enough(|old(Held())| + len))
      ensures old(rbeg == wbeg) && !noRecycle && 0 < len < old(maxs) ==> ok && maxs == old(maxs)
      ensures old(size - wbeg) >= len ==> ok && data == old(data) && maxs == old(maxs)
    {
      hide Split, Window, Held;
      if size - wbeg < len {
        ok := ResizeW(len, memory);
      } else {
        ok := true;
      }
    }

    /** `memcpy` to the write position, and the move of the cursor. */
    method Put(src: seq<byte>)
      requires Valid() && |src| <= size - wbeg
      modifies this`wbeg, data
      ensures Valid() && Window() == Apply(old(Window()), Append(src)) && wbeg == old(wbeg) + |src|
    {
      hide Split, Window, Apply;
      ghost var held := Held();
      WindowIs();
      SplitAppend(held, rend - rbeg, src);
      Copy(data, wbeg, src);
      Part(old(data[..]), rbeg, wbeg, wbeg);
      Part(data[..], rbeg, wbeg, wbeg + |src|);
      wbeg := wbeg + |src|;
      assert Held() == held + src;
      WindowIs();
    }

    /** `dpbuf_wdata`. */
    method WData(src: seq<byte>, memory: bool) returns (r: int)
      requires Valid()
      modifies this`rbeg, this`rend, this`wbeg, this`size, this`data, this`maxs, data
      ensures Valid() && (data == old(data) || fresh(data))
      ensures Window() == if r >= 0 then Apply(old(Window()), Append(src)) else old(Window())
      ensures r == if src == [] then INVAL else if old(CanHold(|src|, memory)) then |src| else NOMEM
      ensures wbeg <= old(wbeg) + |src|
      ensures maxs == old(maxs) || (!noRecycle ==> maxs <= Enough(|old(Held())| + |src|))
      ensures old(rbeg == wbeg) && !noRecycle && 0 < |src| < old(maxs) ==> r == |src| && maxs == old(maxs)
      ensures old(size - wbeg) >= |src| > 0 ==> r == |src| && maxs == old(maxs)
    {
      hide Split, Window, Held, Apply;
      if |src| == 0 {
        return INVAL;
      }
      var ok := WCheck(|src|, memory);
      if !ok {
        return NOMEM;
      }
      Put(src);
      return |src|;
    }

    /** `dpbuf_wfill`. */
    method WFill(len: nat, v: byte, memory: bool) returns (r: int)
      requires Valid()
      modifies this`rbeg, this`rend, this`wbeg, this`size, this`data, this`maxs, data
      ensures Valid() && (data == old(data) || fresh(data))
      ensures r == if old(CanHold(len, memory)) then len else NOMEM
      ensures Window() == if r >= 0 then Apply(old(Window()), Append(seq(len, _ => v))) else old(Window())
    {
      hide Split, Window, Held, Apply;
      var ok := WCheck(len, memory);
      if !ok {
        return NOMEM;
      }
      Put(seq(len, _ => v));
      return len;
    }

    /** `dpbuf_wbuf`: appends from the readable window of another buffer. */
    method WBuf(buf: Buffer, len: int, memory: bool) returns (r: int)
      requires Valid() && buf != this && buf.data != data && buf.Valid()
      modifies this`rbeg, this`rend, this`wbeg, this`size, this`data, this`maxs, data
      ensures Valid() && (data == old(data) || fresh(data))
      ensures
        var w := old(buf.Window()).window;
        var n := if len <= 0 || |w| < len then |w| else len;
        && r == (if old(CanHold(n, memory)) then n else NOMEM)
        && Window() == if r >= 0 then Apply(old(Window()), Append(w[..n])) else old(Window())
    {
      hide Split, Window, Held, Apply, CanHold;
      var alen := buf.rend - buf.rbeg;
      var n := if len <= 0 then alen else if alen < len then alen else len;
      ghost var w := buf.Window().window;
      buf.WindowBytes();
      var ok := WCheck(n, memory);
      if !ok {
        return NOMEM;
      }
      Front(buf.data, buf.rbeg, n, buf.rend);
      Put(buf.data[buf.rbeg..buf.rbeg + n]);
      return n;
    }

    /** `dpbuf_rseek`. */
    method RSeek(offset: int, seek: Seek) returns (moved: int)
      requires Valid()
      modifies this`rbeg
      ensures Valid() && moved == rbeg - old(rbeg)
      ensures rbeg == Clamp((match seek case Set => 0 case Cur => old(rbeg) case End => rend) + offset, 0, rend)
    {
      var i := rbeg;
      match seek {
        case Set => rbeg := Clamp(0 + offset, 0, rend);
        case Cur => rbeg := Clamp(rbeg + offset, 0, rend);
        case End => rbeg := Clamp(rend + offset, 0, rend);
      }
      moved := rbeg - i;
    }

    /** `dpbuf_wseek`. */
    method WSeek(offset: int, seek: Seek) returns (moved: int)
      requires Valid()
      modifies this`wbeg
      ensures Valid() && moved == wbeg - old(wbeg)
      ensures wbeg == Clamp((match seek case Set => rend case Cur => old(wbeg) case End => size) + offset, rend, size)
    {
      var i := wbeg;
      match seek {
        case Set => wbeg := Clamp(rend + offset, rend, size);
        case Cur => wbeg := Clamp(wbeg + offset, rend, size);
        case End => wbeg := Clamp(size + offset, rend, size);
      }
      moved := wbeg - i;
    }

    /** `dpbuf_eseek`: moves the border between window and slack. */
    method ESeek(offset: int, seek: Seek) returns (moved: int)
      requires Valid()
      modifies this`rend
      ensures 0 <= rbeg <= wbeg <= data.Length && Held() == old(Held())
      ensures Valid() && moved == rend - old(rend)
      ensures rend == Clamp((match seek case Set => rbeg case Cur => old(rend) case End => wbeg) + offset, rbeg, wbeg)
      ensures
        var held := old(Window().window + Window().slack);
        0 <= rend - rbeg <= |held| && Window() == Split(held, rend - rbeg)
    {
      hide Split, Window;
      var i := rend;
      WindowIs();
      match seek {
        case Set => rend := Clamp(rbeg + offset, rbeg, wbeg);
        case Cur => rend := Clamp(rend + offset, rbeg, wbeg);
        case End => rend := Clamp(wbeg + offset, rbeg, wbeg);
      }
      WindowIs();
      moved := rend - i;
    }

    /** `dpbuf_cfind`. */
    method CFind(m: seq<byte>, left: nat) returns (r: int)
      requires Valid() && left <= rend - rbeg
      ensures m != [] && Find(Window().window, m, left) >= 0 ==> r == Find(Window().window, m, left)
      ensures m == [] || Find(Window().window, m, left) == -1 ==> r == NODATA || r == PERM
    {
      hide Split, Window, Held;
      if |m| == 0 || rend - rbeg < |m| {
        return NODATA;
      }
      WindowBytes();
      var p := Find(data[rbeg..rend], m, left);
      return if p == -1 then PERM else p;
    }

    /** The start of every read: the window goes, the slack stays. */
    method Skip()
      requires Valid()
      modifies this`rbeg
      ensures Valid() && rbeg == rend && Held() == old(Window().slack)
    {
      WindowBytes();
      hide Split, Window;
      rbeg := rend;
    }

    /** The window takes the first `n` bytes of the slack. */
    method Advance(n: nat)
      requires Valid() && n <= wbeg - rend
      modifies this`rbeg, this`rend
      ensures Valid() && Window() == Take(old(Window()), n) && rbeg == old(rend) && wbeg - rend == old(wbeg - rend) - n
    {
      hide Window, Held;
      Skip();
      rend := rend + n;
      WindowIs();
    }

    /** `dpbuf_rdata`. */
    method RData(len: int) returns (r: int)
      requires Valid()
      modifies this`rbeg, this`rend
      ensures Valid() && Window() == Apply(old(Window()), ReadData(len))
      ensures
        var slack := old(Window().slack);
        r == (if 0 <= len <= |slack| then len else |slack|) && Window() == View(slack[..r], slack[r..])
    {
      hide Split, Window, Held;
      var slen := wbeg - rend;
      r := if len < 0 || slen < len then slen else len;
      Advance(r);
    }

    /** `dpbuf_rmust`. */
    method RMust(len: int) returns (r: int)
      requires Valid()
      modifies this`rbeg, this`rend
      ensures Valid() && Window() == Apply(old(Window()), ReadMust(len))
      ensures
        var slack := old(Window().slack);
        if 0 <= len <= |slack| then r == len && Window() == View(slack[..len], slack[len..])
        else r == NODATA && Window() == View([], slack)
    {
      hide Split, Window, Held;
      if len < 0 || len > wbeg - rend {
        Advance(0);
        return NODATA;
      }
      Advance(len);
      return len;
    }

    /** `dpbuf_runtil`. */
    method RUntil(until: seq<byte>) returns (r: int)
      requires Valid()
      modifies this`rbeg, this`rend
      ensures Valid() && Window() == Apply(old(Window()), ReadUntil(until))
      ensures
        var slack, i := old(Window().slack), Find(old(Window().slack), until, 0);
        if until != [] && i >= 0 then
          r == i + |until| <= |slack| && Window() == View(slack[..r], slack[r..])
        else r == NODATA && Window() == View([], slack)
    {
      hide Split, Window, Held, Amount, Apply, Take, Find;
      ghost var v, slack := Window(), Window().slack;
      UntilIsTake(v, until);
      TakeIs(v, 0);
      if until != [] && Find(slack, until, 0) >= 0 {
        TakeIs(v, Find(slack, until, 0) + |until|);
      }
      Skip();
      rend := wbeg;
      WindowIs();
      SplitEnds(slack);
      var idx := CFind(until, 0);
      if idx < 0 {
        rend := rbeg;
        WindowIs();
        SplitIsTake(v, 0);
        return NODATA;
      }
      r := idx + |until|;
      rend := rbeg + r;
      WindowIs();
      SplitIsTake(v, r);
    }

    /** `dpbuf_rall`. */
    method RAll() returns (r: int)
      requires Valid()
      modifies this`rbeg, this`rend
      ensures Valid() && Window() == Apply(old(Window()), ReadAll) == View(old(Window().slack), []) && r == |Window().window|
    {
      hide Split, Window, Held;
      r := wbeg - rend;
      Advance(r);
    }

    /**
     Appends that are each read and consumed before the next: all go through, within a capacity that depends on the largest
     of them only, and without memory if the buffer has that capacity to begin with.
     */
    method Relay(chunks: seq<seq<byte>>, m: nat, memory: bool) returns (ok: bool, out: seq<byte>)
      requires Valid() && rbeg == wbeg && !noRecycle && forall i :: 0 <= i < |chunks| ==> 0 < |chunks[i]| <= m
      modifies this`rbeg, this`rend, this`wbeg, this`size, this`data, this`maxs, data
      ensures Valid() && (data == old(data) || fresh(data))
      ensures maxs == old(maxs) || maxs <= Enough(m)
      ensures old(maxs) > m ==> maxs == old(maxs)
      ensures old(maxs) > m || (memory && m < 0x4000_0000) ==> ok
      ensures ok ==> out == Concat(chunks) && rbeg == wbeg
    {
      hide Split, Window, Held, Apply;
      ok, out := true, [];
      ConcatAll(chunks);
      for i := 0 to |chunks|
        invariant Valid() && rbeg == wbeg && !noRecycle && (data == old(data) || fresh(data))
        invariant ok && out == Concat(chunks[..i])
        invariant maxs == old(maxs) || (old(maxs) <= m && maxs <= Enough(m))
      {
        var r, bytes := Pass(chunks[i], m, memory);
        ConcatOn(chunks, i);
        out := out + bytes;
        if r < 0 {
          ok := false;
          return;
        }
      }
    }

    /** One append, read and consumed. */
    method Pass(chunk: seq<byte>, m: nat, memory: bool) returns (r: int, bytes: seq<byte>)
      requires Valid() && rbeg == wbeg && !noRecycle && 0 < |chunk| <= m
      modifies this`rbeg, this`rend, this`wbeg, this`size, this`data, this`maxs, data
      ensures Valid() && rbeg == wbeg && (data == old(data) || fresh(data))
      ensures old(maxs) > m ==> maxs == old(maxs) && r == |chunk|
      ensures maxs == old(maxs) || maxs <= Enough(m)
      ensures memory && m < 0x4000_0000 ==> r == |chunk|
      ensures if r == |chunk| then bytes == chunk else r < 0 && bytes == []
    {
      hide Split, Window, Held, Apply;
      WindowIs();
      HeldLength();
      bytes := [];
      r := WData(chunk, memory);
      if r >= 0 {
        AppendIs(old(Window()), chunk);
        var _ := RAll();
        WindowBytes();
        bytes := data[rbeg..rend];
        var _ := RSeek(0, Seek.End);
      }
    }

    /**
     `dpbuf_readto`: moves bytes to another buffer.  When that buffer has no room and cannot get it, the error code is
     taken for a length: the read cursors go back by 12.  That hands out bytes again that were consumed, or puts the
     cursors before the block of memory where fewer than 12 were.
     */
    method ReadTo(det: Buffer, n: int, memory: bool) returns (r: int)
      requires Valid() && det.Valid() && det != this && det.data != data
      modifies this`rbeg, this`rend
      modifies det`rbeg, det`rend, det`wbeg, det`size, det`data, det`maxs, det.data
      ensures det.Valid() && (det.data == old(det.data) || fresh(det.data))
      ensures wbeg == old(wbeg) && data == old(data)
      ensures
        var slack, held := old(Window().slack), old(det.Window().window + det.Window().slack);
        var m := if n <= 0 || n > |slack| then |slack| else n;
        if slack == [] then
          r == NODATA && Valid() && Window() == View([], []) && det.Window() == old(det.Window())
        else if old(det.CanHold(m, memory)) then
          && r == m && Valid() && Window() == View([], slack[m..]) == Apply(old(Window()), Op.ReadTo(n))
          && det.Window() == View(held + slack[..m], [])
        else
          && r == NOMEM && rbeg == rend == old(rend) - 12 && det.Window() == View(held, [])
          && (Valid() <==> old(rend) >= 12)
    {
      hide Split, Window, Held, Apply, Amount;
      ReadToIs(Window(), n);
      ghost var slack := Window().slack;
      Skip();
      WindowIs();
      SplitEnds(slack);
      var sz := wbeg - rend;
      if sz == 0 {
        return NODATA;
      }
      r := HandOver(det, n, memory, sz);
    }

    /** `readto` of a slack that is not empty, from the point where the window is at its start. */
    method HandOver(det: Buffer, n: int, memory: bool, sz: int) returns (r: int)
      requires Valid() && det.Valid() && det != this && det.data != data && rbeg == rend && sz == wbeg - rend > 0
      modifies this`rbeg, this`rend
      modifies det`rbeg, det`rend, det`wbeg, det`size, det`data, det`maxs, det.data
      ensures det.Valid() && (det.data == old(det.data) || fresh(det.data))
      ensures
        var slack := old(Held());
        var m := if n <= 0 || |slack| < n then |slack| else n;
        var held := old(det.Window().window + det.Window().slack);
        && r == (if old(det.CanHold(m, memory)) then m else NOMEM)
        && (r >= 0 ==> Valid() && Window() == View([], slack[m..]) && det.Window() == View(held + slack[..m], []))
        && (r < 0 ==> rbeg == rend == old(rend) + NOMEM && det.Window() == View(held, []))
    {
      hide Split, Window, Held;
      ghost var slack := Held();
      HeldIs();
      rend := wbeg;
      WholeWindow();
      r := Pour(det, n, memory);
      rend := wbeg - (sz - r);
      rbeg := rend;
      if r >= 0 {
        Rest(slack, r);
      }
    }

    /** One byte to be moved to a full buffer when memory is short: the read cursors end up at -12. */
    static method ReadToFullBuffer() returns (src: Buffer, r: int)
      ensures fresh(src) && r == NOMEM && src.rbeg == src.rend == -12 && !src.Valid()
    {
      hide Split, Buffer.Window, Buffer.Held;
      src := new Buffer(1);
      var w := src.WData([0], false);
      assert src.Window() == View([], [0]);
      assert src.rend == 0 && src.wbeg == 1;
      var det := new Buffer(0);
      assert !det.CanHold(1, false);
      r := src.ReadTo(det, 0, false);
    }

    lemma HeldIs()
      requires Valid()
      ensures Held() == data[rbeg..wbeg]
    {
    }

    /** What is left of a slack of which `r` bytes went. */
    lemma Rest(slack: seq<byte>, r: nat)
      requires Valid() && rbeg == rend && r <= |slack| && 0 <= rend - r && data[rend - r..wbeg] == slack
      ensures Window() == View([], slack[r..])
    {
      Tail(data, rend - r, rend, wbeg);
      SplitEnds(Held());
    }

    /** The part of `readto` that has to do with the destination. */
    method Pour(det: Buffer, n: int, memory: bool) returns (r: int)
      requires Valid() && det.Valid() && det != this && det.data != data
      modifies det`rbeg, det`rend, det`wbeg, det`size, det`data, det`maxs, det.data
      ensures det.Valid() && (det.data == old(det.data) || fresh(det.data))
      ensures
        var w := Window().window;
        var m := if n <= 0 || |w| < n then |w| else n;
        var held := old(det.Window().window + det.Window().slack);
        && r == (if old(det.CanHold(m, memory)) then m else NOMEM)
        && det.Window() == View(if r >= 0 then held + w[..r] else held, [])
    {
      hide Split, Window, Held;
      ghost var v, w := det.Window(), Window().window;
      r := det.WBuf(this, n, memory);
      if r >= 0 {
        Regroup(v.window, v.slack, w[..r]);
      }
      SplitEnds(det.Window().window + det.Window().slack);
      var _ := det.ESeek(0, End);
    }
  }
}
