/**
 The identifiers of `dplua_ext.c`: 41 bits of time, 5 of machine, 8 of thread and 10 of sequence, and their form in eleven
 base-62 digits.
 */
module Ids {

  // ------------------------------------------------------------------ packing

  const SEQUENCES := 1024
  const BASE_TS := 1735660800000

  datatype Fields = Fields(sequence: nat, thread: nat, machine: nat, timestamp: nat) {
    predicate Fit() {
      sequence < 0x400 && thread < 0x100 && machine < 0x20 && timestamp < 0x200_0000_0000
    }
  }

  /** The bit fields of `struct dpid_t` as a 64-bit number. */
  function Pack(f: Fields): (r: nat)
    requires f.Fit()
    ensures r < 0x1_0000_0000_0000_0000
  {
    f.sequence + 0x400 * (f.thread + 0x100 * (f.machine + 0x20 * f.timestamp))
  }

  lemma HighAndLow(a: nat, b: nat, a': nat, b': nat, k: nat)
    requires a < k && a' < k && a + k * b == a' + k * b'
    ensures a == a' && b == b'
  {
    if b < b' {
      MulStep(k, b, b');
    } else if b' < b {
      MulStep(k, b', b);
    }
  }

  lemma MulStep(k: int, b: int, b': int)
    requires k >= 0 && b < b'
    ensures k * b + k <= k * b'
  {
    var d := b' - b - 1;
    assert b' == b + 1 + d;
    assert k * (b + 1 + d) == k * b + k + k * d;
    assert k * d >= 0;
  }

  /** Different fields make different numbers. */
  lemma PackIsInjective(f: Fields, g: Fields)
    requires f.Fit() && g.Fit() && Pack(f) == Pack(g)
    ensures f == g
  {
    HighAndLow(f.sequence, f.thread + 0x100 * (f.machine + 0x20 * f.timestamp),
               g.sequence, g.thread + 0x100 * (g.machine + 0x20 * g.timestamp), 0x400);
    HighAndLow(f.thread, f.machine + 0x20 * f.timestamp, g.thread, g.machine + 0x20 * g.timestamp, 0x100);
    HighAndLow(f.machine, f.timestamp, g.machine, g.timestamp, 0x20);
  }

  /** The fields where the bit fields have them: 10, 8, 5 and 41 bits from the low end. */
  lemma PackLayout(f: Fields)
    requires f.Fit()
    ensures
      var id := Pack(f);
      && id % 0x400 == f.sequence && id / 0x400 % 0x100 == f.thread && id / 0x4_0000 % 0x20 == f.machine
      && id / 0x80_0000 == f.timestamp
  {
    Halves(f.sequence, f.thread + 0x100 * (f.machine + 0x20 * f.timestamp), 0x400);
    Halves(f.thread, f.machine + 0x20 * f.timestamp, 0x100);
    Halves(f.sequence + 0x400 * f.thread, f.machine + 0x20 * f.timestamp, 0x4_0000);
    Halves(f.machine, f.timestamp, 0x20);
    Halves(f.sequence + 0x400 * f.thread + 0x4_0000 * f.machine, f.timestamp, 0x80_0000);
  }

  lemma Halves(low: nat, high: nat, k: nat)
    requires low < k
    ensures (low + k * high) % k == low && (low + k * high) / k == high
  {
    var n := low + k * high;
    HighAndLow(n % k, n / k, low, high, k);
  }

  /** Identifiers are ordered by time, then machine, thread and sequence number. */
  lemma PackIsOrdered(f: Fields, g: Fields)
    requires f.Fit() && g.Fit()
    ensures Pack(f) < Pack(g) <==>
      f.timestamp < g.timestamp || (f.timestamp == g.timestamp &&
        (f.machine < g.machine || (f.machine == g.machine &&
          (f.thread < g.thread || (f.thread == g.thread && f.sequence < g.sequence)))))
  {
  }

  // ------------------------------------------------------------------ one thread's generator

  /** Successive readings of a clock that does not go back. */
  predicate Ticks(readings: seq<int>) {
    readings != [] && forall i, j :: 0 <= i <= j < |readings| ==> readings[i] <= readings[j]
  }

  /** `struct dpid_ctx_t` of one thread of one machine. */
  class Generator {
    const machine: nat
    const thread: nat
    var sequence: nat
    var timestamp: nat
    ghost var issued: set<Fields>

    /** All that was issued is older than the last, or of the same millisecond with a sequence number passed already. */
    ghost predicate Valid()
      reads this
    {
      && machine < 0x20 && thread < 0x100 && sequence < SEQUENCES
      && forall f :: f in issued ==>
        && f.Fit() && f.machine == machine && f.thread == thread && f.timestamp <= timestamp
        && (f.timestamp == timestamp ==> f.sequence == SEQUENCES - 1 || f.sequence < sequence)
    }

    constructor (machine: nat, thread: nat)
      requires machine < 0x20 && thread < 0x100
      ensures Valid() && issued == {} && this.machine == machine && this.thread == thread
    {
      this.machine, this.thread := machine, thread;
      sequence, timestamp, issued := 0, 0, {};
    }

    /**
     `dpid_next`.  `readings` are the clock's answers in this call; the last sequence number of a round waits until the
     clock has moved on.
     */
    method Next(readings: seq<int>) returns (id: nat, f: Fields)
      requires Valid() && Ticks(readings) && timestamp <= readings[0] - BASE_TS
      requires readings[|readings| - 1] - BASE_TS < 0x200_0000_0000
      requires sequence == SEQUENCES - 1 ==> readings[|readings| - 1] - BASE_TS > timestamp
      modifies this
      ensures Valid() && f.Fit() && id == Pack(f)
      ensures f !in old(issued) && issued == old(issued) + {f}
      ensures f.machine == machine && f.thread == thread && f.timestamp == timestamp && timestamp + BASE_TS in readings
      ensures f.sequence == old(sequence) && sequence == (old(sequence) + 1) % SEQUENCES
      ensures if old(sequence) < SEQUENCES - 1 then timestamp == readings[0] - BASE_TS else timestamp > old(timestamp)
      ensures forall g :: g in old(issued) ==> Pack(g) != id
    {
      var i := 0;
      var seqno := sequence;
      sequence := sequence + 1;
      var ts := readings[i] - BASE_TS;
      if seqno == SEQUENCES - 1 {
        sequence := 0;
        while ts == timestamp
          invariant 0 <= i < |readings| && ts == readings[i] - BASE_TS >= timestamp
          decreases |readings| - i
        {
          i := i + 1;
          ts := readings[i] - BASE_TS;
        }
      }
      timestamp := ts;
      f := Fields(seqno, thread, machine, ts);
      id := Pack(f);
      forall g | g in issued
        ensures Pack(g) != id
      {
        if Pack(g) == id {
          PackIsInjective(g, f);
        }
      }
      issued := issued + {f};
    }
  }

  /** Two generators of different threads or machines never issue the same number. */
  lemma GeneratorsDoNotClash(a: Generator, b: Generator, f: Fields, g: Fields)
    requires a.Valid() && b.Valid() && (a.machine != b.machine || a.thread != b.thread)
    requires f in a.issued && g in b.issued
    ensures Pack(f) != Pack(g)
  {
    if Pack(f) == Pack(g) {
      PackIsInjective(f, g);
    }
  }

  // ------------------------------------------------------------------ base 62

  /** The table `base62_chars`: the decimal digits, the capitals, the small letters. */
  function Digit(v: nat): char
    requires v < 62
  {
    if v < 10 then ('0' as int + v) as char
    else if v < 36 then ('A' as int + v - 10) as char
    else ('a' as int + v - 36) as char
  }

  function Pow62(n: nat): nat {
    if n == 0 then 1 else 62 * Pow62(n - 1)
  }

  /** The value of a digit, or -1. */
  function DigitValue(c: char): (v: int)
    ensures -1 <= v < 62
  {
    if '0' <= c <= '9' then c as int - '0' as int
    else if 'A' <= c <= 'Z' then 10 + (c as int - 'A' as int)
    else if 'a' <= c <= 'z' then 36 + (c as int - 'a' as int)
    else -1
  }

  lemma DigitsAreValues(v: nat)
    requires v < 62
    ensures DigitValue(Digit(v)) == v
  {
  }

  /** The table, by its corners: three runs of consecutive characters.  What is not in it has no value. */
  lemma DigitTable(v: nat, c: char)
    ensures Digit(0) == '0' && Digit(9) == '9' && Digit(10) == 'A' && Digit(35) == 'Z' && Digit(36) == 'a' && Digit(61) == 'z'
    ensures v < 61 && v != 9 && v != 35 ==> Digit(v + 1) as int == Digit(v) as int + 1
    ensures if exists w: nat :: w < 62 && Digit(w) == c then DigitValue(c) >= 0 && Digit(DigitValue(c)) == c else DigitValue(c) == -1
  {
    if DigitValue(c) >= 0 {
      assert Digit(DigitValue(c)) == c;
    }
  }

  ghost predicate Digits(s: seq<char>) {
    forall i :: 0 <= i < |s| ==> DigitValue(s[i]) >= 0
  }

  /** The number that a string of digits stands for. */
  function Value(s: seq<char>): int
    requires Digits(s)
  {
    if s == [] then 0 else Value(s[..|s| - 1]) * 62 + DigitValue(s[|s| - 1])
  }

  /** `_to_base62`. */
  method ToBase62(value: nat) returns (buffer: seq<char>)
    requires value < 0x1_0000_0000_0000_0000
    ensures |buffer| == 11 && Digits(buffer) && Value(buffer) == value
  {
    var v := value;
    var tail: seq<char> := [];
    var i := 10;
    hide Value, Digits, DigitValue, Digit, Pow62;
    Pow62Eleven();
    Pow62Step(0);
    ValueStart(tail);
    assert tail[..0] == tail;
    while v > 0 && i >= 0
      invariant -1 <= i <= 10 && |tail| == 10 - i && Digits(tail) && v >= 0
      invariant v < Pow62(i + 1) && v * Pow62(10 - i) + Value(tail) == value
    {
      Pow62Step(i);
      Pow62Step(10 - i);
      DigitsAreValues(v % 62);
      ValueFront(Digit(v % 62), tail);
      Distribute(v / 62, v % 62, Pow62(10 - i));
      tail := [Digit(v % 62)] + tail;
      v := v / 62;
      i := i - 1;
    }
    assert v == 0;
    assert v * Pow62(10 - i) == 0;
    buffer := seq(i + 1, _ => '0') + tail;
    ZeroFront(i + 1, tail);
  }

  lemma Pow62Step(n: nat)
    ensures Pow62(n + 1) == 62 * Pow62(n) && Pow62(0) == 1
  {
  }

  lemma Distribute(q: nat, r: nat, p: nat)
    ensures (q * 62 + r) * p == q * (62 * p) + r * p
  {
  }

  lemma Pow62Eleven()
    ensures Pow62(11) >= 0x1_0000_0000_0000_0000
  {
    assert Pow62(4) == 14776336;
    assert Pow62(8) == 14776336 * Pow62(4);
    assert Pow62(11) == 62 * 62 * 62 * Pow62(8);
  }

  lemma {:induction false} ValueFront(c: char, s: seq<char>)
    requires DigitValue(c) >= 0 && Digits(s)
    ensures Digits([c] + s) && Value([c] + s) == DigitValue(c) * Pow62(|s|) + Value(s)
  {
    if s == [] {
      assert [c] + s == [c] && [c][..0] == [];
    } else {
      var init := s[..|s| - 1];
      ValueFront(c, init);
      assert ([c] + s)[..|s|] == [c] + init;
      Shift(DigitValue(c), Pow62(|init|));
    }
  }

  lemma Shift(a: int, p: int)
    ensures a * p * 62 == a * (62 * p)
  {
  }

  lemma {:induction false} ZeroFront(n: nat, s: seq<char>)
    requires Digits(s)
    ensures Digits(seq(n, _ => '0') + s) && Value(seq(n, _ => '0') + s) == Value(s)
  {
    if n == 0 {
      assert seq(0, _ => '0') + s == s;
    } else {
      ZeroFront(n - 1, s);
      ValueFront('0', seq(n - 1, _ => '0') + s);
      assert ['0'] + (seq(n - 1, _ => '0') + s) == seq(n, _ => '0') + s;
    }
  }

  /** `_to_uint64`, with the wrap-around of 64 bits. */
  method ToUint64(b62: seq<char>) returns (r: nat)
    ensures r < 0x1_0000_0000_0000_0000
    ensures
      var s := if |b62| > 11 then b62[..11] else b62;
      r == if Digits(s) then Value(s) % 0x1_0000_0000_0000_0000 else 0
  {
    hide Value, Digits, DigitValue;
    var l := |b62|;
    if l > 11 {
      l := 11;
    }
    ghost var s := b62[..l];
    assert s == if |b62| > 11 then b62[..11] else b62;
    var v := 0;
    var i := 0;
    ValueStart(s);
    while i < l
      invariant 0 <= i <= l && Digits(s[..i]) && v == Value(s[..i]) % 0x1_0000_0000_0000_0000
    {
      var c := DigitValue(b62[i]);
      ValueStep(s, i);
      if c < 0 {
        return 0;
      }
      WrapStep(Value(s[..i]), c);
      v := (v * 62 + c) % 0x1_0000_0000_0000_0000;
      i := i + 1;
    }
    assert s[..l] == s;
    r := v;
  }

  lemma ValueStart(s: seq<char>)
    ensures Digits(s[..0]) && Value(s[..0]) == 0
  {
  }

  lemma ValueStep(s: seq<char>, i: nat)
    requires i < |s| && Digits(s[..i])
    ensures DigitValue(s[i]) >= 0 ==> Digits(s[..i + 1]) && Value(s[..i + 1]) == Value(s[..i]) * 62 + DigitValue(s[i])
    ensures DigitValue(s[i]) < 0 ==> !Digits(s)
  {
    var t := s[..i + 1];
    assert t[..i] == s[..i] && t[i] == s[i];
    if DigitValue(s[i]) >= 0 {
      assert forall j :: 0 <= j < i ==> t[j] == s[..i][j];
    }
  }

  lemma WrapStep(a: int, c: int)
    ensures
      var m := 0x1_0000_0000_0000_0000;
      ((a % m) * 62 + c) % m == (a * 62 + c) % m
  {
    var m := 0x1_0000_0000_0000_0000;
    var q := a / m;
    assert a == q * m + a % m;
    assert a * 62 + c == (q * 62) * m + ((a % m) * 62 + c);
    ModSkip(q * 62, (a % m) * 62 + c, m);
  }

  lemma ModSkip(k: int, x: int, m: int)
    requires m > 0
    ensures (k * m + x) % m == x % m
  {
    var y := k * m + x;
    assert x == (x / m) * m + x % m;
    assert y == (k + x / m) * m + x % m by { Factor(k, x / m, m); }
    Unique(k + x / m, x % m, y / m, y % m, m);
  }

  lemma Factor(a: int, b: int, m: int)
    ensures (a + b) * m == a * m + b * m
  {
  }

  lemma Unique(q: int, r: int, q': int, r': int, m: int)
    requires m > 0 && 0 <= r < m && 0 <= r' < m && q * m + r == q' * m + r'
    ensures r == r'
  {
    if q < q' {
      MulStep(m, q, q');
    } else if q' < q {
      MulStep(m, q', q);
    }
  }

  /** The eleven digits read back as the number they were made of, whatever 64-bit number it was. */
  method RoundTrip(value: nat) returns (back: nat)
    requires value < 0x1_0000_0000_0000_0000
    ensures back == value
  {
    var text := ToBase62(value);
    back := ToUint64(text);
  }

  /** The first place where two strings of the same length differ decides. */
  predicate Before(a: seq<char>, b: seq<char>) {
    a != [] && b != [] && (a[0] < b[0] || (a[0] == b[0] && Before(a[1..], b[1..])))
  }

  lemma {:induction false} ValueBelow(s: seq<char>)
    requires Digits(s)
    ensures 0 <= Value(s) < Pow62(|s|)
  {
    if s != [] {
      ValueBelow(s[..|s| - 1]);
    }
  }

  lemma DigitOrder(c: char, d: char)
    requires DigitValue(c) >= 0 && DigitValue(d) >= 0
    ensures c < d <==> DigitValue(c) < DigitValue(d)
    ensures c == d <==> DigitValue(c) == DigitValue(d)
  {
  }

  /** Strings of digits of one length are in the order of their numbers. */
  lemma {:induction false} TextOrderIsNumericOrder(a: seq<char>, b: seq<char>)
    requires Digits(a) && Digits(b) && |a| == |b|
    ensures Before(a, b) <==> Value(a) < Value(b)
  {
    if a != [] {
      var x, y := a[1..], b[1..];
      TextOrderIsNumericOrder(x, y);
      assert a == [a[0]] + x && b == [b[0]] + y;
      ValueFront(a[0], x);
      ValueFront(b[0], y);
      ValueBelow(x);
      ValueBelow(y);
      DigitOrder(a[0], b[0]);
      HeadDecides(DigitValue(a[0]), Value(x), DigitValue(b[0]), Value(y), Pow62(|x|));
    }
  }

  lemma HeadDecides(a: int, x: int, b: int, y: int, p: int)
    requires 0 <= x < p && 0 <= y < p
    ensures a < b ==> a * p + x < b * p + y
    ensures b < a ==> b * p + y < a * p + x
  {
    if a < b {
      MulStep(p, a, b);
    } else if b < a {
      MulStep(p, b, a);
    }
  }
}
