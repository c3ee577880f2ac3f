/**
 Weak-AVL trees as values: what the node links of `RbTree` stand for, and the rank rule
 (every edge has length 1 or 2, all paths from a node to null have equal length, a leaf has rank 1).
 An edge of length 2 is called red.
 */
module RankTree {
  import opened Arith

  datatype Dir = L | R {
    function Flip(): Dir {
      if L? then R else L
    }
  }

  /** `redL` and `redR` are the colours of the two edges below `n`. */
  datatype Tree<N> = Nil | Bin(l: Tree<N>, n: N, redL: bool, redR: bool, r: Tree<N>) {
    function Kid(d: Dir): Tree<N>
      requires Bin?
    {
      if d.L? then l else r
    }

    function Red(d: Dir): bool
      requires Bin?
    {
      if d.L? then redL else redR
    }
  }

  /** The tree around a hole: `n` is the parent of the hole, which is its `d` child. */
  datatype Ctx<N> = Top | Step(up: Ctx<N>, d: Dir, n: N, red: bool, sibRed: bool, sib: Tree<N>)

  /** The node whose `d` child is `near` and whose other child is `far`. */
  function Mk<N>(d: Dir, near: Tree<N>, n: N, redNear: bool, redFar: bool, far: Tree<N>): Tree<N> {
    if d.L? then Bin(near, n, redNear, redFar, far) else Bin(far, n, redFar, redNear, near)
  }

  function Plug<N>(c: Ctx<N>, t: Tree<N>): Tree<N> {
    match c
    case Top => t
    case Step(up, d, n, red, sibRed, sib) => Plug(up, Mk(d, t, n, red, sibRed, sib))
  }

  // ------------------------------------------------------------------ contents

  function InOrder<N>(t: Tree<N>): seq<N> {
    match t
    case Nil => []
    case Bin(l, n, _, _, r) => InOrder(l) + [n] + InOrder(r)
  }

  function Before<N>(c: Ctx<N>): seq<N> {
    match c
    case Top => []
    case Step(up, d, n, _, _, sib) => if d.L? then Before(up) else Before(up) + InOrder(sib) + [n]
  }

  function Behind<N>(c: Ctx<N>): seq<N> {
    match c
    case Top => []
    case Step(up, d, n, _, _, sib) => if d.L? then [n] + InOrder(sib) + Behind(up) else Behind(up)
  }

  lemma {:induction false} PlugInOrder<N>(c: Ctx<N>, t: Tree<N>)
    ensures InOrder(Plug(c, t)) == Before(c) + InOrder(t) + Behind(c)
  {
    match c
    case Top =>
    case Step(up, d, n, red, sibRed, sib) =>
      var m := Mk(d, t, n, red, sibRed, sib);
      PlugInOrder(up, m);
      if d.L? {
        MoveBrackets(Before(up), InOrder(t), [n], InOrder(sib), Behind(up));
      } else {
        MoveBrackets(Before(up), InOrder(sib), [n], InOrder(t), Behind(up));
      }
  }

  lemma MoveBrackets<N>(a: seq<N>, b: seq<N>, c: seq<N>, d: seq<N>, e: seq<N>)
    ensures a + (b + c + d) + e == a + b + (c + d + e) == (a + b + c) + d + e
  {
  }

  function Elems<N>(t: Tree<N>): set<N> {
    match t
    case Nil => {}
    case Bin(l, n, _, _, r) => Elems(l) + {n} + Elems(r)
  }

  function CtxElems<N>(c: Ctx<N>): set<N> {
    match c
    case Top => {}
    case Step(up, _, n, _, _, sib) => CtxElems(up) + {n} + Elems(sib)
  }

  /** No node occurs twice. */
  predicate Distinct<N(==)>(t: Tree<N>) {
    t.Bin? ==> t.n !in Elems(t.l) && t.n !in Elems(t.r) && Elems(t.l) !! Elems(t.r) && Distinct(t.l) && Distinct(t.r)
  }

  predicate CtxDistinct<N(==)>(c: Ctx<N>) {
    c.Step? ==>
      && c.n !in Elems(c.sib) && c.n !in CtxElems(c.up) && Elems(c.sib) !! CtxElems(c.up)
      && Distinct(c.sib) && CtxDistinct(c.up)
  }

  predicate Apart<N(==)>(c: Ctx<N>, t: Tree<N>) {
    Distinct(t) && CtxDistinct(c) && Elems(t) !! CtxElems(c)
  }

  /** The parts of a place where two neighbouring nodes are about to be rotated. */
  predicate Spread<N(==)>(c: Ctx<N>, p: N, e: N, t1: Tree<N>, t2: Tree<N>, t3: Tree<N>) {
    && p != e && {p, e} !! Elems(t1) && {p, e} !! Elems(t2) && {p, e} !! Elems(t3) && {p, e} !! CtxElems(c)
    && Elems(t1) !! Elems(t2) && Elems(t1) !! Elems(t3) && Elems(t2) !! Elems(t3)
    && CtxElems(c) !! Elems(t1) && CtxElems(c) !! Elems(t2) && CtxElems(c) !! Elems(t3)
    && Distinct(t1) && Distinct(t2) && Distinct(t3) && CtxDistinct(c)
  }

  lemma SpreadApart<N>(c: Ctx<N>, d: Dir, e: Dir, t1: Tree<N>, x: N, r1: bool, r2: bool, t2: Tree<N>, p: N, r3: bool, r4: bool, t3: Tree<N>)
    ensures Apart(c, Mk(d, Mk(e, t1, x, r1, r2, t2), p, r3, r4, t3)) <==> Spread(c, p, x, t1, t2, t3)
  {
    MkElems(e, t1, x, r1, r2, t2);
    MkElems(d, Mk(e, t1, x, r1, r2, t2), p, r3, r4, t3);
    SetsSpread(Elems(t1), Elems(t2), Elems(t3), CtxElems(c), x, p);
    hide Elems, CtxElems, Distinct, CtxDistinct, Mk;
  }

  lemma MkElems<N>(d: Dir, near: Tree<N>, n: N, redNear: bool, redFar: bool, far: Tree<N>)
    ensures Elems(Mk(d, near, n, redNear, redFar, far)) == Elems(near) + {n} + Elems(far)
    ensures Distinct(Mk(d, near, n, redNear, redFar, far)) <==>
      n !in Elems(near) && n !in Elems(far) && Elems(near) !! Elems(far) && Distinct(near) && Distinct(far)
  {
  }

  lemma SetsSpread<N>(a: set<N>, b: set<N>, e: set<N>, k: set<N>, x: N, p: N)
    ensures
      (&& x !in a && x !in b && a !! b
       && p !in a + {x} + b && p !in e && a + {x} + b !! e
       && (a + {x} + b) + {p} + e !! k)
      <==>
      (&& p != x && {p, x} !! a && {p, x} !! b && {p, x} !! e && {p, x} !! k
       && a !! b && a !! e && b !! e && k !! a && k !! b && k !! e)
  {
  }

  lemma {:induction false} PlugElems<N>(c: Ctx<N>, t: Tree<N>)
    ensures Elems(Plug(c, t)) == CtxElems(c) + Elems(t)
    ensures Distinct(Plug(c, t)) <==> Apart(c, t)
  {
    if c.Step? {
      PlugElems(c.up, Mk(c.d, t, c.n, c.red, c.sibRed, c.sib));
    }
  }

  // ------------------------------------------------------------------ the rank rule

  function Length(red: bool): nat {
    if red then 2 else 1
  }

  /** The length of the left-most path; under the rank rule, of every path. */
  function Rank<N>(t: Tree<N>): nat {
    if t.Nil? then 0 else Rank(t.l) + Length(t.redL)
  }

  /** What `RB_RANK` checks: equal ranks through both edges, and no leaf of rank 2. */
  predicate Wavl<N>(t: Tree<N>) {
    t.Bin? ==>
      && Wavl(t.l) && Wavl(t.r)
      && Rank(t.l) + Length(t.redL) == Rank(t.r) + Length(t.redR)
      && !(t.l.Nil? && t.r.Nil? && t.redL)
  }

  /** The rank rule for everything around a hole that is to hold a tree of rank `k`. */
  predicate CtxWavl<N>(c: Ctx<N>, k: nat) {
    c.Step? ==>
      && Wavl(c.sib)
      && k + Length(c.red) == Rank(c.sib) + Length(c.sibRed)
      && !(k == 0 && c.sib.Nil? && c.red)
      && CtxWavl(c.up, k + Length(c.red))
  }

  lemma {:induction false} PlugWavl<N>(c: Ctx<N>, t: Tree<N>)
    ensures Wavl(Plug(c, t)) <==> Wavl(t) && CtxWavl(c, Rank(t))
  {
    if c.Step? {
      PlugWavl(c.up, Mk(c.d, t, c.n, c.red, c.sibRed, c.sib));
    }
  }

  // ------------------------------------------------------------------ height

  function Height<N>(t: Tree<N>): nat {
    if t.Nil? then 0 else 1 + if Height(t.l) < Height(t.r) then Height(t.r) else Height(t.l)
  }

  function Size<N>(t: Tree<N>): nat {
    if t.Nil? then 0 else Size(t.l) + 1 + Size(t.r)
  }

  function Depth<N>(c: Ctx<N>): nat {
    if c.Top? then 0 else 1 + Depth(c.up)
  }

  lemma {:induction false} HeightBelowRank<N>(t: Tree<N>)
    requires Wavl(t)
    ensures Height(t) <= Rank(t)
  {
    if t.Bin? {
      HeightBelowRank(t.l);
      HeightBelowRank(t.r);
    }
  }

  lemma SquareGrows(a: nat, b: nat, p: nat)
    requires p <= a * a && p <= b * b
    ensures 4 * p <= (a + b) * (a + b)
  {
    if a <= b {
      assert a * a <= a * b by { assert a * (b - a) >= 0; }
      assert (a + b) * (a + b) == a * a + 2 * (a * b) + b * b;
    } else {
      assert b * b <= a * b by { assert b * (a - b) >= 0; }
      assert (a + b) * (a + b) == a * a + 2 * (a * b) + b * b;
    }
  }

  lemma {:induction false} RankNeedsNodes<N>(t: Tree<N>)
    requires Wavl(t)
    ensures Pow2(Rank(t)) <= (Size(t) + 1) * (Size(t) + 1)
  {
    if t.Bin? && Rank(t) == 1 {
      assert Size(t) >= 1;
      assert (Size(t) + 1) * (Size(t) + 1) >= 2 * 2;
    } else if t.Bin? {
      RankNeedsNodes(t.l);
      RankNeedsNodes(t.r);
      Pow2Monotone(Rank(t) - 2, Rank(t.l));
      Pow2Monotone(Rank(t) - 2, Rank(t.r));
      SquareGrows(Size(t.l) + 1, Size(t.r) + 1, Pow2(Rank(t) - 2));
      assert Pow2(Rank(t)) == 4 * Pow2(Rank(t) - 2);
    }
  }

  /** The maximum height is 2 lg(n+1). */
  lemma HeightBound<N>(t: Tree<N>)
    requires Wavl(t)
    ensures Pow2(Height(t)) <= (Size(t) + 1) * (Size(t) + 1)
  {
    HeightBelowRank(t);
    RankNeedsNodes(t);
    Pow2Monotone(Height(t), Rank(t));
  }

  lemma {:induction false} DepthBelowRank<N>(c: Ctx<N>, t: Tree<N>)
    requires Wavl(Plug(c, t))
    ensures Depth(c) + Rank(t) <= Rank(Plug(c, t))
  {
    if c.Step? {
      PlugWavl(c, t);
      DepthBelowRank(c.up, Mk(c.d, t, c.n, c.red, c.sibRed, c.sib));
    }
  }

  /** Every descent and every climb, from any place of the tree, is within the same bound. */
  lemma {:induction false} PathBound<N>(c: Ctx<N>, t: Tree<N>)
    requires Wavl(Plug(c, t))
    ensures Pow2(Depth(c)) <= (Size(Plug(c, t)) + 1) * (Size(Plug(c, t)) + 1)
  {
    DepthBelowRank(c, t);
    RankNeedsNodes(Plug(c, t));
    Pow2Monotone(Depth(c), Rank(Plug(c, t)));
  }

  lemma {:induction false} SizeIsLength<N>(t: Tree<N>)
    ensures |InOrder(t)| == Size(t)
  {
    if t.Bin? {
      SizeIsLength(t.l);
      SizeIsLength(t.r);
    }
  }

  /** The bound of `HeightBound`, for a way of `steps` edges in a tree of `n` nodes. */
  predicate WithinBound(steps: nat, n: nat) {
    Pow2(steps) <= (n + 1) * (n + 1)
  }

  lemma ShorterWay(steps: nat, way: nat, n: nat)
    requires steps <= way && WithinBound(way, n)
    ensures WithinBound(steps, n)
  {
    Pow2Monotone(steps, way);
  }

  lemma WayIsShort<N>(c: Ctx<N>, t: Tree<N>)
    requires Wavl(Plug(c, t))
    ensures WithinBound(Depth(c), |InOrder(Plug(c, t))|)
  {
    PathBound(c, t);
    SizeIsLength(Plug(c, t));
  }

  // ------------------------------------------------------------------ insertion: the steps on values

  /** `t` has grown by one rank in its place; it is a fresh leaf, or black only towards the child that grew. */
  ghost predicate Grown<N>(c: Ctx<N>, t: Tree<N>, grew: Tree<N>) {
    && Wavl(t) && t.Bin? && Rank(t) >= 1 && (c.Step? ==> CtxWavl(c, Rank(t) - 1))
    && if grew.Nil? then t.l.Nil? && t.r.Nil? && !t.redL && !t.redR
       else exists d: Dir :: t.Kid(d) == grew && !t.Red(d) && t.Red(d.Flip())
  }

  lemma GrownIsWavl<N>(c: Ctx<N>, t: Tree<N>, grew: Tree<N>)
    requires Grown(c, t, grew)
    ensures Wavl(t) && (c.Top? ==> CtxWavl(c, Rank(t)))
  {
  }

  /** The edge above `t` was of length 2: it is now of length 1, and nothing above changes. */
  lemma GrownShortens<N>(c: Ctx<N>, t: Tree<N>, grew: Tree<N>)
    requires Grown(c, t, grew) && c.Step? && c.red
    ensures Wavl(t) && CtxWavl(c.(red := false), Rank(t))
  {
  }

  /** Both edges were of length 1: the parent grows by one rank. */
  lemma GrownClimbs<N>(c: Ctx<N>, t: Tree<N>, grew: Tree<N>)
    requires Grown(c, t, grew) && c.Step? && !c.red && !c.sibRed
    ensures Grown(c.up, Mk(c.d, t, c.n, false, true, c.sib), t)
  {
    var m := Mk(c.d, t, c.n, false, true, c.sib);
    assert m.Kid(c.d) == t && !m.Red(c.d) && m.Red(c.d.Flip());
    assert Wavl(m) && Rank(m) == Rank(t) + 1;
  }

  /** The sibling is two ranks below: `t` cannot be the fresh leaf, so the grown child is there to be rotated. */
  lemma GrownRotates<N>(c: Ctx<N>, t: Tree<N>, grew: Tree<N>)
    requires Grown(c, t, grew) && c.Step? && !c.red && c.sibRed
    ensures grew.Bin?
    ensures t.Red(c.d) ==> t.Kid(c.d.Flip()) == grew && !t.Red(c.d.Flip())
    ensures !t.Red(c.d) ==> t.Kid(c.d) == grew && t.Red(c.d.Flip())
  {
  }

  lemma SingleIsWavl<N>(c: Ctx<N>, t: Tree<N>, grew: Tree<N>)
    requires Grown(c, t, grew) && c.Step? && !c.red && c.sibRed && !t.Red(c.d)
    ensures
      var t' := Mk(c.d, t.Kid(c.d), t.n, false, false, Mk(c.d, t.Kid(c.d.Flip()), c.n, false, false, c.sib));
      Wavl(t') && CtxWavl(c.up, Rank(t'))
  {
    GrownRotates(c, t, grew);
    var m := Mk(c.d, t.Kid(c.d.Flip()), c.n, false, false, c.sib);
    assert Wavl(m) && Rank(m) == Rank(t) - 1;
  }

  lemma DoubleIsWavl<N>(c: Ctx<N>, t: Tree<N>, u: Tree<N>)
    requires Grown(c, t, u) && c.Step? && !c.red && c.sibRed && t.Red(c.d) && u.Bin?
    ensures
      var d, s := c.d, c.d.Flip();
      var t' := Mk(d, Mk(d, t.Kid(d), t.n, false, u.Red(d), u.Kid(d)), u.n, false, false,
                   Mk(d, u.Kid(s), c.n, u.Red(s), false, c.sib));
      Wavl(t') && CtxWavl(c.up, Rank(t'))
  {
    GrownRotates(c, t, u);
    var d, s := c.d, c.d.Flip();
    var x, y := Mk(d, t.Kid(d), t.n, false, u.Red(d), u.Kid(d)), Mk(d, u.Kid(s), c.n, u.Red(s), false, c.sib);
    assert Wavl(u) && Rank(u) == Rank(t) - 1;
    assert Wavl(x) && Rank(x) == Rank(t) - 1;
    assert Wavl(y) && Rank(y) == Rank(t) - 1;
  }

  lemma SingleInOrder<N>(d: Dir, t1: Tree<N>, x: N, t2: Tree<N>, p: N, t3: Tree<N>, r1: bool, r2: bool, r3: bool, r4: bool,
                         q1: bool, q2: bool, q3: bool, q4: bool)
    ensures InOrder(Mk(d, Mk(d, t1, x, r1, r2, t2), p, r3, r4, t3)) == InOrder(Mk(d, t1, x, q1, q2, Mk(d, t2, p, q3, q4, t3)))
  {
    var a, b, e := InOrder(t1), InOrder(t2), InOrder(t3);
    if d.L? {
      assert (a + [x] + b) + [p] + e == a + [x] + (b + [p] + e);
    } else {
      assert e + [p] + (b + [x] + a) == (e + [p] + b) + [x] + a;
    }
  }

  /** A single rotation towards `d.Flip()` moves no node and repeats none. */
  lemma SingleKeeps<N>(c: Ctx<N>, d: Dir, t1: Tree<N>, x: N, t2: Tree<N>, p: N, t3: Tree<N>,
                       r1: bool, r2: bool, r3: bool, r4: bool, q1: bool, q2: bool, q3: bool, q4: bool)
    ensures
      var t, r := Mk(d, Mk(d, t1, x, r1, r2, t2), p, r3, r4, t3), Mk(d, t1, x, q1, q2, Mk(d, t2, p, q3, q4, t3));
      InOrder(r) == InOrder(t) && Elems(r) == Elems(t) && (Apart(c, r) <==> Apart(c, t))
  {
    SingleInOrder(d, t1, x, t2, p, t3, r1, r2, r3, r4, q1, q2, q3, q4);
    MkElems(d, t1, x, r1, r2, t2);
    MkElems(d, Mk(d, t1, x, r1, r2, t2), p, r3, r4, t3);
    MkElems(d, t2, p, q3, q4, t3);
    MkElems(d, t1, x, q1, q2, Mk(d, t2, p, q3, q4, t3));
    hide Elems, CtxElems, Distinct, CtxDistinct, Mk, InOrder;
  }

  /** So does a double rotation: two single ones. */
  lemma DoubleKeeps<N>(c: Ctx<N>, d: Dir, t1: Tree<N>, x: N, u1: Tree<N>, u: N, u2: Tree<N>, p: N, t3: Tree<N>,
                       a1: bool, a2: bool, a3: bool, a4: bool, a5: bool, a6: bool,
                       b1: bool, b2: bool, b3: bool, b4: bool, b5: bool, b6: bool)
    ensures
      var t := Mk(d, Mk(d, t1, x, a1, a2, Mk(d, u1, u, a3, a4, u2)), p, a5, a6, t3);
      var r := Mk(d, Mk(d, t1, x, b1, b2, u1), u, b3, b4, Mk(d, u2, p, b5, b6, t3));
      InOrder(r) == InOrder(t) && Elems(r) == Elems(t) && (Apart(c, r) <==> Apart(c, t))
  {
    hide Elems, CtxElems, Distinct, CtxDistinct, InOrder, Apart, Mk;
    var low := Mk(d, Mk(d, t1, x, b1, b2, u1), u, a3, a4, u2);
    var inner := Mk(d, t1, x, a1, a2, Mk(d, u1, u, a3, a4, u2));
    SingleKeeps(Step(c, d, p, a5, a6, t3), d, t1, x, u1, u, u2, b1, b2, a3, a4, a1, a2, a3, a4);
    ReplaceKid(c, d, low, inner, p, a5, a6, t3);
    SingleKeeps(c, d, Mk(d, t1, x, b1, b2, u1), u, u2, p, t3, a3, a4, a5, a6, b3, b4, b5, b6);
  }

  lemma ReplaceKid<N>(c: Ctx<N>, d: Dir, t: Tree<N>, r: Tree<N>, p: N, redT: bool, redS: bool, sib: Tree<N>)
    requires InOrder(r) == InOrder(t) && Elems(r) == Elems(t)
    requires Apart(Step(c, d, p, redT, redS, sib), r) <==> Apart(Step(c, d, p, redT, redS, sib), t)
    ensures
      var t', r' := Mk(d, t, p, redT, redS, sib), Mk(d, r, p, redT, redS, sib);
      InOrder(r') == InOrder(t') && Elems(r') == Elems(t') && (Apart(c, r') <==> Apart(c, t'))
  {
    StepApart(Step(c, d, p, redT, redS, sib), t);
    StepApart(Step(c, d, p, redT, redS, sib), r);
  }

  lemma StepApart<N>(c: Ctx<N>, t: Tree<N>)
    requires c.Step?
    ensures Apart(c, t) <==> Apart(c.up, Mk(c.d, t, c.n, c.red, c.sibRed, c.sib))
    ensures Apart(c, t) ==> c.n !in Elems(t) + Elems(c.sib) + CtxElems(c.up)
    ensures CtxElems(c) == CtxElems(c.up) + {c.n} + Elems(c.sib)
  {
    MkElems(c.d, t, c.n, c.red, c.sibRed, c.sib);
    hide Elems, Distinct, Mk;
  }

  lemma KidElems<N>(t: Tree<N>, d: Dir)
    requires t.Bin?
    ensures Elems(t.Kid(d)) <= Elems(t) && t.n in Elems(t)
  {
  }

  /** Colours are no part of the contents. */
  lemma RecoloredInOrder<N>(c: Ctx<N>, t: Tree<N>, red: bool, sibRed: bool)
    requires c.Step?
    ensures InOrder(Plug(c.(red := red, sibRed := sibRed), t)) == InOrder(Plug(c, t))
    ensures CtxElems(c.(red := red, sibRed := sibRed)) == CtxElems(c)
    ensures Before(c.(red := red, sibRed := sibRed)) == Before(c)
    ensures Behind(c.(red := red, sibRed := sibRed)) == Behind(c)
  {
    PlugInOrder(c, t);
    PlugInOrder(c.(red := red, sibRed := sibRed), t);
  }

  lemma RecoloredApart<N>(c: Ctx<N>, t: Tree<N>, red: bool, sibRed: bool)
    requires c.Step?
    ensures Apart(c.(red := red, sibRed := sibRed), t) <==> Apart(c, t)
  {
  }

  lemma {:induction false} InOrderElems<N>(t: Tree<N>)
    ensures forall x :: x in InOrder(t) <==> x in Elems(t)
  {
    if t.Bin? {
      InOrderElems(t.l);
      InOrderElems(t.r);
    }
  }

  // ------------------------------------------------------------------ removal: the steps on values

  /** `t` has lost one rank in its place, and it or its sibling is a node. */
  ghost predicate Shrunk<N>(c: Ctx<N>, t: Tree<N>) {
    Wavl(t) && (c.Step? ==> CtxWavl(c, Rank(t) + 1) && !(t.Nil? && c.sib.Nil?))
  }

  lemma ShrunkIsWavl<N>(c: Ctx<N>, t: Tree<N>)
    requires Shrunk(c, t)
    ensures Wavl(t) && (c.Top? ==> CtxWavl(c, Rank(t)))
  {
  }

  /** A parent that lost its only child was a node of rank 2 and is now a leaf of rank 1. */
  lemma LeafShrinks<N>(c: Ctx<N>)
    requires c.Step? && c.sib.Nil? && CtxWavl(c, 1)
    ensures !c.red && c.sibRed
    ensures Shrunk(c.up, Mk(c.d, Nil, c.n, false, false, Nil))
  {
    assert Rank(Mk(c.d, Nil, c.n, false, false, Nil)) == 1;
  }

  /** The edge above `t` was of length 1: it is now of length 2, and nothing above changes. */
  lemma ShrunkLengthens<N>(c: Ctx<N>, t: Tree<N>)
    requires Shrunk(c, t) && c.Step? && !c.red
    ensures Wavl(t) && CtxWavl(c.(red := true), Rank(t))
  {
  }

  /** Both edges were of length 2: the parent loses one rank. */
  lemma ShrunkClimbs<N>(c: Ctx<N>, t: Tree<N>)
    requires Shrunk(c, t) && c.Step? && c.red && c.sibRed
    ensures Shrunk(c.up, Mk(c.d, t, c.n, true, false, c.sib))
  {
    var m := Mk(c.d, t, c.n, true, false, c.sib);
    assert Wavl(m) && Rank(m) == Rank(t) + 2;
  }

  /** The sibling is three ranks above `t`; it is a node, and so is its child towards `t` unless that edge is long. */
  lemma ShrunkSibling<N>(c: Ctx<N>, t: Tree<N>)
    requires Shrunk(c, t) && c.Step? && c.red && !c.sibRed
    ensures c.sib.Bin? && Rank(c.sib) == Rank(t) + 2
    ensures !c.sib.Red(c.d) ==> c.sib.Kid(c.d).Bin?
  {
  }

  /** Both edges below the sibling are of length 2: sibling and parent lose one rank. */
  lemma SiblingShrinks<N>(c: Ctx<N>, t: Tree<N>)
    requires Shrunk(c, t) && c.Step? && c.red && !c.sibRed && c.sib.Bin? && c.sib.redL && c.sib.redR
    ensures Shrunk(c.up, Mk(c.d, t, c.n, true, false, c.sib.(redL := false, redR := false)))
  {
    var sib := c.sib.(redL := false, redR := false);
    assert Wavl(sib) && Rank(sib) == Rank(t) + 1;
    var m := Mk(c.d, t, c.n, true, false, sib);
    assert Wavl(m) && Rank(m) == Rank(t) + 2;
  }

  /** The sibling's outer edge is of length 1: a single rotation; `long` tells the length of the inner edge. */
  lemma RemoveSingleIsWavl<N>(c: Ctx<N>, t: Tree<N>)
    requires Shrunk(c, t) && c.Step? && c.red && !c.sibRed && c.sib.Bin? && !c.sib.Red(c.d.Flip())
    ensures
      var d, long := c.d, c.sib.Red(c.d);
      var r := Mk(d, Mk(d, t, c.n, !long, false, c.sib.Kid(d)), c.sib.n, long, true, c.sib.Kid(d.Flip()));
      Wavl(r) && CtxWavl(c.up, Rank(r))
  {
    var d, long := c.d, c.sib.Red(c.d);
    var x := Mk(d, t, c.n, !long, false, c.sib.Kid(d));
    assert Wavl(x) && Rank(x) == Rank(t) + (if long then 1 else 2);
  }

  /** The sibling's outer edge is of length 2 and its inner edge of length 1: a double rotation. */
  lemma RemoveDoubleIsWavl<N>(c: Ctx<N>, t: Tree<N>)
    requires Shrunk(c, t) && c.Step? && c.red && !c.sibRed && c.sib.Bin? && c.sib.Red(c.d.Flip()) && !c.sib.Red(c.d)
    ensures c.sib.Kid(c.d).Bin?
    ensures
      var d, s, e := c.d, c.d.Flip(), c.sib.Kid(c.d);
      var r := Mk(d, Mk(d, t, c.n, false, e.Red(d), e.Kid(d)), e.n, true, true,
                  Mk(d, e.Kid(s), c.sib.n, e.Red(s), false, c.sib.Kid(s)));
      Wavl(r) && CtxWavl(c.up, Rank(r))
  {
    ShrunkSibling(c, t);
    var d, s, e := c.d, c.d.Flip(), c.sib.Kid(c.d);
    assert Wavl(e) && Rank(e) == Rank(t) + 1;
    var x, y := Mk(d, t, c.n, false, e.Red(d), e.Kid(d)), Mk(d, e.Kid(s), c.sib.n, e.Red(s), false, c.sib.Kid(s));
    assert Wavl(x) && Rank(x) == Rank(t) + 1;
    assert Wavl(y) && Rank(y) == Rank(t) + 1;
  }

  /** A single rotation on removal moves no node and repeats none. */
  lemma RemoveSingleKeeps<N>(c: Ctx<N>, t: Tree<N>, q1: bool, q2: bool, q3: bool, q4: bool)
    requires c.Step? && c.sib.Bin?
    ensures
      var d, s := c.d, c.d.Flip();
      var r := Mk(d, Mk(d, t, c.n, q1, q2, c.sib.Kid(d)), c.sib.n, q3, q4, c.sib.Kid(s));
      && (Apart(c, t) <==> Apart(c.up, r)) && CtxElems(c.up) + Elems(r) == CtxElems(c) + Elems(t)
      && Before(c.up) + InOrder(r) + Behind(c.up) == InOrder(Plug(c, t))
      && (Apart(c, t) <==> Spread(c.up, c.n, c.sib.n, t, c.sib.Kid(d), c.sib.Kid(s)))
  {
    hide Elems, CtxElems, Distinct, CtxDistinct, InOrder, Apart, Before, Behind;
    var d, s := c.d, c.d.Flip();
    var inner, outer, sib := c.sib.Kid(d), c.sib.Kid(s), c.sib.n;
    assert c.sib == Mk(d, inner, sib, c.sib.Red(d), c.sib.Red(s), outer);
    var m := Mk(d, t, c.n, c.red, c.sibRed, c.sib);
    StepApart(c, t);
    MkElems(d, t, c.n, c.red, c.sibRed, c.sib);
    SingleKeeps(c.up, d, t, c.n, inner, sib, outer, q1, q2, q3, q4, c.red, c.sibRed, c.sib.Red(d), c.sib.Red(s));
    SpreadApart(c.up, d, d, t, c.n, q1, q2, inner, sib, q3, q4, outer);
    PlugInOrder(c.up, m);
    assert Plug(c, t) == Plug(c.up, m);
  }

  /** The two shapes before and after a double rotation on removal, as seen from the sibling's side. */
  lemma RemoveDoubleShapes<N>(c: Ctx<N>, t: Tree<N>)
    requires c.Step? && c.sib.Bin? && c.sib.Kid(c.d).Bin?
    ensures
      var d, s, sib, e := c.d, c.d.Flip(), c.sib, c.sib.Kid(c.d);
      && Mk(d, t, c.n, c.red, c.sibRed, sib)
         == Mk(s, Mk(s, sib.Kid(s), sib.n, sib.Red(s), sib.Red(d), Mk(s, e.Kid(s), e.n, e.Red(s), e.Red(d), e.Kid(d))), c.n, c.sibRed, c.red, t)
      && Mk(d, Mk(d, t, c.n, false, e.Red(d), e.Kid(d)), e.n, true, true, Mk(d, e.Kid(s), sib.n, e.Red(s), false, sib.Kid(s)))
         == Mk(s, Mk(s, sib.Kid(s), sib.n, false, e.Red(s), e.Kid(s)), e.n, true, true, Mk(s, e.Kid(d), c.n, e.Red(d), false, t))
      && Mk(d, e.Kid(s), sib.n, e.Red(s), false, sib.Kid(s)) == Mk(s, sib.Kid(s), sib.n, false, e.Red(s), e.Kid(s))
  {
  }

  /** A double rotation on removal moves no node and repeats none. */
  lemma RemoveDoubleKeeps<N>(c: Ctx<N>, t: Tree<N>)
    requires c.Step? && c.sib.Bin? && c.sib.Kid(c.d).Bin?
    ensures
      var d, s, e := c.d, c.d.Flip(), c.sib.Kid(c.d);
      var r := Mk(d, Mk(d, t, c.n, false, e.Red(d), e.Kid(d)), e.n, true, true,
                  Mk(d, e.Kid(s), c.sib.n, e.Red(s), false, c.sib.Kid(s)));
      && (Apart(c, t) <==> Apart(c.up, r)) && CtxElems(c.up) + Elems(r) == CtxElems(c) + Elems(t)
      && Before(c.up) + InOrder(r) + Behind(c.up) == InOrder(Plug(c, t))
  {
    hide Elems, CtxElems, Distinct, CtxDistinct, InOrder, Apart, Before, Behind, Mk, Plug;
    var d, s, sib, e := c.d, c.d.Flip(), c.sib, c.sib.Kid(c.d);
    RemoveDoubleShapes(c, t);
    var m := Mk(d, t, c.n, c.red, c.sibRed, sib);
    StepApart(c, t);
    MkElems(d, t, c.n, c.red, c.sibRed, sib);
    DoubleKeeps(c.up, s, sib.Kid(s), sib.n, e.Kid(s), e.n, e.Kid(d), c.n, t,
                sib.Red(s), sib.Red(d), e.Red(s), e.Red(d), c.sibRed, c.red, false, e.Red(s), true, true, e.Red(d), false);
    PlugInOrder(c.up, m);
    PlugStep(c, t);
  }

  lemma PlugStep<N>(c: Ctx<N>, t: Tree<N>)
    requires c.Step?
    ensures Plug(c, t) == Plug(c.up, Mk(c.d, t, c.n, c.red, c.sibRed, c.sib))
  {
  }

  // ------------------------------------------------------------------ removal: taking a node out

  /** The place of a node, below the place `c` of the tree `t` it is in. */
  lemma {:induction false} Focus<N>(c: Ctx<N>, t: Tree<N>, n: N) returns (c': Ctx<N>, t': Tree<N>)
    requires n in Elems(t)
    ensures Plug(c', t') == Plug(c, t) && t'.Bin? && t'.n == n
    decreases t
  {
    if t.n == n {
      c', t' := c, t;
    } else if n in Elems(t.l) {
      c', t' := Focus(Step(c, L, t.n, t.redL, t.redR, t.r), t.l, n);
    } else {
      c', t' := Focus(Step(c, R, t.n, t.redR, t.redL, t.l), t.r, n);
    }
  }

  /** `c` with its top put into the place `base`. */
  function Join<N>(base: Ctx<N>, c: Ctx<N>): Ctx<N> {
    if c.Top? then base else c.(up := Join(base, c.up))
  }

  lemma {:induction false} DepthJoin<N>(base: Ctx<N>, c: Ctx<N>)
    ensures Depth(Join(base, c)) == Depth(base) + Depth(c)
  {
    if c.Step? {
      DepthJoin(base, c.up);
    }
  }

  lemma DepthStep<N>(c: Ctx<N>, d: Dir, n: N, red: bool, sibRed: bool, sib: Tree<N>)
    ensures Depth(Step(c, d, n, red, sibRed, sib)) == Depth(c) + 1
  {
  }

  /** The way to a place below a child of `t`. */
  lemma WayBelow<N>(c: Ctx<N>, t: Tree<N>, d: Dir, c2: Ctx<N>, t2: Tree<N>)
    requires t.Bin? && Wavl(Plug(c, t)) && Plug(c2, t2) == t.Kid(d)
    ensures WithinBound(Depth(c) + 1 + Depth(c2), |InOrder(Plug(c, t))|)
  {
    hide Plug, Wavl, WithinBound, InOrder, Join, Depth;
    var base := WalkStep(c, t, d);
    DepthStep(c, d, t.n, t.Red(d), t.Red(d.Flip()), t.Kid(d.Flip()));
    PlugJoin(base, c2, t2);
    DepthJoin(base, c2);
    WayIsShort(Join(base, c2), t2);
  }

  lemma {:induction false} PlugJoin<N>(base: Ctx<N>, c: Ctx<N>, t: Tree<N>)
    ensures Plug(Join(base, c), t) == Plug(base, Plug(c, t))
  {
    if c.Step? {
      PlugJoin(base, c.up, Mk(c.d, t, c.n, c.red, c.sibRed, c.sib));
    }
  }

  /** A node with one child at most: that child is a leaf, and one rank below. */
  lemma OnlyChild<N>(t: Tree<N>)
    requires t.Bin? && Wavl(t) && (t.l.Nil? || t.r.Nil?)
    ensures
      var child := if t.r.Nil? then t.l else t.r;
      Wavl(child) && Rank(t) == Rank(child) + 1
      && (child.Bin? ==> child.l.Nil? && child.r.Nil? && !child.redL && !child.redR)
  {
  }

  /** The tree `t` with `x` instead of its root node. */
  lemma RenamedWavl<N>(c: Ctx<N>, t: Tree<N>, x: N)
    requires t.Bin?
    ensures Wavl(Plug(c, t.(n := x))) <==> Wavl(Plug(c, t))
  {
    PlugWavl(c, t);
    PlugWavl(c, t.(n := x));
  }

  /**
   The rank rule when the successor of a node with two children takes its place: `c2`, below the right child, holds
   the successor, which has no left child.
   */
  lemma SuccessorWavl<N>(c: Ctx<N>, t: Tree<N>, c2: Ctx<N>, t2: Tree<N>)
    requires t.Bin? && t2.Bin? && t2.l.Nil? && Plug(c2, t2) == t.r && Wavl(Plug(c, t))
    ensures Wavl(t2.r) && CtxWavl(Join(Step(c, R, t2.n, t.redR, t.redL, t.l), c2), Rank(t2.r) + 1)
    ensures t2.r.Bin? ==> !t2.r.redL && !t2.r.redR
  {
    var c' := Join(Step(c, R, t2.n, t.redR, t.redL, t.l), c2);
    RenamedWavl(c, t, t2.n);
    PlugJoin(Step(c, R, t2.n, t.redR, t.redL, t.l), c2, t2);
    assert Plug(c', t2) == Plug(c, t.(n := t2.n));
    PlugWavl(c', t2);
    OnlyChild(t2);
  }

  /** The left-most node of a tree taken out. */
  lemma FirstOut<N>(c: Ctx<N>, t: Tree<N>)
    requires t.Bin? && t.l.Nil? && Before(c) == []
    ensures InOrder(Plug(c, t)) == [t.n] + InOrder(Plug(c, t.r))
  {
    hide InOrder, Before, Behind, Plug;
    PlugInOrder(c, t);
    PlugInOrder(c, t.r);
    LeftmostInOrder(t);
    SuccessorSeq([], [], [t.n], InOrder(t.r), Behind(c));
    assert [] + [] + [t.n] == [t.n] == [] + [t.n];
  }

  lemma LeftmostInOrder<N>(t: Tree<N>)
    requires t.Bin? && t.l.Nil?
    ensures InOrder(t) == [] + [t.n] + InOrder(t.r)
  {
  }

  lemma FirstOutElems<N>(c: Ctx<N>, t: Tree<N>)
    requires t.Bin? && t.l.Nil?
    ensures Elems(Plug(c, t)) == Elems(Plug(c, t.r)) + {t.n}
    ensures Distinct(Plug(c, t)) ==> Distinct(Plug(c, t.r)) && t.n !in Elems(Plug(c, t.r))
  {
    PlugElems(c, t);
    PlugElems(c, t.r);
    LeftmostElems(t);
    hide Elems, CtxElems, Distinct, CtxDistinct, Plug;
  }

  lemma LeftmostElems<N>(t: Tree<N>)
    requires t.Bin? && t.l.Nil?
    ensures Elems(t) == Elems(t.r) + {t.n}
    ensures Distinct(t) <==> t.n !in Elems(t.r) && Distinct(t.r)
  {
  }

  /** Nothing but the removed node goes. */
  lemma SuccessorInOrder<N>(c: Ctx<N>, t: Tree<N>, c2: Ctx<N>, t2: Tree<N>)
    requires t.Bin? && t2.Bin? && t2.l.Nil? && Plug(c2, t2) == t.r && Before(c2) == []
    ensures
      var c' := Join(Step(c, R, t2.n, t.redR, t.redL, t.l), c2);
      var a, b := Before(c) + InOrder(t.l), InOrder(t.r) + Behind(c);
      InOrder(Plug(c, t)) == a + [t.n] + b && Before(c') + InOrder(t2.r) + Behind(c') == a + b
  {
    hide Wavl, CtxWavl, Rank, Elems, CtxElems, Distinct, CtxDistinct;
    var c' := SuccessorPlug(c, t, c2, t2);
    var r := Plug(c2, t2.r);
    PlugInOrder(c', t2.r);
    FirstOut(c2, t2);
    PlugInOrder(c, t);
    PlugInOrder(c, Bin(t.l, t2.n, t.redL, t.redR, r));
    SuccessorSeq(Before(c), InOrder(t.l), [t.n], InOrder(t.r), Behind(c));
    SpliceSeq(Before(c), InOrder(t.l), [t2.n], InOrder(r), Behind(c));
  }

  lemma SuccessorPlug<N>(c: Ctx<N>, t: Tree<N>, c2: Ctx<N>, t2: Tree<N>) returns (c': Ctx<N>)
    requires t.Bin? && t2.Bin?
    ensures c' == Join(Step(c, R, t2.n, t.redR, t.redL, t.l), c2)
    ensures Plug(c', t2.r) == Plug(c, Bin(t.l, t2.n, t.redL, t.redR, Plug(c2, t2.r)))
  {
    c' := Join(Step(c, R, t2.n, t.redR, t.redL, t.l), c2);
    PlugJoin(Step(c, R, t2.n, t.redR, t.redL, t.l), c2, t2.r);
  }

  /** The nodes around the successor's old place are the ones that stay, each of them once. */
  lemma SuccessorElems<N>(c: Ctx<N>, t: Tree<N>, c2: Ctx<N>, t2: Tree<N>)
    requires t.Bin? && t2.Bin? && t2.l.Nil? && Plug(c2, t2) == t.r && Before(c2) == [] && Apart(c, t)
    ensures
      var c' := Join(Step(c, R, t2.n, t.redR, t.redL, t.l), c2);
      && CtxElems(c') + Elems(t2.r) == CtxElems(c) + (Elems(t.l) + Elems(t.r))
      && Apart(c', t2.r) && Apart(c, Bin(t.l, t2.n, t.redL, t.redR, Plug(c2, t2.r)))
  {
    hide Wavl, CtxWavl, Rank, InOrder, CtxDistinct;
    var c' := SuccessorPlug(c, t, c2, t2);
    var r := Plug(c2, t2.r);
    FirstOutElems(c2, t2);
    PlugElems(c', t2.r);
    PlugElems(c, Bin(t.l, t2.n, t.redL, t.redR, r));
  }

  lemma SuccessorSeq<N>(a: seq<N>, l: seq<N>, n: seq<N>, r: seq<N>, b: seq<N>)
    ensures a + (l + n + r) + b == (a + l) + n + (r + b)
  {
  }

  lemma SpliceSeq<N>(a: seq<N>, l: seq<N>, n: seq<N>, r: seq<N>, b: seq<N>)
    ensures a + (l + n + r) + b == (a + l) + ((n + r) + b)
  {
  }

  // ------------------------------------------------------------------ walks

  /** What lies on the `d` side of the hole. */
  function Side<N>(c: Ctx<N>, d: Dir): seq<N> {
    if d.L? then Before(c) else Behind(c)
  }

  /** The first element of `s` from the side `d`. */
  function End<N>(s: seq<N>, d: Dir): N
    requires s != []
  {
    if d.L? then s[0] else s[|s| - 1]
  }

  /** A walk along the `d` edges, from any place, keeps what is on its `d` side. */
  lemma WalkStep<N>(c: Ctx<N>, t: Tree<N>, d: Dir) returns (c': Ctx<N>)
    requires t.Bin?
    ensures c' == Step(c, d, t.n, t.Red(d), t.Red(d.Flip()), t.Kid(d.Flip()))
    ensures Side(c', d) == Side(c, d) && Plug(c', t.Kid(d)) == Plug(c, t)
  {
    c' := Step(c, d, t.n, t.Red(d), t.Red(d.Flip()), t.Kid(d.Flip()));
  }

  /** Where such a walk ends. */
  lemma WalkEnd<N>(c: Ctx<N>, t: Tree<N>, d: Dir)
    requires t.Bin? && t.Kid(d).Nil? && Side(c, d) == []
    ensures InOrder(Plug(c, t)) != [] && End(InOrder(Plug(c, t)), d) == t.n
  {
    PlugInOrder(c, t);
    assert InOrder(t.Kid(d)) == [];
  }

  /** A climb along the `d` edges: the last element below the hole on the `d` side stays the last. */
  lemma ClimbStep<N>(c: Ctx<N>, t: Tree<N>, d: Dir)
    requires c.Step? && c.d == d && InOrder(t) != []
    ensures
      var m := Mk(d, t, c.n, c.red, c.sibRed, c.sib);
      InOrder(m) != [] && End(InOrder(m), d) == End(InOrder(t), d) && Plug(c.up, m) == Plug(c, t)
  {
  }

  function At<N>(s: seq<N>, i: int): (r: seq<N>) {
    if 0 <= i < |s| then [s[i]] else []
  }

  function Beside(i: int, d: Dir): int {
    if d.L? then i - 1 else i + 1
  }

  /** Where the climb ends: the neighbour on the `d` side is the node of the first edge that leads there, if any. */
  lemma ClimbEnd<N>(c: Ctx<N>, t: Tree<N>, d: Dir) returns (i: int)
    requires InOrder(t) != [] && (c.Step? ==> c.d == d.Flip())
    ensures
      var s := InOrder(Plug(c, t));
      0 <= i < |s| && s[i] == End(InOrder(t), d) && At(s, Beside(i, d)) == if c.Top? then [] else [c.n]
  {
    PlugInOrder(c, t);
    i := if d.R? then |Before(c)| + |InOrder(t)| - 1 else |Before(c)|;
  }

  /** The neighbour on the `d` side of a node with a `d` child is the nearest one below that child. */
  lemma NearestBelow<N>(c: Ctx<N>, t: Tree<N>, d: Dir) returns (i: int)
    requires t.Bin? && InOrder(t.Kid(d)) != []
    ensures
      var s := InOrder(Plug(c, t));
      0 <= i < |s| && s[i] == t.n && At(s, Beside(i, d)) == [End(InOrder(t.Kid(d)), d.Flip())]
  {
    PlugInOrder(c, t);
    i := |Before(c)| + |InOrder(t.l)|;
    var s := InOrder(Plug(c, t));
    assert s == Before(c) + (InOrder(t.l) + [t.n] + InOrder(t.r)) + Behind(c);
  }
}
