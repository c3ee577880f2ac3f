/**
 The rank-balanced tree of `dprbt.h` on the heap, as instantiated for the timer set.  A node is linked in
 place by three pointers; the two low bits of its parent pointer, the colours of its two child edges, are
 the fields `redL` and `redR`.
 */
module RbLinks {
  import opened RankTree
  import opened Seqs

  class Timer {
    const addr: int        // where the element lives; the last resort of the comparison
    var expire: int        // tmr_spec->expire
    var after: real        // tmr_spec->after
    var hasSpec: bool      // tmr_spec != NULL
    var isTiming: bool     // is_timing
    var parent: Timer?
    var left: Timer?
    var right: Timer?
    var redL: bool
    var redR: bool

    constructor (addr: int)
      ensures this.addr == addr && !isTiming && !hasSpec
    {
      this.addr := addr;
      expire, after, hasSpec, isTiming := 0, 0.0, false, false;
      parent, left, right := null, null, null;
      redL, redR := false, false;
    }

    /** `_RB_LINK(elm, dir)`. */
    function Link(d: Dir): Timer?
      reads this`left, this`right
    {
      if d.L? then left else right
    }

    function Red(d: Dir): bool
      reads this`redL, this`redR
    {
      if d.L? then redL else redR
    }

    method SetLink(d: Dir, x: Timer?)
      modifies this`left, this`right
      ensures Link(d) == x && Link(d.Flip()) == old(Link(d.Flip()))
    {
      if d.L? { left := x; } else { right := x; }
    }

    /** `_RB_BITSUP(elm) ^= dir`. */
    method Toggle(d: Dir)
      modifies this`redL, this`redR
      ensures Red(d) == !old(Red(d)) && Red(d.Flip()) == old(Red(d.Flip()))
    {
      if d.L? { redL := !redL; } else { redR := !redR; }
    }
  }

  // ------------------------------------------------------------------ heap shape

  function Root(t: Tree<Timer>): Timer? {
    if t.Nil? then null else t.n
  }

  function Hole(c: Ctx<Timer>): Timer? {
    if c.Top? then null else c.n
  }

  /** The nodes of `t` are linked as `t` says and its root points up to `up`. */
  ghost predicate Linked(t: Tree<Timer>, up: Timer?)
    reads Elems(t)`parent, Elems(t)`left, Elems(t)`right, Elems(t)`redL, Elems(t)`redR
  {
    match t
    case Nil => true
    case Bin(l, n, redL, redR, r) =>
      && n.parent == up && n.left == Root(l) && n.right == Root(r) && n.redL == redL && n.redR == redR
      && Linked(l, n) && Linked(r, n)
  }

  /** The nodes of `c` are linked as `c` says, with `hole` hanging in the hole and `root` on top. */
  ghost predicate Around(c: Ctx<Timer>, hole: Timer?, root: Timer?)
    reads CtxElems(c)`parent, CtxElems(c)`left, CtxElems(c)`right, CtxElems(c)`redL, CtxElems(c)`redR
  {
    match c
    case Top => root == hole
    case Step(up, d, n, red, sibRed, sib) =>
      && n.parent == Hole(up) && n.Link(d) == hole && n.Link(d.Flip()) == Root(sib)
      && n.Red(d) == red && n.Red(d.Flip()) == sibRed
      && Linked(sib, n) && Around(up, n, root)
  }

  lemma {:induction false} PlugLinked(c: Ctx<Timer>, t: Tree<Timer>, root: Timer?)
    requires Around(c, Root(t), root) && Linked(t, Hole(c))
    ensures root == Root(Plug(c, t)) && Linked(Plug(c, t), null)
  {
    if c.Step? {
      PlugLinked(c.up, Mk(c.d, t, c.n, c.red, c.sibRed, c.sib), root);
    }
  }

  lemma {:induction false} UnplugLinked(c: Ctx<Timer>, t: Tree<Timer>, root: Timer?)
    requires root == Root(Plug(c, t)) && Linked(Plug(c, t), null)
    ensures Around(c, Root(t), root) && Linked(t, Hole(c))
    decreases c
  {
    if c.Step? {
      PlugElems(c.up, Mk(c.d, t, c.n, c.red, c.sibRed, c.sib));
      UnplugLinked(c.up, Mk(c.d, t, c.n, c.red, c.sibRed, c.sib), root);
    }
  }

  /** `Linked`, one node at a time. */
  lemma MkLinked(d: Dir, near: Tree<Timer>, n: Timer, redNear: bool, redFar: bool, far: Tree<Timer>, up: Timer?)
    ensures Linked(Mk(d, near, n, redNear, redFar, far), up) <==>
      && n.parent == up && n.Link(d) == Root(near) && n.Link(d.Flip()) == Root(far)
      && n.Red(d) == redNear && n.Red(d.Flip()) == redFar
      && Linked(near, n) && Linked(far, n)
  {
  }

  /** The parts of a place where three nodes are about to be rotated. */
  lemma DoubleSpread(c: Ctx<Timer>, d: Dir, t1: Tree<Timer>, elm: Timer, b1: Tree<Timer>, child: Timer,
                     q1: bool, q2: bool, b2: Tree<Timer>, parent: Timer, red: bool, sib: Tree<Timer>)
    requires Apart(c, Mk(d, Mk(d, t1, elm, true, false, Mk(d, b1, child, q1, q2, b2)), parent, false, red, sib))
    ensures elm != child && child != parent && elm != parent && elm !in CtxElems(c) + Elems(sib)
    ensures parent !in Elems(t1) + Elems(b1) + Elems(b2)
    ensures elm !in Elems(t1) + Elems(b1) + Elems(b2) && child !in Elems(t1) + Elems(b1) + Elems(b2)
    ensures Elems(t1) !! Elems(b1) && Elems(b1) !! Elems(b2) && Elems(t1) !! Elems(b2) && Distinct(b1) && Distinct(t1)
    ensures Spread(c, parent, child, sib, b2, Mk(d, t1, elm, false, q1, b1))
    ensures CtxElems(c) !! Elems(b1) && Elems(sib) !! Elems(b1) && parent !in Elems(b1) + Elems(t1)
  {
    var u := Mk(d, b1, child, q1, q2, b2);
    SpreadApart(c, d, d, t1, elm, true, false, u, parent, false, red, sib);
    MkElems(d, b1, child, q1, q2, b2);
    MkElems(d, t1, elm, false, q1, b1);
    hide Elems, CtxElems, Distinct, CtxDistinct, Mk, Apart;
  }

  /** `Around`, one node at a time. */
  lemma StepAround(c: Ctx<Timer>, hole: Timer?, root: Timer?)
    requires c.Step?
    ensures Around(c, hole, root) <==>
      && c.n.parent == Hole(c.up) && c.n.Link(c.d) == hole && c.n.Link(c.d.Flip()) == Root(c.sib)
      && c.n.Red(c.d) == c.red && c.n.Red(c.d.Flip()) == c.sibRed
      && Linked(c.sib, c.n) && Around(c.up, c.n, root)
  {
  }

  /** A tree that can be named consists of nodes that exist. */
  lemma {:induction false} ElemsAllocated(t: Tree<Timer>)
    ensures forall x :: x in Elems(t) ==> allocated(x)
  {
    if t.Bin? {
      ElemsAllocated(t.l);
      ElemsAllocated(t.r);
    }
  }

  lemma {:induction false} CtxAllocated(c: Ctx<Timer>)
    ensures forall x :: x in CtxElems(c) ==> allocated(x)
  {
    if c.Step? {
      CtxAllocated(c.up);
      ElemsAllocated(c.sib);
    }
  }

  /** The subtree `b` goes from under `tmp` to the far side of `elm`. */
  method Rehang(elm: Timer, tmp: Timer, mid: Timer?, d: Dir, ghost b: Tree<Timer>)
    requires elm !in Elems(b) && tmp !in Elems(b) && mid == Root(b) && Linked(b, tmp) && Distinct(b)
    modifies elm`left, elm`right, Elems(b)`parent
    ensures elm.Link(d.Flip()) == mid && elm.Link(d) == old(elm.Link(d)) && Linked(b, elm)
  {
    hide Linked, Elems, Distinct;
    ElemsAllocated(b);
    elm.SetLink(d.Flip(), mid);
    NilLinked(b, elm);
    if mid != null {
      RootFields(b, tmp);
      KidElems(b, d);
      Adopt(b, mid, elm);
    }
  }

  /**
   `RB_ROTATE`: `tmp` hangs on the far side of `elm`; afterwards `elm` hangs on the `d` side of `tmp`, and the
   subtree `b` that was between them has changed parents.  The links above the two are left to the caller.
   */
  method Rotate(elm: Timer, tmp: Timer, d: Dir, ghost a: Tree<Timer>, ghost b: Tree<Timer>, ghost c: Tree<Timer>)
    requires elm != tmp && elm !in Elems(a) + Elems(b) + Elems(c) && tmp !in Elems(a) + Elems(b) + Elems(c)
    requires Elems(a) !! Elems(b) && Elems(b) !! Elems(c) && Elems(a) !! Elems(c) && Distinct(b)
    requires elm.Link(d) == Root(a) && Linked(a, elm)
    requires tmp.Link(d) == Root(b) && Linked(b, tmp) && tmp.Link(d.Flip()) == Root(c) && Linked(c, tmp)
    modifies elm`left, elm`right, elm`parent, tmp`left, tmp`right, Elems(b)`parent
    ensures elm.Link(d) == Root(a) && Linked(a, elm) && elm.Link(d.Flip()) == Root(b) && Linked(b, elm)
    ensures tmp.Link(d) == elm && elm.parent == tmp && tmp.Link(d.Flip()) == Root(c) && Linked(c, tmp)
  {
    hide Linked, Elems, Distinct;
    ElemsAllocated(a);
    ElemsAllocated(b);
    ElemsAllocated(c);
    Rehang(elm, tmp, tmp.Link(d), d, b);
    tmp.SetLink(d, elm);
    elm.parent := tmp;
  }

  /** The heap holds `t` in the place `c`. */
  ghost predicate Place(c: Ctx<Timer>, t: Tree<Timer>, root: Timer?)
    reads CtxElems(c)`parent, CtxElems(c)`left, CtxElems(c)`right, CtxElems(c)`redL, CtxElems(c)`redR
    reads Elems(t)`parent, Elems(t)`left, Elems(t)`right, Elems(t)`redL, Elems(t)`redR
  {
    Apart(c, t) && Around(c, Root(t), root) && Linked(t, Hole(c))
  }

  /** The heap holds the weak-AVL tree `t`. */
  ghost predicate IsTree(t: Tree<Timer>, root: Timer?)
    reads Elems(t)`parent, Elems(t)`left, Elems(t)`right, Elems(t)`redL, Elems(t)`redR
  {
    root == Root(t) && Linked(t, null) && Distinct(t) && Wavl(t)
  }

  lemma PlaceIsTree(c: Ctx<Timer>, t: Tree<Timer>, root: Timer?)
    requires Place(c, t, root) && Wavl(t) && CtxWavl(c, Rank(t))
    ensures IsTree(Plug(c, t), root)
    ensures InOrder(Plug(c, t)) == Before(c) + InOrder(t) + Behind(c)
    ensures Elems(Plug(c, t)) == CtxElems(c) + Elems(t)
  {
    hide Linked, Around, Elems, CtxElems, Distinct, CtxDistinct, Wavl, CtxWavl, Rank, Plug;
    PlugLinked(c, t, root);
    PlugElems(c, t);
    PlugWavl(c, t);
    PlugInOrder(c, t);
  }

  /** Moving the place up by one node. */
  lemma PlaceUp(c: Ctx<Timer>, t: Tree<Timer>, root: Timer?)
    requires c.Step?
    ensures Place(c, t, root) <==> Place(c.up, Mk(c.d, t, c.n, c.red, c.sibRed, c.sib), root)
    ensures CtxElems(c) + Elems(t) == CtxElems(c.up) + Elems(Mk(c.d, t, c.n, c.red, c.sibRed, c.sib))
    ensures c.n in CtxElems(c)
  {
    var m := Mk(c.d, t, c.n, c.red, c.sibRed, c.sib);
    StepApart(c, t);
    StepAround(c, Root(t), root);
    MkLinked(c.d, t, c.n, c.red, c.sibRed, c.sib, Hole(c.up));
    MkElems(c.d, t, c.n, c.red, c.sibRed, c.sib);
    assert Root(m) == c.n && Hole(c) == c.n;
    hide Linked, Around, Elems, CtxElems, Distinct, CtxDistinct, Apart, Root, Mk, Hole;
  }

  /** One step up of the climb on insertion, when both edges below the parent were black. */
  lemma ClimbsInPlace(c: Ctx<Timer>, t: Tree<Timer>, grew: Tree<Timer>, root: Timer?)
    requires c.Step? && !c.red && !c.sibRed && Grown(c, t, grew) && Place(c.(sibRed := true), t, root)
    ensures
      var m := Mk(c.d, t, c.n, false, true, c.sib);
      && m.Bin? && m.n == c.n && Grown(c.up, m, t) && Place(c.up, m, root)
      && InOrder(Plug(c.up, m)) == InOrder(Plug(c, t))
      && CtxElems(c.up) + Elems(m) == CtxElems(c) + Elems(t)
  {
    GrownClimbs(c, t, grew);
    PlaceUp(c.(sibRed := true), t, root);
    RecoloredInOrder(c, t, false, true);
    hide Place, Grown, InOrder, CtxElems, Elems;
  }

  /** The start of a rebalancing after insertion. */
  lemma LeafGrown(c: Ctx<Timer>, elm: Timer)
    requires c.Step? && CtxWavl(c, 0)
    ensures
      var t := Bin(Nil, elm, false, false, Nil);
      Grown(c, t, Nil) && Elems(t) == {elm} && InOrder(Plug(c, t)) == Before(c) + [elm] + Behind(c)
  {
    var t: Tree<Timer> := Bin(Nil, elm, false, false, Nil);
    assert Rank(t) == 1 && Wavl(t) && InOrder(t) == [elm];
    PlugInOrder(c, t);
  }

  /** The end of a rebalancing by a rotation around the parent. */
  lemma SettledInOrder(c: Ctx<Timer>, t: Tree<Timer>, r: Tree<Timer>)
    requires c.Step? && InOrder(r) == InOrder(Mk(c.d, t, c.n, false, false, c.sib))
    ensures Before(c.up) + InOrder(r) + Behind(c.up) == InOrder(Plug(c, t))
  {
    RecoloredInOrder(c, t, false, false);
    PlugInOrder(c.up, Mk(c.d, t, c.n, false, false, c.sib));
    assert Plug(c.(red := false, sibRed := false), t) == Plug(c.up, Mk(c.d, t, c.n, false, false, c.sib));
  }

  /** Which child of its parent a node is. */
  function DirOf(parent: Timer, elm: Timer?): Dir
    reads parent
  {
    if parent.right == elm then R else L
  }

  /** What the parent's fields say about the place below it. */
  lemma EdgeFields(c: Ctx<Timer>, t: Tree<Timer>, root: Timer?)
    requires c.Step? && Place(c, t, root)
    ensures t.Bin? ==> DirOf(c.n, t.n) == c.d && Root(c.sib) != t.n && t.n != c.n && t.n.redL == t.redL && t.n.redR == t.redR
    ensures t.Nil? && c.sib.Bin? ==> DirOf(c.n, null) == c.d
    ensures c.n.Red(c.d) == c.red && c.n.Red(c.d.Flip()) == c.sibRed && c.n.parent == Hole(c.up)
    ensures c.n.Link(c.d.Flip()) == Root(c.sib) && c.n.Link(c.d) == Root(t)
    ensures c.n in CtxElems(c) && CtxElems(c.up) <= CtxElems(c) && Elems(c.sib) <= CtxElems(c)
  {
    assert t.Bin? ==> t.n in Elems(t);
    assert c.sib.Bin? ==> c.sib.n in Elems(c.sib);
  }

  /** `_RB_BITSUP(parent) ^= dir`, seen from the place below it. */
  method ToggleEdge(ghost c: Ctx<Timer>, ghost t: Tree<Timer>, parent: Timer, d: Dir, ghost root: Timer?)
    requires c.Step? && parent == c.n && Place(c, t, root)
    modifies parent`redL, parent`redR
    ensures Place(if d == c.d then c.(red := !c.red) else c.(sibRed := !c.sibRed), t, root)
  {
    hide Linked, Around, Elems, CtxElems, Distinct, CtxDistinct, Hole, Root;
    ghost var c' := if d == c.d then c.(red := !c.red) else c.(sibRed := !c.sibRed);
    ElemsAllocated(t);
    ElemsAllocated(c.sib);
    CtxAllocated(c.up);
    StepApart(c, t);
    StepApart(c', t);
    StepAround(c, Root(t), root);
    HoleIs(c);
    HoleIs(c');
    RecoloredApart(c, t, c'.red, c'.sibRed);
    parent.Toggle(d);
    StepAround(c', Root(t), root);
  }

  lemma RootMk(d: Dir, near: Tree<Timer>, n: Timer, redNear: bool, redFar: bool, far: Tree<Timer>)
    ensures Root(Mk(d, near, n, redNear, redFar, far)) == n
  {
  }

  lemma HoleIs(c: Ctx<Timer>)
    requires c.Step?
    ensures Hole(c) == c.n
  {
  }

  /** The first half of a double rotation, with the colours it gives to the two nodes that go down. */
  method RotateInner(parent: Timer, elm: Timer, child: Timer, d: Dir, ghost t1: Tree<Timer>, ghost b1: Tree<Timer>, ghost b2: Tree<Timer>)
    requires elm != child && child != parent && elm != parent && parent !in Elems(t1) + Elems(b1) + Elems(b2)
    requires elm !in Elems(t1) + Elems(b1) + Elems(b2) && child !in Elems(t1) + Elems(b1) + Elems(b2)
    requires Elems(t1) !! Elems(b1) && Elems(b1) !! Elems(b2) && Elems(t1) !! Elems(b2) && Distinct(b1)
    requires elm.Link(d) == Root(t1) && Linked(t1, elm) && elm.Red(d) && !elm.Red(d.Flip())
    requires child.Link(d) == Root(b1) && Linked(b1, child) && child.Link(d.Flip()) == Root(b2) && Linked(b2, child)
    requires !parent.redL && !parent.redR
    modifies parent`redL, parent`redR, elm`parent, elm`left, elm`right, elm`redL, elm`redR, child`left, child`right,
             Elems(b1)`parent
    ensures Linked(Mk(d, t1, elm, false, old(child.Red(d)), b1), child)
    ensures child.Link(d) == Root(Mk(d, t1, elm, false, old(child.Red(d)), b1))
    ensures child.Link(d.Flip()) == Root(b2) && Linked(b2, child)
    ensures parent.Red(d) == old(child.Red(d.Flip())) && !parent.Red(d.Flip())
  {
    hide Linked, Elems, Distinct, Mk, Root;
    ElemsAllocated(t1);
    ElemsAllocated(b1);
    ElemsAllocated(b2);
    Rotate(elm, child, d, t1, b1, b2);
    if child.Red(d.Flip()) {
      parent.Toggle(d);
    }
    if child.Red(d) {
      elm.redL, elm.redR := !elm.redL, !elm.redR;
    } else {
      elm.Toggle(d);
    }
    MkLinked(d, t1, elm, false, child.Red(d), b1, child);
    RootMk(d, t1, elm, false, child.Red(d), b1);
  }

  /** The first half of a double rotation on removal: `elm` comes out red on both sides. */
  method RotateInnerRed(parent: Timer, sib: Timer, elm: Timer, d: Dir, ghost outer: Tree<Timer>, ghost b2: Tree<Timer>, ghost b1: Tree<Timer>)
    requires sib != elm && elm != parent && sib != parent && parent !in Elems(outer) + Elems(b2) + Elems(b1)
    requires sib !in Elems(outer) + Elems(b2) + Elems(b1) && elm !in Elems(outer) + Elems(b2) + Elems(b1)
    requires Elems(outer) !! Elems(b2) && Elems(b2) !! Elems(b1) && Elems(outer) !! Elems(b1) && Distinct(b2)
    requires sib.Link(d.Flip()) == Root(outer) && Linked(outer, sib) && sib.Red(d.Flip()) && !sib.Red(d)
    requires elm.Link(d.Flip()) == Root(b2) && Linked(b2, elm) && elm.Link(d) == Root(b1) && Linked(b1, elm)
    requires parent.Red(d) && !parent.Red(d.Flip())
    modifies parent`redL, parent`redR, sib`parent, sib`left, sib`right, sib`redL, sib`redR
    modifies elm`left, elm`right, elm`redL, elm`redR, Elems(b2)`parent
    ensures Linked(Mk(d.Flip(), outer, sib, false, old(elm.Red(d.Flip())), b2), elm)
    ensures elm.Link(d.Flip()) == Root(Mk(d.Flip(), outer, sib, false, old(elm.Red(d.Flip())), b2))
    ensures elm.Link(d) == Root(b1) && Linked(b1, elm) && elm.redL && elm.redR
    ensures parent.Red(d.Flip()) == old(elm.Red(d)) && !parent.Red(d)
  {
    hide Linked, Elems, Distinct;
    ElemsAllocated(outer);
    ElemsAllocated(b1);
    ElemsAllocated(b2);
    ghost var q := elm.Red(d.Flip());
    parent.Toggle(d);
    RotateInner(parent, sib, elm, d.Flip(), outer, b2, b1);
    MkLinked(d.Flip(), outer, sib, false, q, b2, elm);
    elm.redL, elm.redR := true, true;
    MkLinked(d.Flip(), outer, sib, false, q, b2, elm);
  }

  // ------------------------------------------------------------------ order

  /** `_dpele_tmrspec_compare`. */
  function Compare(a: Timer, b: Timer): int
    reads a`expire, b`expire
  {
    var c := a.expire - b.expire;
    if c == 0 then a.addr - b.addr else c
  }

  ghost predicate Sorted(s: seq<Timer>)
    reads (set x | x in s)`expire
  {
    forall i, j :: 0 <= i < j < |s| ==> Compare(s[i], s[j]) < 0
  }

  /** `x` belongs between position `i` and position `j` of `s`. */
  ghost predicate Between(s: seq<Timer>, i: nat, j: nat, x: Timer)
    reads x`expire, (set y | y in s)`expire
  {
    && i <= j <= |s|
    && (forall k :: 0 <= k < i ==> Compare(s[k], x) < 0)
    && (forall k :: j <= k < |s| ==> Compare(x, s[k]) < 0)
  }

  lemma NarrowLeft(s: seq<Timer>, i: nat, j: nat, k: nat, x: Timer)
    requires Sorted(s) && Between(s, i, j, x) && i <= k < j && Compare(x, s[k]) < 0
    ensures Between(s, i, k, x)
  {
    forall l | k <= l < |s|
      ensures Compare(x, s[l]) < 0
    {
      assert l == k || Compare(s[k], s[l]) < 0;
    }
  }

  lemma NarrowRight(s: seq<Timer>, i: nat, j: nat, k: nat, x: Timer)
    requires Sorted(s) && Between(s, i, j, x) && i <= k < j && Compare(x, s[k]) > 0
    ensures Between(s, k + 1, j, x)
  {
    forall l | 0 <= l < k + 1
      ensures Compare(s[l], x) < 0
    {
      assert l == k || Compare(s[l], s[k]) < 0;
    }
  }

  lemma InsertKeepsSorted(s: seq<Timer>, i: nat, x: Timer)
    requires Sorted(s) && Between(s, i, i, x)
    ensures Sorted(s[..i] + [x] + s[i..])
  {
    var s' := s[..i] + [x] + s[i..];
    forall a, b | 0 <= a < b < |s'|
      ensures Compare(s'[a], s'[b]) < 0
    {
      if a < i && b > i { assert s'[a] == s[a] && s'[b] == s[b - 1]; }
    }
  }

  /** Where the subtree in the place `c` starts and ends in the whole sequence. */
  ghost predicate Spans(s: seq<Timer>, c: Ctx<Timer>, t: Tree<Timer>, i: nat, j: nat) {
    && s == Before(c) + InOrder(t) + Behind(c)
    && i == |Before(c)| && j == i + |InOrder(t)|
  }

  /** The search goes down by one node: the span shrinks to one side of it. */
  lemma DescendSpans(s: seq<Timer>, c: Ctx<Timer>, t: Tree<Timer>, i: nat, j: nat, d: Dir) returns (k: nat)
    requires t.Bin? && Spans(s, c, t, i, j)
    ensures i <= k < j && k < |s| && s[k] == t.n
    ensures
      var c', t' := Step(c, d, t.n, t.Red(d), t.Red(d.Flip()), t.Kid(d.Flip())), t.Kid(d);
      Plug(c', t') == Plug(c, t) && if d.L? then Spans(s, c', t', i, k) else Spans(s, c', t', k + 1, j)
  {
    var a, b, x, y := Before(c), Behind(c), InOrder(t.l), InOrder(t.r);
    k := i + |x|;
    assert InOrder(t) == x + [t.n] + y;
    assert s == a + (x + [t.n] + y) + b;
    if d.L? {
      assert Behind(Step(c, L, t.n, t.redL, t.redR, t.r)) == [t.n] + y + b;
      assert s == a + x + ([t.n] + y + b);
    } else {
      assert Before(Step(c, R, t.n, t.redR, t.redL, t.l)) == a + x + [t.n];
      assert s == (a + x + [t.n]) + y + b;
    }
  }

  lemma TopSpans(t: Tree<Timer>, x: Timer)
    ensures Plug(Top, t) == t && Spans(InOrder(t), Top, t, 0, |InOrder(t)|)
    ensures Between(InOrder(t), 0, |InOrder(t)|, x)
  {
    assert InOrder(t) == [] + InOrder(t) + [];
  }

  lemma EmptySpan(s: seq<Timer>, c: Ctx<Timer>, i: nat, j: nat)
    requires Spans(s, c, Nil, i, j)
    ensures i == j
  {
  }

  lemma RootFields(t: Tree<Timer>, up: Timer?)
    requires Linked(t, up) && t.Bin?
    ensures t.n.parent == up && t.n.left == Root(t.l) && t.n.right == Root(t.r)
    ensures t.n.redL == t.redL && t.n.redR == t.redR
    ensures Linked(t.l, t.n) && Linked(t.r, t.n)
  {
  }

  /** The null link that the search ended at, as a place. */
  lemma NullPlace(t: Tree<Timer>, c: Ctx<Timer>, root: Timer?)
    requires IsTree(t, root) && Plug(c, Nil) == t
    ensures Around(c, null, root) && CtxWavl(c, 0) && CtxDistinct(c) && CtxElems(c) == Elems(t)
    ensures c.Step? ==> c.n in CtxElems(c) && Elems(c.sib) <= CtxElems(c) && CtxElems(c.up) <= CtxElems(c)
    ensures c.Step? ==> c.n !in Elems(c.sib) && c.n !in CtxElems(c.up)
  {
    UnplugLinked(c, Nil, root);
    PlugElems(c, Nil);
    PlugWavl(c, Nil);
  }

  ghost predicate IsLeaf(elm: Timer, up: Timer?)
    reads elm
  {
    elm.parent == up && elm.left == null && elm.right == null && !elm.redL && !elm.redR
  }

  lemma LeafTree(c: Ctx<Timer>, elm: Timer, root: Timer?)
    requires c.Top? && root == elm && IsLeaf(elm, null)
    ensures
      var t := Bin(Nil, elm, false, false, Nil);
      IsTree(t, root) && InOrder(t) == Before(c) + [elm] + Behind(c) && Elems(t) == CtxElems(c) + {elm}
  {
    var t: Tree<Timer> := Bin(Nil, elm, false, false, Nil);
    assert Linked(t, null);
  }

  lemma LeafLinked(elm: Timer, up: Timer?)
    requires IsLeaf(elm, up)
    ensures
      var t := Bin(Nil, elm, false, false, Nil);
      Linked(t, up) && Distinct(t) && Elems(t) == {elm} && Root(t) == elm
  {
    var t: Tree<Timer> := Bin(Nil, elm, false, false, Nil);
    assert Linked(t, up);
  }

  /** `*pptr = elm` for a null link below `parent`. */
  method HangLeaf(ghost c: Ctx<Timer>, parent: Timer, d: Dir, elm: Timer, ghost root: Timer?)
    requires c.Step? && parent == c.n && d == c.d && Around(c, null, root) && CtxDistinct(c)
    requires elm !in CtxElems(c) && IsLeaf(elm, parent)
    requires c.n in CtxElems(c) && c.n !in Elems(c.sib) && c.n !in CtxElems(c.up)
    modifies parent`left, parent`right
    ensures Place(c, Bin(Nil, elm, false, false, Nil), root)
  {
    hide Linked, Around, Elems, CtxElems, Distinct, CtxDistinct;
    ElemsAllocated(c.sib);
    CtxAllocated(c.up);
    StepAround(c, null, root);
    parent.SetLink(d, elm);
    StepAround(c, elm, root);
    LeafLinked(elm, parent);
    HoleIs(c);
  }

  ghost predicate Inserted(s: seq<Timer>, x: Timer, s': seq<Timer>) {
    exists i :: 0 <= i <= |s| && s' == s[..i] + [x] + s[i..]
  }

  lemma SpanSplits(s: seq<Timer>, c: Ctx<Timer>, i: nat)
    requires Spans(s, c, Nil, i, i)
    ensures i <= |s| && Before(c) == s[..i] && Behind(c) == s[i..]
  {
  }

  lemma SeqAllocated(t: Tree<Timer>)
    ensures forall x :: x in InOrder(t) ==> allocated(x)
  {
    ElemsAllocated(t);
    InOrderElems(t);
  }

  /** What the heap holds around the two nodes that a rotation on removal starts from. */
  lemma SiblingFields(c: Ctx<Timer>, t: Tree<Timer>, root: Timer?)
    requires c.Step? && c.sib.Bin? && Place(c, t, root)
    ensures
      var d, s := c.d, c.d.Flip();
      var inner, outer, n, sib := c.sib.Kid(c.d), c.sib.Kid(c.d.Flip()), c.n, c.sib.n;
      && Around(c.up, n, root) && n.parent == Hole(c.up)
      && n.Link(d) == Root(t) && Linked(t, n)
      && sib.Link(d) == Root(inner) && Linked(inner, sib) && sib.Link(s) == Root(outer) && Linked(outer, sib)
      && n.Red(d) == c.red && n.Red(s) == c.sibRed && sib.Red(d) == c.sib.Red(d) && sib.Red(s) == c.sib.Red(s)
      && n in CtxElems(c) && sib in CtxElems(c) && Elems(inner) <= CtxElems(c) && Elems(outer) <= CtxElems(c) && CtxElems(c.up) <= CtxElems(c)
  {
    hide Elems, CtxElems, Distinct, CtxDistinct, Apart, Linked, Around, Hole;
    var d, s := c.d, c.d.Flip();
    assert c.sib == Mk(d, c.sib.Kid(d), c.sib.n, c.sib.Red(d), c.sib.Red(s), c.sib.Kid(s));
    StepApart(c, t);
    StepAround(c, Root(t), root);
    HoleIs(c);
    MkLinked(d, c.sib.Kid(d), c.sib.n, c.sib.Red(d), c.sib.Red(s), c.sib.Kid(s), c.n);
    KidElems(c.sib, d);
    KidElems(c.sib, s);
  }

  /** One step up of the climb on removal, when both edges below the parent were red. */
  lemma ShrinksInPlace(c: Ctx<Timer>, t: Tree<Timer>, root: Timer?)
    requires c.Step? && c.red && c.sibRed && Shrunk(c, t) && Place(c.(sibRed := false), t, root)
    ensures
      var m := Mk(c.d, t, c.n, true, false, c.sib);
      && Root(m) == c.n && Shrunk(c.up, m) && Place(c.up, m, root)
      && InOrder(Plug(c.up, m)) == InOrder(Plug(c, t))
      && CtxElems(c.up) + Elems(m) == CtxElems(c) + Elems(t)
  {
    ShrunkClimbs(c, t);
    PlaceUp(c.(sibRed := false), t, root);
    RecoloredInOrder(c, t, true, false);
    PlugStep(c.(sibRed := false), t);
    RootMk(c.d, t, c.n, true, false, c.sib);
    hide Place, Shrunk, InOrder, CtxElems, Elems, Mk, Plug, Root;
  }

  /** One step up of the climb on removal, when both edges below the sibling were red. */
  lemma SibShrinksInPlace(c: Ctx<Timer>, t: Tree<Timer>, root: Timer?)
    requires c.Step? && c.red && !c.sibRed && c.sib.Bin? && c.sib.redL && c.sib.redR && Shrunk(c, t)
    requires Place(c.(sib := c.sib.(redL := false, redR := false)), t, root)
    ensures
      var m := Mk(c.d, t, c.n, true, false, c.sib.(redL := false, redR := false));
      && Root(m) == c.n && Shrunk(c.up, m) && Place(c.up, m, root)
      && InOrder(Plug(c.up, m)) == InOrder(Plug(c, t))
      && CtxElems(c.up) + Elems(m) == CtxElems(c) + Elems(t)
  {
    var c' := c.(sib := c.sib.(redL := false, redR := false));
    SiblingShrinks(c, t);
    PlaceUp(c', t, root);
    PlainSib(c, t);
    PlugStep(c', t);
    RootMk(c.d, t, c.n, true, false, c'.sib);
    hide Place, Shrunk, InOrder, CtxElems, Elems, Mk, Plug, Root;
  }

  lemma PlainSib(c: Ctx<Timer>, t: Tree<Timer>)
    requires c.Step? && c.sib.Bin?
    ensures
      var c' := c.(sib := c.sib.(redL := false, redR := false));
      InOrder(Plug(c', t)) == InOrder(Plug(c, t)) && CtxElems(c') == CtxElems(c)
  {
    PlugInOrder(c, t);
    PlugInOrder(c.(sib := c.sib.(redL := false, redR := false)), t);
  }

  /** The parent of a removed leaf that was an only child becomes a leaf itself. */
  lemma LeafShrinksInPlace(c: Ctx<Timer>, t: Tree<Timer>, root: Timer?)
    requires c.Step? && c.sib.Nil? && t.Nil? && CtxWavl(c, 1) && Place(c.(red := false, sibRed := false), t, root)
    ensures
      var m := Mk(c.d, t, c.n, false, false, c.sib);
      && Root(m) == c.n && Shrunk(c.up, m) && Place(c.up, m, root)
      && InOrder(Plug(c.up, m)) == InOrder(Plug(c, t))
      && CtxElems(c.up) + Elems(m) == CtxElems(c) + Elems(t)
  {
    LeafShrinks(c);
    PlaceUp(c.(red := false, sibRed := false), t, root);
    RecoloredInOrder(c, t, false, false);
    PlugStep(c.(red := false, sibRed := false), t);
    RootMk(c.d, t, c.n, false, false, c.sib);
    hide Place, Shrunk, InOrder, CtxElems, Elems, Mk, Plug, Root;
  }

  /** `_RB_UP(parent) = _RB_PTR(_RB_UP(parent))`: both edges become black. */
  method ClearEdges(ghost c: Ctx<Timer>, ghost t: Tree<Timer>, parent: Timer, ghost root: Timer?)
    requires c.Step? && parent == c.n && Place(c, t, root)
    modifies parent`redL, parent`redR
    ensures Place(c.(red := false, sibRed := false), t, root)
  {
    hide Linked, Around, Elems, CtxElems, Distinct, CtxDistinct, Hole, Root;
    ghost var c' := c.(red := false, sibRed := false);
    ElemsAllocated(t);
    ElemsAllocated(c.sib);
    CtxAllocated(c.up);
    StepApart(c, t);
    StepAround(c, Root(t), root);
    HoleIs(c);
    HoleIs(c');
    RecoloredApart(c, t, false, false);
    parent.redL, parent.redR := false, false;
    StepAround(c', Root(t), root);
  }

  /** The start of `RB_REMOVE_COLOR` below a parent that has lost its only child. */
  method LowerLeaf(ghost c: Ctx<Timer>, ghost t: Tree<Timer>, parent: Timer, ghost root: Timer?) returns (ghost m: Tree<Timer>)
    requires c.Step? && parent == c.n && c.sib.Nil? && t.Nil? && CtxWavl(c, 1) && Place(c, t, root)
    modifies parent`redL, parent`redR
    ensures Root(m) == parent && parent.parent == Hole(c.up) && Shrunk(c.up, m) && Place(c.up, m, root)
    ensures InOrder(Plug(c.up, m)) == InOrder(Plug(c, t)) && CtxElems(c.up) + Elems(m) == CtxElems(c) + Elems(t)
  {
    hide Linked, Around, Elems, CtxElems, Distinct, CtxDistinct, Apart, InOrder, CtxWavl, Rank, Place, Shrunk, Plug,
         Wavl, Mk;
    ClearEdges(c, t, parent, root);
    LeafShrinksInPlace(c, t, root);
    m := Mk(c.d, t, c.n, false, false, c.sib);
    UpField(c.up, m, root);
  }

  /** The same for the sibling. */
  method ClearSib(ghost c: Ctx<Timer>, ghost t: Tree<Timer>, sib: Timer, ghost root: Timer?)
    requires c.Step? && c.sib.Bin? && sib == c.sib.n && Place(c, t, root)
    modifies sib`redL, sib`redR
    ensures Place(c.(sib := c.sib.(redL := false, redR := false)), t, root)
  {
    hide Linked, Around, Elems, CtxElems, Distinct, CtxDistinct, Hole;
    ghost var x := c.sib.(redL := false, redR := false);
    ghost var c' := c.(sib := x);
    ElemsAllocated(t);
    ElemsAllocated(c.sib.l);
    ElemsAllocated(c.sib.r);
    CtxAllocated(c.up);
    StepApart(c, t);
    StepApart(c', t);
    SibApart(c, t);
    StepAround(c, Root(t), root);
    HoleIs(c);
    HoleIs(c');
    KidElems(c.sib, L);
    KidElems(c.sib, R);
    MkLinked(L, c.sib.l, sib, c.sib.redL, c.sib.redR, c.sib.r, c.n);
    sib.redL, sib.redR := false, false;
    MkLinked(L, c.sib.l, sib, false, false, c.sib.r, c.n);
    StepAround(c', Root(t), root);
  }

  lemma SibApart(c: Ctx<Timer>, t: Tree<Timer>)
    requires c.Step? && c.sib.Bin? && Apart(c, t)
    ensures Apart(c.(sib := c.sib.(redL := false, redR := false)), t)
    ensures c.sib.n !in Elems(c.sib.l) + Elems(c.sib.r) + Elems(t) + CtxElems(c.up) + {c.n}
    ensures c.sib.n in CtxElems(c)
  {
  }

  /** What `RB_REMOVE_COLOR` finds at its start: a parent without children, or a place that has shrunk. */
  lemma StartOfRemoval(c: Ctx<Timer>, t: Tree<Timer>, root: Timer?)
    requires c.Step? && Place(c, t, root) && Wavl(t) && CtxWavl(c, Rank(t) + 1)
    ensures c.n.right == Root(t) && c.n.left == Root(t) <==> t.Nil? && c.sib.Nil?
    ensures if t.Nil? && c.sib.Nil? then CtxWavl(c, 1) else Shrunk(c, t)
  {
    assert t.Bin? ==> t.n in Elems(t);
    assert c.sib.Bin? ==> c.sib.n in Elems(c.sib);
  }

  lemma UpField(c: Ctx<Timer>, t: Tree<Timer>, root: Timer?)
    requires Place(c, t, root) && t.Bin?
    ensures t.n.parent == Hole(c)
  {
  }

  lemma ShrunkSides(c: Ctx<Timer>, t: Tree<Timer>)
    requires Shrunk(c, t) && c.Step?
    ensures t.Bin? || c.sib.Bin?
  {
  }

  lemma SibFields(c: Ctx<Timer>, t: Tree<Timer>, root: Timer?)
    requires c.Step? && c.sib.Bin? && Place(c, t, root)
    ensures c.sib.n.redL == c.sib.redL && c.sib.n.redR == c.sib.redR && c.sib.n in Elems(c.sib)
  {
  }

  /** The parent of what hangs in the hole of `c`, when `c` itself hangs below `above`. */
  function Above(c: Ctx<Timer>, above: Timer?): Timer? {
    if c.Top? then above else c.n
  }

  /** The top node of a context. */
  function Crown(c: Ctx<Timer>): Timer
    requires c.Step?
  {
    if c.up.Top? then c.n else Crown(c.up)
  }

  function CrownSet(c: Ctx<Timer>): set<Timer> {
    if c.Top? then {} else {Crown(c)}
  }

  lemma {:induction false} CrownIsRoot(c: Ctx<Timer>, t: Tree<Timer>)
    requires c.Step?
    ensures Root(Plug(c, t)) == Crown(c) && Crown(c) in CtxElems(c)
  {
    if c.up.Step? {
      CrownIsRoot(c.up, Mk(c.d, t, c.n, c.red, c.sibRed, c.sib));
    }
  }

  /** The nodes of `c` are linked as `c` says, with `hole` hanging in the hole; where `c` itself hangs is left open. */
  ghost predicate Spine(c: Ctx<Timer>, hole: Timer?)
    requires CtxDistinct(c)
    reads (CtxElems(c) - CrownSet(c))`parent
    reads CtxElems(c)`left, CtxElems(c)`right, CtxElems(c)`redL, CtxElems(c)`redR
  {
    c.Step? ==>
      (CrownInside(c);
       && (c.up.Step? ==> c.n.parent == c.up.n) && c.n.Link(c.d) == hole && c.n.Link(c.d.Flip()) == Root(c.sib)
       && c.n.Red(c.d) == c.red && c.n.Red(c.d.Flip()) == c.sibRed
       && Linked(c.sib, c.n) && Spine(c.up, c.n))
  }

  lemma {:induction false} CrownInside(c: Ctx<Timer>)
    requires c.Step?
    ensures Crown(c) in CtxElems(c)
    ensures c.up.Step? ==> Crown(c) == Crown(c.up) && Crown(c) in CtxElems(c.up)
  {
    if c.up.Step? {
      CrownInside(c.up);
    }
  }

  lemma {:induction false} SpineLinked(c: Ctx<Timer>, t: Tree<Timer>, above: Timer?)
    requires Apart(c, t)
    ensures Linked(Plug(c, t), above) <==>
      Linked(t, Above(c, above)) && (c.Step? ==> Spine(c, Root(t)) && Crown(c).parent == above)
    decreases c
  {
    if c.Step? {
      var m := Mk(c.d, t, c.n, c.red, c.sibRed, c.sib);
      StepApart(c, t);
      SpineLinked(c.up, m, above);
      MkLinked(c.d, t, c.n, c.red, c.sibRed, c.sib, Above(c.up, above));
      RootMk(c.d, t, c.n, c.red, c.sibRed, c.sib);
      PlugStep(c, t);
      CrownInside(c);
    }
  }

  lemma PlugRoot(c: Ctx<Timer>, t: Tree<Timer>)
    ensures Root(Plug(c, t)) == if c.Top? then Root(t) else Crown(c)
  {
    if c.Step? {
      CrownIsRoot(c, t);
    }
  }

  /** `Spine`, one node at a time. */
  lemma SpineStep(c: Ctx<Timer>, hole: Timer?)
    requires c.Step? && CtxDistinct(c)
    ensures CtxDistinct(c.up) && Crown(c) in CtxElems(c) && (c.up.Step? ==> Crown(c) == Crown(c.up) && Crown(c) in CtxElems(c.up))
    ensures Spine(c, hole) <==>
      && (c.up.Step? ==> c.n.parent == c.up.n) && c.n.Link(c.d) == hole && c.n.Link(c.d.Flip()) == Root(c.sib)
      && c.n.Red(c.d) == c.red && c.n.Red(c.d.Flip()) == c.sibRed && Linked(c.sib, c.n) && Spine(c.up, c.n)
  {
    CrownInside(c);
  }

  /** The parts of a place whose node is to be replaced by its successor, and what the heap holds there. */
  ghost predicate Succession(c: Ctx<Timer>, t: Tree<Timer>, c2: Ctx<Timer>, t2: Tree<Timer>) {
    && t.Bin? && t.l.Bin? && t2.Bin? && t2.l.Nil? && Plug(c2, t2) == t.r && Before(c2) == []
    && (t2.r.Bin? ==> !t2.r.redL && !t2.r.redR)
  }

  lemma SuccessionApart(c: Ctx<Timer>, t: Tree<Timer>, c2: Ctx<Timer>, t2: Tree<Timer>)
    requires Succession(c, t, c2, t2) && Apart(c, t)
    ensures t.n !in Elems(t.l) + CtxElems(c2) + Elems(t2.r) + CtxElems(c) + {t2.n}
    ensures t2.n !in Elems(t.l) + CtxElems(c2) + Elems(t2.r) + CtxElems(c)
    ensures Elems(t.l) !! CtxElems(c2) + Elems(t2.r) + CtxElems(c)
    ensures CtxElems(c2) !! Elems(t2.r) + CtxElems(c) && Elems(t2.r) !! CtxElems(c)
    ensures Apart(c2, t2) && Apart(c2, t2.r) && CtxDistinct(c)
    ensures Elems(t) == Elems(t.l) + {t.n} + CtxElems(c2) + {t2.n} + Elems(t2.r)
    ensures Distinct(t.l) && Distinct(t2.r) && CtxDistinct(c2)
  {
    hide Wavl, CtxWavl, InOrder;
    PlugElems(c2, t2);
    PlugElems(c2, t2.r);
    LeftmostElems(t2);
    RootElems(t);
    hide Elems, CtxElems, Distinct, CtxDistinct, Plug;
  }

  lemma RootElems(t: Tree<Timer>)
    requires t.Bin?
    ensures Elems(t) == Elems(t.l) + {t.n} + Elems(t.r)
    ensures Distinct(t) <==> t.n !in Elems(t.l) && t.n !in Elems(t.r) && Elems(t.l) !! Elems(t.r) && Distinct(t.l) && Distinct(t.r)
  {
  }

  /** `RB_SET_PARENT` for the root of a subtree. */
  method Adopt(ghost t: Tree<Timer>, x: Timer, up: Timer)
    requires t.Bin? && t.n == x && Linked(t, x.parent) && Distinct(t)
    modifies x`parent
    ensures Linked(t, up)
  {
    hide Linked, Elems, Distinct;
    RootElems(t);
    ElemsAllocated(t.l);
    ElemsAllocated(t.r);
    MkLinked(L, t.l, x, t.redL, t.redR, t.r, x.parent);
    x.parent := up;
    MkLinked(L, t.l, x, t.redL, t.redR, t.r, up);
  }

  /** `_RB_UP(x) = up`: this also clears the two bits, which does no harm where they are clear. */
  method AdoptBlack(ghost t: Tree<Timer>, x: Timer, up: Timer?)
    requires t.Bin? && t.n == x && !t.redL && !t.redR && Linked(t, x.parent) && Distinct(t)
    modifies x`parent, x`redL, x`redR
    ensures Linked(t, up)
  {
    hide Linked, Elems, Distinct;
    RootElems(t);
    ElemsAllocated(t.l);
    ElemsAllocated(t.r);
    MkLinked(L, t.l, x, t.redL, t.redR, t.r, x.parent);
    x.parent, x.redL, x.redR := up, false, false;
    MkLinked(L, t.l, x, t.redL, t.redR, t.r, up);
  }

  /** `RB_LEFT(parent) = child`, where `parent` is at the low end of a spine of left edges. */
  method Dangle(ghost c: Ctx<Timer>, parent: Timer, child: Timer?, ghost hole: Timer?)
    requires c.Step? && c.d.L? && parent == c.n && CtxDistinct(c) && Spine(c, hole)
    modifies parent`left
    ensures Spine(c, child)
  {
    hide Linked, Elems, CtxElems, CtxDistinct, Spine, Crown;
    CtxAllocated(c.up);
    ElemsAllocated(c.sib);
    SpineStep(c, hole);
    DistinctStep(c);
    parent.left := child;
    SpineStep(c, child);
  }

  lemma DistinctStep(c: Ctx<Timer>)
    requires c.Step? && CtxDistinct(c)
    ensures c.n !in Elems(c.sib) && c.n !in CtxElems(c.up) && Elems(c.sib) !! CtxElems(c.up) && c.n in CtxElems(c)
    ensures Distinct(c.sib) && CtxDistinct(c.up)
  {
  }

  /** The branch of `RB_REMOVE` in which the successor is not the right child itself. */
  method TakeRight(ghost c: Ctx<Timer>, right: Timer, inn: Timer, child: Timer?) returns (parent: Timer)
    requires CtxDistinct(c) && inn !in CtxElems(c) && right == (if c.Top? then inn else Crown(c))
    requires c.Step? ==> Spine(c, inn) && c.d.L? && Crown(c) in CtxElems(c) && c.n in CtxElems(c) && inn.parent == c.n
    modifies inn`right, CtxElems(c)`parent, CtxElems(c)`left
    ensures parent == Above(c, inn)
    ensures c.Top? ==> inn.right == old(inn.right)
    ensures c.Step? ==> Spine(c, child) && Crown(c).parent == inn && inn.right == Crown(c)
  {
    hide Linked, Elems, CtxElems, CtxDistinct, Spine, Crown;
    CtxAllocated(c);
    parent := right;
    if parent != inn {
      assert CrownSet(c) == {parent};
      parent.parent := inn;
      inn.right := parent;
      parent := inn.parent;
      Dangle(c, parent, child, inn);
    }
  }

  /** Where the walk to the successor starts, and that it moves unless the right child has no left child. */
  lemma SuccessionFields(t: Tree<Timer>, c2: Ctx<Timer>, t2: Tree<Timer>, up: Timer?)
    requires Linked(t, up) && t.Bin? && t.l.Bin? && t2.Bin? && t2.l.Nil? && Plug(c2, t2) == t.r
    requires Before(c2) == [] && Apart(c2, t2)
    ensures t.n.right == (if c2.Top? then t2.n else Crown(c2)) && t.n.left == t.l.n && t.l.n.parent == t.n && t.n.parent == up
    ensures t.l.n in Elems(t.l) && Linked(t.l, t.n)
    ensures c2.Step? ==> c2.d.L? && Crown(c2) in CtxElems(c2) && c2.n in CtxElems(c2) && Crown(c2) != t2.n
    ensures t2.n.right == Root(t2.r) && t2.n.parent == Above(c2, t.n) && Linked(t2.r, t2.n)
    ensures c2.Step? ==> Spine(c2, t2.n)
    ensures t2.r.Bin? ==> t2.r.n in Elems(t2.r)
  {
    hide Spine;
    SpineLinked(c2, t2, t.n);
    RootFields(t, up);
    RootFields(t.l, t.n);
    if c2.Step? {
      CrownIsRoot(c2, t2);
      assert t2.n in Elems(t2);
    }
  }

  /** The children of `out` go to `inn`. */
  method SpliceBelow(ghost c: Ctx<Timer>, ghost t: Tree<Timer>, ghost c2: Ctx<Timer>, ghost t2: Tree<Timer>, out: Timer, inn: Timer,
                     ghost up: Timer?) returns (parent: Timer, child: Timer?)
    requires Apart(c, t) && Linked(t, up) && Succession(c, t, c2, t2) && out == t.n && inn == t2.n
    modifies Elems(t.l)`parent, inn`left, inn`right, CtxElems(c2)`parent, CtxElems(c2)`left
    ensures child == Root(t2.r) && parent == Above(c2, inn)
    ensures inn.left == Root(t.l) && Linked(t.l, inn)
    ensures c2.Top? ==> inn.right == child
    ensures c2.Step? ==> CtxDistinct(c2) && Spine(c2, child) && Crown(c2).parent == inn && inn.right == Crown(c2)
    ensures Linked(t2.r, inn) && (t2.r.Bin? ==> t2.r.n in Elems(t2.r))
    ensures c2.Step? ==> Crown(c2) in CtxElems(c2)
  {
    hide Linked, Elems, CtxElems, Distinct, CtxDistinct, Apart, Before, Plug, Spine, Crown;
    SuccessionApart(c, t, c2, t2);
    ElemsAllocated(t);
    SuccessionFields(t, c2, t2, up);
    var left := out.left;
    Adopt(t.l, left, inn);
    inn.left := left;
    child := inn.right;
    parent := TakeRight(c2, out.right, inn, child);
  }

  lemma NilLinked(t: Tree<Timer>, up: Timer?)
    ensures t.Nil? ==> Linked(t, up)
  {
  }

  /** The parts that make up a spliced subtree. */
  lemma SpliceLinked(c: Ctx<Timer>, t: Tree<Timer>, c2: Ctx<Timer>, t2: Tree<Timer>, inn: Timer)
    requires t.Bin? && t2.Bin? && Apart(c2, t2.r)
    requires inn.parent == Hole(c) && inn.redL == t.redL && inn.redR == t.redR
    requires inn.left == Root(t.l) && Linked(t.l, inn) && inn.right == (if c2.Top? then Root(t2.r) else Crown(c2))
    requires (t2.r.Bin? ==> Linked(t2.r, Above(c2, inn))) && (c2.Step? ==> CtxDistinct(c2) && Spine(c2, Root(t2.r)) && Crown(c2).parent == inn)
    ensures Linked(Bin(t.l, inn, t.redL, t.redR, Plug(c2, t2.r)), Hole(c))
  {
    hide Linked, Elems, CtxElems, Distinct, CtxDistinct, Apart, Plug, Spine, Crown, Hole;
    PlugRoot(c2, t2.r);
    NilLinked(t2.r, Above(c2, inn));
    SpineLinked(c2, t2.r, inn);
    MkLinked(L, t.l, inn, t.redL, t.redR, Plug(c2, t2.r), Hole(c));
  }

  lemma InsertedParts(a: seq<Timer>, x: Timer, b: seq<Timer>)
    ensures Inserted(a + b, x, a + [x] + b)
  {
    assert (a + b)[..|a|] == a && (a + b)[|a|..] == b;
  }

  /** A node with one child at most, taken out. */
  lemma OneOut(c: Ctx<Timer>, t: Tree<Timer>, child: Tree<Timer>)
    requires t.Bin? && (t.l.Nil? || t.r.Nil?) && child == (if t.r.Nil? then t.l else t.r) && Apart(c, t)
    ensures Inserted(Before(c) + InOrder(child) + Behind(c), t.n, InOrder(Plug(c, t)))
    ensures Apart(c, child) && Elems(child) == Elems(t) - {t.n} && t.n !in CtxElems(c)
    ensures CtxDistinct(c) && Distinct(child) && Elems(child) !! CtxElems(c)
  {
    PlugInOrder(c, t);
    var a, b := if t.r.Nil? then Before(c) + InOrder(t.l) else Before(c), if t.r.Nil? then Behind(c) else InOrder(t.r) + Behind(c);
    InsertedParts(a, t.n, b);
    OneOutSeq(Before(c), InOrder(child), t.n, Behind(c));
  }

  lemma OneOutSeq(a: seq<Timer>, k: seq<Timer>, x: Timer, b: seq<Timer>)
    ensures a + (k + [x] + []) + b == (a + k) + [x] + b && a + k + b == (a + k) + b
    ensures a + ([] + [x] + k) + b == a + [x] + (k + b) && a + k + b == a + (k + b)
  {
  }

  /** A place for each node of a tree on the heap. */
  lemma FocusPlace(t0: Tree<Timer>, root: Timer?, out: Timer) returns (c: Ctx<Timer>, t: Tree<Timer>)
    requires IsTree(t0, root) && out in Elems(t0)
    ensures Plug(c, t) == t0 && t.Bin? && t.n == out && Place(c, t, root) && CtxElems(c) + Elems(t) == Elems(t0)
    ensures Wavl(t) && CtxWavl(c, Rank(t))
  {
    hide Linked, Around, Elems, CtxElems, Distinct, CtxDistinct, Wavl, CtxWavl, Rank;
    c, t := Focus(Top, t0, out);
    UnplugLinked(c, t, root);
    PlugElems(c, t);
    PlugWavl(c, t);
  }

  /** The heap after a splice, as a place for the rebalancing. */
  lemma SplicedPlace(c: Ctx<Timer>, t: Tree<Timer>, c2: Ctx<Timer>, t2: Tree<Timer>, root: Timer?) returns (c': Ctx<Timer>)
    requires Succession(c, t, c2, t2) && Apart(c, t)
    requires Around(c, t2.n, root) && Linked(Bin(t.l, t2.n, t.redL, t.redR, Plug(c2, t2.r)), Hole(c))
    ensures c' == Join(Step(c, R, t2.n, t.redR, t.redL, t.l), c2)
    ensures Place(c', t2.r, root) && c'.Step? && c'.n == Above(c2, t2.n)
    ensures CtxElems(c') + Elems(t2.r) == CtxElems(c) + Elems(t) - {t.n}
  {
    hide Linked, Around, Elems, CtxElems, Distinct, CtxDistinct, Plug, Before;
    c' := SuccessorPlug(c, t, c2, t2);
    PlugLinked(c, Bin(t.l, t2.n, t.redL, t.redR, Plug(c2, t2.r)), root);
    UnplugLinked(c', t2.r, root);
    SuccessorElems(c, t, c2, t2);
    RootElems(t);
  }

  /** The same for contents and ranks. */
  lemma SplicedValues(c: Ctx<Timer>, t: Tree<Timer>, c2: Ctx<Timer>, t2: Tree<Timer>)
    requires Succession(c, t, c2, t2) && Wavl(t) && CtxWavl(c, Rank(t))
    ensures
      var c' := Join(Step(c, R, t2.n, t.redR, t.redL, t.l), c2);
      && Wavl(t2.r) && CtxWavl(c', Rank(t2.r) + 1)
      && Inserted(Before(c') + InOrder(t2.r) + Behind(c'), t.n, InOrder(Plug(c, t)))
  {
    hide Wavl, CtxWavl, Rank, Before, Behind, InOrder, Plug, Inserted;
    PlugWavl(c, t);
    SuccessorWavl(c, t, c2, t2);
    SuccessorInOrder(c, t, c2, t2);
    InsertedParts(Before(c) + InOrder(t.l), t.n, InOrder(t.r) + Behind(c));
  }

  lemma TopSide(t: Tree<Timer>, d: Dir)
    ensures Plug(Top, t) == t && Side<Timer>(Top, d) == []
  {
  }

  lemma EmptyInOrder(t: Tree<Timer>)
    ensures InOrder(t) == [] <==> t.Nil?
  {
  }

  lemma PlaceFields(c: Ctx<Timer>, t: Tree<Timer>, root: Timer?)
    requires Place(c, t, root) && t.Bin?
    ensures forall d: Dir :: t.n.Link(d) == Root(t.Kid(d)) && Linked(t.Kid(d), t.n)
  {
    RootFields(t, Hole(c));
  }

  /** The walk along the `d` edges in `RB_REMOVE`, `RB_NEXT` and `RB_PREV`. */
  method FarMost(from: Timer, d: Dir, ghost t: Tree<Timer>, ghost above: Timer?)
    returns (last: Timer, ghost c: Ctx<Timer>, ghost t': Tree<Timer>, ghost steps: nat)
    requires Linked(t, above) && from == Root(t)
    ensures Plug(c, t') == t && Side(c, d) == [] && t'.Bin? && t'.Kid(d).Nil? && t'.n == last
    ensures InOrder(t) != [] && last == End(InOrder(t), d) && last.Link(d) == null && steps == Depth(c)
  {
    hide Linked, Plug, Side, Above, InOrder;
    last := from;
    c, t', steps := Top, t, 0;
    TopSide(t, d);
    ghost var up := above;
    RootFields(t', up);
    while last.Link(d) != null
      invariant Plug(c, t') == t && Side(c, d) == [] && t'.Bin? && t'.n == last && Linked(t', up)
      invariant steps == Depth(c)
      invariant last.Link(d) == Root(t'.Kid(d))
      decreases t'
    {
      ghost var below := WalkStep(c, t', d);
      RootFields(t', up);
      up, last := last, last.Link(d);
      c, t', steps := below, t'.Kid(d), steps + 1;
      RootFields(t', up);
    }
    WalkEnd(c, t', d);
  }

  // ------------------------------------------------------------------ order after one key has changed

  lemma {:induction false} DistinctInOrder(t: Tree<Timer>)
    requires Distinct(t)
    ensures Once(InOrder(t))
  {
    if t.Bin? {
      DistinctInOrder(t.l);
      DistinctInOrder(t.r);
      DistinctSides(t);
      OnceJoin(InOrder(t.l), [t.n]);
      OnceJoin(InOrder(t.l) + [t.n], InOrder(t.r));
    }
  }

  lemma ElementOf(t: Tree<Timer>, x: Timer)
    ensures x in InOrder(t) <==> x in Elems(t)
  {
    InOrderElems(t);
  }

  lemma DistinctSides(t: Tree<Timer>)
    requires t.Bin? && Distinct(t)
    ensures t.n !in InOrder(t.l) && t.n !in InOrder(t.r)
    ensures forall y :: y in InOrder(t.l) ==> y !in InOrder(t.r)
  {
    hide InOrder, Elems, Distinct;
    RootElems(t);
    ElementOf(t.l, t.n);
    ElementOf(t.r, t.n);
    forall y | y in InOrder(t.l)
      ensures y !in InOrder(t.r)
    {
      ElementOf(t.l, y);
      ElementOf(t.r, y);
    }
  }

  /** In order but for `x`, whose key has changed. */
  ghost predicate SortedBut(s: seq<Timer>, x: Timer)
    reads (set y | y in s)`expire
  {
    forall i, j :: 0 <= i < j < |s| && s[i] != x && s[j] != x ==> Compare(s[i], s[j]) < 0
  }

  /** The two neighbours decide whether the whole sequence is in order. */
  lemma NeighboursDecide(s: seq<Timer>, x: Timer, i: nat)
    requires Once(s) && SortedBut(s, x) && i < |s| && s[i] == x
    ensures Sorted(s) <==>
      (i > 0 ==> Compare(s[i - 1], x) < 0) && (i + 1 < |s| ==> Compare(x, s[i + 1]) < 0)
  {
    if (i > 0 ==> Compare(s[i - 1], x) < 0) && (i + 1 < |s| ==> Compare(x, s[i + 1]) < 0) {
      forall a, b | 0 <= a < b < |s|
        ensures Compare(s[a], s[b]) < 0
      {
        if b == i {
          assert a == i - 1 || Compare(s[a], s[i - 1]) < 0;
        } else if a == i {
          assert b == i + 1 || Compare(s[i + 1], s[b]) < 0;
        }
      }
    }
  }

  lemma RestIsSorted(s: seq<Timer>, x: Timer, s0: seq<Timer>)
    requires Inserted(s, x, s0) && SortedBut(s0, x) && Once(s0)
    ensures Sorted(s)
  {
    var i :| 0 <= i <= |s| && s0 == s[..i] + [x] + s[i..];
    forall a, b | 0 <= a < b < |s|
      ensures Compare(s[a], s[b]) < 0
    {
      var a', b' := if a < i then a else a + 1, if b < i then b else b + 1;
      assert s0[a'] == s[a] && s0[b'] == s[b] && s0[i] == x;
    }
  }

  /** `r` is next to `x` in `s` on the side `d`, or null if nothing is. */
  ghost predicate NextTo(s: seq<Timer>, x: Timer, d: Dir, r: Timer?) {
    exists i :: 0 <= i < |s| && s[i] == x && At(s, Beside(i, d)) == if r == null then [] else [r]
  }

  lemma SamePosition(s: seq<Timer>, i: int, j: int)
    requires Once(s) && 0 <= i < |s| && 0 <= j < |s| && s[i] == s[j]
    ensures i == j
  {
  }

  lemma AtSide(s: seq<Timer>, i: int, d: Dir, r: Timer?)
    requires 0 <= i < |s| && At(s, Beside(i, d)) == if r == null then [] else [r]
    ensures d.L? ==> if r == null then i == 0 else i > 0 && s[i - 1] == r
    ensures d.R? ==> if r == null then i + 1 == |s| else i + 1 < |s| && s[i + 1] == r
  {
    if r != null {
      assert [r][0] == r;
    }
  }

  lemma TreeOnce(t: Tree<Timer>, root: Timer?)
    requires IsTree(t, root)
    ensures Once(InOrder(t))
  {
    DistinctInOrder(t);
  }
}
