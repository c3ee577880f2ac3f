/**
 The operations of the rank-balanced tree of `dprbt.h` on the heap.  `tree` is what the links stand for; the
 operations are proved against it, and `RankTree` says what they do to it.
 */
module RbTree {
  import opened RankTree
  import opened RbLinks
  import opened Seqs

  class Head {
    var root: Timer?
    ghost var tree: Tree<Timer>

    /** `RB_INIT`. */
    constructor ()
      ensures root == null && tree == Nil
    {
      root := null;
      tree := Nil;
    }

    /** `RB_SWAP_CHILD`. */
    method SwapChild(ghost c: Ctx<Timer>, par: Timer?, out: Timer, x: Timer?)
      requires Around(c, out, root) && par == Hole(c) && out !in CtxElems(c) && CtxDistinct(c)
      modifies this`root, CtxElems(c)`left, CtxElems(c)`right
      ensures Around(c, x, root)
      ensures root != old(root) ==> par == null
    {
      if par == null {
        root := x;
      } else {
        if out == par.left {
          par.left := x;
        } else {
          par.right := x;
        }
      }
    }

    /**
     A rotation with what is above it: `elm`, the far child of `parent`, takes its place under `Hole(c)`.
     Colours are the caller's business.
     */
    method RotateUp(ghost c: Ctx<Timer>, parent: Timer, elm: Timer, d: Dir,
                    ghost a: Tree<Timer>, ghost b: Tree<Timer>, ghost e: Tree<Timer>)
      requires Spread(c, parent, elm, a, b, e) && Around(c, parent, root) && parent.parent == Hole(c)
      requires parent.Link(d) == Root(a) && Linked(a, parent)
      requires elm.Link(d) == Root(b) && Linked(b, elm) && elm.Link(d.Flip()) == Root(e) && Linked(e, elm)
      modifies this`root, parent`parent, parent`left, parent`right, elm`parent, elm`left, elm`right
      modifies Elems(b)`parent, CtxElems(c)`left, CtxElems(c)`right
      ensures Around(c, elm, root) && elm.parent == Hole(c)
      ensures elm.Link(d) == parent && elm.Link(d.Flip()) == Root(e) && Linked(e, elm)
      ensures parent.parent == elm && parent.Link(d) == Root(a) && Linked(a, parent)
      ensures parent.Link(d.Flip()) == Root(b) && Linked(b, parent)
    {
      ElemsAllocated(a);
      ElemsAllocated(b);
      ElemsAllocated(e);
      CtxAllocated(c);
      hide Linked, Around, Elems, CtxElems, Distinct, CtxDistinct, Root, Hole;
      var gpar := parent.parent;
      Rotate(parent, elm, d, a, b, e);
      elm.parent := gpar;
      SwapChild(c, gpar, parent, elm);
    }

    /** The second half of a rotation on insertion: `top` replaces `parent` and becomes black on both sides. */
    method LiftBlack(ghost c: Ctx<Timer>, parent: Timer, top: Timer, d: Dir,
                     ghost e: Tree<Timer>, ghost b: Tree<Timer>, ghost sib: Tree<Timer>)
      requires Spread(c, parent, top, sib, b, e) && Around(c, parent, root) && parent.parent == Hole(c)
      requires parent.Link(d.Flip()) == Root(sib) && Linked(sib, parent)
      requires top.Link(d) == Root(e) && Linked(e, top) && top.Link(d.Flip()) == Root(b) && Linked(b, top)
      modifies this`root, parent`parent, parent`left, parent`right
      modifies top`parent, top`left, top`right, top`redL, top`redR
      modifies Elems(b)`parent, CtxElems(c)`left, CtxElems(c)`right
      ensures Around(c, top, root)
      ensures Linked(Mk(d, e, top, false, false, Mk(d, b, parent, old(parent.Red(d)), old(parent.Red(d.Flip())), sib)), Hole(c))
    {
      ElemsAllocated(e);
      ElemsAllocated(b);
      ElemsAllocated(sib);
      CtxAllocated(c);
      hide Linked, Around, Elems, CtxElems, Distinct, CtxDistinct, Hole;
      RotateUp(c, parent, top, d.Flip(), sib, b, e);
      top.redL, top.redR := false, false;
      ghost var low := Mk(d, b, parent, parent.Red(d), parent.Red(d.Flip()), sib);
      MkLinked(d, b, parent, parent.Red(d), parent.Red(d.Flip()), sib, top);
      MkLinked(d, e, top, false, false, low, Hole(c));
    }

    /** `RB_INSERT_COLOR`, the rotation with `elm` black towards `d`, both edges of `parent` by now black. */
    method InsertSingle(ghost c: Ctx<Timer>, parent: Timer, elm: Timer, d: Dir,
                        ghost t1: Tree<Timer>, ghost t2: Tree<Timer>, ghost sib: Tree<Timer>)
      requires Place(c, Mk(d, Mk(d, t1, elm, false, true, t2), parent, false, false, sib), root)
      modifies this`root, parent`parent, parent`left, parent`right
      modifies elm`parent, elm`left, elm`right, elm`redL, elm`redR
      modifies Elems(t2)`parent, CtxElems(c)`left, CtxElems(c)`right
      ensures Place(c, Mk(d, t1, elm, false, false, Mk(d, t2, parent, false, false, sib)), root)
    {
      SpreadApart(c, d, d, t1, elm, false, true, t2, parent, false, false, sib);
      SingleKeeps(c, d, t1, elm, t2, parent, sib, false, true, false, false, false, false, false, false);
      MkLinked(d, Mk(d, t1, elm, false, true, t2), parent, false, false, sib, Hole(c));
      MkLinked(d, t1, elm, false, true, t2, parent);
      hide Linked, Around, Elems, CtxElems, Distinct, CtxDistinct, Apart, Hole, InOrder;
      LiftBlack(c, parent, elm, d, t1, t2, sib);
    }

    /** `RB_INSERT_COLOR`, the rotation with `elm` red towards `d`: `child`, on its other side, comes out on top. */
    method InsertDouble(ghost c: Ctx<Timer>, parent: Timer, elm: Timer, child: Timer, d: Dir, ghost t1: Tree<Timer>,
                        ghost b1: Tree<Timer>, ghost q1: bool, ghost q2: bool, ghost b2: Tree<Timer>, ghost sib: Tree<Timer>)
      requires var t := Mk(d, Mk(d, t1, elm, true, false, Mk(d, b1, child, q1, q2, b2)), parent, false, false, sib);
               Apart(c, t) && Linked(t, Hole(c)) && Around(c, parent, root)
      modifies this`root
      modifies parent`parent, parent`left, parent`right, parent`redL, parent`redR
      modifies elm`parent, elm`left, elm`right, elm`redL, elm`redR
      modifies child`parent, child`left, child`right, child`redL, child`redR
      modifies Elems(b1)`parent, Elems(b2)`parent, CtxElems(c)`left, CtxElems(c)`right
      ensures Around(c, child, root)
      ensures Linked(Mk(d, Mk(d, t1, elm, false, q1, b1), child, false, false, Mk(d, b2, parent, q2, false, sib)), Hole(c))
    {
      hide Linked, Around, Elems, CtxElems, Distinct, CtxDistinct, Apart, Hole, Mk, Root;
      ElemsAllocated(b2);
      ElemsAllocated(sib);
      CtxAllocated(c);
      DoubleSpread(c, d, t1, elm, b1, child, q1, q2, b2, parent, false, sib);
      MkLinked(d, Mk(d, t1, elm, true, false, Mk(d, b1, child, q1, q2, b2)), parent, false, false, sib, Hole(c));
      MkLinked(d, t1, elm, true, false, Mk(d, b1, child, q1, q2, b2), parent);
      MkLinked(d, b1, child, q1, q2, b2, elm);
      RotateInner(parent, elm, child, d, t1, b1, b2);
      LiftBlack(c, parent, child, d, Mk(d, t1, elm, false, q1, b1), b2, sib);
    }

    /** The rotation that ends `RB_INSERT_COLOR`, `elm` red towards `d`. */
    method RotateDouble(ghost c: Ctx<Timer>, ghost t: Tree<Timer>, ghost u: Tree<Timer>, parent: Timer, elm: Timer, child: Timer, d: Dir)
      returns (ghost r: Tree<Timer>)
      requires c.Step? && parent == c.n && t.Bin? && elm == t.n && u.Bin? && child == u.n && d == c.d
      requires Place(c.(sibRed := false), t, root) && Grown(c, t, u) && !c.red && c.sibRed && t.Red(d)
      modifies this`root
      modifies CtxElems(c)`parent, CtxElems(c)`left, CtxElems(c)`right, CtxElems(c)`redL, CtxElems(c)`redR
      modifies Elems(t)`parent, Elems(t)`left, Elems(t)`right, Elems(t)`redL, Elems(t)`redR
      ensures Place(c.up, r, root) && Wavl(r) && CtxWavl(c.up, Rank(r)) && Root(r) == child
      ensures InOrder(r) == InOrder(Mk(d, t, parent, false, false, c.sib))
      ensures CtxElems(c.up) + Elems(r) == CtxElems(c) + Elems(t)
    {
      hide Linked, Around, Elems, CtxElems, Distinct, CtxDistinct, Apart, InOrder, Wavl, CtxWavl, Rank, Hole;
      GrownRotates(c, t, u);
      StepApart(c, t);
      StepApart(c.(sibRed := false), t);
      PlaceUp(c.(sibRed := false), t, root);
      DoubleIsWavl(c, t, u);
      var s := d.Flip();
      KidElems(t, s);
      KidElems(u, d);
      KidElems(u, s);
      DoubleKeeps(c.up, d, t.Kid(d), elm, u.Kid(d), child, u.Kid(s), parent, c.sib,
                  true, false, u.Red(d), u.Red(s), false, false, false, u.Red(d), false, false, u.Red(s), false);
      r := Mk(d, Mk(d, t.Kid(d), elm, false, u.Red(d), u.Kid(d)), child, false, false,
              Mk(d, u.Kid(s), parent, u.Red(s), false, c.sib));
      InsertDouble(c.up, parent, elm, child, d, t.Kid(d), u.Kid(d), u.Red(d), u.Red(s), u.Kid(s), c.sib);
    }

    /** The rotation that ends `RB_INSERT_COLOR`, `elm` black towards `d`. */
    method RotateSingle(ghost c: Ctx<Timer>, ghost t: Tree<Timer>, ghost grew: Tree<Timer>, parent: Timer, elm: Timer, d: Dir)
      returns (ghost r: Tree<Timer>)
      requires c.Step? && parent == c.n && t.Bin? && elm == t.n && d == c.d
      requires Place(c.(sibRed := false), t, root) && Grown(c, t, grew) && !c.red && c.sibRed && !t.Red(d)
      modifies this`root
      modifies CtxElems(c)`parent, CtxElems(c)`left, CtxElems(c)`right, CtxElems(c)`redL, CtxElems(c)`redR
      modifies Elems(t)`parent, Elems(t)`left, Elems(t)`right, Elems(t)`redL, Elems(t)`redR
      ensures Place(c.up, r, root) && Wavl(r) && CtxWavl(c.up, Rank(r)) && Root(r) == elm
      ensures InOrder(r) == InOrder(Mk(d, t, parent, false, false, c.sib))
      ensures CtxElems(c.up) + Elems(r) == CtxElems(c) + Elems(t)
    {
      hide Linked, Around, Elems, CtxElems, Distinct, CtxDistinct, Apart, InOrder, Wavl, CtxWavl, Rank, Hole;
      GrownRotates(c, t, grew);
      StepApart(c, t);
      StepApart(c.(sibRed := false), t);
      PlaceUp(c.(sibRed := false), t, root);
      SingleIsWavl(c, t, grew);
      var s := d.Flip();
      KidElems(t, s);
      SingleKeeps(c.up, d, t.Kid(d), elm, t.Kid(s), parent, c.sib, false, true, false, false, false, false, false, false);
      r := Mk(d, t.Kid(d), elm, false, false, Mk(d, t.Kid(s), parent, false, false, c.sib));
      InsertSingle(c.up, parent, elm, d, t.Kid(d), t.Kid(s), c.sib);
    }

    /**
     `RB_INSERT_COLOR`: `elm0`, a fresh leaf in the place `c0`, has made the tree one rank too high there.
     `child` is null in the first iteration only, and then never looked at.
     */
    method InsertColor(parent0: Timer, elm0: Timer, ghost c0: Ctx<Timer>) returns (ghost steps: nat)
      requires c0.Step? && parent0 == c0.n
      requires Place(c0, Bin(Nil, elm0, false, false, Nil), root) && CtxWavl(c0, 0)
      modifies this
      modifies CtxElems(c0)`parent, CtxElems(c0)`left, CtxElems(c0)`right, CtxElems(c0)`redL, CtxElems(c0)`redR
      modifies elm0`parent, elm0`left, elm0`right, elm0`redL, elm0`redR
      ensures IsTree(tree, root) && InOrder(tree) == Before(c0) + [elm0] + Behind(c0)
      ensures Elems(tree) == CtxElems(c0) + {elm0} && steps <= Depth(c0)
    {
      hide Linked, Around, Elems, CtxElems, Distinct, CtxDistinct, Apart, InOrder, CtxWavl, Rank, Place, IsTree,
           Before, Behind, Grown, Plug, Wavl, Mk;
      var parent: Timer?, elm, child: Timer? := parent0, elm0, null;
      ghost var c, t, grew: Tree<Timer> := c0, Bin(Nil, elm0, false, false, Nil), Nil;
      LeafGrown(c0, elm0);
      ghost var all := Before(c0) + [elm0] + Behind(c0);
      HoleIs(c);
      steps := 0;
      while parent != null
        invariant parent == Hole(c) && t.Bin? && elm == t.n && child == Root(grew)
        invariant steps + Depth(c) == Depth(c0)
        invariant Place(c, t, root) && Grown(c, t, grew)
        invariant CtxElems(c) + Elems(t) == CtxElems(c0) + {elm0}
        invariant InOrder(Plug(c, t)) == all
        decreases c
      {
        steps := steps + 1;
        var d := DirOf(parent, elm);
        EdgeFields(c, t, root);
        if parent.Red(d) {
          GrownShortens(c, t, grew);
          RecoloredInOrder(c, t, false, c.sibRed);
          ToggleEdge(c, t, parent, d, root);
          Settle(c.(red := false), t);
          return;
        }
        var s := d.Flip();
        var bothBlack := !parent.Red(s);
        var gpar := parent.parent;
        ToggleEdge(c, t, parent, s, root);
        if bothBlack {
          ClimbsInPlace(c, t, grew, root);
          child := elm;
          elm := parent;
          parent := gpar;
          grew := t;
          t := Mk(c.d, t, c.n, false, true, c.sib);
          c := c.up;
        } else {
          GrownRotates(c, t, grew);
          ghost var r;
          if elm.Red(d) {
            r := RotateDouble(c, t, grew, parent, elm, child, d);
          } else {
            r := RotateSingle(c, t, grew, parent, elm, d);
          }
          SettledInOrder(c, t, r);
          Settle(c.up, r);
          return;
        }
      }
      GrownIsWavl(c, t, grew);
      Settle(c, t);
    }

    /** The tree is whole again. */
    ghost method Settle(c: Ctx<Timer>, t: Tree<Timer>)
      requires Place(c, t, root) && Wavl(t) && CtxWavl(c, Rank(t))
      modifies this`tree
      ensures tree == Plug(c, t) && IsTree(tree, root)
      ensures InOrder(tree) == Before(c) + InOrder(t) + Behind(c) && Elems(tree) == CtxElems(c) + Elems(t)
    {
      PlaceIsTree(c, t, root);
      tree := Plug(c, t);
    }

    ghost predicate Valid()
      reads this, Elems(tree)`parent, Elems(tree)`left, Elems(tree)`right, Elems(tree)`redL, Elems(tree)`redR, Elems(tree)`expire
    {
      IsTree(tree, root) && (InOrderElems(tree); Sorted(InOrder(tree)))
    }

    /**
     The walk of `RB_INSERT` and `RB_FIND`: to an equal element, or to the null link where `elm` belongs, in a number of
     steps that is logarithmic in the number of elements.
     */
    method Search(elm: Timer) returns (hit: Timer?, parent: Timer?, d: Dir, ghost c: Ctx<Timer>, ghost i: nat, ghost steps: nat)
      requires Valid()
      ensures Valid() && WithinBound(steps, |InOrder(tree)|)
      ensures hit != null ==> hit in Elems(tree) && Compare(elm, hit) == 0
      ensures hit == null ==>
        && Plug(c, Nil) == tree && parent == Hole(c) && (c.Step? ==> c.d == d)
        && Spans(InOrder(tree), c, Nil, i, i) && Between(InOrder(tree), i, i, elm)
    {
      hide Linked, Around, Elems, CtxElems, Distinct, CtxDistinct, Wavl, InOrder, Before, Behind, Sorted, Between,
           Plug, WithinBound;
      InOrderElems(tree);
      ElemsAllocated(tree);
      steps := 0;
      var tmp := root;
      hit, parent, d := null, null, L;
      ghost var t, s := tree, InOrder(tree);
      ghost var j := |s|;
      c, i := Top, 0;
      TopSpans(tree, elm);
      while tmp != null
        invariant tmp == Root(t) && parent == Hole(c) && (c.Step? ==> c.d == d)
        invariant steps == Depth(c)
        invariant Plug(c, t) == tree && i <= j && Spans(s, c, t, i, j) && Sorted(s) && Between(s, i, j, elm)
        decreases t
      {
        UnplugLinked(c, t, root);
        RootFields(t, parent);
        parent := tmp;
        var comp := Compare(elm, parent);
        if comp == 0 {
          hit := parent;
          PlugElems(c, t);
          KidElems(t, L);
          WayIsShort(c, t);
          return;
        }
        d := if comp < 0 then L else R;
        ghost var k := DescendSpans(s, c, t, i, j, d);
        if comp < 0 {
          NarrowLeft(s, i, j, k, elm);
          tmp, j := parent.left, k;
        } else {
          NarrowRight(s, i, j, k, elm);
          tmp, i := parent.right, k + 1;
        }
        c, t := Step(c, d, t.n, t.Red(d), t.Red(d.Flip()), t.Kid(d.Flip())), t.Kid(d);
        steps := steps + 1;
      }
      WayIsShort(c, t);
      EmptySpan(s, c, i, j);
    }

    /** `RB_FIND`. */
    method Find(elm: Timer) returns (hit: Timer?)
      requires Valid()
      ensures hit != null ==> hit in Elems(tree) && Compare(elm, hit) == 0
      ensures hit == null ==> forall x :: x in Elems(tree) ==> Compare(elm, x) != 0
    {
      var parent, d;
      ghost var c, i, steps;
      InOrderElems(tree);
      ElemsAllocated(tree);
      hit, parent, d, c, i, steps := Search(elm);
      if hit == null {
        forall x | x in Elems(tree)
          ensures Compare(elm, x) != 0
        {
          var k :| 0 <= k < |InOrder(tree)| && InOrder(tree)[k] == x;
        }
      }
    }

    /** `RB_INSERT_FINISH`: links `elm` into the null link found by the search and rebalances. */
    method InsertFinish(parent: Timer?, d: Dir, elm: Timer, ghost c: Ctx<Timer>) returns (ghost up: nat)
      requires IsTree(tree, root) && Plug(c, Nil) == tree && parent == Hole(c) && (c.Step? ==> c.d == d) && elm !in Elems(tree)
      modifies this
      modifies Elems(tree)`parent, Elems(tree)`left, Elems(tree)`right, Elems(tree)`redL, Elems(tree)`redR
      modifies elm`parent, elm`left, elm`right, elm`redL, elm`redR
      ensures IsTree(tree, root) && InOrder(tree) == Before(c) + [elm] + Behind(c)
      ensures Elems(tree) == old(Elems(tree)) + {elm} && up <= Depth(c)
    {
      hide Linked, Around, Elems, CtxElems, Distinct, CtxDistinct, Wavl, InOrder, Before, Behind, Plug, CtxWavl, Apart,
           Depth;
      up := 0;
      NullPlace(tree, c, root);
      CtxAllocated(c);
      elm.parent, elm.left, elm.right, elm.redL, elm.redR := parent, null, null, false, false;
      if parent == null {
        root := elm;
        LeafTree(c, elm, root);
        tree := Bin(Nil, elm, false, false, Nil);
      } else {
        HangLeaf(c, parent, d, elm, root);
        up := InsertColor(parent, elm, c);
      }
    }

    /**
     `RB_INSERT`: `elm` joins at the one place where it belongs, unless an element compares equal, which is then
     returned with nothing changed.  The ways down and up again are logarithmic in the number of elements.
     */
    method Insert(elm: Timer) returns (hit: Timer?, ghost down: nat, ghost up: nat)
      requires Valid() && elm !in Elems(tree)
      modifies this
      modifies Elems(tree)`parent, Elems(tree)`left, Elems(tree)`right, Elems(tree)`redL, Elems(tree)`redR
      modifies elm`parent, elm`left, elm`right, elm`redL, elm`redR
      ensures Valid()
      ensures hit != null ==> tree == old(tree) && hit in Elems(tree) && Compare(elm, hit) == 0
      ensures hit == null ==> Elems(tree) == old(Elems(tree)) + {elm}
      ensures hit == null ==> Inserted(old(InOrder(tree)), elm, InOrder(tree))
      ensures WithinBound(down, |old(InOrder(tree))|) && WithinBound(up, |old(InOrder(tree))|)
    {
      hide Linked, Around, Elems, CtxElems, Distinct, CtxDistinct, Wavl, InOrder, Before, Behind, Plug, Sorted,
           Between, Compare, Spans, IsTree, Inserted, WithinBound;
      var parent, d;
      ghost var c, i;
      hit, parent, d, c, i, down := Search(elm);
      if hit == null {
        ClimbIsShort(tree, root, c);
        up := InsertAt(parent, d, elm, c, i);
        ShorterWay(up, Depth(c), |old(InOrder(tree))|);
      } else {
        up := 0;
        ShorterWay(0, down, |InOrder(tree)|);
      }
    }

    static lemma ClimbIsShort(t: Tree<Timer>, root: Timer?, c: Ctx<Timer>)
      requires IsTree(t, root) && Plug(c, Nil) == t
      ensures WithinBound(Depth(c), |InOrder(t)|)
    {
      WayIsShort(c, Nil);
    }

    ghost predicate Ready(parent: Timer?, d: Dir, elm: Timer, c: Ctx<Timer>, i: nat)
      reads this, Elems(tree), elm`expire
    {
      && Valid() && elm !in Elems(tree) && Plug(c, Nil) == tree && parent == Hole(c) && (c.Step? ==> c.d == d)
      && Spans(InOrder(tree), c, Nil, i, i) && (InOrderElems(tree); Between(InOrder(tree), i, i, elm))
    }

    method InsertAt(parent: Timer?, d: Dir, elm: Timer, ghost c: Ctx<Timer>, ghost i: nat) returns (ghost up: nat)
      requires Ready(parent, d, elm, c, i)
      modifies this
      modifies Elems(tree)`parent, Elems(tree)`left, Elems(tree)`right, Elems(tree)`redL, Elems(tree)`redR
      modifies elm`parent, elm`left, elm`right, elm`redL, elm`redR
      ensures Valid() && Elems(tree) == old(Elems(tree)) + {elm} && Inserted(old(InOrder(tree)), elm, InOrder(tree))
      ensures up <= Depth(c)
    {
      hide Linked, Around, Elems, CtxElems, Distinct, CtxDistinct, Wavl, InOrder, Before, Behind, Plug, Sorted,
           Between, Compare, Spans, IsTree, Depth;
      ghost var s := InOrder(tree);
      SpanSplits(s, c, i);
      InsertKeepsSorted(s, i, elm);
      ghost var s' := s[..i] + [elm] + s[i..];
      SeqAllocated(tree);
      assert forall x :: x in s' ==> x in s || x == elm;
      up := InsertFinish(parent, d, elm, c);
      assert InOrder(tree) == s';
      InOrderElems(tree);
    }

    // ---------------------------------------------------------------- removal

    /** The last rotation of `RB_REMOVE_COLOR`: `top` replaces `parent`, which goes down on the `d` side; colours stay. */
    method Lift(ghost c: Ctx<Timer>, parent: Timer, top: Timer, d: Dir,
                ghost a: Tree<Timer>, ghost b: Tree<Timer>, ghost e: Tree<Timer>)
      requires Spread(c, parent, top, a, b, e) && Around(c, parent, root) && parent.parent == Hole(c)
      requires parent.Link(d) == Root(a) && Linked(a, parent)
      requires top.Link(d) == Root(b) && Linked(b, top) && top.Link(d.Flip()) == Root(e) && Linked(e, top)
      modifies this`root, parent`parent, parent`left, parent`right, top`parent, top`left, top`right
      modifies Elems(b)`parent, CtxElems(c)`left, CtxElems(c)`right
      ensures Around(c, top, root)
      ensures Linked(Mk(d, Mk(d, a, parent, parent.Red(d), parent.Red(d.Flip()), b), top, top.Red(d), top.Red(d.Flip()), e), Hole(c))
    {
      hide Linked, Around, Elems, CtxElems, Distinct, CtxDistinct, Hole;
      RotateUp(c, parent, top, d, a, b, e);
      MkLinked(d, a, parent, parent.Red(d), parent.Red(d.Flip()), b, top);
      MkLinked(d, Mk(d, a, parent, parent.Red(d), parent.Red(d.Flip()), b), top, top.Red(d), top.Red(d.Flip()), e, Hole(c));
    }

    /** `RB_REMOVE_COLOR`, the case of a single rotation, with `RB_STRICT_HST` 0. */
    method RemoveSingle(ghost c: Ctx<Timer>, ghost t: Tree<Timer>, parent: Timer, sib: Timer, d: Dir) returns (ghost r: Tree<Timer>)
      requires c.Step? && parent == c.n && d == c.d && c.sib.Bin? && sib == c.sib.n
      requires Place(c, t, root) && Shrunk(c, t) && c.red && !c.sibRed && !c.sib.Red(d.Flip())
      modifies this`root
      modifies CtxElems(c)`parent, CtxElems(c)`left, CtxElems(c)`right, CtxElems(c)`redL, CtxElems(c)`redR
      modifies Elems(t)`parent, Elems(t)`left, Elems(t)`right, Elems(t)`redL, Elems(t)`redR
      ensures Place(c.up, r, root) && Wavl(r) && CtxWavl(c.up, Rank(r))
      ensures Before(c.up) + InOrder(r) + Behind(c.up) == InOrder(Plug(c, t))
      ensures CtxElems(c.up) + Elems(r) == CtxElems(c) + Elems(t)
    {
      hide Linked, Around, Elems, CtxElems, Distinct, CtxDistinct, Apart, InOrder, Wavl, CtxWavl, Rank, Hole, Before,
           Behind, Shrunk, Plug;
      var s := d.Flip();
      ghost var inner, outer, long := c.sib.Kid(d), c.sib.Kid(s), c.sib.Red(d);
      SiblingFields(c, t, root);
      RemoveSingleKeeps(c, t, !long, false, long, true);
      RemoveSingleIsWavl(c, t);
      ElemsAllocated(t);
      ElemsAllocated(inner);
      ElemsAllocated(outer);
      CtxAllocated(c.up);
      if sib.Red(d) {
        parent.Toggle(d);
        sib.Toggle(s);
      } else {
        sib.Toggle(s);
      }
      Lift(c.up, parent, sib, d, t, inner, outer);
      r := Mk(d, Mk(d, t, parent, !long, false, inner), sib, long, true, outer);
    }

    /** The links of the double rotation of `RB_REMOVE_COLOR`: `elm`, below `sib`, comes out on top. */
    method RemoveDoubleLinks(ghost c: Ctx<Timer>, parent: Timer, sib: Timer, elm: Timer, d: Dir, s: Dir, ghost t: Tree<Timer>,
                             ghost b1: Tree<Timer>, ghost q1: bool, ghost q2: bool, ghost b2: Tree<Timer>, ghost outer: Tree<Timer>)
      requires s == d.Flip()
      requires var m := Mk(s, Mk(s, outer, sib, true, false, Mk(s, b2, elm, q2, q1, b1)), parent, false, true, t);
               Apart(c, m) && Linked(m, Hole(c)) && Around(c, parent, root)
      modifies this`root
      modifies parent`parent, parent`left, parent`right, parent`redL, parent`redR
      modifies sib`parent, sib`left, sib`right, sib`redL, sib`redR
      modifies elm`parent, elm`left, elm`right, elm`redL, elm`redR
      modifies Elems(b1)`parent, Elems(b2)`parent, CtxElems(c)`left, CtxElems(c)`right
      ensures Around(c, elm, root)
      ensures Linked(Mk(d, Mk(d, t, parent, false, q1, b1), elm, true, true, Mk(s, outer, sib, false, q2, b2)), Hole(c))
    {
      hide Linked, Around, Elems, CtxElems, Distinct, CtxDistinct, Apart, Hole, Mk, Root;
      ElemsAllocated(b1);
      ElemsAllocated(b2);
      ElemsAllocated(outer);
      ElemsAllocated(t);
      CtxAllocated(c);
      DoubleSpread(c, s, outer, sib, b2, elm, q2, q1, b1, parent, true, t);
      MkLinked(s, Mk(s, outer, sib, true, false, Mk(s, b2, elm, q2, q1, b1)), parent, false, true, t, Hole(c));
      MkLinked(s, outer, sib, true, false, Mk(s, b2, elm, q2, q1, b1), parent);
      MkLinked(s, b2, elm, q2, q1, b1, sib);
      RotateInnerRed(parent, sib, elm, d, outer, b2, b1);
      Lift(c, parent, elm, d, t, b1, Mk(s, outer, sib, false, q2, b2));
    }

    /** `RB_REMOVE_COLOR`, the case of a double rotation. */
    method RemoveDouble(ghost c: Ctx<Timer>, ghost t: Tree<Timer>, parent: Timer, sib: Timer, d: Dir) returns (ghost r: Tree<Timer>)
      requires c.Step? && parent == c.n && d == c.d && c.sib.Bin? && sib == c.sib.n
      requires Place(c, t, root) && Shrunk(c, t) && c.red && !c.sibRed && c.sib.Red(d.Flip()) && !c.sib.Red(d)
      modifies this`root
      modifies CtxElems(c)`parent, CtxElems(c)`left, CtxElems(c)`right, CtxElems(c)`redL, CtxElems(c)`redR
      modifies Elems(t)`parent, Elems(t)`left, Elems(t)`right, Elems(t)`redL, Elems(t)`redR
      ensures Place(c.up, r, root) && Wavl(r) && CtxWavl(c.up, Rank(r))
      ensures Before(c.up) + InOrder(r) + Behind(c.up) == InOrder(Plug(c, t))
      ensures CtxElems(c.up) + Elems(r) == CtxElems(c) + Elems(t)
    {
      hide Linked, Around, Elems, CtxElems, Distinct, CtxDistinct, Apart, InOrder, Wavl, CtxWavl, Rank, Hole, Before,
           Behind, Shrunk, Plug, Mk;
      ShrunkSibling(c, t);
      var s := d.Flip();
      ghost var e, outer := c.sib.Kid(d), c.sib.Kid(s);
      SiblingFields(c, t, root);
      PlaceUp(c, t, root);
      RemoveDoubleShapes(c, t);
      RemoveDoubleKeeps(c, t);
      RemoveDoubleIsWavl(c, t);
      KidElems(e, d);
      KidElems(e, s);
      KidElems(c.sib, d);
      var elm := sib.Link(d);
      RemoveDoubleLinks(c.up, parent, sib, elm, d, s, t, e.Kid(d), e.Red(d), e.Red(s), e.Kid(s), outer);
      r := Mk(d, Mk(d, t, parent, false, e.Red(d), e.Kid(d)), elm, true, true, Mk(s, outer, sib, false, e.Red(s), e.Kid(s)));
      RootMk(d, Mk(d, t, parent, false, e.Red(d), e.Kid(d)), elm, true, true, Mk(s, outer, sib, false, e.Red(s), e.Kid(s)));
    }

    /** The rotation that ends `RB_REMOVE_COLOR`. */
    method RemoveRotate(ghost c: Ctx<Timer>, ghost t: Tree<Timer>, parent: Timer, sib: Timer, d: Dir)
      requires c.Step? && parent == c.n && d == c.d && c.sib.Bin? && sib == c.sib.n
      requires Place(c, t, root) && Shrunk(c, t) && c.red && !c.sibRed && !(c.sib.redL && c.sib.redR)
      modifies this
      modifies CtxElems(c)`parent, CtxElems(c)`left, CtxElems(c)`right, CtxElems(c)`redL, CtxElems(c)`redR
      modifies Elems(t)`parent, Elems(t)`left, Elems(t)`right, Elems(t)`redL, Elems(t)`redR
      ensures IsTree(tree, root) && InOrder(tree) == InOrder(Plug(c, t)) && Elems(tree) == CtxElems(c) + Elems(t)
    {
      hide Linked, Around, Elems, CtxElems, Distinct, CtxDistinct, Apart, InOrder, CtxWavl, Rank, Place, IsTree,
           Before, Behind, Shrunk, Plug, Wavl, Mk;
      SibFields(c, t, root);
      ghost var r;
      if sib.Red(d.Flip()) {
        r := RemoveDouble(c, t, parent, sib, d);
      } else {
        r := RemoveSingle(c, t, parent, sib, d);
      }
      Settle(c.up, r);
    }

    /** `RB_REMOVE_COLOR`: the place `c0` has lost one rank to a removal and now holds `t0`. */
    method RemoveColor(parent0: Timer, elm0: Timer?, ghost c0: Ctx<Timer>, ghost t0: Tree<Timer>) returns (ghost steps: nat)
      requires c0.Step? && parent0 == c0.n && elm0 == Root(t0)
      requires Place(c0, t0, root) && Wavl(t0) && CtxWavl(c0, Rank(t0) + 1)
      modifies this
      modifies CtxElems(c0)`parent, CtxElems(c0)`left, CtxElems(c0)`right, CtxElems(c0)`redL, CtxElems(c0)`redR
      modifies Elems(t0)`parent, Elems(t0)`left, Elems(t0)`right, Elems(t0)`redL, Elems(t0)`redR
      ensures IsTree(tree, root) && InOrder(tree) == Before(c0) + InOrder(t0) + Behind(c0)
      ensures Elems(tree) == CtxElems(c0) + Elems(t0) && steps <= Depth(c0)
    {
      hide Linked, Around, Elems, CtxElems, Distinct, CtxDistinct, Apart, InOrder, CtxWavl, Rank, Place, IsTree,
           Before, Behind, Shrunk, Plug, Wavl, Mk;
      var parent: Timer?, elm := parent0, elm0;
      ghost var c, t := c0, t0;
      ghost var all := Before(c0) + InOrder(t0) + Behind(c0);
      PlugInOrder(c0, t0);
      HoleIs(c0);
      EdgeFields(c, t, root);
      StartOfRemoval(c, t, root);
      steps := 0;
      if parent.right == elm && parent.left == elm {
        t := LowerLeaf(c, t, parent, root);
        c, steps := c.up, 1;
        elm := parent;
        parent := elm.parent;
      }
      while parent != null
        invariant parent == Hole(c) && elm == Root(t) && steps + Depth(c) == Depth(c0)
        invariant Place(c, t, root) && Shrunk(c, t)
        invariant CtxElems(c) + Elems(t) == CtxElems(c0) + Elems(t0)
        invariant InOrder(Plug(c, t)) == all
        decreases c
      {
        steps := steps + 1;
        var d := DirOf(parent, elm);
        EdgeFields(c, t, root);
        ShrunkSides(c, t);
        if !parent.Red(d) {
          ShrunkLengthens(c, t);
          RecoloredInOrder(c, t, true, c.sibRed);
          ToggleEdge(c, t, parent, d, root);
          PlugInOrder(c.(red := true), t);
          Settle(c.(red := true), t);
          return;
        }
        var s := d.Flip();
        var gpar := parent.parent;
        if parent.Red(s) {
          ToggleEdge(c, t, parent, s, root);
          ShrinksInPlace(c, t, root);
          t, c := Mk(c.d, t, c.n, true, false, c.sib), c.up;
          elm, parent := parent, gpar;
        } else {
          ShrunkSibling(c, t);
          SibFields(c, t, root);
          var sib := parent.Link(s);
          if sib.redL && sib.redR {
            ClearSib(c, t, sib, root);
            SibShrinksInPlace(c, t, root);
            t, c := Mk(c.d, t, c.n, true, false, c.sib.(redL := false, redR := false)), c.up;
            elm, parent := parent, gpar;
          } else {
            RemoveRotate(c, t, parent, sib, d);
            return;
          }
        }
      }
      ShrunkIsWavl(c, t);
      PlugInOrder(c, t);
      Settle(c, t);
    }

    /** The links of `RB_REMOVE` when `inn`, the successor of `out`, takes its place. */
    method Splice(ghost c: Ctx<Timer>, ghost t: Tree<Timer>, ghost c2: Ctx<Timer>, ghost t2: Tree<Timer>, out: Timer, inn: Timer)
      returns (parent: Timer, child: Timer?)
      requires Place(c, t, root) && Succession(c, t, c2, t2) && out == t.n && inn == t2.n
      modifies this`root, CtxElems(c)`left, CtxElems(c)`right
      modifies Elems(t)`parent, Elems(t)`left, Elems(t)`right, Elems(t)`redL, Elems(t)`redR
      ensures Around(c, inn, root) && Linked(Bin(t.l, inn, t.redL, t.redR, Plug(c2, t2.r)), Hole(c))
      ensures child == Root(t2.r) && parent == Above(c2, inn)
    {
      hide Linked, Around, Elems, CtxElems, Distinct, CtxDistinct, Apart, Before, Plug, Spine, Crown, Hole, CrownSet,
           Above;
      SuccessionApart(c, t, c2, t2);
      ElemsAllocated(t);
      CtxAllocated(c);
      RootFields(t, Hole(c));
      parent, child := SpliceBelow(c, t, c2, t2, out, inn, Hole(c));
      Seat(c, t, c2, t2, out, inn, parent, child);
      SpliceLinked(c, t, c2, t2, inn);
    }

    /** `inn` takes the colours and the parent of `out`, and `child` hangs where `inn` did. */
    method Seat(ghost c: Ctx<Timer>, ghost t: Tree<Timer>, ghost c2: Ctx<Timer>, ghost t2: Tree<Timer>, out: Timer, inn: Timer,
                parent: Timer, child: Timer?)
      requires Around(c, out, root) && out.parent == Hole(c) && out !in CtxElems(c) && CtxDistinct(c)
      requires inn !in CtxElems(c) && inn != out
      requires t.Bin? && t2.Bin? && out.redL == t.redL && out.redR == t.redR
      requires Linked(t.l, inn) && Linked(t2.r, inn) && child == Root(t2.r) && (t2.r.Bin? ==> child in Elems(t2.r) && !t2.r.redL && !t2.r.redR)
      requires CtxDistinct(c2) && (c2.Step? ==> Spine(c2, child) && Crown(c2) in CtxElems(c2)) && Distinct(t2.r)
      requires {inn} !! Elems(t.l) && {inn} !! Elems(t2.r) && {inn} !! CtxElems(c2)
      requires Elems(t.l) !! Elems(t2.r) && Elems(t.l) !! CtxElems(c) && Elems(t2.r) !! CtxElems(c)
      requires Elems(t2.r) !! CtxElems(c2) && CtxElems(c) !! CtxElems(c2)
      modifies this`root, CtxElems(c)`left, CtxElems(c)`right
      modifies inn`parent, inn`redL, inn`redR, Elems(t2.r)`parent, Elems(t2.r)`redL, Elems(t2.r)`redR
      ensures Around(c, inn, root) && inn.parent == Hole(c) && inn.redL == t.redL && inn.redR == t.redR
      ensures Linked(t.l, inn) && (t2.r.Bin? ==> Linked(t2.r, parent))
      ensures c2.Step? ==> Spine(c2, child)
    {
      hide Linked, Around, Elems, CtxElems, Distinct, CtxDistinct, Spine, Crown, Hole, CrownSet;
      ElemsAllocated(t.l);
      ElemsAllocated(t2.r);
      CtxAllocated(c);
      CtxAllocated(c2);
      inn.parent, inn.redL, inn.redR := out.parent, out.redL, out.redR;
      SwapChild(c, out.parent, out, inn);
      Rehouse(t2.r, child, inn, parent);
    }

    /** The only child of a node that leaves gets a new parent. */
    static method Rehouse(ghost t: Tree<Timer>, child: Timer?, ghost was: Timer, up: Timer?)
      requires Linked(t, was) && Distinct(t) && child == Root(t) && (t.Bin? ==> !t.redL && !t.redR)
      modifies Elems(t)`parent, Elems(t)`redL, Elems(t)`redR
      ensures t.Bin? ==> Linked(t, up)
    {
      hide Linked, Elems, Distinct;
      if child != null {
        RootFields(t, was);
        KidElems(t, L);
        AdoptBlack(t, child, up);
      }
    }

    /** `RB_REMOVE` of a node with one child at most, which takes its place. */
    method RemoveOne(ghost c: Ctx<Timer>, ghost t: Tree<Timer>, out: Timer) returns (ghost up: nat)
      requires t.Bin? && t.n == out && (t.l.Nil? || t.r.Nil?)
      requires Place(c, t, root) && Wavl(t) && CtxWavl(c, Rank(t))
      modifies this
      modifies CtxElems(c)`parent, CtxElems(c)`left, CtxElems(c)`right, CtxElems(c)`redL, CtxElems(c)`redR
      modifies Elems(t)`parent, Elems(t)`left, Elems(t)`right, Elems(t)`redL, Elems(t)`redR
      ensures IsTree(tree, root) && Elems(tree) == CtxElems(c) + Elems(t) - {out}
      ensures Inserted(InOrder(tree), out, InOrder(Plug(c, t))) && up <= Depth(c)
    {
      hide Linked, Around, Elems, CtxElems, Distinct, CtxDistinct, Wavl, CtxWavl, Rank, Before, Behind, InOrder, Plug,
           Inserted, Apart, Depth;
      up := 0;
      ghost var sub := if t.r.Nil? then t.l else t.r;
      CtxAllocated(c);
      ElemsAllocated(sub);
      OneOut(c, t, sub);
      OnlyChild(t);
      RootFields(t, Hole(c));
      var child, parent := if out.right == null then out.left else out.right, out.parent;
      SwapChild(c, parent, out, child);
      if child != null {
        RootFields(sub, out);
        KidElems(sub, L);
        AdoptBlack(sub, child, parent);
      }
      NilLinked(sub, Hole(c));
      if parent != null {
        up := RemoveColor(parent, child, c, sub);
      } else {
        Settle(c, sub);
      }
    }

    /** `RB_REMOVE` of a node with two children: its successor takes its place. */
    method RemoveTwo(ghost c: Ctx<Timer>, ghost t: Tree<Timer>, out: Timer) returns (ghost down: nat, ghost up: nat)
      requires t.Bin? && t.n == out && t.l.Bin? && t.r.Bin?
      requires Place(c, t, root) && Wavl(t) && CtxWavl(c, Rank(t))
      modifies this
      modifies CtxElems(c)`parent, CtxElems(c)`left, CtxElems(c)`right, CtxElems(c)`redL, CtxElems(c)`redR
      modifies Elems(t)`parent, Elems(t)`left, Elems(t)`right, Elems(t)`redL, Elems(t)`redR
      ensures IsTree(tree, root) && Elems(tree) == CtxElems(c) + Elems(t) - {out}
      ensures Inserted(InOrder(tree), out, InOrder(Plug(c, t)))
      ensures WithinBound(down, |InOrder(Plug(c, t))|) && WithinBound(up, |InOrder(Plug(c, t))|)
    {
      hide Linked, Around, Elems, CtxElems, Distinct, CtxDistinct, Wavl, CtxWavl, Rank, Before, Behind, InOrder, Plug,
           Inserted, Apart, Depth, WithinBound;
      RootFields(t, Hole(c));
      CtxAllocated(c);
      ElemsAllocated(t);
      var inn: Timer := out.right;
      ghost var c2, t2;
      inn, c2, t2, down := FarMost(inn, L, t.r, out);
      PlugWavl(c, t);
      WayBelow(c, t, R, c2, t2);
      SuccessorWavl(c, t, c2, t2);
      SplicedValues(c, t, c2, t2);
      var parent, child := Splice(c, t, c2, t2, out, inn);
      ghost var c' := SplicedPlace(c, t, c2, t2, root);
      DepthJoin(Step(c, R, t2.n, t.redR, t.redL, t.l), c2);
      DepthStep(c, R, t2.n, t.redR, t.redL, t.l);
      up := RemoveColor(parent, child, c', t2.r);
      ghost var n := |InOrder(Plug(c, t))|;
      down := down + 1;
      ShorterWay(down, Depth(c) + 1 + Depth(c2), n);
      ShorterWay(up, Depth(c) + 1 + Depth(c2), n);
    }

    /** `RB_REMOVE`: exactly `out` leaves.  The ways to its successor and up again are logarithmic. */
    method Remove(out: Timer) returns (ghost down: nat, ghost up: nat)
      requires IsTree(tree, root) && out in Elems(tree)
      modifies this
      modifies Elems(tree)`parent, Elems(tree)`left, Elems(tree)`right, Elems(tree)`redL, Elems(tree)`redR
      ensures IsTree(tree, root) && Elems(tree) == old(Elems(tree)) - {out}
      ensures Inserted(InOrder(tree), out, old(InOrder(tree)))
      ensures WithinBound(down, |old(InOrder(tree))|) && WithinBound(up, |old(InOrder(tree))|)
    {
      hide Linked, Around, Elems, CtxElems, Distinct, CtxDistinct, Wavl, CtxWavl, Rank, InOrder, Plug, Inserted, IsTree,
           WithinBound, Depth;
      ghost var c, t := FocusPlace(tree, root, out);
      RootFields(t, Hole(c));
      if out.right == null || out.left == null {
        PlugWavl(c, t);
        WayIsShort(c, t);
        down := 0;
        up := RemoveOne(c, t, out);
        ShorterWay(up, Depth(c), |old(InOrder(tree))|);
        ShorterWay(down, Depth(c), |old(InOrder(tree))|);
      } else {
        down, up := RemoveTwo(c, t, out);
      }
    }

    // ---------------------------------------------------------------- walks

    /** `RB_MINMAX`. */
    method MinMax(val: int) returns (parent: Timer?, ghost steps: nat)
      requires IsTree(tree, root)
      ensures parent == null <==> InOrder(tree) == []
      ensures parent != null ==> parent == End(InOrder(tree), if val < 0 then L else R)
      ensures WithinBound(steps, |InOrder(tree)|)
    {
      hide Linked, Elems, InOrder, Plug, Side, End, Before, Behind, WithinBound, Wavl;
      var tmp := root;
      parent, steps := null, 0;
      ghost var d := if val < 0 then L else R;
      ghost var c, t := Top, tree;
      ghost var cp, tp := c, t;
      TopSide(tree, d);
      while tmp != null
        invariant tmp == Root(t) && Linked(t, parent) && Plug(c, t) == tree && Side(c, d) == []
        invariant if parent == null then t == tree
                  else Plug(cp, tp) == tree && Side(cp, d) == [] && tp.Bin? && tp.n == parent && tp.Kid(d) == t
        invariant steps == Depth(c)
        decreases t
      {
        RootFields(t, parent);
        ghost var below := WalkStep(c, t, d);
        parent := tmp;
        if val < 0 {
          tmp := tmp.left;
        } else {
          tmp := tmp.right;
        }
        cp, tp := c, t;
        c, t, steps := below, t.Kid(d), steps + 1;
      }
      WayIsShort(c, t);
      EmptyInOrder(tree);
      if parent != null {
        WalkEnd(cp, tp, d);
      }
    }

    /** `RB_NEXT` for `d` right, `RB_PREV` for `d` left; `i` is the position of `elm0`. */
    method Neighbour(elm0: Timer, d: Dir) returns (r: Timer?, ghost i: int, ghost steps: nat)
      requires IsTree(tree, root) && elm0 in Elems(tree)
      ensures 0 <= i < |InOrder(tree)| && InOrder(tree)[i] == elm0
      ensures At(InOrder(tree), Beside(i, d)) == if r == null then [] else [r]
      ensures NextTo(InOrder(tree), elm0, d, r) && WithinBound(steps, |InOrder(tree)|)
    {
      hide Linked, Around, Elems, CtxElems, Distinct, CtxDistinct, Wavl, CtxWavl, Rank, InOrder, Plug, IsTree, Side,
           End, Place, At, Before, Behind, WithinBound;
      ghost var c, t := FocusPlace(tree, root, elm0);
      UpField(c, t, root);
      PlaceFields(c, t, root);
      CtxAllocated(c);
      ElemsAllocated(t);
      var elm := elm0;
      if elm.Link(d) != null {
        ghost var c2, t2;
        elm, c2, t2, steps := FarMost(elm.Link(d), d.Flip(), t.Kid(d), elm0);
        WalkEnd(c2, t2, d.Flip());
        i := NearestBelow(c, t, d);
        PlugWavl(c, t);
        WayBelow(c, t, d, c2, t2);
        steps := steps + 1;
        ShorterWay(steps, Depth(c) + 1 + Depth(c2), |InOrder(tree)|);
        r := elm;
      } else {
        PlugWavl(c, t);
        WayIsShort(c, t);
        ghost var way := Depth(c);
        steps := 0;
        TopSide(t, d);
        WalkEnd(Top, t, d);
        while elm.parent != null && elm == elm.parent.Link(d)
          invariant Place(c, t, root) && Plug(c, t) == tree && t.Bin? && t.n == elm && elm.parent == Hole(c)
          invariant steps + Depth(c) == way
          invariant InOrder(t) != [] && End(InOrder(t), d) == elm0
          decreases c
        {
          EdgeFields(c, t, root);
          ClimbStep(c, t, d);
          PlaceUp(c, t, root);
          elm := elm.parent;
          t, c := Mk(c.d, t, c.n, c.red, c.sibRed, c.sib), c.up;
          steps := steps + 1;
        }
        r := elm.parent;
        if c.Step? {
          EdgeFields(c, t, root);
        }
        i := ClimbEnd(c, t, d);
        ShorterWay(steps, way, |InOrder(tree)|);
      }
    }

    /**
     `RB_REINSERT`, after the key of `elm` was changed in place: in order again, whether or not `elm` had to move.
     The tree is looked at around `elm` only.
     */
    method Reinsert(elm: Timer) returns (hit: Timer?)
      requires IsTree(tree, root) && elm in Elems(tree) && SortedBut(InOrder(tree), elm)
      modifies this
      modifies Elems(tree)`parent, Elems(tree)`left, Elems(tree)`right, Elems(tree)`redL, Elems(tree)`redR
      ensures Valid()
      ensures hit == null ==> Elems(tree) == old(Elems(tree))
      ensures hit != null ==> Elems(tree) == old(Elems(tree)) - {elm} && hit in Elems(tree) && Compare(elm, hit) == 0
      ensures old(Sorted(InOrder(tree))) ==> tree == old(tree)
    {
      hide Linked, Elems, Distinct, Wavl, InOrder, Plug, At, Sorted, SortedBut, Once, Compare, Inserted, IsTree;
      ghost var s := InOrder(tree);
      TreeOnce(tree, root);
      ElemsAllocated(tree);
      SeqAllocated(tree);
      hit := null;
      var cmpelm, i, way := Neighbour(elm, L);
      AtSide(s, i, L, cmpelm);
      NeighboursDecide(s, elm, i);
      var misplaced := cmpelm != null && Compare(cmpelm, elm) >= 0;
      if !misplaced {
        ghost var j;
        cmpelm, j, way := Neighbour(elm, R);
        SamePosition(s, i, j);
        AtSide(s, i, R, cmpelm);
        misplaced := cmpelm != null && Compare(elm, cmpelm) >= 0;
        NeighboursDecide(s, elm, i);
      }
      if misplaced {
        var down, up := Remove(elm);
        RestIsSorted(InOrder(tree), elm, s);
        hit, down, up := Insert(elm);
      }
    }
  }
}
