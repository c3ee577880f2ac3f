/**
 The timer set of an event loop: the rank-balanced tree as a priority queue of deadlines.
 */
module TimerSet {
  import opened RankTree
  import opened RbLinks
  import opened RbTree
  import opened Ret
  import opened Seqs

  /** The assignment of a 64-bit integer to an `int`. */
  function ToInt32(x: int): (r: int)
    ensures -0x8000_0000 <= r < 0x8000_0000
  {
    (x + 0x8000_0000) % 0x1_0000_0000 - 0x8000_0000
  }

  /** What `dptmrset_expire` computes for an earliest deadline that is `left` milliseconds away. */
  function WaitMs(left: int): int {
    ToInt32(if 1 < left - 10 then left - 10 else 1)
  }

  /** As long as the deadline is near enough, the wait is at least a millisecond and does not overshoot it. */
  lemma WaitIsExact(left: int)
    requires left > 0
    ensures WaitMs(left) <= left
    ensures WaitMs(left) == (if left <= 11 then 1 else left - 10) <==> left - 10 < 0x8000_0000
    ensures left - 10 < 0x8000_0000 ==> 1 <= WaitMs(left) <= left
  {
    var n := if 1 < left - 10 then left - 10 else 1;
    if n < 0x8000_0000 {
      assert (n + 0x8000_0000) % 0x1_0000_0000 == n + 0x8000_0000;
    }
  }

  /**
   Beyond that it is not: a deadline 2^31 + 10 milliseconds away gives a negative wait.
   */
  lemma WaitTurnsNegative()
    ensures WaitMs(0x8000_0000 + 10) == -0x8000_0000
  {
  }

  /** The wait is at least one millisecond for exactly these distances. */
  lemma WaitIsPositive(left: int)
    requires left > 0
    ensures WaitMs(left) >= 1 <==> left <= 11 || 1 <= (left - 10) % 0x1_0000_0000 < 0x8000_0000
  {
  }

  /** `dplog_millis() + after * 1000`, truncated to milliseconds. */
  function Deadline(now: int, after: real): (r: int)
    ensures r as real <= now as real + after * 1000.0 < r as real + 1.0
  {
    (now as real + after * 1000.0).Floor
  }

  lemma IsOver(expire: int, x: real, t: int)
    requires expire as real <= x < expire as real + 1.0
    ensures expire <= t <==> x < t as real + 1.0
  {
    if expire > t {
      assert expire as real >= (t + 1) as real == t as real + 1.0;
    } else {
      assert expire as real <= t as real;
    }
  }

  lemma LeastFirst(s: seq<Timer>, x: Timer, s': seq<Timer>)
    requires Once(s) && s != [] && s[0] == x && Inserted(s', x, s)
    ensures s' == s[1..]
  {
    var i :| 0 <= i <= |s'| && s == s'[..i] + [x] + s'[i..];
    assert s[i] == x;
  }

  /** Elements have addresses of their own. */
  ghost predicate Addressed(s: set<Timer>) {
    forall x, y :: x in s && y in s && x.addr == y.addr ==> x == y
  }

  /** `tmr_spec->expire = ...`: only what `ele` has to do with is out of order. */
  method SetExpire(ele: Timer, v: int, ghost s: seq<Timer>)
    requires Sorted(s)
    modifies ele`expire
    ensures ele.expire == v && SortedBut(s, ele) && (ele !in s ==> Sorted(s))
  {
    ele.expire := v;
    forall i, j | 0 <= i < j < |s| && s[i] != ele && s[j] != ele
      ensures Compare(s[i], s[j]) < 0
    {
      assert old(Compare(s[i], s[j])) < 0;
    }
  }

  /** What is in order stays in order when an element leaves. */
  lemma RemovedKeepsSorted(s: seq<Timer>, x: Timer, s0: seq<Timer>)
    requires Inserted(s, x, s0) && Sorted(s0) && Once(s0)
    ensures Sorted(s)
  {
    RestIsSorted(s, x, s0);
  }

  class Timers {
    const head: Head

    ghost predicate Valid()
      reads this, head, Elems(head.tree)
    {
      head.Valid() && forall x :: x in Elems(head.tree) ==> x.isTiming
    }

    /** `dptmrset_init`. */
    constructor ()
      ensures Valid() && fresh(head) && InOrder(head.tree) == []
    {
      head := new Head();
    }

    /** `_dptmrset_upsert`, with the clock at `now`. */
    method Upsert(ele: Timer, now: int) returns (ret: int)
      requires Valid() && (ele.isTiming <==> ele in Elems(head.tree)) && Addressed(Elems(head.tree) + {ele})
      modifies head, ele
      modifies Elems(head.tree)`parent, Elems(head.tree)`left, Elems(head.tree)`right, Elems(head.tree)`redL,
               Elems(head.tree)`redR
      ensures Valid()
      ensures ret == if !old(ele.hasSpec) || old(ele.after) < 0.0 then INVAL else OK
      ensures ele.hasSpec == old(ele.hasSpec) && ele.after == old(ele.after)
      ensures ret == INVAL ==> head.tree == old(head.tree) && unchanged(ele)
      ensures ret == OK ==>
        && Elems(head.tree) == old(Elems(head.tree)) + {ele} && ele.isTiming
        && ele.expire as real <= now as real + old(ele.after) * 1000.0 < ele.expire as real + 1.0
    {
      hide Linked, Elems, Distinct, Wavl, InOrder, Plug, Sorted, SortedBut, Once, Compare, Inserted, IsTree;
      if !ele.hasSpec || ele.after < 0.0 {
        return INVAL;
      }
      ghost var s := InOrder(head.tree);
      SeqAllocated(head.tree);
      ElemsAllocated(head.tree);
      ElementOf(head.tree, ele);
      SetExpire(ele, Deadline(now, ele.after), s);
      if ele.isTiming {
        var hit := head.Reinsert(ele);
        if hit != null {
          SameAddress(ele, hit);
        }
      } else {
        var hit, down, up := head.Insert(ele);
        if hit != null {
          SameAddress(ele, hit);
          return INTERNAL_ERROR;
        }
        ele.isTiming := true;
      }
      ret := OK;
    }

    /** `_dptmrset_remove`. */
    method Remove(ele: Timer?)
      requires Valid() && (ele != null ==> (ele.isTiming <==> ele in Elems(head.tree)))
      modifies head, if ele != null then {ele} else {}
      modifies Elems(head.tree)`parent, Elems(head.tree)`left, Elems(head.tree)`right, Elems(head.tree)`redL,
               Elems(head.tree)`redR
      ensures Valid()
      ensures Elems(head.tree) == if ele == null then old(Elems(head.tree)) else old(Elems(head.tree)) - {ele}
      ensures ele != null ==> !ele.isTiming && ele.expire == old(ele.expire)
    {
      hide Linked, Elems, Distinct, Wavl, InOrder, Plug, Sorted, SortedBut, Once, Compare, Inserted, IsTree;
      if ele != null && ele.isTiming {
        ghost var s := InOrder(head.tree);
        TreeOnce(head.tree, head.root);
        SeqAllocated(head.tree);
        ElemsAllocated(head.tree);
        var down, up := head.Remove(ele);
        RemovedKeepsSorted(InOrder(head.tree), ele, s);
        ele.isTiming := false;
      }
    }

    /** `dptmrset_expire`, with the clock at `now`: the least element, if it is due. */
    method Expire(now: int) returns (r: Timer?, waitms: int)
      requires Valid()
      modifies head
      modifies Elems(head.tree)`parent, Elems(head.tree)`left, Elems(head.tree)`right, Elems(head.tree)`redL,
               Elems(head.tree)`redR
      modifies Elems(head.tree)`isTiming
      ensures Valid()
      ensures r == null ==> head.tree == old(head.tree) && forall x :: x in Elems(head.tree) ==> x.expire > now
      ensures r == null ==>
        waitms == if InOrder(head.tree) == [] then -1 else WaitMs(InOrder(head.tree)[0].expire - now)
      ensures r != null ==> waitms == 0 && r.expire <= now && !r.isTiming
      ensures r != null ==> old(InOrder(head.tree)) == [r] + InOrder(head.tree) && Elems(head.tree) == old(Elems(head.tree)) - {r}
    {
      hide Linked, Elems, Distinct, Wavl, InOrder, Plug, Sorted, SortedBut, Once, Compare, Inserted, IsTree;
      waitms := -1;
      ghost var s := InOrder(head.tree);
      SeqAllocated(head.tree);
      ElemsAllocated(head.tree);
      var mintmr, steps := head.MinMax(-1);
      r := null;
      if mintmr == null {
        NoElements(head.tree);
        return;
      }
      FirstIsLeast(s);
      if mintmr.expire > now {
        AllElements(head.tree, now);
        waitms := WaitMs(mintmr.expire - now);
        return;
      }
      ElementOf(head.tree, mintmr);
      TreeOnce(head.tree, head.root);
      var down, up := head.Remove(mintmr);
      RemovedKeepsSorted(InOrder(head.tree), mintmr, s);
      LeastFirst(s, mintmr, InOrder(head.tree));
      waitms := 0;
      mintmr.isTiming := false;
      r := mintmr;
    }

    /** An element alone in the set, put in at `now`, comes out at `t` iff its timeout is over then, in whole milliseconds. */
    method Alarm(ele: Timer, now: int, t: int) returns (r: Timer?)
      requires Valid() && InOrder(head.tree) == [] && !ele.isTiming && ele.hasSpec && ele.after >= 0.0
      modifies head, ele
      ensures Valid()
      ensures r == if now as real + old(ele.after) * 1000.0 < t as real + 1.0 then ele else null
    {
      hide Linked, Elems, Distinct, Wavl, InOrder, Plug, Sorted, SortedBut, Once, Compare, Inserted, IsTree;
      NoElements(head.tree);
      var ret := Upsert(ele, now);
      ElementOf(head.tree, ele);
      ElemsAllocated(head.tree);
      ghost var tree := head.tree;
      var waitms;
      r, waitms := Expire(t);
      if r != null {
        assert r in InOrder(tree);
        ElementOf(tree, r);
      }
      IsOver(ele.expire, now as real + ele.after * 1000.0, t);
    }

    /**
     The loop of `_dpevp_reap_tmr`, run until it finds nothing, with the clock read again each time: the elements come
     out in the order of their deadlines, each one due, and none that is left is.
     */
    method ReapAll(clock: nat -> int) returns (reaped: seq<Timer>, waitms: int)
      requires Valid()
      modifies head
      modifies Elems(head.tree)`parent, Elems(head.tree)`left, Elems(head.tree)`right, Elems(head.tree)`redL,
               Elems(head.tree)`redR
      modifies Elems(head.tree)`isTiming
      ensures Valid() && reaped + InOrder(head.tree) == old(InOrder(head.tree))
      ensures forall i :: 0 <= i < |reaped| ==> reaped[i].expire <= clock(i) && !reaped[i].isTiming
      ensures forall x :: x in Elems(head.tree) ==> x.expire > clock(|reaped|)
      ensures waitms == if InOrder(head.tree) == [] then -1 else WaitMs(InOrder(head.tree)[0].expire - clock(|reaped|))
    {
      hide Linked, Elems, Distinct, Wavl, InOrder, Plug, Sorted, SortedBut, Once, Compare, Inserted, IsTree;
      reaped := [];
      ghost var s := InOrder(head.tree);
      var ele;
      ele, waitms := Expire(clock(0));
      while ele != null
        invariant Valid() && Elems(head.tree) <= old(Elems(head.tree))
        invariant ele != null ==> ele.expire <= clock(|reaped|) && !ele.isTiming && ele !in Elems(head.tree)
        invariant ele != null ==> s == reaped + ([ele] + InOrder(head.tree))
        invariant forall i :: 0 <= i < |reaped| ==> reaped[i].expire <= clock(i) && !reaped[i].isTiming && reaped[i] !in Elems(head.tree)
        invariant ele == null ==> s == reaped + InOrder(head.tree) && forall x :: x in Elems(head.tree) ==> x.expire > clock(|reaped|)
        invariant ele == null ==>
          waitms == if InOrder(head.tree) == [] then -1 else WaitMs(InOrder(head.tree)[0].expire - clock(|reaped|))
        decreases ele != null, |InOrder(head.tree)|
      {
        assert reaped + ([ele] + InOrder(head.tree)) == (reaped + [ele]) + InOrder(head.tree);
        reaped := reaped + [ele];
        ele, waitms := Expire(clock(|reaped|));
      }
    }
  }

  lemma NoElements(t: Tree<Timer>)
    requires InOrder(t) == []
    ensures Elems(t) == {}
  {
    EmptyInOrder(t);
  }

  lemma FirstIsLeast(s: seq<Timer>)
    requires Sorted(s) && s != []
    ensures forall x :: x in s ==> s[0].expire <= x.expire
  {
    forall x | x in s
      ensures s[0].expire <= x.expire
    {
      var k :| 0 <= k < |s| && s[k] == x;
      assert k == 0 || Compare(s[0], s[k]) < 0;
    }
  }

  lemma AllElements(t: Tree<Timer>, v: int)
    requires forall x :: x in InOrder(t) ==> v < x.expire
    ensures forall x :: x in Elems(t) ==> v < x.expire
  {
    forall x | x in Elems(t)
      ensures v < x.expire
    {
      ElementOf(t, x);
    }
  }

  lemma SameAddress(x: Timer, y: Timer)
    ensures Compare(x, y) == 0 ==> x.addr == y.addr
  {
  }
}
