/**
 The asymmetric coroutines of `dpaco.c` in one thread.  A context swap is an abstract transfer of control: each method
 here is what runs between two swaps.  `stack` is the chain of resumers from the main coroutine to the current one, and
 `free` the list of coroutines kept for use again.  One field, `link`, serves both: it is the resumer of a coroutine on the
 stack and the successor of one on the list.
 */
module Coroutines {
  import opened Seqs

  datatype Status = Created | Suspended | Running | Dead

  const KEPT := 1024

  class Co {
    var status: Status
    var msg: int
    var link: Co?        // prev on the stack, next on the recycle list
    var delater: bool

    constructor (status: Status)
      ensures this.status == status && link == null && !delater && msg == 0
    {
      this.status, msg, link, delater := status, 0, null, false;
    }
  }

  /** Position `i` of the stack: resumed by the one below it, and running only at the top. */
  ghost predicate OnStack(s: seq<Co>, i: nat)
    requires i < |s|
    reads s[i]
  {
    s[i].link == AtOr(s, i - 1, null) && s[i].status == if i == |s| - 1 then Running else Suspended
  }

  /** Position `i` of the recycle list. */
  ghost predicate OnList(s: seq<Co>, i: nat)
    requires i < |s|
    reads s[i]
  {
    s[i].link == AtOr(s, i + 1, null) && (s[i].status.Created? || s[i].status.Dead?) && !s[i].delater
  }

  class Env {
    const comain: Co
    var cocurr: Co
    var recycle: Co?
    var recycleCount: nat
    ghost var stack: seq<Co>
    ghost var free: seq<Co>
    ghost var live: set<Co>      // created and not yet given back
    ghost var gone: seq<Co>      // given back to the allocator, in order; what their memory held is still there

    ghost function Members(): set<Co>
      reads this
    {
      live + (set c | c in free) + set c | c in gone
    }

    ghost predicate Valid()
      reads this, Members()
    {
      Core() && Tidy({})
    }

    ghost predicate Core()
      reads this, Members()
    {
      Placed() && StackOk() && ListOk() && GoneOk()
    }

    /** A coroutine is in one place: at work, kept for use again, or gone. */
    ghost predicate Placed()
      reads this`stack, this`free, this`gone, this`live
    {
      && (forall c :: c in stack ==> c in live) && (forall c :: c in free ==> c !in live)
      && Once(gone) && forall c :: c in gone ==> c !in live && c !in free
    }

    ghost predicate StackOk()
      reads this`stack, this`cocurr, stack
    {
      && Once(stack) && stack != [] && stack[0] == comain && stack[|stack| - 1] == cocurr
      && forall i :: 0 <= i < |stack| ==> OnStack(stack, i)
    }

    ghost predicate ListOk()
      reads this`free, this`recycle, this`recycleCount, free
    {
      && Once(free) && recycle == AtOr(free, 0, null) && recycleCount == |free| <= KEPT
      && forall i :: 0 <= i < |free| ==> OnList(free, i)
    }

    ghost predicate GoneOk()
      reads this`gone, gone
    {
      forall c :: c in gone ==> c.status.Created? || c.status.Dead?
    }

    /** Only the current coroutine runs, and one whose deletion was put off has not come to its end yet. */
    ghost predicate Tidy(but: set<Co>)
      reads this`live, this`cocurr, live
    {
      forall c :: c in live ==>
        (c.status.Running? ==> c == cocurr) && (c !in but && c.delater ==> c.status.Running? || c.status.Suspended?)
    }

    /** From `c` on, `n` coroutines that the allocator does not have, and then the end. */
    ghost predicate Listed(c: Co?, n: nat)
      reads *
      decreases n
    {
      if n == 0 then c == null else c != null && c !in gone && Listed(c.link, n - 1)
    }

    /** The recycle list is as long as it says, and nothing on it or twice went back to the allocator. */
    ghost predicate Sound()
      reads *
    {
      Once(gone) && Listed(recycle, recycleCount)
    }

    /** Where `n` links lead to. */
    ghost function Walk(c: Co?, n: nat): Co?
      reads *
      decreases n
    {
      if n == 0 || c == null then c else Walk(c.link, n - 1)
    }

    lemma {:induction false} ListedFrom(i: nat)
      requires Core() && i <= |free|
      ensures Listed(AtOr(free, i, null), |free| - i)
      decreases |free| - i
    {
      if i < |free| {
        assert OnList(free, i);
        ListedFrom(i + 1);
      }
    }

    /** Links that stay within a set never come to an end. */
    lemma {:induction false} NeverEnds(c: Co, n: nat, ring: seq<Co>)
      requires c in ring && forall x :: x in ring ==> x.link != null && x.link in ring
      ensures !Listed(c, n)
      decreases n
    {
      if n > 0 {
        NeverEnds(c.link, n - 1, ring);
      }
    }

    lemma {:induction false} NotListed(f: seq<Co>, i: nat, n: nat)
      requires i < |f| && f[i] in gone && forall k :: 0 <= k < |f| ==> f[k].link == AtOr(f, k + 1, null)
      ensures !Listed(AtOr(f, 0, null), n)
    {
      NotListedFrom(f, 0, i, n);
    }

    lemma {:induction false} NotListedFrom(f: seq<Co>, j: nat, i: nat, n: nat)
      requires j <= i < |f| && f[i] in gone && forall k :: 0 <= k < |f| ==> f[k].link == AtOr(f, k + 1, null)
      ensures !Listed(AtOr(f, j, null), n)
      decreases n
    {
      if n > 0 && j < i {
        NotListedFrom(f, j + 1, i, n - 1);
      }
    }

    lemma {:induction false} WalksTo(f: seq<Co>, j: nat, i: nat)
      requires j <= i < |f| && forall k :: j <= k < i ==> f[k].link == f[k + 1]
      ensures Walk(f[j], i - j) == f[i]
      decreases i - j
    {
      if j < i {
        WalksTo(f, j + 1, i);
      }
    }

    /** `dpaco_thinit`. */
    constructor ()
      ensures Valid() && stack == [comain] && free == [] && live == {comain} && gone == [] && fresh(comain)
    {
      var main := new Co(Running);
      comain, cocurr, recycle, recycleCount := main, main, null, 0;
      stack, free, live, gone := [main], [], {main}, [];
      new;
      assert OnStack(stack, 0);
    }

    /** The front of the recycle list. */
    method Unlist() returns (co: Co)
      requires Valid() && recycle != null
      modifies this`recycle, this`recycleCount, this`free
      ensures Valid() && old(free) == [co] + free && co !in live && co !in free && co !in gone
    {
      hide StackOk, GoneOk, Tidy;
      ghost var f := free;
      assert OnList(f, 0);
      co := recycle;
      recycle := co.link;
      recycleCount := recycleCount - 1;
      free := f[1..];
      forall i | 0 <= i < |free|
        ensures OnList(free, i)
      {
        assert OnList(f, i + 1);
      }
    }

    /** A coroutine of nobody's becomes a new one. */
    method Enroll(co: Co)
      requires Valid() && co !in live && co !in free && co !in gone
      modifies co, this`live
      ensures Valid() && live == old(live) + {co} && co.status.Created? && !co.delater && co.link == null
    {
      hide StackOk, ListOk, GoneOk;
      co.status := Created;
      co.link := null;
      co.delater := false;
      live := live + {co};
    }

    /** `dpaco_create`: from the recycle list, or fresh; `memory` says whether an allocation would succeed. */
    method Create(memory: bool) returns (co: Co?)
      requires Valid()
      modifies this, Members()
      ensures Valid() && stack == old(stack) && cocurr == old(cocurr)
      ensures co == null <==> old(free) == [] && !memory
      ensures co != null ==>
        && co !in old(live) && live == old(live) + {co} && (co in old(free) || fresh(co))
        && co.status.Created? && !co.delater && co.link == null
      ensures co == null ==> live == old(live)
      ensures old(free) != [] ==> co == old(free)[0]
      ensures forall c :: c in old(live) ==> unchanged(c)
      ensures free == if old(free) == [] then [] else old(free)[1..]
    {
      hide OnStack, OnList;
      if recycle != null {
        co := Unlist();
      } else {
        if !memory {
          return null;
        }
        co := new Co(Created);
      }
      Enroll(co);
    }

    /** `dpaco_resume` up to the swap: `co`, which is no resumer of the current coroutine, runs next and finds `val`. */
    method Resume(co: Co, val: int) returns (entered: bool)
      requires Valid() && co in live && (co in stack ==> co == cocurr)
      modifies this`stack, this`cocurr, live
      ensures Valid()
      ensures entered <==> old(co.status).Created? || old(co.status).Suspended?
      ensures entered ==> stack == old(stack) + [co] && cocurr == co && co.msg == val && co.link == old(cocurr)
      ensures !entered ==> stack == old(stack) && cocurr == old(cocurr)
      ensures forall c :: c in live && !(entered && (c == co || c == old(cocurr))) ==> unchanged(c)
      ensures entered ==>
        && old(cocurr).status.Suspended? && old(cocurr).msg == old(cocurr.msg) && old(cocurr).link == old(cocurr.link)
        && old(cocurr).delater == old(cocurr.delater) && co.delater == old(co.delater)
    {
      hide ListOk, GoneOk;
      ghost var s := stack;
      if !(co.status.Created? || co.status.Suspended?) {
        return false;
      }
      assert OnStack(s, |s| - 1);
      co.link := cocurr;
      co.msg := val;
      co.status := Running;
      cocurr.status := Suspended;
      cocurr := co;
      stack := s + [co];
      forall i | 0 <= i < |stack|
        ensures OnStack(stack, i)
      {
        assert i < |s| ==> old(OnStack(s, i));
      }
      return true;
    }

    /**
     `dpaco_delater` of a coroutine that does not run: onto the recycle list, or freed when that is full.  That is sound iff
     the coroutine was not given back before.
     */
    method Recycle(co: Co)
      requires Core() && Tidy({co}) && co in Members() && co !in stack && (co.status.Created? || co.status.Dead?)
      modifies this`recycle, this`recycleCount, this`free, this`live, this`gone, co
      ensures Sound() <==> co in old(live)
      ensures co in old(live) ==>
        && Valid() && live == old(live) - {co} && stack == old(stack) && co.status == old(co.status)
        && free == (if |old(free)| < KEPT then [co] + old(free) else old(free))
        && gone == if |old(free)| < KEPT then old(gone) else old(gone) + [co]
      ensures |old(free)| < KEPT ==>
        forall i :: 0 <= i < |old(free)| && old(free)[i] == co ==> recycle == co && Walk(recycle, i + 1) == co
    {
      if recycleCount < KEPT {
        Relist(co);
      } else {
        Release(co);
      }
    }

    method Relist(co: Co)
      requires Core() && Tidy({co}) && co in Members() && co !in stack && (co.status.Created? || co.status.Dead?)
      requires recycleCount < KEPT
      modifies this`recycle, this`recycleCount, this`free, this`live, co
      ensures Sound() <==> co in old(live)
      ensures co in old(live) ==>
        Valid() && live == old(live) - {co} && co.status == old(co.status) && co.msg == 0 && free == [co] + old(free)
      ensures forall i :: 0 <= i < |old(free)| && old(free)[i] == co ==> recycle == co && Walk(recycle, i + 1) == co
    {
      hide StackOk, GoneOk, Sound, Walk, Listed;
      ghost var f := free;
      co.msg := 0;
      co.delater := false;
      co.link := recycle;
      recycle := co;
      recycleCount := recycleCount + 1;
      if co in live {
        live := live - {co};
        free := [co] + f;
        forall i | 0 <= i < |free|
          ensures OnList(free, i)
        {
          if i > 0 {
            assert old(OnList(f, i - 1)) && free[i] == f[i - 1];
          }
        }
        IsSound();
      } else {
        forall i | 0 <= i < |f| && f[i] != co
          ensures f[i].link == AtOr(f, i + 1, null)
        {
          assert old(OnList(f, i));
        }
        GoesRound(f, co);
      }
    }

    method Release(co: Co)
      requires Core() && Tidy({co}) && co in Members() && co !in stack && (co.status.Created? || co.status.Dead?)
      requires recycleCount == KEPT
      modifies this`live, this`gone
      ensures Sound() <==> co in old(live)
      ensures co in old(live) ==> Valid() && live == old(live) - {co} && gone == old(gone) + [co]
    {
      hide StackOk, Walk, Listed, Sound;
      ghost var g, lives := gone, co in live;
      live := live - {co};
      gone := g + [co];
      if lives {
        IsSound();
      } else {
        FreedInUse(g, co);
      }
    }

    /** Freeing what is on the list, or was freed already. */
    lemma FreedInUse(g: seq<Co>, co: Co)
      requires ListOk() && gone == g + [co] && (co in free || co in g)
      ensures !Sound()
    {
      assert gone[|g|] == co;
      if co in g {
        var k :| 0 <= k < |g| && g[k] == co;
        assert gone[k] == co;
      } else {
        var i :| 0 <= i < |free| && free[i] == co;
        forall k | 0 <= k < |free|
          ensures free[k].link == AtOr(free, k + 1, null)
        {
          assert OnList(free, k);
        }
        NotListed(free, i, recycleCount);
      }
    }

    lemma IsSound()
      requires Core()
      ensures Sound()
    {
      ListedFrom(0);
    }

    /** A list that starts with `co` where `co` is on it already, or freed, has no end to it. */
    lemma GoesRound(f: seq<Co>, co: Co)
      requires recycle == co && recycleCount > 0 && co.link == AtOr(f, 0, null) && Once(f) && (co in f || co in gone)
      requires forall i :: 0 <= i < |f| && f[i] != co ==> f[i].link == AtOr(f, i + 1, null)
      ensures !Sound()
      ensures forall i :: 0 <= i < |f| && f[i] == co ==> Walk(recycle, i + 1) == co
    {
      hide Walk;
      forall i | 0 <= i < |f| && f[i] == co
        ensures Walk(recycle, i + 1) == co && !Listed(recycle, recycleCount)
      {
        Ring([co] + f[..i], i);
      }
    }

    /** Links that lead from each of `ring` to the next, and from the last to the first. */
    lemma Ring(ring: seq<Co>, i: nat)
      requires |ring| == i + 1 && ring[i].link == ring[0] == recycle
      requires forall k :: 0 <= k < i ==> ring[k].link == ring[k + 1]
      ensures Walk(recycle, i + 1) == ring[0] && !Listed(recycle, recycleCount)
    {
      hide Listed, Walk;
      WalksTo(ring, 0, i);
      WalkOn(recycle, i);
      forall x | x in ring
        ensures x.link != null && x.link in ring
      {
        var k :| 0 <= k <= i && x == ring[k];
        assert x.link == ring[if k == i then 0 else k + 1];
      }
      NeverEnds(ring[0], recycleCount, ring);
    }

    lemma {:induction false} WalkOn(c: Co, n: nat)
      ensures Walk(c, n + 1) == if Walk(c, n) == null then null else Walk(c, n).link
      decreases n
    {
      if n > 0 && c.link != null {
        WalkOn(c.link, n - 1);
      }
    }

    /** `dpaco_delater`: at once, or when the coroutine has come to its end.  It must not have been given back before. */
    method Delater(co: Co)
      requires Valid() && co in Members()
      modifies this`recycle, this`recycleCount, this`free, this`live, this`gone, co
      ensures Sound() <==> co in old(live)
      ensures co in old(live) ==>
        && Valid() && stack == old(stack)
        && if old(co.status).Created? || old(co.status).Dead? then
             && live == old(live) - {co} && free == (if |old(free)| < KEPT then [co] + old(free) else old(free))
             && gone == if |old(free)| < KEPT then old(gone) else old(gone) + [co]
           else live == old(live) && free == old(free) && gone == old(gone) && co.delater
      ensures |old(free)| < KEPT ==>
        forall i :: 0 <= i < |old(free)| && old(free)[i] == co ==> recycle == co && Walk(recycle, i + 1) == co
    {
      hide Sound, Walk, Listed, GoneOk, ListOk;
      match co.status {
        case Created => NotOnStack(co); Recycle(co);
        case Dead => NotOnStack(co); Recycle(co);
        case _ =>
          AtWork(co);
          co.delater := true;
          forall i | 0 <= i < |stack|
            ensures OnStack(stack, i)
          {
            assert old(OnStack(stack, i));
          }
          IsSound();
      }
    }

    lemma AtWork(co: Co)
      requires Valid() && co in Members() && (co.status.Running? || co.status.Suspended?)
      ensures co in live && co !in free && co !in gone
    {
      forall i | 0 <= i < |free|
        ensures free[i] != co
      {
        assert OnList(free, i);
      }
    }

    lemma NotOnStack(co: Co)
      requires Valid() && (co.status.Created? || co.status.Dead?)
      ensures co !in stack
    {
      forall i | 0 <= i < |stack|
        ensures stack[i] != co
      {
        assert OnStack(stack, i);
      }
    }

    /**
     `dpaco_yield`, and the end of a coroutine's function (`over`), up to where its resumer's `dpaco_resume` returns: control
     goes back to exactly the coroutine that resumed this one, which gets `val`; a finished coroutine whose deletion was put
     off is given back now, once.  The main coroutine has nobody to yield to.
     */
    method Yield(val: int, over: bool) returns (left: bool, got: int)
      requires Valid() && (over ==> cocurr != comain)
      modifies this, live
      ensures Valid()
      ensures left <==> |old(stack)| > 1
      ensures left ==>
        && stack == old(stack)[..|old(stack)| - 1] && cocurr == old(stack)[|old(stack)| - 2] && got == val == cocurr.msg
        && old(cocurr).status == (if over then Dead else Suspended)
      ensures left ==>
        if over && old(cocurr.delater) then
          && live == old(live) - {old(cocurr)} && free == (if |old(free)| < KEPT then [old(cocurr)] + old(free) else old(free))
          && gone == if |old(free)| < KEPT then old(gone) else old(gone) + [old(cocurr)]
        else live == old(live) && free == old(free) && gone == old(gone)
      ensures !left ==> stack == old(stack) && live == old(live) && free == old(free) && gone == old(gone)
      ensures forall c :: c in old(live) && !(left && (c == cocurr || c == old(cocurr))) ==> unchanged(c)
      ensures left ==> cocurr.status.Running? && cocurr.delater == old(stack[|stack| - 2].delater)
    {
      hide ListOk, GoneOk, Sound, Walk, Listed;
      ghost var s := stack;
      assert OnStack(s, |s| - 1);
      assert |s| > 1 ==> OnStack(s, |s| - 2);
      var curr := cocurr;
      var prev := curr.link;
      if prev == null {
        return false, 0;
      }
      Back(curr, prev, val, over);
      if curr.status.Dead? && curr.delater {
        Recycle(curr);
      }
      assert OnStack(stack, |stack| - 1);
      return true, cocurr.msg;
    }

    /** The part of `dpaco_yield` before the swap, for a coroutine that is not to be deleted or not over. */
    method Back(curr: Co, prev: Co, val: int, over: bool)
      requires Valid() && |stack| > 1 && curr == cocurr && prev == stack[|stack| - 2]
      modifies this`cocurr, this`stack, curr`status, prev`status, prev`msg
      ensures stack == old(stack)[..|old(stack)| - 1] && cocurr == prev && prev.msg == val && curr !in stack
      ensures curr.status == if over then Dead else Suspended
      ensures Core() && Tidy({curr}) && ((over && curr.delater) || Valid()) && curr in live
    {
      hide ListOk, GoneOk;
      ghost var s := stack;
      assert curr in s && prev in s;
      curr.status := if over then Dead else Suspended;
      prev.status := Running;
      prev.msg := val;
      cocurr := prev;
      stack := s[..|s| - 1];
      forall i | 0 <= i < |stack|
        ensures OnStack(stack, i)
      {
        assert old(OnStack(s, i));
      }
    }

    /** `dpaco_wrap` up to the swap of its `dpaco_resume`. */
    method WrapEnter(val: int, memory: bool) returns (co: Co?)
      requires Valid()
      modifies this, Members()
      ensures Valid() && (co == null <==> old(free) == [] && !memory)
      ensures co == null ==> stack == old(stack) && live == old(live)
      ensures co != null ==> stack == old(stack) + [co] && cocurr == co && co.msg == val && live == old(live) + {co}
    {
      hide StackOk, ListOk, GoneOk;
      co := Create(memory);
      if co != null {
        var _ := Resume(co, val);
      }
    }

    /**
     `dpaco_wrap` from where `co` yields, or comes to its end, and `dpaco_resume` returns: it deletes `co`, or puts that off.
     It is sound iff `co` has not come to its end with its deletion put off; `dpaco_resume` has given it back then.
     */
    method WrapReturn(co: Co, val: int, over: bool) returns (got: int)
      requires Valid() && |stack| > 1 && co == cocurr
      modifies this, live
      ensures Sound() <==> !(over && old(co.delater))
      ensures Sound() ==>
        && Valid() && stack == old(stack)[..|old(stack)| - 1] && got == val
        && if over then live == old(live) - {co} else live == old(live) && co.delater
      ensures over && old(co.delater) && |old(free)| + 1 < KEPT ==> recycle == co == co.link
    {
      hide StackOk, ListOk, GoneOk, Sound, Listed, Tidy;
      LastIsNotFirst();
      var left;
      left, got := Yield(val, over);
      ghost var f := free;
      assert over && old(co.delater) && |old(free)| < KEPT ==> f[0] == co;
      Delater(co);
      assert Walk(co, 1) == co.link;
    }

    lemma LastIsNotFirst()
      requires StackOk() && |stack| > 1
      ensures cocurr != comain && cocurr in stack
    {
    }
  }
}
