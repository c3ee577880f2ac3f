/**
 The deque of elements in `dpevp_epoll.c`: doubly linked through fields of the elements themselves, so an element can be
 in one deque at most.  `contents` is the sequence that a deque stands for.
 */
module EleDeque {
  import opened Seqs

  class Ele {
    const id: nat
    var prev: Ele?
    var next: Ele?

    constructor (id: nat)
      ensures Lone() && this.id == id
    {
      this.id := id;
      prev, next := null, null;
    }

    /** In no deque. */
    predicate Lone()
      reads this
    {
      prev == null && next == null
    }
  }

  /** The element at position `i` is linked to its neighbours. */
  ghost predicate InPlace(s: seq<Ele>, i: nat)
    requires i < |s|
    reads s[i]
  {
    s[i].prev == AtOr(s, i - 1, null) && s[i].next == AtOr(s, i + 1, null)
  }

  /** The elements of `s` are linked in this order. */
  ghost predicate Chained(s: seq<Ele>)
    reads set e | e in s
  {
    forall i :: 0 <= i < |s| ==> InPlace(s, i)
  }

  class Deque {
    var head: Ele?
    var tail: Ele?
    ghost var contents: seq<Ele>

    ghost function Members(): set<Ele>
      reads this
    {
      set e | e in contents
    }

    ghost predicate Valid()
      reads this, Members()
    {
      Once(contents) && Chained(contents) && head == AtOr(contents, 0, null) && tail == AtOr(contents, |contents| - 1, null)
    }

    /** `_dpele_deque_init`. */
    constructor ()
      ensures Valid() && contents == []
    {
      head, tail, contents := null, null, [];
    }

    /** The test "already in a deque" in `_dpele_deque_push_back`: exact for elements that are in no other deque. */
    predicate Queued(ele: Ele)
      reads this, ele
    {
      ele.prev != null || ele.next != null || head == ele
    }

    lemma QueuedIsExact(ele: Ele)
      requires Valid() && (ele in contents || ele.Lone())
      ensures Queued(ele) <==> ele in contents
    {
      if ele in contents {
        var i :| 0 <= i < |contents| && contents[i] == ele;
        assert InPlace(contents, i);
      }
    }

    /** `_dpele_deque_push_back`. */
    method PushBack(ele: Ele)
      requires Valid() && (ele in contents || ele.Lone())
      modifies this, ele, Members()
      ensures Valid()
      ensures contents == if ele in old(contents) then old(contents) else old(contents) + [ele]
    {
      QueuedIsExact(ele);
      if ele.prev != null || ele.next != null || head == ele {
        return;
      }
      ghost var s := contents;
      assert s != [] ==> InPlace(s, |s| - 1);
      ele.next := null;
      ele.prev := tail;
      if tail != null {
        tail.next := ele;
      } else {
        head := ele;
      }
      tail := ele;
      contents := contents + [ele];
      forall i | 0 <= i < |contents|
        ensures InPlace(contents, i)
      {
        assert i < |s| ==> old(InPlace(s, i));
      }
    }

    /** `_dpele_deque_pop_front`. */
    method PopFront() returns (ele: Ele?)
      requires Valid()
      modifies this, Members()
      ensures Valid()
      ensures ele == null <==> old(contents) == []
      ensures ele != null ==> old(contents) == [ele] + contents && ele.Lone()
      ensures ele == null ==> contents == []
    {
      ele := head;
      if ele != null {
        ghost var s := contents;
        assert InPlace(s, 0);
        assert |s| > 1 ==> InPlace(s, 1);
        head := ele.next;
        if head != null {
          head.prev := null;
        } else {
          tail := null;
        }
        ele.prev := null;
        ele.next := null;
        contents := contents[1..];
        forall i | 0 <= i < |contents|
          ensures InPlace(contents, i)
        {
          assert old(InPlace(s, i + 1));
        }
      }
    }

    /** `_dpele_deque_remove`. */
    method Remove(ele: Ele, ghost i: nat)
      requires Valid() && i < |contents| && contents[i] == ele
      modifies this, Members()
      ensures Valid() && ele.Lone()
      ensures contents == old(contents)[..i] + old(contents)[i + 1..]
    {
      ghost var s := contents;
      assert InPlace(s, i);
      assert i > 0 ==> InPlace(s, i - 1);
      assert i + 1 < |s| ==> InPlace(s, i + 1);
      if ele.prev != null {
        ele.prev.next := ele.next;
      } else {
        head := ele.next;
      }
      if ele.next != null {
        ele.next.prev := ele.prev;
      } else {
        tail := ele.prev;
      }
      ele.prev := null;
      ele.next := null;
      contents := s[..i] + s[i + 1..];
      forall j | 0 <= j < |contents|
        ensures InPlace(contents, j)
      {
        assert old(InPlace(s, if j < i then j else j + 1));
      }
    }

    /** `_dpele_deque_pushq`: all of `src` goes to the end of `this`. */
    method PushQ(src: Deque)
      requires Valid() && src.Valid() && src != this
      requires Members() !! src.Members()
      modifies this, src, Members(), src.Members()
      ensures Valid() && src.Valid()
      ensures contents == old(contents) + old(src.contents) && src.contents == []
    {
      if src.head == null {
        assert src.contents == [];
        return;
      }
      ghost var a, b := contents, src.contents;
      assert forall e :: e in a ==> e in Members();
      OnceJoin(a, b);
      assert a != [] ==> InPlace(a, |a| - 1);
      assert InPlace(b, 0);
      src.head.prev := tail;
      if tail != null {
        tail.next := src.head;
        tail := src.tail;
      } else {
        head := src.head;
        tail := src.tail;
      }
      contents := a + b;
      src.head := null;
      src.tail := null;
      src.contents := [];
      forall j | 0 <= j < |contents|
        ensures InPlace(contents, j)
      {
        if j < |a| {
          assert old(InPlace(a, j)) && (a + b)[j] == a[j] && (a + b)[|a|] == b[0];
          assert a[j] != b[0] && (j < |a| - 1 ==> a[j] != a[|a| - 1]);
        } else {
          assert old(InPlace(b, j - |a|)) && (a + b)[j] == b[j - |a|];
          assert (j > |a| ==> b[j - |a|] != b[0]) && (|a| > 0 ==> (a + b)[|a| - 1] == a[|a| - 1] != b[j - |a|]);
        }
      }
    }

    /** `_dpele_deque_move`: takes over all of `src`; what `this` held before is forgotten. */
    method Move(src: Deque)
      requires Valid() && src.Valid() && src != this
      modifies this, src
      ensures Valid() && src.Valid()
      ensures contents == old(src.contents) && src.contents == []
      ensures |contents| + |src.contents| == old(|contents| + |src.contents|) <==> old(contents) == []
    {
      head, tail, contents := src.head, src.tail, src.contents;
      src.head := null;
      src.tail := null;
      src.contents := [];
    }
  }
}
