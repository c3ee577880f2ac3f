/**
 The protocol names of a TLS group in `dpssl.c` and their wire form, which is brought up to date only when it is wanted.
 */
module Alpn {
  import opened ByteBuf
  import opened Ret
  import opened Seqs

  type Name = seq<byte>

  /** Names as section 3.1 of RFC 7301 has them: of 1 to 255 bytes; and each of them once. */
  ghost predicate Names(list: seq<Name>) {
    && (forall i :: 0 <= i < |list| ==> 1 <= |list[i]| <= 255)
    && Once(list)
  }

  function LengthByte(n: nat): byte
    requires n <= 255
  {
    n as byte
  }

  /** The contents of a ProtocolNameList, section 3.1 of RFC 7301. */
  function Encode(list: seq<Name>): seq<byte>
    requires forall i :: 0 <= i < |list| ==> |list[i]| <= 255
  {
    if list == [] then [] else Encode(list[..|list| - 1]) + [LengthByte(|list[|list| - 1]|)] + list[|list| - 1]
  }

  datatype Result = Ok(list: seq<Name>) | Malformed

  /** A reader of ProtocolNameList contents, from the front. */
  function Decode(wire: seq<byte>): Result {
    if wire == [] then Ok([])
    else
      var n := wire[0] as nat;
      if n == 0 || n + 1 > |wire| then Malformed
      else
        match Decode(wire[n + 1..])
        case Ok(rest) => Ok([wire[1..n + 1]] + rest)
        case Malformed => Malformed
  }

  /** One name in front. */
  lemma DecodeFront(name: Name, rest: seq<byte>)
    requires 1 <= |name| <= 255
    ensures Decode([LengthByte(|name|)] + name + rest) ==
      (match Decode(rest) case Ok(l) => Ok([name] + l) case Malformed => Malformed)
  {
    var wire := [LengthByte(|name|)] + name + rest;
    assert wire[1..|name| + 1] == name && wire[|name| + 1..] == rest;
  }

  /** What the wire form of a list is followed by is read after the list. */
  lemma {:induction false} DecodeEncoded(list: seq<Name>, rest: seq<byte>)
    requires forall i :: 0 <= i < |list| ==> 1 <= |list[i]| <= 255
    ensures Decode(Encode(list) + rest) == match Decode(rest) case Ok(l) => Ok(list + l) case Malformed => Malformed
  {
    hide Encode, Decode;
    if list == [] {
      EncodeNone(list);
      assert [] + rest == rest;
      JoinLists([], [], Decode(rest));
    } else {
      var init, name := list[..|list| - 1], list[|list| - 1];
      EncodeLast(list);
      Regroup(Encode(init), [LengthByte(|name|)], name);
      Regroup(Encode(init), [LengthByte(|name|)] + name, rest);
      DecodeFront(name, rest);
      DecodeEncoded(init, [LengthByte(|name|)] + name + rest);
      JoinLists(init, [name], Decode(rest));
      assert init + [name] == list;
    }
  }

  lemma EncodeLast(list: seq<Name>)
    requires list != [] && forall i :: 0 <= i < |list| ==> |list[i]| <= 255
    ensures Encode(list) == Encode(list[..|list| - 1]) + [LengthByte(|list[|list| - 1]|)] + list[|list| - 1]
  {
  }

  lemma JoinLists(a: seq<Name>, b: seq<Name>, r: Result)
    ensures r.Ok? ==> a + (b + r.list) == a + b + r.list && [] + r.list == r.list
  {
  }

  /** The wire form reads back as the list. */
  lemma WireRoundTrip(list: seq<Name>)
    requires Names(list)
    ensures Decode(Encode(list)) == Ok(list)
  {
    hide Encode, Decode;
    DecodeNothing();
    DecodeEncoded(list, []);
    assert Encode(list) + [] == Encode(list) && list + [] == list;
  }

  lemma DecodeNothing()
    ensures Decode([]) == Ok([])
  {
  }

  class Group {
    var alpns: seq<Name>     // alpns_head .. alpns_tail
    const wire: Buffer       // alpns_wire
    var dirty: bool          // alpns_wire_dirty

    /** As long as the mark is not set, the cached bytes are those of the list. */
    ghost predicate Valid()
      reads this, wire, wire.data
    {
      Names(alpns) && wire.Valid() && (!dirty ==> wire.Window().window == Encode(alpns))
    }

    constructor (wire: Buffer)
      requires wire.Valid() && wire.Window() == View([], [])
      ensures Valid() && alpns == [] && this.wire == wire
    {
      this.wire := wire;
      alpns, dirty := [], false;
    }

    /** `_dpssl_alpn_contains`. */
    method Contains(name: Name) returns (r: bool)
      requires Valid()
      ensures r <==> name in alpns
    {
      if name == [] {
        return false;
      }
      var i := 0;
      while i < |alpns|
        invariant 0 <= i <= |alpns| && name !in alpns[..i]
      {
        if alpns[i] == name {
          return true;
        }
        i := i + 1;
      }
      return false;
    }

    /** `_dpssl_alpn_at`. */
    method NameAt(idx: int) returns (found: bool, name: Name)
      ensures found <==> 0 <= idx < |alpns|
      ensures found ==> name == alpns[idx]
    {
      name := [];
      if idx < 0 {
        return false, name;
      }
      var cur := 0;
      while cur < |alpns|
        invariant 0 <= cur <= |alpns| && cur <= idx
      {
        if cur == idx {
          return true, alpns[cur];
        }
        cur := cur + 1;
      }
      return false, name;
    }

    /** `_dpssl_add_alpn`. */
    method Add(name: Name, memory: bool) returns (ret: int)
      requires Valid()
      modifies this`alpns, this`dirty
      ensures Valid()
      ensures ret == if name == [] then INVAL else if name in old(alpns) then OK
                     else if |name| > 255 then NAMETOOLONG else if !memory then NOMEM else OK
      ensures alpns == if ret == OK && name !in old(alpns) then old(alpns) + [name] else old(alpns)
    {
      if name == [] {
        return INVAL;
      }
      var has := Contains(name);
      if has {
        return OK;
      }
      if |name| > 255 {
        return NAMETOOLONG;
      }
      if !memory {
        return NOMEM;
      }
      alpns := alpns + [name];
      dirty := true;
      return OK;
    }

    /** `_dpssl_alpns_wire_sync`. */
    method Sync(memory: bool) returns (ret: int)
      requires Valid()
      modifies this`dirty, wire, wire.data
      ensures Valid() && (wire.data == old(wire.data) || fresh(wire.data))
      ensures ret == OK || ret == NOMEM
      ensures ret == OK ==> !dirty && Decode(wire.Window().window) == Ok(alpns)
      ensures ret == NOMEM ==> dirty
      ensures memory && |Encode(alpns)| < 0x4000_0000 ==> ret == OK
    {
      hide Encode, Decode, Buffer.Held, Buffer.Window, Split;
      WireRoundTrip(alpns);
      if !dirty {
        return OK;
      }
      wire.ResetW();
      var i := 0;
      EncodeNone(alpns[..0]);
      while i < |alpns|
        invariant 0 <= i <= |alpns| && wire.Valid() && (wire.data == old(wire.data) || fresh(wire.data))
        invariant wire.Window() == View([], Encode(alpns[..i])) && dirty
        invariant wire.wbeg <= |Encode(alpns[..i])|
      {
        EncodeStep(alpns, i);
        var ok := WriteName(alpns[i], memory);
        if !ok {
          return NOMEM;
        }
        i := i + 1;
      }
      assert alpns[..|alpns|] == alpns;
      var _ := wire.ESeek(0, Seek.End);
      SplitEnds([] + Encode(alpns));
      assert [] + Encode(alpns) == Encode(alpns);
      dirty := false;
      return OK;
    }

    /** One name in wire form. */
    method WriteName(name: Name, memory: bool) returns (ok: bool)
      requires wire.Valid() && 1 <= |name| <= 255
      modifies wire, wire.data
      ensures wire.Valid() && (wire.data == old(wire.data) || fresh(wire.data))
      ensures ok ==> wire.Window() == View(old(wire.Window()).window, old(wire.Window()).slack + [LengthByte(|name|)] + name)
      ensures ok ==> wire.wbeg <= old(wire.wbeg) + 1 + |name|
      ensures memory && old(wire.wbeg) + 1 + |name| < 0x4000_0000 ==> ok
    {
      hide Buffer.Held, Buffer.Window, Split;
      var r := wire.WData([LengthByte(|name|)], memory);
      if r != 1 {
        return false;
      }
      r := wire.WData(name, memory);
      ok := r == |name|;
    }
  }

  lemma EncodeNone(list: seq<Name>)
    requires list == []
    ensures Encode(list) == []
  {
  }

  lemma EncodeStep(list: seq<Name>, i: nat)
    requires i < |list| && forall k :: 0 <= k < |list| ==> |list[k]| <= 255
    ensures Encode(list[..i + 1]) == Encode(list[..i]) + [LengthByte(|list[i]|)] + list[i]
    ensures |Encode(list[..i + 1])| <= |Encode(list)|
  {
    assert list[..i + 1][..i] == list[..i];
    EncodeGrows(list, i + 1);
  }

  lemma {:induction false} EncodeGrows(list: seq<Name>, i: nat)
    requires i <= |list| && forall k :: 0 <= k < |list| ==> |list[k]| <= 255
    ensures |Encode(list[..i])| <= |Encode(list)|
  {
    if i < |list| {
      EncodeGrows(list[..|list| - 1], i);
      assert list[..|list| - 1][..i] == list[..i];
    } else {
      assert list[..i] == list;
    }
  }
}
