/** Packing and unpacking a TLV value through a cursor: the pack_*_value and unpack_*_value
    functions of open-nFAPI/nfapi/src/nfapi_p4.c, which push or pull one number after the other
    and stop at the first that fails, and loop over the elements of a list. Proved against
    Formats.Encode and Formats.Decode. */
module ValueCodec {
  import opened Wrappers
  import opened Words
  import opened Cursors
  import opened Formats

  /** The bytes were packed, or could not be, or do not fit before the end. */
  ghost predicate Packed(enc: Option<seq<byte>>, before: seq<byte>, end: nat, ok: bool, after: seq<byte>) {
    && (ok <==> enc.Some? && |before| + |enc.value| <= end)
    && (ok ==> after == before + enc.value)
  }

  method PackValue(f: Format, v: Value, c: Cursor) returns (ok: bool)
    requires Fits(f, v) && c.Writable()
    modifies c`pos, c.buf
    ensures c.Writable() && Packed(Encode(f, v), old(c.Done()), c.end, ok, c.Done())
    decreases f, 0
  {
    match f {
      case U8 => ok := c.Push8(v.n);
      case U16 => ok := c.Push16(v.n);
      case S16 => ok := c.Push16(Unsigned(v.n));
      case U32 => ok := c.Push32(v.n);
      case Pair(g, h) =>
        ok := PackValue(g, v.first, c);
        if ok {
          ok := PackValue(h, v.second, c);
        }
      case Counted(_, _, _) => ok := PackCounted(f, v, c);
    }
  }

  method PackCounted(f: Format, v: Value, c: Cursor) returns (ok: bool)
    requires f.Counted? && Fits(f, v) && c.Writable()
    modifies c`pos, c.buf
    ensures c.Writable() && Packed(Encode(f, v), old(c.Done()), c.end, ok, c.Done())
    decreases f.elem, 3
  {
    if f.wide {
      ok := c.Push16(|v.items|);
    } else {
      ok := c.Push8(|v.items|);
    }
    if ok {
      if |v.items| > f.max {
        ok := false;
      } else {
        ok := PackItems(f.elem, v.items, c);
      }
    }
  }

  /** The elements before the i-th have been packed. */
  ghost predicate PackingItems(f: Format, items: seq<Value>, i: nat, written: seq<byte>) {
    AllFit(f, items) && i <= |items| && EncodeItems(f, items) == Append(Some(written), EncodeItems(f, items[i..]))
  }

  lemma StepPackingItems(f: Format, items: seq<Value>, i: nat, written: seq<byte>)
    requires PackingItems(f, items, i, written) && i < |items|
    ensures Encode(f, items[i]).None? ==> EncodeItems(f, items).None?
    ensures Encode(f, items[i]).Some? ==>
      var w := written + Encode(f, items[i]).value;
      && PackingItems(f, items, i + 1, w)
      && (EncodeItems(f, items).Some? ==> |EncodeItems(f, items).value| >= |w|)
  {
    assert items[i..][0] == items[i] && items[i..][1..] == items[i + 1..];
    if Encode(f, items[i]).Some? {
      StepItems(written, Encode(f, items[i]).value, EncodeItems(f, items[i + 1..]));
    }
  }

  /** The packing of one element. */
  method PackNext(f: Format, items: seq<Value>, i: nat, c: Cursor, ghost before: seq<byte>, ghost written: seq<byte>)
    returns (ok: bool, ghost written': seq<byte>)
    requires PackingItems(f, items, i, written) && i < |items|
    requires c.Writable() && c.pos <= c.end && c.Done() == before + written
    modifies c`pos, c.buf
    ensures c.Writable()
    ensures if ok then PackingItems(f, items, i + 1, written') && c.pos <= c.end && c.Done() == before + written'
            else EncodeItems(f, items).None? || |before| + |EncodeItems(f, items).value| > c.end
    decreases f, 1
  {
    StepPackingItems(f, items, i, written);
    written' := written;
    ok := PackValue(f, items[i], c);
    if ok {
      written' := written + Encode(f, items[i]).value;
    }
  }

  method PackItems(f: Format, items: seq<Value>, c: Cursor) returns (ok: bool)
    requires AllFit(f, items) && c.Writable() && c.pos <= c.end
    modifies c`pos, c.buf
    ensures c.Writable() && Packed(EncodeItems(f, items), old(c.Done()), c.end, ok, c.Done())
    decreases f, 2
  {
    ghost var before, written: seq<byte> := c.Done(), [];
    assert items[0..] == items;
    AppendNothing(EncodeItems(f, items));
    for i := 0 to |items|
      invariant c.Writable() && c.pos <= c.end && c.Done() == before + written
      invariant PackingItems(f, items, i, written)
    {
      ok, written := PackNext(f, items, i, c, before, written);
      if !ok {
        return;
      }
    }
    assert items[|items|..] == [] && written + [] == written;
    ok := true;
  }

  lemma StepItems(written: seq<byte>, one: seq<byte>, rest: Option<seq<byte>>)
    ensures Append(Some(written), Append(Some(one), rest)) == Append(Some(written + one), rest)
  {
    if rest.Some? {
      assert written + (one + rest.value) == written + one + rest.value;
    }
  }

  /** The cursor has not moved back, nor past the end. */
  ghost predicate Forward(before: nat, pos: nat, end: nat) {
    before <= pos && (before <= end ==> pos <= end)
  }

  /** The bytes were unpacked as Decode says. */
  ghost predicate Unpacked<V>(dec: Option<(V, seq<byte>)>, v: Option<V>, after: seq<byte>) {
    if v.Some? then dec == Some((v.value, after)) else dec.None?
  }

  method UnpackValue(f: Format, c: Cursor) returns (v: Option<Value>)
    requires c.Valid()
    modifies c`pos
    ensures Unpacked(Decode(f, old(c.Unread())), v, c.Unread())
    ensures Forward(old(c.pos), c.pos, c.end)
    decreases f, 0
  {
    v := None;
    match f {
      case U8 =>
        var n := c.Pull8();
        if n.Some? { v := Some(Num(n.value)); }
      case U16 =>
        var n := c.Pull16();
        if n.Some? { v := Some(Num(n.value)); }
      case S16 =>
        var n := c.Pull16();
        if n.Some? { v := Some(Num(Signed(n.value))); }
      case U32 =>
        var n := c.Pull32();
        if n.Some? { v := Some(Num(n.value)); }
      case Pair(g, h) =>
        var a := UnpackValue(g, c);
        if a.Some? {
          var b := UnpackValue(h, c);
          if b.Some? { v := Some(Both(a.value, b.value)); }
        }
      case Counted(_, _, _) => v := UnpackCounted(f, c);
    }
  }

  method UnpackCounted(f: Format, c: Cursor) returns (v: Option<Value>)
    requires f.Counted? && c.Valid()
    modifies c`pos
    ensures Unpacked(Decode(f, old(c.Unread())), v, c.Unread())
    ensures Forward(old(c.pos), c.pos, c.end)
    decreases f.elem, 3
  {
    v := None;
    var n: nat;
    if f.wide {
      var m := c.Pull16();
      if m.None? { return; }
      n := m.value;
    } else {
      var m := c.Pull8();
      if m.None? { return; }
      n := m.value;
    }
    if n <= f.max {
      var items := UnpackItems(f.elem, n, c);
      if items.Some? { v := Some(Items(items.value)); }
    }
  }

  ghost function Prepend(got: seq<Value>, r: Option<(seq<Value>, seq<byte>)>): Option<(seq<Value>, seq<byte>)> {
    if r.None? then None else Some((got + r.value.0, r.value.1))
  }

  /** The first elements have been unpacked, with m to come: all is what comes of the whole list. */
  ghost predicate Unpacking(all: Option<(seq<Value>, seq<byte>)>, f: Format, got: seq<Value>, m: nat, left: seq<byte>) {
    all == Prepend(got, DecodeItems(f, m, left))
  }

  lemma StartUnpacking(f: Format, n: nat, s: seq<byte>)
    ensures Unpacking(DecodeItems(f, n, s), f, [], n, s)
  {
    var r := DecodeItems(f, n, s);
    if r.Some? {
      assert [] + r.value.0 == r.value.0;
    }
  }

  lemma StepUnpacking(all: Option<(seq<Value>, seq<byte>)>, f: Format, got: seq<Value>, m: nat, left: seq<byte>)
    requires Unpacking(all, f, got, m, left) && m > 0
    ensures Decode(f, left).None? ==> all.None?
    ensures Decode(f, left).Some? ==>
      Unpacking(all, f, got + [Decode(f, left).value.0], m - 1, Decode(f, left).value.1)
  {
    if Decode(f, left).Some? {
      var (v, after) := Decode(f, left).value;
      var r := DecodeItems(f, m - 1, after);
      if r.Some? {
        assert got + ([v] + r.value.0) == got + [v] + r.value.0;
      }
    }
  }

  lemma EndUnpacking(all: Option<(seq<Value>, seq<byte>)>, f: Format, got: seq<Value>, left: seq<byte>)
    requires Unpacking(all, f, got, 0, left)
    ensures all == Some((got, left))
  {
    assert got + [] == got;
  }

  /** The unpacking of one element. */
  method UnpackNext(ghost all: Option<(seq<Value>, seq<byte>)>, f: Format, got: seq<Value>, ghost m: nat, c: Cursor,
                    ghost left: seq<byte>)
    returns (ok: bool, got': seq<Value>, ghost left': seq<byte>)
    requires c.Valid() && m > 0 && left == c.Unread() && Unpacking(all, f, got, m, left)
    modifies c`pos
    ensures left' == c.Unread() && if ok then Unpacking(all, f, got', m - 1, left') else all.None?
    ensures Forward(old(c.pos), c.pos, c.end)
    decreases f, 1
  {
    StepUnpacking(all, f, got, m, left);
    var v := UnpackValue(f, c);
    ok, got', left' := v.Some?, if v.Some? then got + [v.value] else got, c.Unread();
  }

  method UnpackItems(f: Format, n: nat, c: Cursor) returns (items: Option<seq<Value>>)
    requires c.Valid()
    modifies c`pos
    ensures Unpacked(DecodeItems(f, n, old(c.Unread())), items, c.Unread())
    ensures Forward(old(c.pos), c.pos, c.end)
    decreases f, 2
  {
    hide DecodeItems, Unpacking;
    ghost var left := c.Unread();
    ghost var all := DecodeItems(f, n, left);
    var got: seq<Value> := [];
    StartUnpacking(f, n, left);
    for i := 0 to n
      invariant left == c.Unread() && Unpacking(all, f, got, n - i, left)
      invariant Forward(old(c.pos), c.pos, c.end)
    {
      var ok;
      ok, got, left := UnpackNext(all, f, got, n - i, c, left);
      if !ok {
        return None;
      }
    }
    EndUnpacking(all, f, got, left);
    items := Some(got);
  }
}
