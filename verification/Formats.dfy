/** The value codecs of open-nFAPI/nfapi/src/nfapi_p4.c as data. Each of its pack and unpack
    functions for a TLV value pushes or pulls a fixed list of numbers, in which a count is
    followed by that many elements. A Format describes such a function; Encode says what a
    pack function with that format does, and Decode what an unpack function does. */
module Formats {
  import opened Wrappers
  import opened Words
  import opened Cursors

  /** A limit that no count reaches: the source does not check this count. */
  const UNCHECKED := 0x1_0000

  datatype Format =
    | U8
    | U16
    | S16
    | U32
    | Pair(first: Format, second: Format)
    | Counted(wide: bool, max: nat, elem: Format)

  /** The numbers that a function pushes or pulls one after the other. */
  type FieldList = fs: seq<Format> | fs != [] witness [U8]

  function Fields(fs: FieldList): Format
    decreases |fs|
  {
    if |fs| == 1 then fs[0] else Pair(fs[0], Fields(fs[1..]))
  }

  /** The fields of a struct, in the shape of its format. */
  datatype Value = Num(n: int) | Both(first: Value, second: Value) | Items(items: seq<Value>)

  /** v is a value of the struct: its numbers fit their fields and its counts the count field. */
  ghost predicate Fits(f: Format, v: Value)
    decreases f, 0
  {
    match f
    case U8 => v.Num? && 0 <= v.n < 0x100
    case U16 => v.Num? && 0 <= v.n < 0x1_0000
    case S16 => v.Num? && -0x8000 <= v.n < 0x8000
    case U32 => v.Num? && 0 <= v.n < 0x1_0000_0000
    case Pair(g, h) => v.Both? && Fits(g, v.first) && Fits(h, v.second)
    case Counted(wide, _, elem) =>
      && v.Items? && |v.items| < (if wide then 0x1_0000 else 0x100)
      && AllFit(elem, v.items)
  }

  /** Every list of v is within the limit of the format. */
  ghost predicate Within(f: Format, v: Value)
    requires Fits(f, v)
    decreases f, 0
  {
    match f
    case Pair(g, h) => Within(g, v.first) && Within(h, v.second)
    case Counted(_, max, elem) =>
      |v.items| <= max && AllWithin(elem, v.items)
    case _ => true
  }

  ghost predicate AllFit(f: Format, items: seq<Value>)
    decreases f, 1
  {
    forall k :: 0 <= k < |items| ==> Fits(f, items[k])
  }

  ghost predicate AllWithin(f: Format, items: seq<Value>)
    requires AllFit(f, items)
    decreases f, 1
  {
    forall k :: 0 <= k < |items| ==> Within(f, items[k])
  }

  lemma AllWithinTail(f: Format, items: seq<Value>)
    requires items != [] && AllFit(f, items)
    ensures AllFit(f, items[1..])
    ensures AllWithin(f, items) <==> Within(f, items[0]) && AllWithin(f, items[1..])
  {
    assert forall k :: 1 <= k < |items| ==> items[k] == items[1..][k - 1];
  }

  /** The value of a struct that has been blanked by memset. */
  function Zero(f: Format): (v: Value)
    ensures Fits(f, v) && Within(f, v)
  {
    match f
    case Pair(g, h) => Both(Zero(g), Zero(h))
    case Counted(_, _, _) => Items([])
    case _ => Num(0)
  }

  function CountBytes(wide: bool, n: nat): seq<byte>
    requires n < if wide then 0x1_0000 else 0x100
  {
    if wide then Bytes16(n) else [n]
  }

  /** What packing appends, or None where it fails although there is room. */
  ghost function Encode(f: Format, v: Value): Option<seq<byte>>
    requires Fits(f, v)
    decreases f, 0
  {
    match f
    case U8 => Some([v.n])
    case U16 => Some(Bytes16(v.n))
    case S16 => Some(Bytes16(Unsigned(v.n)))
    case U32 => Some(Bytes32(v.n))
    case Pair(g, h) => Append(Encode(g, v.first), Encode(h, v.second))
    case Counted(wide, max, elem) =>
      if |v.items| > max then None
      else Append(Some(CountBytes(wide, |v.items|)), EncodeItems(elem, v.items))
  }

  ghost function EncodeItems(f: Format, items: seq<Value>): Option<seq<byte>>
    requires AllFit(f, items)
    decreases f, |items|
  {
    if items == [] then Some([]) else Append(Encode(f, items[0]), EncodeItems(f, items[1..]))
  }

  ghost function Append(a: Option<seq<byte>>, b: Option<seq<byte>>): Option<seq<byte>> {
    if a.Some? && b.Some? then Some(a.value + b.value) else None
  }

  lemma AppendNothing(b: Option<seq<byte>>)
    ensures Append(Some([]), b) == b
  {
    if b.Some? {
      assert [] + b.value == b.value;
    }
  }

  /** What unpacking makes of the bytes up to the end, and the bytes it leaves. */
  ghost function Decode(f: Format, s: seq<byte>): (r: Option<(Value, seq<byte>)>)
    ensures r.Some? ==> Fits(f, r.value.0) && |r.value.1| <= |s|
    decreases f, 0
  {
    match f
    case U8 => if |s| >= 1 then Some((Num(s[0]), s[1..])) else None
    case U16 => if |s| >= 2 then Some((Num(Number16(s)), s[2..])) else None
    case S16 => if |s| >= 2 then Some((Num(Signed(Number16(s))), s[2..])) else None
    case U32 => if |s| >= 4 then Some((Num(Number32(s)), s[4..])) else None
    case Pair(g, h) =>
      var a := Decode(g, s);
      if a.None? then None
      else
        var b := Decode(h, a.value.1);
        if b.None? then None else Some((Both(a.value.0, b.value.0), b.value.1))
    case Counted(wide, max, elem) =>
      if |s| < (if wide then 2 else 1) then None
      else
        var n := if wide then Number16(s) else s[0];
        if n > max then None
        else
          var r := DecodeItems(elem, n, if wide then s[2..] else s[1..]);
          if r.None? then None else Some((Items(r.value.0), r.value.1))
  }

  ghost function DecodeItems(f: Format, n: nat, s: seq<byte>): (r: Option<(seq<Value>, seq<byte>)>)
    ensures r.Some? ==> |r.value.0| == n && |r.value.1| <= |s|
    ensures r.Some? ==> AllFit(f, r.value.0)
    decreases f, n
  {
    if n == 0 then Some(([], s))
    else
      var a := Decode(f, s);
      if a.None? then None
      else
        var b := DecodeItems(f, n - 1, a.value.1);
        if b.None? then None else Some(([a.value.0] + b.value.0, b.value.1))
  }

  // ---- Pairs of functions -----------------------------------------------------------------

  /** The two formats describe the same numbers in the same order; their limits may differ. */
  ghost predicate SameShape(p: Format, u: Format) {
    match p
    case Pair(g, h) => u.Pair? && SameShape(g, u.first) && SameShape(h, u.second)
    case Counted(wide, _, elem) => u.Counted? && wide == u.wide && SameShape(elem, u.elem)
    case _ => p == u
  }

  /** Formats of the same shape have the same values. */
  lemma {:induction false} FitsSame(p: Format, u: Format, v: Value)
    requires SameShape(p, u)
    ensures Fits(p, v) <==> Fits(u, v)
    decreases p
  {
    match p
    case Pair(g, h) =>
      if v.Both? {
        FitsSame(g, u.first, v.first);
        FitsSame(h, u.second, v.second);
      }
    case Counted(_, _, elem) =>
      if v.Items? {
        forall k | 0 <= k < |v.items|
          ensures Fits(elem, v.items[k]) <==> Fits(u.elem, v.items[k])
        {
          FitsSame(elem, u.elem, v.items[k]);
        }
      }
    case _ =>
  }

  lemma AllFitSame(p: Format, u: Format, items: seq<Value>)
    requires SameShape(p, u) && AllFit(p, items)
    ensures AllFit(u, items)
  {
    forall k | 0 <= k < |items|
      ensures Fits(u, items[k])
    {
      FitsSame(p, u, items[k]);
    }
  }

  // ---- Round trips ------------------------------------------------------------------------

  /** Unpacking what a pack function of the same shape packed, whatever bytes follow, gives the
      value back exactly when every list is within the limits of unpacking, and fails
      otherwise. */
  lemma {:induction false} DecodeEncode(p: Format, u: Format, v: Value, rest: seq<byte>)
    requires SameShape(p, u) && Fits(p, v) && Encode(p, v).Some?
    ensures Fits(u, v)
    ensures Decode(u, Encode(p, v).value + rest) == if Within(u, v) then Some((v, rest)) else None
    decreases p, 1
  {
    FitsSame(p, u, v);
    match p
    case U8 => assert (Encode(p, v).value + rest)[1..] == rest;
    case U16 => Number16Bytes(v.n, rest);
    case S16 => Number16Bytes(Unsigned(v.n), rest);
    case U32 => Number32Bytes(v.n, rest);
    case Pair(_, _) => DecodeEncodePair(p, u, v, rest);
    case Counted(_, _, _) => DecodeEncodeCounted(p, u, v, rest);
  }

  lemma {:induction false} DecodeEncodePair(p: Format, u: Format, v: Value, rest: seq<byte>)
    requires p.Pair? && SameShape(p, u) && Fits(p, v) && Fits(u, v) && Encode(p, v).Some?
    ensures Decode(u, Encode(p, v).value + rest) == if Within(u, v) then Some((v, rest)) else None
    decreases p, 0
  {
    var a, b := Encode(p.first, v.first).value, Encode(p.second, v.second).value;
    ConcatAssoc(a, b, rest);
    DecodeEncode(p.first, u.first, v.first, b + rest);
    DecodeEncode(p.second, u.second, v.second, rest);
  }

  lemma {:induction false} DecodeEncodeCounted(p: Format, u: Format, v: Value, rest: seq<byte>)
    requires p.Counted? && SameShape(p, u) && Fits(p, v) && Fits(u, v) && Encode(p, v).Some?
    ensures Decode(u, Encode(p, v).value + rest) == if Within(u, v) then Some((v, rest)) else None
    decreases p, 0
  {
    var body := EncodeItems(p.elem, v.items).value;
    CountFirst(p.wide, |v.items|, body, rest);
    DecodeEncodeItems(p.elem, u.elem, v.items, rest);
  }

  lemma CountFirst(wide: bool, n: nat, body: seq<byte>, rest: seq<byte>)
    requires n < if wide then 0x1_0000 else 0x100
    ensures var s := CountBytes(wide, n) + body + rest;
      if wide then |s| >= 2 && Number16(s) == n && s[2..] == body + rest
      else |s| >= 1 && s[0] == n && s[1..] == body + rest
  {
    assert CountBytes(wide, n) + body + rest == CountBytes(wide, n) + (body + rest);
    if wide {
      Number16Bytes(n, body + rest);
    }
  }

  lemma {:induction false} DecodeEncodeItems(p: Format, u: Format, items: seq<Value>, rest: seq<byte>)
    requires SameShape(p, u) && AllFit(p, items) && AllFit(u, items) && EncodeItems(p, items).Some?
    ensures DecodeItems(u, |items|, EncodeItems(p, items).value + rest) ==
      if AllWithin(u, items) then Some((items, rest)) else None
    decreases p, 2, |items|
  {
    hide Encode, Decode, AllWithin;
    if items != [] {
      var a, b := Encode(p, items[0]).value, EncodeItems(p, items[1..]).value;
      ConcatAssoc(a, b, rest);
      DecodeEncode(p, u, items[0], b + rest);
      AllWithinTail(p, items);
      AllWithinTail(u, items);
      DecodeEncodeItems(p, u, items[1..], rest);
      assert items == [items[0]] + items[1..];
    } else {
      assert [] + rest == rest;
      NoneWithin(u);
    }
  }

  lemma NoneWithin(u: Format)
    ensures AllWithin(u, [])
  {
  }

  /** Packing checks no tighter limit than unpacking. */
  ghost predicate Covers(p: Format, u: Format)
    requires SameShape(p, u)
  {
    match p
    case Pair(g, h) => Covers(g, u.first) && Covers(h, u.second)
    case Counted(_, max, elem) => max >= u.max && Covers(elem, u.elem)
    case _ => true
  }

  /** Packing v gives the bytes of s before rest. */
  ghost predicate Reencodes(p: Format, v: Value, s: seq<byte>, rest: seq<byte>) {
    Fits(p, v) && Encode(p, v).Some? && s == Encode(p, v).value + rest
  }

  /** The bytes that unpacking takes are the ones that packing its value gives. */
  lemma {:induction false} EncodeDecode(p: Format, u: Format, s: seq<byte>)
    requires SameShape(p, u) && Covers(p, u) && Decode(u, s).Some?
    ensures Within(u, Decode(u, s).value.0) && Reencodes(p, Decode(u, s).value.0, s, Decode(u, s).value.1)
    decreases p, 0
  {
    match u
    case U8 =>
    case U16 => Bytes16Number(s);
    case S16 => Bytes16Number(s);
    case U32 => Bytes32Number(s);
    case Pair(g, h) =>
      EncodeDecode(p.first, g, s);
      var (v, after) := Decode(g, s).value;
      EncodeDecode(p.second, h, after);
      var (w, rest) := Decode(h, after).value;
      ConcatAssoc(Encode(p.first, v).value, Encode(p.second, w).value, rest);
    case Counted(wide, _, elem) =>
      var n, after := CountOf(wide, s), if wide then s[2..] else s[1..];
      EncodeDecodeItems(p.elem, elem, n, after);
      var (items, rest) := DecodeItems(elem, n, after).value;
      ReencodesCounted(p, items, s, rest);
  }

  lemma ConcatAssoc(a: seq<byte>, b: seq<byte>, c: seq<byte>)
    ensures a + b + c == a + (b + c)
  {
  }

  function CountOf(wide: bool, s: seq<byte>): nat
    requires |s| >= if wide then 2 else 1
  {
    if wide then Number16(s) else s[0]
  }

  lemma ReencodesCounted(p: Format, items: seq<Value>, s: seq<byte>, rest: seq<byte>)
    requires p.Counted? && |s| >= (if p.wide then 2 else 1) && |items| == CountOf(p.wide, s) && |items| <= p.max
    requires AllFit(p.elem, items) && EncodeItems(p.elem, items).Some?
    requires (if p.wide then s[2..] else s[1..]) == EncodeItems(p.elem, items).value + rest
    ensures Reencodes(p, Items(items), s, rest)
  {
    var count, body := CountBytes(p.wide, |items|), EncodeItems(p.elem, items).value;
    if p.wide {
      Bytes16Number(s);
    }
    ConcatAssoc(count, body, rest);
    assert s == count + (body + rest);
  }

  lemma {:induction false} EncodeDecodeItems(p: Format, u: Format, n: nat, s: seq<byte>)
    requires SameShape(p, u) && Covers(p, u) && DecodeItems(u, n, s).Some?
    ensures var (items, rest) := DecodeItems(u, n, s).value;
      AllWithin(u, items) && AllFit(p, items) && EncodeItems(p, items).Some? && s == EncodeItems(p, items).value + rest
    decreases p, 1, n
  {
    if n > 0 {
      var (v, after) := Decode(u, s).value;
      EncodeDecode(p, u, s);
      EncodeDecodeItems(p, u, n - 1, after);
      var (tail, rest) := DecodeItems(u, n - 1, after).value;
      var items := [v] + tail;
      assert items[1..] == tail;
      ShapeSymmetric(p, u);
      AllFitSame(u, p, items);
      AllWithinTail(u, items);
      ConcatAssoc(Encode(p, v).value, EncodeItems(p, tail).value, rest);
    }
  }

  lemma {:induction false} ShapeSymmetric(p: Format, u: Format)
    requires SameShape(p, u)
    ensures SameShape(u, p)
  {
    match p
    case Pair(g, h) =>
      ShapeSymmetric(g, u.first);
      ShapeSymmetric(h, u.second);
    case Counted(_, _, elem) => ShapeSymmetric(elem, u.elem);
    case _ =>
  }

  /** Packing fails, given room, exactly when a list is longer than a limit that packing checks. */
  lemma {:induction false} EncodeWithin(f: Format, v: Value)
    requires Fits(f, v)
    ensures Encode(f, v).Some? <==> Within(f, v)
    decreases f, 0
  {
    match f
    case Pair(g, h) =>
      EncodeWithin(g, v.first);
      EncodeWithin(h, v.second);
    case Counted(_, _, elem) => EncodeItemsWithin(elem, v.items);
    case _ =>
  }

  lemma {:induction false} EncodeItemsWithin(f: Format, items: seq<Value>)
    requires AllFit(f, items)
    ensures EncodeItems(f, items).Some? <==> AllWithin(f, items)
    decreases f, 1, |items|
  {
    if items != [] {
      AllWithinTail(f, items);
      EncodeWithin(f, items[0]);
      EncodeItemsWithin(f, items[1..]);
    }
  }

  /** The two functions belong together: same shape, and packing checks no tighter limit. */
  ghost predicate Agree(p: Format, u: Format) { SameShape(p, u) && Covers(p, u) }

  lemma {:induction false} AgreeReflexive(f: Format)
    ensures Agree(f, f)
  {
    match f
    case Pair(g, h) =>
      AgreeReflexive(g);
      AgreeReflexive(h);
    case Counted(_, _, elem) => AgreeReflexive(elem);
    case _ =>
  }

  /** Field by field. */
  ghost predicate ListsAgree(fs: FieldList, gs: FieldList) {
    |fs| == |gs| && forall k :: 0 <= k < |fs| ==> Agree(fs[k], gs[k])
  }

  lemma {:induction false} FieldsAgree(fs: FieldList, gs: FieldList)
    requires ListsAgree(fs, gs)
    ensures Agree(Fields(fs), Fields(gs))
    decreases |fs|
  {
    if |fs| > 1 {
      FieldsAgree(fs[1..], gs[1..]);
    }
  }

  lemma ListReflexive(fs: FieldList)
    ensures ListsAgree(fs, fs)
  {
    forall k | 0 <= k < |fs|
      ensures Agree(fs[k], fs[k])
    {
      AgreeReflexive(fs[k]);
    }
  }
}
