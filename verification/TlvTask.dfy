/** pack_tlv, pack_nr_tlv and the unpack_*tlv_list parsers of open-nFAPI/nfapi/src/nfapi.c on a
    buffer, proved against Tlv.PackOne and Tlv.Parse. */
module TlvTask {
  import opened Wrappers
  import opened Words
  import opened Cursors
  import opened Formats
  import opened ValueCodec
  import opened Tlv

  method PackBody(f: TlvFormat, v: Value, c: Cursor) returns (ok: bool)
    requires FitsBody(f, v) && c.Writable() && c.pos <= c.end
    modifies c`pos, c.buf
    ensures c.Writable() && Packed(EncodeBody(f, v), old(c.Done()), c.end, ok, c.Done())
  {
    match f {
      case Inline(fs) => ok := PackValue(Fields(fs), v, c);
      case Opaque =>
        ok := |v.items| <= OPAQUE_MAX;
        if ok {
          ok := PackItems(U8, v.items, c);
        }
    }
  }

  /** The memset of the padding, which does not look at the end of the buffer. */
  method PadZeros(n: nat, c: Cursor)
    requires c.Writable() && c.pos + n <= c.buf.Length
    modifies c`pos, c.buf
    ensures c.Writable() && c.Done() == old(c.Done()) + Zeros(n)
  {
    var i := 0;
    while i < n
      invariant 0 <= i <= n && c.pos == old(c.pos) + i && c.Writable()
      invariant c.Done() == old(c.Done()) + Zeros(i)
    {
      c.buf[c.pos] := 0;
      c.pos := c.pos + 1;
      i := i + 1;
    }
  }

  /** pack_tl */
  method PackTl(tag: uint16, length: uint16, c: Cursor) returns (ok: bool)
    requires c.Writable()
    modifies c`pos, c.buf
    ensures c.Writable() && (ok <==> old(c.pos) + 4 <= c.end)
    ensures ok ==> c.Done() == old(c.Done()) + Header(tag, length)
  {
    ok := c.Push16(tag);
    if ok {
      ok := c.Push16(length);
    }
  }

  /** pack_tl at the start of a TLV that has been written. */
  method RewriteTl(start: nat, tag: uint16, length: uint16, c: Cursor)
    requires c.Writable() && start + 4 <= c.pos
    modifies c.buf
    ensures c.Done() == old(c.Done())[..start] + Header(tag, length) + old(c.Done())[start + 4..]
  {
    c.Patch16(start, tag);
    c.Patch16(start + 2, length);
  }

  /** pack_tlv and pack_nr_tlv: the header is written twice, the second time with the length of
      the value, which also goes into the slot. The padding can take three bytes beyond the
      end. */
  method PackTlv(nr: bool, call: Call, slot: Slot, c: Cursor) returns (ok: bool, slot': Slot)
    requires SlotFits(call.tag, call.format, slot) && c.Writable() && (nr ==> c.end + 3 <= c.buf.Length)
    modifies c`pos, c.buf
    ensures c.Writable()
    ensures slot.tag != call.tag ==> ok && slot' == slot && c.Done() == old(c.Done())
    ensures slot.tag == call.tag ==>
      var body := EncodeBody(call.format, slot.value);
      && (ok <==> body.Some? && old(c.pos) + 4 + |body.value| <= c.end)
      && (ok ==> slot' == Sent(call.format, slot) && c.Done() == old(c.Done()) + Wire(nr, call.tag, body.value))
  {
    ok, slot' := true, slot;
    if slot.tag != call.tag {
      return;
    }
    var start := c.pos;
    ghost var before := c.Done();
    ok := PackTl(slot.tag, slot.length, c);
    if !ok {
      return;
    }
    var startOfValue := c.pos;
    ok := PackBody(call.format, slot.value, c);
    if !ok {
      return;
    }
    ghost var body := EncodeBody(call.format, slot.value).value;
    var length := LengthOf(c.pos - startOfValue);
    slot' := slot.(length := length);
    RewriteTl(start, slot.tag, length, c);
    HeaderRewritten(before, Header(slot.tag, slot.length), Header(slot.tag, length), body);
    PadZeros(Padding(nr, length), c);
    assert c.Done() == before + Wire(nr, call.tag, body);
  }

  lemma HeaderRewritten(before: seq<byte>, dummy: seq<byte>, header: seq<byte>, body: seq<byte>)
    requires |dummy| == |header| == 4
    ensures var s, n := before + dummy + body, |before|;
      s[..n] + header + s[n + 4..] == before + (header + body)
  {
  }

  // ---- The parsers ------------------------------------------------------------------------

  method UnpackBody(f: TlvFormat, length: uint16, c: Cursor) returns (v: Option<Value>)
    requires c.Valid()
    modifies c`pos
    ensures Unpacked(DecodeBody(f, length, old(c.Unread())), v, c.Unread())
    ensures old(c.pos) <= c.pos && (old(c.pos) <= c.end ==> c.pos <= c.end)
  {
    match f {
      case Inline(fs) => v := UnpackValue(Fields(fs), c);
      case Opaque =>
        if length <= OPAQUE_MAX {
          var items := UnpackItems(U8, length, c);
          v := if items.Some? then Some(Items(items.value)) else None;
        } else {
          v := None;
        }
    }
  }

  /** What the loop over the table does with a TLV: it does not stop at the first match. */
  ghost predicate Matched(nr: bool, table: seq<Entry>, slots: seq<Slot>, tag: uint16, length: uint16, s: seq<byte>,
                          ok: bool, slots': seq<Slot>, left: seq<byte>)
    requires |slots| == |table| && Find(table, tag).Some?
  {
    var at := Find(table, tag).value;
    var r := DecodeBody(table[at].format, length, s);
    && (ok <==> r.Some?)
    && (ok ==> slots' == slots[at := Slot(tag, length, r.value.0)] && left == Skip(r.value.1, Padding(nr, length)))
  }

  method MatchTag(nr: bool, table: seq<Entry>, slots: seq<Slot>, tag: uint16, length: uint16, c: Cursor)
    returns (found: bool, ok: bool, slots': seq<Slot>)
    requires DistinctTags(table) && |slots| == |table| && c.Valid() && c.pos <= c.end
    modifies c`pos
    ensures found <==> Find(table, tag).Some?
    ensures old(c.pos) <= c.pos <= c.end + (if nr then 3 else 0)
    ensures if found then Matched(nr, table, slots, tag, length, old(c.Unread()), ok, slots', c.Unread())
            else ok && slots' == slots && c.pos == old(c.pos)
  {
    found, ok, slots' := false, true, slots;
    var idx := 0;
    while idx < |table|
      invariant 0 <= idx <= |table|
      invariant found <==> Find(table, tag).Some? && Find(table, tag).value < idx
      invariant old(c.pos) <= c.pos <= c.end + (if nr then 3 else 0)
      invariant if found then ok && Matched(nr, table, slots, tag, length, old(c.Unread()), true, slots', c.Unread())
                else ok && slots' == slots && c.pos == old(c.pos)
    {
      if table[idx].tag == tag {
        assert Find(table, tag) == Some(idx);
        found := true;
        var v := UnpackBody(table[idx].format, length, c);
        if v.None? {
          ok := false;
          return;
        }
        slots' := slots'[idx := Slot(tag, length, v.value)];
        c.pos := c.pos + Padding(nr, length);
      }
      idx := idx + 1;
    }
  }

  /** unpack_tl */
  method UnpackTl(c: Cursor) returns (tl: Option<(uint16, uint16)>)
    requires c.Valid()
    modifies c`pos
    ensures tl.Some? <==> |old(c.Unread())| >= 4
    ensures tl.Some? ==> c.pos == old(c.pos) + 4 && c.Unread() == old(c.Unread())[4..]
    ensures tl.Some? ==> tl.value == (Number16(old(c.Unread())), Number16(old(c.Unread())[2..]))
    ensures old(c.pos) <= c.pos && (old(c.pos) <= c.end ==> c.pos <= c.end)
  {
    tl := None;
    var tag := c.Pull16();
    if tag.Some? {
      var length := c.Pull16();
      if length.Some? {
        tl := Some((tag.value, length.value));
      }
    }
  }

  /** The result of a turn as the methods give it: the parser goes on, or why it stops. */
  ghost predicate Turned(turn: Turn, stop: Option<Outcome>, slots: seq<Slot>, bad: nat, left: seq<byte>) {
    turn == if stop.Some? then Stop(stop.value) else Go(slots, bad, left)
  }

  /** The branch for a tag that the table does not have: numBadTags counts it, or, in the vendor
      range, the callback that is not there lets the parser go on. */
  method SkipUnknown(nr: bool, tag: uint16, length: uint16, bad: nat, c: Cursor)
    returns (stop: Option<Outcome>, bad': nat)
    requires c.Valid() && c.pos <= c.end
    modifies c`pos
    ensures var s := old(c.Unread());
      if tag >= VENDOR_MIN then stop.None? && bad' == bad && c.pos == old(c.pos)
      else if bad + 1 > MAX_BAD_TAG then stop == Some(TooManyBad)
      else if |s| < length then stop == Some(Cut)
      else stop.None? && bad' == bad + 1 && c.Unread() == Skip(s, length + Padding(nr, length))
    ensures old(c.pos) <= c.pos <= c.end + if nr then 3 else 0
  {
    stop, bad' := None, bad;
    if tag >= VENDOR_MIN {
      return;
    }
    bad' := bad + 1;
    if bad' > MAX_BAD_TAG {
      stop := Some(TooManyBad);
    } else if c.end - c.pos >= length {
      c.pos := c.pos + length + Padding(nr, length);
    } else {
      stop := Some(Cut);
    }
  }

  /** One turn of the loop. */
  method ParseTurn(nr: bool, table: seq<Entry>, slots: seq<Slot>, bad: nat, c: Cursor)
    returns (stop: Option<Outcome>, slots': seq<Slot>, bad': nat)
    requires DistinctTags(table) && |slots| == |table| && c.Valid() && c.pos < c.end
    modifies c`pos
    ensures Turned(ParseOne(nr, table, slots, bad, old(c.Unread())), stop, slots', bad', c.Unread())
    ensures old(c.pos) <= c.pos <= c.end + (if nr then 3 else 0)
    ensures stop.None? ==> old(c.pos) < c.pos && |slots'| == |table|
  {
    stop, slots', bad' := None, slots, bad;
    var tl := UnpackTl(c);
    if tl.None? {
      return Some(Cut), slots, bad;
    }
    var (tag, length) := tl.value;
    var found, ok;
    found, ok, slots' := MatchTag(nr, table, slots, tag, length, c);
    if !ok {
      return Some(Cut), slots, bad;
    }
    if !found {
      stop, bad' := SkipUnknown(nr, tag, length, bad, c);
    }
  }

  /** unpack_tlv_list, unpack_nr_tlv_list, unpack_p7_tlv_list and unpack_nr_p7_tlv_list: 1 at
      the end of the buffer, 0 for a TLV that is cut short or cannot be unpacked, and 0 or, in
      the two P7 parsers, -1 for a fourth bad tag. On any bytes they come to an end, with the
      cursor no further than the end of the buffer or, by padding, three bytes behind it. */
  method ParseTlvList(nr: bool, p7: bool, table: seq<Entry>, slots: seq<Slot>, c: Cursor)
    returns (result: int, slots': seq<Slot>)
    requires DistinctTags(table) && |slots| == |table| && c.Valid() && c.pos <= c.end
    modifies c`pos
    ensures match Parse(nr, table, slots, 0, old(c.Unread()))
      case Parsed(now) => result == 1 && slots' == now && c.pos >= c.end
      case Cut => result == 0
      case TooManyBad => result == if p7 then -1 else 0
    ensures old(c.pos) <= c.pos <= c.end + if nr then 3 else 0
  {
    slots' := slots;
    var bad := 0;
    while c.pos < c.end
      invariant |slots'| == |table|
      invariant Parse(nr, table, slots, 0, old(c.Unread())) == Parse(nr, table, slots', bad, c.Unread())
      invariant old(c.pos) <= c.pos <= c.end + if nr then 3 else 0
      decreases c.end - c.pos
    {
      var stop;
      stop, slots', bad := ParseTurn(nr, table, slots', bad, c);
      if stop.Some? {
        result := if stop.value.TooManyBad? && p7 then -1 else 0;
        return;
      }
    }
    result := 1;
  }
}
