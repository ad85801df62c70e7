/** pack_dci_payload and unpack_dci_payload in place: they shift the payload buffer as one
    64-bit number and reverse its bytes. Proved against the wire form of Dci. */
module DciTask {
  import opened Wrappers
  import opened Words
  import opened Cursors
  import opened Dci

  /** The buffer read as a 64-bit number. */
  ghost function Payload(buf: array<byte>): nat
    requires buf.Length == PAYLOAD_BYTES
    reads buf
  {
    Little(buf[..])
  }

  /** The assignment to the buffer as a 64-bit number. */
  method Store(buf: array<byte>, x: nat)
    requires buf.Length == PAYLOAD_BYTES && x < Pow2(8 * buf.Length)
    modifies buf
    ensures Payload(buf) == x
  {
    var rest, i := x, 0;
    while i < PAYLOAD_BYTES
      invariant 0 <= i <= PAYLOAD_BYTES
      invariant Little(buf[..i]) + Pow2(8 * i) * rest == x
    {
      ghost var before := buf[..i];
      StoreByte(before, rest);
      buf[i] := rest % 0x100;
      assert buf[..i + 1] == before + [buf[i]];
      rest := rest / 0x100;
      i := i + 1;
    }
    assert buf[..] == buf[..PAYLOAD_BYTES];
    MulAtLeast(rest, Pow2(8 * buf.Length));
    MulComm(rest, Pow2(8 * buf.Length));
  }

  lemma StoreByte(before: seq<byte>, rest: nat)
    ensures Little(before + [rest % 0x100]) + Pow2(8 * (|before| + 1)) * (rest / 0x100)
      == Little(before) + Pow2(8 * |before|) * rest
  {
    var low, high := rest % 0x100, rest / 0x100;
    LittleConcat(before, [low]);
    assert Little([low]) == low;
    PowBytes(|before| + 1);
    SplitProduct(Pow2(8 * |before|), Pow2(8 * (|before| + 1)), low, high, rest);
  }

  lemma SplitProduct(p: nat, q: nat, low: nat, high: nat, rest: nat)
    requires q == 0x100 * p && rest == low + 0x100 * high
    ensures p * low + q * high == p * rest
  {
    MulComm(0x100, p);
    MulAssoc(p, 0x100, high);
    MulDist(low, 0x100 * high, p);
    MulComm(p, low);
    MulComm(p, 0x100 * high);
    MulComm(p, rest);
  }

  /** The loop that reverses the first n bytes. */
  method ReverseBytes(s: seq<byte>) returns (r: seq<byte>)
    ensures r == Reversed(s)
  {
    r := [];
    var j := 0;
    while j < |s|
      invariant 0 <= j <= |s| && |r| == j
      invariant forall k :: 0 <= k < j ==> r[k] == s[|s| - 1 - k]
    {
      r := r + [s[|s| - 1 - j]];
      j := j + 1;
    }
  }

  /** pack_dci_payload, for the payload lengths its buffer can hold. */
  method PackDciPayload(payload: array<byte>, bits: nat, c: Cursor) returns (result: nat)
    requires payload.Length == 8 && bits <= 64 && payload != c.buf
    requires c.Writable() && (c.pos > c.end ==> c.pos + ByteLength(bits) <= c.buf.Length)
    modifies payload, c`pos, c.buf
    ensures c.Writable()
    ensures result == 0 <==> ByteLength(bits) > 0 && old(c.pos) <= c.end < old(c.pos) + ByteLength(bits)
    ensures result > 0 ==>
      && old(c.Done()) <= c.Done()
      && LeftAligned(c.Done()[old(c.pos)..], old(Payload(payload)) % Pow2(bits), bits)
    ensures Payload(payload) == Shifted(old(Payload(payload)), bits, payload.Length)
  {
    ghost var x := Payload(payload);
    ShiftPayload(payload, bits);
    var n := ByteLength(bits);
    BytesOfNumber(payload[..]);
    ShiftAligns(x, bits, payload.Length);
    assert payload[..][..n] == payload[..n];
    var w := ReverseBytes(payload[..n]);
    result := c.PushArray8(w, PAYLOAD_BYTES);
    assert result > 0 ==> c.Done()[old(c.pos)..] == w;
  }

  /** The shift to the left when the payload does not fill its last byte. */
  method ShiftPayload(payload: array<byte>, bits: nat)
    requires payload.Length == PAYLOAD_BYTES
    modifies payload
    ensures Payload(payload) == Shifted(old(Payload(payload)), bits, payload.Length)
  {
    var x := Little(payload[..]);
    LittleBound(payload[..]);
    if bits % 8 != 0 {
      Store(payload, Shifted(x, bits, payload.Length));
    } else {
      DivUnique(x, Pow2(8 * payload.Length), 0, x);
    }
  }

  /** unpack_dci_payload. When the bytes are not there the source goes on with what its local
      buffer happens to hold; nothing is said about the payload then. */
  method UnpackDciPayload(payload: array<byte>, bits: nat, c: Cursor) returns (ok: bool)
    requires payload.Length == 8 && bits <= 64 && payload != c.buf
    requires c.Valid() && (c.pos > c.end ==> c.pos + ByteLength(bits) <= c.buf.Length)
    modifies payload, c`pos
    ensures ok <==> ByteLength(bits) == 0 || old(c.pos) > c.end || ByteLength(bits) <= |old(c.Unread())|
    ensures ok ==>
      && c.pos == old(c.pos) + ByteLength(bits) <= c.buf.Length
      && Payload(payload) == Recovered(c.buf[old(c.pos)..c.pos], old(payload[..]), bits)
  {
    var n := ByteLength(bits);
    var inverted := c.PullArray8(PAYLOAD_BYTES, n);
    ok := inverted.Some?;
    if !ok {
      return;
    }
    var w := inverted.value;
    ghost var before := payload[..];
    var r := ReverseBytes(w);
    CopyBytes(r, payload);
    PayloadRecovered(r, w, before, bits);
    ShiftBack(payload, bits);
  }

  /** The loop that stores the bytes at the start of the payload. */
  method CopyBytes(r: seq<byte>, payload: array<byte>)
    requires |r| <= payload.Length
    modifies payload
    ensures payload[..] == r + old(payload[..])[|r|..]
  {
    var j := 0;
    while j < |r|
      invariant 0 <= j <= |r|
      invariant payload[..j] == r[..j] && payload[j..] == old(payload[..])[j..]
    {
      payload[j] := r[j];
      j := j + 1;
    }
  }

  /** The shift to the right when the payload does not fill its last byte. */
  method ShiftBack(payload: array<byte>, bits: nat)
    requires payload.Length == PAYLOAD_BYTES
    modifies payload
    ensures Payload(payload) == old(Payload(payload)) / Pow2(Rotation(bits))
  {
    if bits % 8 != 0 {
      var x := Little(payload[..]);
      LittleBound(payload[..]);
      ShiftedSmaller(x, Pow2(Rotation(bits)));
      Store(payload, x / Pow2(Rotation(bits)));
    }
  }

  lemma PayloadRecovered(r: seq<byte>, w: seq<byte>, before: seq<byte>, bits: nat)
    requires |w| == ByteLength(bits) <= |before| && r == Reversed(w)
    ensures Little(r + before[|w|..]) / Pow2(Rotation(bits)) == Recovered(w, before, bits)
  {
    LittleConcat(r, before[|w|..]);
    BigReversed(r);
    assert Reversed(r) == w;
  }

  lemma ShiftedSmaller(x: nat, d: nat)
    requires d > 0
    ensures 0 <= x / d <= x
  {
    if x / d > 0 {
      MulAtLeast(d, x / d);
      MulComm(d, x / d);
      assert x == (x / d) * d + x % d;
    }
  }
}
