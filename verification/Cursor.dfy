/** The read and write cursors of open-nFAPI/nfapi/src/nfapi.c: push and pull of big-endian
    numbers at a position of a byte buffer. The source passes the position by reference
    and the limit as a third argument; here both belong to the cursor. */
module Cursors {
  import opened Wrappers
  import opened Words

  /** The bytes of an unsigned 16-bit and 32-bit number, most significant first. */
  function Bytes16(n: uint16): seq<byte> {
    [n / 0x100, n % 0x100]
  }

  function Bytes32(n: uint32): seq<byte> {
    [n / 0x100_0000, n / 0x1_0000 % 0x100, n / 0x100 % 0x100, n % 0x100]
  }

  function Number16(s: seq<byte>): uint16
    requires |s| >= 2
  {
    (s[0] as int) * 0x100 + s[1] as int
  }

  function Number32(s: seq<byte>): uint32
    requires |s| >= 4
  {
    (s[0] as int) * 0x100_0000 + (s[1] as int) * 0x1_0000 + (s[2] as int) * 0x100 + s[3] as int
  }

  /** The number whose bytes are s, most significant first. */
  function Big(s: seq<byte>): nat {
    if s == [] then 0 else Big(s[..|s| - 1]) * 0x100 + s[|s| - 1]
  }

  /** Numbers go most significant byte first, in two bytes and in four. */
  lemma BigEndian(n: uint16, m: uint32)
    ensures |Bytes16(n)| == 2 && Big(Bytes16(n)) == n
    ensures |Bytes32(m)| == 4 && Big(Bytes32(m)) == m
  {
    var a, b, c, d := m / 0x100_0000, m / 0x1_0000 % 0x100, m / 0x100 % 0x100, m % 0x100;
    assert Bytes16(n)[..1] == [n / 0x100] && [n / 0x100][..0] == [];
    assert Bytes32(m)[..3] == [a, b, c] && [a, b, c][..2] == [a, b] && [a, b][..1] == [a] && [a][..0] == [];
    assert Big([a]) == a && Big([a, b]) == a * 0x100 + b;
    Number32Bytes(m, []);
    assert Bytes32(m) + [] == Bytes32(m);
  }

  lemma Number16Bytes(n: uint16, rest: seq<byte>)
    ensures Number16(Bytes16(n) + rest) == n && (Bytes16(n) + rest)[2..] == rest
  {
  }

  lemma Number32Bytes(n: uint32, rest: seq<byte>)
    ensures Number32(Bytes32(n) + rest) == n && (Bytes32(n) + rest)[4..] == rest
  {
    assert n / 0x100 % 0x100 == n / 0x100 - n / 0x1_0000 * 0x100;
    assert n / 0x1_0000 % 0x100 == n / 0x1_0000 - n / 0x100_0000 * 0x100;
  }

  lemma Bytes16Number(s: seq<byte>)
    requires |s| >= 2
    ensures Bytes16(Number16(s)) + s[2..] == s
  {
  }

  lemma Bytes32Number(s: seq<byte>)
    requires |s| >= 4
    ensures Bytes32(Number32(s)) + s[4..] == s
  {
    var n := Number32(s);
    assert n / 0x100_0000 == s[0];
    assert n / 0x1_0000 == (s[0] as int) * 0x100 + s[1] as int;
    assert n / 0x100 == (s[0] as int) * 0x1_0000 + (s[1] as int) * 0x100 + s[2] as int;
  }

  type int16 = x: int | -0x8000 <= x < 0x8000

  /** The bits of a signed number read as an unsigned one, and back. */
  function Unsigned(n: int16): (u: uint16)
    ensures Signed(u) == n && (u - n == 0 || u - n == 0x1_0000)
  {
    if n < 0 then n + 0x1_0000 else n
  }

  function Signed(u: uint16): int16 {
    if u < 0x8000 then u else u - 0x1_0000
  }

  class Cursor {
    const buf: array<byte>
    const end: nat
    var pos: nat

    ghost predicate Valid()
      reads this
    {
      end <= buf.Length
    }

    ghost predicate Writable()
      reads this
    {
      end <= buf.Length && pos <= buf.Length
    }

    /** What has been written, or passed over, so far. */
    ghost function Done(): (s: seq<byte>)
      requires Writable()
      reads this, buf
      ensures |s| == pos
    {
      buf[..pos]
    }

    /** What is still to be read. The NR parsers can step past the end, by padding. */
    ghost function Unread(): (s: seq<byte>)
      requires Valid()
      reads this, buf
      ensures |s| == if pos <= end then end - pos else 0
    {
      if pos <= end then buf[pos..end] else []
    }

    constructor (buf: array<byte>, pos: nat, end: nat)
      requires pos <= end <= buf.Length
      ensures Valid() && Writable() && this.buf == buf && this.pos == pos && this.end == end
    {
      this.buf := buf;
      this.pos := pos;
      this.end := end;
    }

    method Push8(n: byte) returns (ok: bool)
      requires Writable()
      modifies this`pos, buf
      ensures Writable() && (ok <==> old(pos) + 1 <= end)
      ensures Done() == if ok then old(Done()) + [n] else old(Done())
    {
      ok := end as int - pos >= 1;
      if ok {
        buf[pos] := n;
        pos := pos + 1;
      }
    }

    method Push16(n: uint16) returns (ok: bool)
      requires Writable()
      modifies this`pos, buf
      ensures Writable() && (ok <==> old(pos) + 2 <= end)
      ensures Done() == if ok then old(Done()) + Bytes16(n) else old(Done())
    {
      ok := end as int - pos >= 2;
      if ok {
        buf[pos], buf[pos + 1] := n / 0x100, n % 0x100;
        pos := pos + 2;
      }
    }

    method Push32(n: uint32) returns (ok: bool)
      requires Writable()
      modifies this`pos, buf
      ensures Writable() && (ok <==> old(pos) + 4 <= end)
      ensures Done() == if ok then old(Done()) + Bytes32(n) else old(Done())
    {
      ok := end as int - pos >= 4;
      if ok {
        buf[pos], buf[pos + 1] := n / 0x100_0000, n / 0x1_0000 % 0x100;
        buf[pos + 2], buf[pos + 3] := n / 0x100 % 0x100, n % 0x100;
        pos := pos + 4;
      }
    }

    /** The second push16 to a place that was written before: pack_tlv and nfapi_p4_message_pack
        fill in lengths this way. */
    method Patch16(at: nat, n: uint16)
      requires Writable() && at + 2 <= pos
      modifies buf
      ensures Done() == old(Done())[..at] + Bytes16(n) + old(Done())[at + 2..]
    {
      buf[at], buf[at + 1] := n / 0x100, n % 0x100;
    }

    method Pull8() returns (n: Option<byte>)
      requires Valid()
      modifies this`pos
      ensures Valid() && (n.Some? <==> |old(Unread())| >= 1)
      ensures n.Some? ==> n.value == old(Unread())[0] && Unread() == old(Unread())[1..]
      ensures pos == if n.Some? then old(pos) + 1 else old(pos)
    {
      if end as int - pos >= 1 {
        n := Some(buf[pos]);
        pos := pos + 1;
      } else {
        n := None;
      }
    }

    method Pull16() returns (n: Option<uint16>)
      requires Valid()
      modifies this`pos
      ensures Valid() && (n.Some? <==> |old(Unread())| >= 2)
      ensures n.Some? ==> n.value == Number16(old(Unread())) && Unread() == old(Unread())[2..]
      ensures pos == if n.Some? then old(pos) + 2 else old(pos)
    {
      if end as int - pos >= 2 {
        n := Some((buf[pos] as int) * 0x100 + buf[pos + 1] as int);
        pos := pos + 2;
      } else {
        n := None;
      }
    }

    method Pull32() returns (n: Option<uint32>)
      requires Valid()
      modifies this`pos
      ensures Valid() && (n.Some? <==> |old(Unread())| >= 4)
      ensures n.Some? ==> n.value == Number32(old(Unread())) && Unread() == old(Unread())[4..]
      ensures pos == if n.Some? then old(pos) + 4 else old(pos)
    {
      if end as int - pos >= 4 {
        n := Some((buf[pos] as int) * 0x100_0000 + (buf[pos + 1] as int) * 0x1_0000
                  + (buf[pos + 2] as int) * 0x100 + buf[pos + 3] as int);
        pos := pos + 4;
      } else {
        n := None;
      }
    }

    /** pusharray8: nothing to push counts as a success. The source compares the room that is
        left as an unsigned number, so a cursor past the end finds room for any length. */
    method PushArray8(s: seq<byte>, maxLen: nat) returns (result: nat)
      requires Writable()
      requires pos > end && |s| <= maxLen ==> pos + |s| <= buf.Length
      modifies this`pos, buf
      ensures Writable()
      ensures result ==
        if s == [] then 1 else if |s| > maxLen || (old(pos) <= end && old(pos) + |s| > end) then 0 else |s|
      ensures Done() == if result > 0 then old(Done()) + s else old(Done())
    {
      if s == [] {
        return 1;
      }
      if |s| > maxLen || 0 <= end as int - pos < |s| {
        return 0;
      }
      var i := 0;
      while i < |s|
        invariant 0 <= i <= |s| && pos == old(pos) && pos + |s| <= buf.Length
        invariant buf[..pos] == old(Done()) && buf[pos..pos + i] == s[..i]
      {
        buf[pos + i] := s[i];
        i := i + 1;
      }
      pos := pos + |s|;
      result := |s|;
      assert buf[..pos] == buf[..old(pos)] + buf[old(pos)..old(pos) + |s|];
    }

    /** pullarray8, with the same comparison. */
    method PullArray8(maxLen: nat, len: nat) returns (s: Option<seq<byte>>)
      requires Valid() && (pos > end && len <= maxLen ==> pos + len <= buf.Length)
      modifies this`pos
      ensures s.Some? <==> len == 0 || (len <= maxLen && (old(pos) > end || len <= |old(Unread())|))
      ensures s.Some? ==> old(pos) + len <= buf.Length && s.value == buf[old(pos)..old(pos) + len]
      ensures pos == if s.Some? then old(pos) + len else old(pos)
    {
      if len == 0 {
        return Some([]);
      }
      if len > maxLen || 0 <= end as int - pos < len {
        return None;
      }
      s := Some(buf[pos..pos + len]);
      pos := pos + len;
    }
  }
}
