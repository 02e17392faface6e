/** The cursor over a datagram: big-endian fields and varints, never past the end. */
module Cursor {
  import opened Bits
  import opened Wire
  import opened Wrappers

  const USIZE_LIMIT: nat := U64_LIMIT

  class Reader {
    const bytes: Slice
    var at: nat

    ghost predicate Valid()
      reads this
    {
      at <= |bytes|
    }

    ghost function Rest(): seq<byte>
      requires Valid()
      reads this
    {
      bytes[at..]
    }

    /** The method's answer and the cursor both follow the read of the remaining bytes. */
    ghost predicate Follows<T>(spec: Read<T>, got: Option<T>)
      reads this
    {
      && Valid()
      && (spec.Short? ==> got.None?)
      && (spec.Got? ==> got == Some(spec.value) && Rest() == spec.rest)
    }

    constructor (bytes: Slice)
      ensures Valid() && Rest() == bytes && this.bytes == bytes
    {
      this.bytes := bytes;
      at := 0;
    }

    method Position() returns (p: nat)
      requires Valid()
      ensures p == |bytes| - |Rest()|
    {
      p := at;
    }

    method Take(len: nat) returns (r: Option<Slice>)
      requires Valid()
      modifies this
      ensures Follows(TakeOf(old(Rest()), len), r)
      ensures r.None? ==> at == old(at)
    {
      if at + len >= USIZE_LIMIT {
        return None;
      }
      var end := at + len;
      if end > |bytes| {
        return None;
      }
      assert bytes[at..][..len] == bytes[at..end];
      r := Some(bytes[at..end]);
      at := end;
    }

    method Skip(len: nat) returns (r: Option<()>)
      requires Valid()
      modifies this
      ensures Valid()
      ensures r.Some? <==> TakeOf(old(Rest()), len).Got?
      ensures r.Some? ==> Rest() == TakeOf(old(Rest()), len).rest
    {
      var _ :- Take(len);
      r := Some(());
    }

    method U8() returns (r: Option<byte>)
      requires Valid()
      modifies this
      ensures Follows(ByteOf(old(Rest())), r)
      ensures r.None? ==> at == old(at)
    {
      var b :- Take(1);
      r := Some(b[0]);
    }

    method U16() returns (r: Option<nat>)
      requires Valid()
      modifies this
      ensures Follows(NumberOf(old(Rest()), 2), r)
      ensures r.None? ==> at == old(at)
    {
      var b :- Take(2);
      TwoBytes(b[0], b[1]);
      assert b == [b[0], b[1]];
      r := Some(Or(Shl64(b[0], 8), b[1]));
    }

    method U24() returns (r: Option<nat>)
      requires Valid()
      modifies this
      ensures Follows(NumberOf(old(Rest()), 3), r)
    {
      var b :- Take(3);
      ThreeBytes(b[0], b[1], b[2]);
      assert b == [b[0], b[1], b[2]];
      r := Some(Or(Or(Shl64(b[0], 16), Shl64(b[1], 8)), b[2]));
    }

    method U32() returns (r: Option<nat>)
      requires Valid()
      modifies this
      ensures Follows(NumberOf(old(Rest()), 4), r)
    {
      var b :- Take(4);
      var n := 0;
      for i := 0 to 4
        modifies {}
        invariant n == Be(b[..i]) < Pow256(i)
      {
        Pow256Small();
        assert i < 4 ==> Pow256(i) <= 0x100_0000;
        ShiftInByte(n, b[i]);
        BeSnoc(b[..i], b[i]);
        assert b[..i + 1] == b[..i] + [b[i]];
        n := Or(Shl64(n, 8), b[i]);
      }
      assert b[..4] == b;
      r := Some(n);
    }

    /** CidOf: a length byte, its limit, and that many bytes. */
    method Cid() returns (r: Option<Slice>)
      requires Valid()
      modifies this
      ensures Follows(CidOf(old(Rest())), r)
    {
      var len :- U8();
      if len > MAX_CID {
        return None;
      }
      r := Take(len);
    }

    /** VarOf, by masking the prefix off the first byte and shifting the others in. */
    method Varint() returns (r: Option<nat>)
      requires Valid()
      modifies this
      ensures Follows(VarOf(old(Rest())), r)
      ensures r.Some? ==> r.value < 0x4000_0000_0000_0000
    {
      ghost var s := Rest();
      var first :- U8();
      VarFirstByte(first);
      hide And, Shr, Pow2;
      var len := Pow2(Shr(first, 6));
      var value := And(first, 0x3f);
      var rest :- Take(len - 1);
      assert VarOf(s) == Got(Be([first % 64] + rest), Rest());
      VarBound(s);
      hide VarOf, Reader.Rest, Reader.Valid;
      value := ShiftIn(value, rest);
      r := Some(value);
    }
  }

  lemma VarFirstByte(first: byte)
    ensures Pow2(Shr(first, 6)) == VarWidth(first / 64)
    ensures And(first, 0x3f) == first % 64
  {
    hide And, Shr;
    LowMasks(first);
    ShiftsRight(first);
    PowersOfTwo();
    assert Pow2(0) == 1;
    var p := first / 64;
    if p == 0 {} else if p == 1 {} else if p == 2 {} else { assert p == 3; }
  }

  /** The bytes of a varint behind its first, shifted into the value one at a time. */
  method ShiftIn(top: nat, rest: seq<byte>) returns (value: nat)
    requires top < 64 && |rest| <= 7
    ensures value == Be([top as byte] + rest)
  {
    BeOne(top);
    assert [top] + rest[..0] == [top];
    hide Or, Shl64, Be, Pow256;
    value := top;
    for i := 0 to |rest|
      invariant value == Be([top as byte] + rest[..i])
    {
      Accumulate(top, rest[..i], rest[i]);
      assert rest[..i + 1] == rest[..i] + [rest[i]];
      value := Or(Shl64(value, 8), rest[i]);
    }
    assert rest[..|rest|] == rest;
  }

  /** One more byte of a varint, at most the eighth. */
  lemma Accumulate(top: byte, done: seq<byte>, b: byte)
    requires top < 64 && |done| < 7
    ensures Or(Shl64(Be([top] + done), 8), b) == Be([top] + (done + [b]))
  {
    hide Or, Shl64, Be;
    var v := [top] + done;
    BeHead(top, done);
    BeBound(done);
    Pow256Small();
    Pow256Grows(|done|, 6);
    assert Pow256(6) == 0x1_0000_0000_0000;
    assert top * Pow256(|done|) <= 63 * Pow256(|done|);
    ShiftInByte(Be(v), b);
    BeSnoc(v, b);
    assert v + [b] == [top] + (done + [b]);
  }

  lemma Pow256Grows(i: nat, j: nat)
    requires i <= j
    ensures Pow256(i) <= Pow256(j)
    decreases j - i
  {
    if i < j {
      Pow256Grows(i, j - 1);
    }
  }

  lemma TwoBytes(x: byte, y: byte)
    ensures Or(Shl64(x, 8), y) == Be([x, y]) == x * 256 + y
  {
    ShiftInByte(x, y);
    BeOne(x);
    BeSnoc([x], y);
    assert [x, y] == [x] + [y];
  }

  lemma ThreeBytes(x: byte, y: byte, z: byte)
    ensures Or(Or(Shl64(x, 16), Shl64(y, 8)), z) == Be([x, y, z])
  {
    hide Or, Be;
    PowersOfTwo();
    var a: nat, b: nat := x, y;
    OrDisjoint(a, b * 256, 16);
    OrDisjoint(a * 256 + b, z, 8);
    TwoBytes(x, y);
    BeSnoc([x, y], z);
    assert [x, y, z] == [x, y] + [z];
  }
}
