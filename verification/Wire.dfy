/** The fields a QUIC or TLS message is made of, read off the front of a byte string.

Every `...Of` function consumes a prefix and returns what it read with what is left, so the
meaning of a parser is its effect on `encoding + rest`. Encoders sit beside the readers. */
module Wire {
  import opened Bits

  /** A Rust slice never exceeds isize::MAX bytes on a 64-bit target. */
  type Slice = s: seq<byte> | |s| < 0x8000_0000_0000_0000

  datatype Read<+T> = Short | Got(value: T, rest: seq<byte>) {

    predicate IsFailure() {
      Short?
    }

    function PropagateFailure<U>(): Read<U>
      requires Short?
    {
      Short
    }

    function Extract(): (T, seq<byte>)
      requires Got?
    {
      (value, rest)
    }
  }

  function TakeOf(s: seq<byte>, n: nat): (r: Read<seq<byte>>)
    ensures r.Got? ==> |s| == n + |r.rest|
  {
    if n <= |s| then Got(s[..n], s[n..]) else Short
  }

  /** A big-endian number of w bytes. */
  function NumberOf(s: seq<byte>, w: nat): (r: Read<nat>)
    ensures r.Got? ==> |s| == w + |r.rest|
  {
    var (b, rest) :- TakeOf(s, w);
    Got(Be(b), rest)
  }

  function ByteOf(s: seq<byte>): Read<byte> {
    if s == [] then Short else Got(s[0], s[1..])
  }

  const MAX_CID: nat := 20

  /** A connection ID behind a one-byte length of at most 20. */
  function CidOf(s: seq<byte>): (r: Read<seq<byte>>)
    ensures r.Got? ==> |r.value| <= MAX_CID && |s| == 1 + |r.value| + |r.rest|
  {
    var (n, rest) :- ByteOf(s);
    if n > MAX_CID then Short else TakeOf(rest, n)
  }

  // ----- variable-length integers, section 16 of RFC 9000

  /** A value together with the two-bit length prefix it is written with. Prefixes longer
  than necessary are legal. */
  datatype Var = Var(prefix: nat, value: nat) {
    ghost predicate Valid() {
      prefix < 4 && value < VarLimit(prefix)
    }
  }

  function VarWidth(prefix: nat): nat {
    if prefix == 0 then 1 else if prefix == 1 then 2 else if prefix == 2 then 4 else 8
  }

  function VarLimit(prefix: nat): nat {
    if prefix == 0 then 0x40
    else if prefix == 1 then 0x4000
    else if prefix == 2 then 0x4000_0000
    else 0x4000_0000_0000_0000
  }

  function EncodeVar(v: Var): (bs: seq<byte>)
    ensures |bs| == VarWidth(v.prefix)
  {
    BeBytes(v.prefix * VarLimit(v.prefix) + v.value, VarWidth(v.prefix))
  }

  function VarOf(s: seq<byte>): (r: Read<nat>)
    ensures r.Got? ==> |r.rest| < |s|
  {
    var (first, rest) :- ByteOf(s);
    var (tail, rest) :- TakeOf(rest, VarWidth(first / 64) - 1);
    Got(Be([first % 64] + tail), rest)
  }

  /** How a varint's first byte splits the big-endian number of the whole encoding. */
  lemma VarSplit(first: byte, tail: seq<byte>)
    requires |tail| == VarWidth(first / 64) - 1
    ensures Be([first] + tail) == first / 64 * VarLimit(first / 64) + Be([first % 64] + tail)
    ensures Be([first % 64] + tail) < VarLimit(first / 64)
  {
    hide Be;
    Pow256Small();
    BeHead(first, tail);
    BeHead(first % 64, tail);
    BeBound(tail);
  }

  lemma VarRoundTrip(v: Var, rest: seq<byte>)
    requires v.Valid()
    ensures VarOf(EncodeVar(v) + rest) == Got(v.value, rest)
  {
    var bs := EncodeVar(v);
    VarFirst(v);
    var first, tail := bs[0], bs[1..];
    assert bs == [first] + tail;
    VarSplit(first, tail);
    TakeExact(tail, rest);
    assert (bs + rest)[1..] == tail + rest;
  }

  /** The first byte of an encoding carries the prefix, and the whole is the number encoded. */
  lemma VarFirst(v: Var)
    requires v.Valid()
    ensures EncodeVar(v)[0] / 64 == v.prefix
    ensures Be(EncodeVar(v)) == v.prefix * VarLimit(v.prefix) + v.value
  {
    hide Be, BeBytes;
    var bs, n := EncodeVar(v), v.prefix * VarLimit(v.prefix) + v.value;
    Pow256Small();
    BeInverts(n, |bs|);
    assert bs == [bs[0]] + bs[1..];
    BeHead(bs[0], bs[1..]);
    BeBound(bs[1..]);
  }

  /** Whatever decodes is the encoding of its value: decoding accepts nothing else. */
  lemma VarSound(s: seq<byte>)
    requires VarOf(s).Got?
    ensures var v := Var(s[0] / 64, VarOf(s).value);
            v.Valid() && s == EncodeVar(v) + VarOf(s).rest
  {
    hide Be, BeBytes;
    var first, n := s[0], VarWidth(s[0] / 64);
    var tail := s[1..][..n - 1];
    VarSplit(first, tail);
    BeBytesInverts([first] + tail);
    assert s == [first] + tail + s[1..][n - 1..];
  }

  /** The value fits 62 bits, so no shift of the source's 64-bit accumulator overflows. */
  lemma VarBound(s: seq<byte>)
    requires VarOf(s).Got?
    ensures VarOf(s).value < 0x4000_0000_0000_0000
  {
    VarSound(s);
  }

  // ----- reading an encoding off the front

  lemma TakeExact(a: seq<byte>, rest: seq<byte>)
    ensures TakeOf(a + rest, |a|) == Got(a, rest)
  {
    assert (a + rest)[..|a|] == a && (a + rest)[|a|..] == rest;
  }

  lemma ByteExact(x: byte, rest: seq<byte>)
    ensures ByteOf([x] + rest) == Got(x, rest)
  {
    assert ([x] + rest)[1..] == rest;
  }

  lemma NumberExact(n: nat, w: nat, rest: seq<byte>)
    requires n < Pow256(w)
    ensures NumberOf(BeBytes(n, w) + rest, w) == Got(n, rest)
  {
    TakeExact(BeBytes(n, w), rest);
    BeInverts(n, w);
  }

  /** A byte string behind its own length in w bytes. */
  function Prefixed(w: nat, a: seq<byte>): seq<byte> {
    BeBytes(|a|, w) + a
  }

  lemma PrefixedExact(w: nat, a: seq<byte>, rest: seq<byte>)
    requires |a| < Pow256(w)
    ensures NumberOf(Prefixed(w, a) + rest, w) == Got(|a|, a + rest)
    ensures TakeOf(a + rest, |a|) == Got(a, rest)
  {
    assert Prefixed(w, a) + rest == BeBytes(|a|, w) + (a + rest);
    NumberExact(|a|, w, a + rest);
    TakeExact(a, rest);
  }

  lemma CidExact(cid: seq<byte>, rest: seq<byte>)
    requires |cid| <= MAX_CID
    ensures CidOf([|cid|] + cid + rest) == Got(cid, rest)
  {
    assert [|cid|] + cid + rest == [|cid|] + (cid + rest);
    ByteExact(|cid|, cid + rest);
    TakeExact(cid, rest);
  }
}
