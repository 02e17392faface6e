/** The unprotected fields of an Initial packet's long header.

Section 17.2.2 of RFC 9000 and section 3.2 of RFC 9369. */
module LongHeader {
  import opened Bits
  import opened Wire
  import opened Cursor
  import opened Wrappers

  const V1: nat := 0x0000_0001
  const V2: nat := 0x6b33_43cf

  const TAG: nat := 16
  const SAMPLE: nat := 16

  /** What the proxy keeps of a header: where the packet number is, and how many bytes the
  Length field covers from there. */
  datatype Header = Header(version: nat, dcid: seq<byte>, pnOffset: nat, length: nat)

  // ----- the format, as an encoder writes it

  /** The packet type number of an Initial, which version 2 renumbered. */
  function InitialType(version: nat): Option<nat> {
    if version == V1 then Some(0) else if version == V2 then Some(1) else None
  }

  predicate InitialFirstByte(first: byte, version: nat) {
    first / 64 == 3 && InitialType(version) == Some(first / 16 % 4)
  }

  /** In version 1 such a byte starts 1100, and in version 2 it starts 1101. */
  lemma InitialStarts(first: byte, version: nat)
    ensures InitialFirstByte(first, version)
       <==> (version == 1 && first / 16 == 12) || (version == 0x6b33_43cf && first / 16 == 13)
  {
    assert first / 64 == first / 16 / 4;
  }

  datatype Prefix = Prefix(
    first: byte, version: nat, dcid: seq<byte>, scid: seq<byte>,
    tokenPrefix: nat, token: seq<byte>, length: Var)
  {
    ghost predicate Valid() {
      && InitialFirstByte(first, version)
      && |dcid| <= 20 && |scid| <= 20
      && Var(tokenPrefix, |token|).Valid()
      && length.Valid()
    }
  }

  function EncodeTail(p: Prefix): seq<byte> {
    EncodeVar(Var(p.tokenPrefix, |p.token|)) + p.token + EncodeVar(p.length)
  }

  function EncodePrefix(p: Prefix): seq<byte>
    requires |p.dcid| <= MAX_CID && |p.scid| <= MAX_CID
  {
    [p.first] + AfterFirst(p)
  }

  function AfterFirst(p: Prefix): seq<byte>
    requires |p.dcid| <= MAX_CID && |p.scid| <= MAX_CID
  {
    BeBytes(p.version, 4) + ([|p.dcid|] + p.dcid) + ([|p.scid|] + p.scid) + EncodeTail(p)
  }

  // ----- reading it back

  datatype Start = Start(first: byte, version: nat)

  /** The first byte and the version, which decide whether this is an Initial at all. */
  function StartOf(d: seq<byte>): (r: Read<Start>)
    ensures r.Got? ==> |r.rest| < |d|
  {
    var (first, rest) :- ByteOf(d);
    var (version, rest) :- NumberOf(rest, 4);
    if InitialFirstByte(first, version) then Got(Start(first, version), rest) else Short
  }

  datatype Cids = Cids(dcid: seq<byte>, scid: seq<byte>)

  function CidsOf(s: seq<byte>): (r: Read<Cids>)
    ensures r.Got? ==> |r.rest| <= |s| && |r.value.dcid| <= MAX_CID && |r.value.scid| <= MAX_CID
  {
    var (dcid, rest) :- CidOf(s);
    var (scid, rest) :- CidOf(rest);
    Got(Cids(dcid, scid), rest)
  }

  function TokenOf(s: seq<byte>): (r: Read<seq<byte>>)
    ensures r.Got? ==> |r.rest| <= |s|
  {
    var (n, rest) :- VarOf(s);
    TakeOf(rest, n)
  }

  function LengthOf(s: seq<byte>): (r: Read<nat>)
    ensures r.Got? ==> |r.rest| <= |s|
  {
    var (token, rest) :- TokenOf(s);
    VarOf(rest)
  }

  function HeaderOf(d: seq<byte>): (h: Option<Header>)
    ensures h.Some? ==> h.value.pnOffset > 0
  {
    var start := StartOf(d);
    if start.Short? then None else
    var cids := CidsOf(start.rest);
    if cids.Short? then None else
    var length := LengthOf(cids.rest);
    if length.Short? || length.value < SAMPLE + TAG || |length.rest| < length.value then None else
    Some(Header(start.value.version, cids.value.dcid, |d| - |length.rest|, length.value))
  }

  lemma FirstByteChecks(first: byte)
    ensures And(first, 0xc0) == 0xc0 <==> first / 64 == 3
    ensures Shr(And(first, 0x30), 4) == first / 16 % 4
  {
    HighMasks(first);
  }

  /** The checks on the first byte and the version, with the masks they are made with. */
  method ParseStart(r: Reader) returns (start: Option<Start>)
    requires r.Valid()
    modifies r
    ensures r.Follows(StartOf(old(r.Rest())), start)
  {
    hide Be, And, Shr, NumberOf, Reader.Rest, Reader.Valid;
    var first :- r.U8();
    FirstByteChecks(first);
    if And(first, 0xc0) != 0xc0 {
      return None;
    }
    var version :- r.U32();
    var initialType;
    if version == V1 {
      initialType := 0;
    } else if version == V2 {
      initialType := 1;
    } else {
      return None;
    }
    if Shr(And(first, 0x30), 4) != initialType {
      return None;
    }
    start := Some(Start(first, version));
  }

  /** The checks and cursor moves that HeaderOf stands for. */
  method ParseLongHeader(datagram: Slice) returns (h: Option<Header>)
    ensures h == HeaderOf(datagram)
  {
    hide StartOf, VarOf, TakeOf, CidOf, Reader.Rest, Reader.Valid;
    var r := new Reader(datagram);
    var start :- ParseStart(r);
    ghost var s := r.Rest();
    var dcid :- r.Cid();
    var scid :- r.Cid();
    assert CidsOf(s) == Got(Cids(dcid, scid), r.Rest());
    hide CidsOf;
    s := r.Rest();
    var tokenLen :- r.Varint();
    var _ :- r.Skip(tokenLen);
    var length :- r.Varint();
    assert LengthOf(s) == Got(length, r.Rest());
    var pnOffset := r.Position();
    if length < SAMPLE + TAG || |datagram| < pnOffset + length {
      return None;
    }
    h := Some(Header(start.version, dcid, pnOffset, length));
  }

  // ----- the reader accepts exactly what the encoder writes

  /** The datagram starts with this prefix, and the header reports it. */
  ghost predicate Describes(p: Prefix, d: seq<byte>, h: Header) {
    && p.Valid()
    && EncodePrefix(p) <= d
    && h == Header(p.version, p.dcid, |EncodePrefix(p)|, p.length.value)
    && 32 <= h.length <= |d| - h.pnOffset
  }

  lemma VersionFits(version: nat)
    requires InitialType(version).Some?
    ensures version < Pow256(4)
  {
    Pow256Small();
  }

  lemma StartExact(p: Prefix, rest: seq<byte>)
    requires p.Valid()
    ensures StartOf([p.first] + BeBytes(p.version, 4) + rest) == Got(Start(p.first, p.version), rest)
  {
    hide BeBytes, Be;
    assert [p.first] + BeBytes(p.version, 4) + rest == [p.first] + (BeBytes(p.version, 4) + rest);
    VersionFits(p.version);
    ByteExact(p.first, BeBytes(p.version, 4) + rest);
    NumberExact(p.version, 4, rest);
  }

  lemma CidsExact(p: Prefix, rest: seq<byte>)
    requires p.Valid()
    ensures CidsOf([|p.dcid|] + p.dcid + ([|p.scid|] + p.scid + rest)) == Got(Cids(p.dcid, p.scid), rest)
  {
    CidExact(p.dcid, [|p.scid|] + p.scid + rest);
    CidExact(p.scid, rest);
  }

  lemma LengthExact(p: Prefix, rest: seq<byte>)
    requires p.Valid()
    ensures LengthOf(EncodeTail(p) + rest) == Got(p.length.value, rest)
  {
    hide EncodeVar, VarOf;
    var t := Var(p.tokenPrefix, |p.token|);
    var s2 := EncodeVar(p.length) + rest;
    var s1 := p.token + s2;
    assert EncodeTail(p) + rest == EncodeVar(t) + s1;
    VarRoundTrip(t, s1);
    TakeExact(p.token, s2);
    VarRoundTrip(p.length, rest);
  }

  lemma HeaderComplete(p: Prefix, d: seq<byte>, h: Header)
    requires Describes(p, d, h)
    ensures HeaderOf(d) == Some(h)
  {
    hide StartOf, CidsOf, LengthOf, BeBytes, EncodeTail;
    var s3 := d[|EncodePrefix(p)|..];
    var s2 := EncodeTail(p) + s3;
    var s1 := [|p.dcid|] + p.dcid + ([|p.scid|] + p.scid + s2);
    assert d == EncodePrefix(p) + s3 == [p.first] + BeBytes(p.version, 4) + s1;
    StartExact(p, s1);
    CidsExact(p, s2);
    LengthExact(p, s3);
  }

  lemma StartSound(d: seq<byte>)
    requires StartOf(d).Got?
    ensures var v := StartOf(d).value;
            InitialFirstByte(v.first, v.version) && d == [v.first] + BeBytes(v.version, 4) + StartOf(d).rest
  {
    hide BeBytes, Be;
    BeBytesInverts(d[1..][..4]);
  }

  lemma CidsSound(s: seq<byte>)
    requires CidsOf(s).Got?
    ensures var v := CidsOf(s).value;
            s == [|v.dcid|] + v.dcid + ([|v.scid|] + v.scid + CidsOf(s).rest)
  {
  }

  lemma LengthSound(s: seq<byte>) returns (tokenPrefix: nat, token: seq<byte>, length: Var)
    requires LengthOf(s).Got?
    ensures Var(tokenPrefix, |token|).Valid() && length.Valid()
    ensures LengthOf(s).value == length.value
    ensures s == EncodeVar(Var(tokenPrefix, |token|)) + token + EncodeVar(length) + LengthOf(s).rest
  {
    hide EncodeVar, VarOf;
    VarSound(s);
    tokenPrefix := s[0] / 64;
    var n, s1 := VarOf(s).value, VarOf(s).rest;
    token := s1[..n];
    VarSound(s1[n..]);
    length := Var(s1[n..][0] / 64, VarOf(s1[n..]).value);
    assert s1 == token + s1[n..];
  }

  lemma HeaderSound(d: seq<byte>) returns (p: Prefix)
    requires HeaderOf(d).Some?
    ensures Describes(p, d, HeaderOf(d).value)
  {
    hide EncodeVar, StartOf, CidsOf, LengthOf, BeBytes;
    var start := StartOf(d);
    StartSound(d);
    var cids := CidsOf(start.rest);
    CidsSound(start.rest);
    var tokenPrefix, token, length := LengthSound(cids.rest);
    p := Prefix(start.value.first, start.value.version, cids.value.dcid, cids.value.scid, tokenPrefix, token, length);
    assert d == EncodePrefix(p) + LengthOf(cids.rest).rest;
  }

  /** A header is parsed out of a datagram if and only if the datagram opens with the
  encoding of one and holds the whole packet. */
  lemma HeaderExact(d: seq<byte>, h: Header)
    ensures HeaderOf(d) == Some(h) <==> exists p :: Describes(p, d, h)
  {
    if HeaderOf(d) == Some(h) {
      var p := HeaderSound(d);
    }
    if p :| Describes(p, d, h) {
      HeaderComplete(p, d, h);
    }
  }

  // ----- locality

  /** Appending bytes changes nothing, and every prefix that stops short of the packet's end
  is refused. */
  lemma HeaderLocal(d: seq<byte>, more: seq<byte>)
    requires HeaderOf(d).Some?
    ensures HeaderOf(d + more) == HeaderOf(d)
  {
    var p := HeaderSound(d);
    assert d <= d + more;
    HeaderComplete(p, d + more, HeaderOf(d).value);
  }

  lemma HeaderNeedsWholePacket(d: seq<byte>, cut: nat)
    requires HeaderOf(d).Some?
    requires cut < HeaderOf(d).value.pnOffset + HeaderOf(d).value.length
    requires cut <= |d|
    ensures HeaderOf(d[..cut]).None?
  {
    hide EncodePrefix, StartOf, CidsOf, LengthOf;
    if HeaderOf(d[..cut]).Some? {
      var p := HeaderSound(d[..cut]);
      assert d == d[..cut] + d[cut..];
      HeaderLocal(d[..cut], d[cut..]);
    }
  }
}
