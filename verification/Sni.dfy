/** The server name in a client's first datagram, from the wire to the host. */
module Sni {
  import opened Bits
  import opened Wire
  import opened LongHeader
  import opened PacketProtection
  import opened Frames
  import opened Reassembly
  import opened Hello
  import opened Knock
  import opened Wrappers

  function PeekedName(c: Primitives, d: seq<byte>): Option<seq<byte>>
    requires c.Lawful()
  {
    var h :- HeaderOf(d);
    var keys :- KeysFor(c, h.version, h.dcid);
    var plain :- Opened(c, keys, d, h.pnOffset, h.length);
    var stream :- CryptoStream(plain);
    ServerNameOf(c.utf8, stream)
  }

  /** The five stages in a row compute PeekedName. */
  method PeekServerName(c: Primitives, datagram: Slice) returns (name: Option<seq<byte>>)
    requires c.Lawful()
    ensures name == PeekedName(c, datagram)
  {
    hide HeaderOf, Opened, CryptoStream, ServerNameOf;
    var h :- ParseLongHeader(datagram);
    WholePacket(datagram, h);
    var keys :- KeysFor(c, h.version, h.dcid);
    var plain :- OpenPacket(c, keys, datagram, h.pnOffset, h.length);
    OpenedFits(c, keys, datagram, h.pnOffset, h.length);
    var stream :- ReassembleCrypto(plain);
    StreamFits(plain);
    name := ClientHelloServerName(c.utf8, stream);
  }

  lemma OpenedFits(c: Primitives, keys: KeySet, d: seq<byte>, pnOffset: nat, length: nat)
    requires c.Lawful() && |keys.iv| == 12 && 0 < pnOffset
    requires Opened(c, keys, d, pnOffset, length).Some?
    ensures |Opened(c, keys, d, pnOffset, length).value| <= |d|
  {
    hide MaskedHeader, Nonce, Be;
  }

  /** A client's first flight: a packet whose payload is a list of frames that carry, in any
  cutting and order, a ClientHello offering a UTF-8 host. */
  ghost predicate Offers(c: Primitives, p: Packet, fs: seq<Frame>, tail: seq<byte>, h: ClientHello) {
    && p.Valid()
    && (forall f <- fs :: f.Valid()) && Ends(tail)
    && p.payload == EncodeFrames(fs) + tail
    && h.Valid() && c.utf8(h.host)
    && Carry(CryptoPieces(fs), EncodeHello(h))
  }

  lemma StreamOffersHost(c: Primitives, p: Packet, fs: seq<Frame>, tail: seq<byte>, h: ClientHello)
    requires Offers(c, p, fs, tail, h)
    ensures CryptoStream(p.payload).Some?
    ensures ServerNameOf(c.utf8, CryptoStream(p.payload).value) == Some(h.host)
  {
    hide EncodeHello, ServerNameOf, Walk, Stream;
    WalkComplete(fs, tail);
    var s, message := Stream(CryptoPieces(fs)), EncodeHello(h);
    StreamStartsWithMessage(CryptoPieces(fs), message);
    assert s == message + s[|message|..];
    HelloComplete(c.utf8, h, s[|message|..]);
    HelloNotEmpty(h);
  }

  lemma HelloNotEmpty(h: ClientHello)
    ensures EncodeHello(h) != []
  {
  }

  /** The proxy reads back exactly the host a client's protected Initial offers, whatever
  follows the packet in its datagram; and the datagram knocks if it is padded to 1200. */
  lemma PeekInvertsClient(c: Primitives, p: Packet, fs: seq<Frame>, tail: seq<byte>, h: ClientHello, more: seq<byte>)
    requires c.Lawful() && Offers(c, p, fs, tail, h)
    ensures PeekedName(c, Protect(c, p) + more) == Some(h.host)
    ensures |Protect(c, p) + more| >= 1200 ==> IsQuicInitial(Protect(c, p) + more)
  {
    hide HeaderOf, Opened, CryptoStream, ServerNameOf, Protect, IsQuicInitial, EncodePrefix;
    ProtectedHeader(c, p, more);
    OpenInvertsProtect(c, p, more);
    StreamOffersHost(c, p, fs, tail, h);
    if |Protect(c, p) + more| >= MIN_INITIAL {
      HeaderKnocks(Protect(c, p) + more);
    }
  }

  /** All the stages of a datagram that a name is read from. */
  ghost predicate Reads(
      c: Primitives, d: seq<byte>, q: Prefix, h: Header, plain: seq<byte>, fs: seq<Frame>, tail: seq<byte>,
      hello: ClientHello)
    requires c.Lawful()
  {
    && Describes(q, d, h) && h.pnOffset > 0
    && Opened(c, c.derive(h.version, h.dcid), d, h.pnOffset, h.length) == Some(plain)
    && MadeOf(plain, fs, tail, CryptoPieces(fs))
    && Opens(hello, Stream(CryptoPieces(fs)))
  }

  /** A name is read off a datagram if and only if it opens with an Initial's header and holds
  the whole packet, the packet opens, its payload is a list of known frames up to its end or a
  foreign type, and their stream opens with a ClientHello offering that name first, in UTF-8. */
  lemma PeekExact(c: Primitives, d: seq<byte>, name: seq<byte>)
    requires c.Lawful()
    ensures PeekedName(c, d) == Some(name)
       <==> c.utf8(name)
            && exists q, h, plain, fs, tail, hello :: Reads(c, d, q, h, plain, fs, tail, hello) && hello.host == name
  {
    if PeekedName(c, d) == Some(name) {
      PeekSound(c, d, name);
    }
    if q, h, plain, fs, tail, hello :|
      c.utf8(name) && Reads(c, d, q, h, plain, fs, tail, hello) && hello.host == name
    {
      PeekComplete(c, d, q, h, plain, fs, tail, hello);
    }
  }

  lemma PeekComplete(
      c: Primitives, d: seq<byte>, q: Prefix, h: Header, plain: seq<byte>, fs: seq<Frame>, tail: seq<byte>,
      hello: ClientHello)
    requires c.Lawful() && Reads(c, d, q, h, plain, fs, tail, hello) && c.utf8(hello.host)
    ensures PeekedName(c, d) == Some(hello.host)
  {
    hide HeaderOf, Opened, Walk, Stream, ServerNameOf, EncodeHello, EncodePrefix;
    HeaderComplete(q, d, h);
    WalkComplete(fs, tail);
    HelloNotEmpty(hello);
    HelloExact(c.utf8, Stream(CryptoPieces(fs)), hello.host);
  }

  lemma PeekSound(c: Primitives, d: seq<byte>, name: seq<byte>)
    requires c.Lawful() && PeekedName(c, d) == Some(name)
    ensures c.utf8(name)
    ensures exists q, h, plain, fs, tail, hello :: Reads(c, d, q, h, plain, fs, tail, hello) && hello.host == name
  {
    hide HeaderOf, Opened, Walk, Stream, ServerNameOf, EncodeHello, EncodePrefix, EncodeFrames, CryptoPieces;
    var h := HeaderOf(d).value;
    var q := HeaderSound(d);
    var plain := Opened(c, c.derive(h.version, h.dcid), d, h.pnOffset, h.length).value;
    var fs, tail := WalkSound(plain);
    HelloExact(c.utf8, Stream(CryptoPieces(fs)), name);
    var hello :| Opens(hello, Stream(CryptoPieces(fs))) && hello.host == name;
    assert Reads(c, d, q, h, plain, fs, tail, hello);
  }

  /** Every ClientHello can be offered so: in one CRYPTO frame of one packet, for either
  version and any connection IDs. */
  lemma EveryHelloCanBeOffered(c: Primitives, version: nat, dcid: seq<byte>, scid: seq<byte>, h: ClientHello)
    returns (p: Packet, fs: seq<Frame>)
    requires InitialType(version).Some? && |dcid| <= MAX_CID && |scid| <= MAX_CID
    requires h.Valid() && c.utf8(h.host)
    ensures Offers(c, p, fs, [], h)
    ensures p.prefix.version == version && p.prefix.dcid == dcid && p.prefix.scid == scid
  {
    hide EncodeHello, EncodeFrames, EncodeVar;
    HelloSize(h);
    var message := EncodeHello(h);
    var f := Crypto(Var(0, 0), 3, message);
    fs := [f];
    OneCarries(f, message);
    var payload := EncodeFrames(fs) + [];
    OneFrameSize(f);
    var length := Var(3, 1 + |payload| + TAG);
    var first: byte := 0xc0 + 16 * InitialType(version).value;
    p := Packet(Prefix(first, version, dcid, scid, 0, [], length), 1, 0, payload);
    assert Pow256(1) == 256;
  }

  lemma HelloSize(h: ClientHello)
    requires h.Valid()
    ensures 34 <= |EncodeHello(h)| < 0x100_0004
  {
  }

  lemma OneFrameSize(f: Frame)
    requires f.Crypto?
    ensures |f.data| <= |EncodeFrames([f])| <= |f.data| + 17
  {
    assert [f][1..] == [];
  }

  lemma OneCarries(f: Frame, message: seq<byte>)
    requires f.Crypto? && f.data == message && f.offset.value == 0
    ensures Carry(CryptoPieces([f]), message)
  {
    assert CryptoPieces([f]) == f.Pieces() + CryptoPieces([f][1..]) == f.Pieces();
    assert Piece(0, message) in f.Pieces();
  }

  /** Only the first packet of a datagram counts: bytes behind it change nothing. */
  lemma PeekIsLocal(c: Primitives, d: seq<byte>, more: seq<byte>)
    requires c.Lawful() && HeaderOf(d).Some?
    ensures PeekedName(c, d + more) == PeekedName(c, d)
  {
    hide HeaderOf, Opened, CryptoStream, ServerNameOf;
    var h := HeaderOf(d).value;
    HeaderLocal(d, more);
    WholePacket(d, h);
    var keys := KeysFor(c, h.version, h.dcid);
    if keys.Some? {
      OpenLocal(c, keys.value, d, h.pnOffset, h.length, more);
    }
  }

  /** And a datagram cut anywhere before that packet's end yields no name. */
  lemma PeekNeedsWholePacket(c: Primitives, d: seq<byte>, cut: nat)
    requires c.Lawful() && HeaderOf(d).Some? && cut <= |d|
    requires cut < HeaderOf(d).value.pnOffset + HeaderOf(d).value.length
    ensures PeekedName(c, d[..cut]).None?
  {
    HeaderNeedsWholePacket(d, cut);
  }
}
