/** Packet protection: header protection removal and the AEAD.

Sections 5.3, 5.4.1 and 5.4.2 of RFC 9001. The cryptographic primitives are parameters. */
module PacketProtection {
  import opened Bits
  import opened Wire
  import opened LongHeader
  import opened Cursor
  import opened Wrappers

  /** A client's Initial keys. */
  datatype KeySet = KeySet(key: seq<byte>, iv: seq<byte>, hp: seq<byte>)

  /** The library code the proxy calls: key derivation, one AES block, AEAD decryption and
  the UTF-8 check; with them `seal`, the encryption a client performs. */
  datatype Primitives = Primitives(
    derive: (nat, seq<byte>) -> KeySet,
    block: (seq<byte>, seq<byte>) -> seq<byte>,
    seal: (seq<byte>, seq<byte>, seq<byte>, seq<byte>) -> seq<byte>,
    decrypt: (seq<byte>, seq<byte>, seq<byte>, seq<byte>) -> Option<seq<byte>>,
    utf8: seq<byte> -> bool)
  {
    /** Block, IV and text sizes, the tag length, and decryption undoing encryption. */
    ghost predicate Lawful() {
      && (forall version, dcid :: |derive(version, dcid).iv| == 12)
      && (forall k, sample :: |block(k, sample)| == 16)
      && (forall k, n, aad, p :: |seal(k, n, aad, p)| == |p| + 16)
      && (forall k, n, aad, p :: decrypt(k, n, aad, seal(k, n, aad, p)) == Some(p))
      && (forall k, n, aad, ct :: decrypt(k, n, aad, ct).Some? ==> |decrypt(k, n, aad, ct).value| <= |ct|)
    }
  }

  function KeysFor(c: Primitives, version: nat, dcid: seq<byte>): Option<KeySet> {
    if version == V1 || version == V2 then Some(c.derive(version, dcid)) else None
  }

  // ----- the specification of opening a packet

  function Nonce(iv: seq<byte>, packetNumber: nat): seq<byte>
    requires |iv| == 12
  {
    iv[..4] + XorBytes(BeBytes(packetNumber, 8), iv[4..])
  }

  function Mask(c: Primitives, keys: KeySet, d: seq<byte>, pnOffset: nat): seq<byte>
    requires pnOffset + 4 + SAMPLE <= |d|
  {
    c.block(keys.hp, d[pnOffset + 4..pnOffset + 4 + SAMPLE])
  }

  function UnmaskedFirst(first: byte, mask: byte): (r: byte)
    ensures r / 16 == first / 16
  {
    XorNibble(first, mask % 16);
    XorByte(first, mask % 16)
  }

  /** The header of packet d with its protection mask applied; applying it twice restores d. */
  function MaskedHeader(d: seq<byte>, pnOffset: nat, pnLen: nat, mask: seq<byte>): (h: seq<byte>)
    requires 0 < pnOffset && pnOffset + pnLen <= |d| && pnLen <= 4 && |mask| == 16
    ensures |h| == pnOffset + pnLen
  {
    [UnmaskedFirst(d[0], mask[0])] + d[1..pnOffset] + XorBytes(d[pnOffset..pnOffset + pnLen], mask[1..])
  }

  function PnLen(first: byte): nat {
    first % 4 + 1
  }

  /** Decryption of a packet that is whole, with the header rebuilt as associated data. */
  function AeadOpen(c: Primitives, keys: KeySet, d: seq<byte>, pnOffset: nat, length: nat): Option<seq<byte>>
    requires c.Lawful() && |keys.iv| == 12 && 0 < pnOffset
    requires pnOffset + 4 + SAMPLE <= |d| && pnOffset + length <= |d|
    requires PnLen(UnmaskedFirst(d[0], Mask(c, keys, d, pnOffset)[0])) <= length
  {
    var mask := Mask(c, keys, d, pnOffset);
    var pnLen := PnLen(UnmaskedFirst(d[0], mask[0]));
    var header := MaskedHeader(d, pnOffset, pnLen, mask);
    c.decrypt(keys.key, Nonce(keys.iv, Be(header[pnOffset..])), header, d[pnOffset + pnLen..pnOffset + length])
  }

  /** The slices the code takes, each of which may be out of range. */
  function Opened(c: Primitives, keys: KeySet, d: seq<byte>, pnOffset: nat, length: nat): Option<seq<byte>>
    requires c.Lawful() && |keys.iv| == 12 && 0 < pnOffset
  {
    if |d| < pnOffset + 4 + SAMPLE then None
    else if length < PnLen(UnmaskedFirst(d[0], Mask(c, keys, d, pnOffset)[0])) then None
    else if |d| < pnOffset + length then None
    else AeadOpen(c, keys, d, pnOffset, length)
  }

  /** Opened, computed the way the machine does it: masks, a copied header, an array nonce. */
  method OpenPacket(c: Primitives, keys: KeySet, datagram: Slice, pnOffset: nat, length: nat)
    returns (plain: Option<seq<byte>>)
    requires c.Lawful() && |keys.iv| == 12 && 0 < pnOffset
    ensures plain == Opened(c, keys, datagram, pnOffset, length)
  {
    hide Be, BeBytes, And, XorByte;
    var sampleAt := pnOffset + 4;
    if sampleAt + SAMPLE > |datagram| {
      return None;
    }
    var mask := c.block(keys.hp, datagram[sampleAt..sampleAt + SAMPLE]);
    LowMasks(mask[0]);
    var first := XorByte(datagram[0], And(mask[0], 0x0f));
    LowMasks(first);
    var pnLen := And(first, 0x03) + 1;
    var header, packetNumber := UnmaskHeader(datagram, pnOffset, pnLen, mask, first);
    var nonce := BuildNonce(keys.iv, packetNumber);
    if pnLen > length || pnOffset + length > |datagram| {
      return None;
    }
    plain := c.decrypt(keys.key, nonce[..], header, datagram[pnOffset + pnLen..pnOffset + length]);
  }

  /** MaskedHeader byte by byte, reading the number off as the loop clears it. */
  method UnmaskHeader(datagram: seq<byte>, pnOffset: nat, pnLen: nat, mask: seq<byte>, first: byte)
    returns (header: seq<byte>, packetNumber: nat)
    requires 0 < pnOffset && pnOffset + pnLen <= |datagram| && pnLen <= 4 && |mask| == 16
    requires first == UnmaskedFirst(datagram[0], mask[0])
    ensures header == MaskedHeader(datagram, pnOffset, pnLen, mask)
    ensures packetNumber == Be(header[pnOffset..])
  {
    assert Be([]) == 0;
    hide Be, Or, Shl64, XorByte, HalfUnmasked, MaskedHeader, UnmaskedFirst, XorBytes;
    ghost var pn := XorBytes(datagram[pnOffset..pnOffset + pnLen], mask[1..]);
    header := datagram[..pnOffset + pnLen][0 := first];
    packetNumber := 0;
    HalfUnmaskedEnds(datagram, pnOffset, first, pn);
    MaskedIsUnmasked(datagram, pnOffset, pnLen, mask);
    for i := 0 to pnLen
      invariant header == HalfUnmasked(datagram, pnOffset, first, pn, i)
      invariant packetNumber == Be(pn[..i])
    {
      HalfUnmaskedStep(datagram, pnOffset, first, pn, i);
      NumberStep(datagram, pnOffset, pnLen, mask, i);
      var b := XorByte(header[pnOffset + i], mask[1 + i]);
      header := header[pnOffset + i := b];
      packetNumber := Or(Shl64(packetNumber, 8), b);
    }
    assert pn[..pnLen] == pn;
  }

  /** The header with its first byte and the first i bytes of the number in the clear. */
  ghost function HalfUnmasked(d: seq<byte>, at: nat, first: byte, pn: seq<byte>, i: nat): (h: seq<byte>)
    requires 0 < at && at + |pn| <= |d| && i <= |pn|
    ensures |h| == at + |pn|
  {
    [first] + d[1..at] + pn[..i] + d[at + i..at + |pn|]
  }

  lemma HalfUnmaskedStep(d: seq<byte>, at: nat, first: byte, pn: seq<byte>, i: nat)
    requires 0 < at && at + |pn| <= |d| && i < |pn|
    ensures HalfUnmasked(d, at, first, pn, i)[at + i] == d[at + i]
    ensures HalfUnmasked(d, at, first, pn, i)[at + i := pn[i]] == HalfUnmasked(d, at, first, pn, i + 1)
  {
  }

  lemma HalfUnmaskedEnds(d: seq<byte>, at: nat, first: byte, pn: seq<byte>)
    requires 0 < at && at + |pn| <= |d|
    ensures d[..at + |pn|][0 := first] == HalfUnmasked(d, at, first, pn, 0)
    ensures HalfUnmasked(d, at, first, pn, |pn|) == [first] + d[1..at] + pn
    ensures HalfUnmasked(d, at, first, pn, |pn|)[at..] == pn
  {
  }

  /** The next byte of the number in the clear, and the number read up to it. */
  lemma NumberStep(d: seq<byte>, pnOffset: nat, pnLen: nat, mask: seq<byte>, i: nat)
    requires 0 < pnOffset && pnOffset + pnLen <= |d| && i < pnLen <= 4 && |mask| == 16
    ensures var pn := XorBytes(d[pnOffset..pnOffset + pnLen], mask[1..]);
            && pn[i] == XorByte(d[pnOffset + i], mask[1 + i])
            && Or(Shl64(Be(pn[..i]), 8), pn[i]) == Be(pn[..i + 1])
  {
    hide Be, Or, Shl64, XorByte;
    var pn := XorBytes(d[pnOffset..pnOffset + pnLen], mask[1..]);
    NextByte(pn[..i], pn[i]);
    assert pn[..i + 1] == pn[..i] + [pn[i]];
  }

  lemma MaskedIsUnmasked(d: seq<byte>, pnOffset: nat, pnLen: nat, mask: seq<byte>)
    requires 0 < pnOffset && pnOffset + pnLen <= |d| && pnLen <= 4 && |mask| == 16
    ensures MaskedHeader(d, pnOffset, pnLen, mask)
         == HalfUnmasked(d, pnOffset, UnmaskedFirst(d[0], mask[0]),
                         XorBytes(d[pnOffset..pnOffset + pnLen], mask[1..]), pnLen)
  {
    hide XorByte, UnmaskedFirst;
    var pn := XorBytes(d[pnOffset..pnOffset + pnLen], mask[1..]);
    assert pn[..pnLen] == pn;
  }

  /** Nonce, in place: eight xors into a copy of the IV. */
  method BuildNonce(iv: seq<byte>, packetNumber: nat) returns (nonce: array<byte>)
    requires |iv| == 12
    ensures nonce[..] == Nonce(iv, packetNumber)
  {
    var bytes := BeBytes(packetNumber, 8);
    nonce := new byte[12](i requires 0 <= i < 12 => iv[i]);
    for i := 0 to 8
      invariant forall k :: 0 <= k < 4 ==> nonce[k] == iv[k]
      invariant forall k :: 0 <= k < i ==> nonce[k + 4] == XorByte(bytes[k], iv[k + 4])
      invariant forall k :: i + 4 <= k < 12 ==> nonce[k] == iv[k]
    {
      XorCommutes(nonce[i + 4], bytes[i]);
      nonce[i + 4] := XorByte(nonce[i + 4], bytes[i]);
    }
  }

  /** Section 5.3 of RFC 9001: the number left-padded to the size of the IV, xored with it. */
  lemma NonceIsPaddedXor(iv: seq<byte>, packetNumber: nat)
    requires |iv| == 12 && packetNumber < U64_LIMIT
    ensures Nonce(iv, packetNumber) == XorBytes(BeBytes(packetNumber, 12), iv)
  {
    hide BeBytes;
    Pow256Small();
    BeBytesPadded(packetNumber, 8, 4);
    forall i | 0 <= i < 12
      ensures Nonce(iv, packetNumber)[i] == XorBytes(BeBytes(packetNumber, 12), iv)[i]
    {
    }
  }

  lemma NextByte(done: seq<byte>, b: byte)
    requires |done| < 4
    ensures Or(Shl64(Be(done), 8), b) == Be(done + [b])
  {
    hide Or, Shl64, Be;
    BeBound(done);
    Pow256Small();
    Pow256Grows(|done|, 4);
    ShiftInByte(Be(done), b);
    BeSnoc(done, b);
  }

  // ----- the packet a client protects

  /** An Initial before protection: its header, its full packet number and its payload. */
  datatype Packet = Packet(prefix: Prefix, pnLen: nat, pn: nat, payload: seq<byte>) {

    ghost predicate Valid() {
      && prefix.Valid()
      && pnLen == PnLen(prefix.first)
      && pn < Pow256(pnLen)
      && prefix.length.value == pnLen + |payload| + 16
      && 32 <= prefix.length.value
    }

    function PnOffset(): nat
      requires |prefix.dcid| <= MAX_CID && |prefix.scid| <= MAX_CID
    {
      |EncodePrefix(prefix)|
    }

    /** The header in the clear, which is the associated data. */
    function Clear(): seq<byte>
      requires |prefix.dcid| <= MAX_CID && |prefix.scid| <= MAX_CID
    {
      EncodePrefix(prefix) + BeBytes(pn, pnLen)
    }
  }

  function Sealed(c: Primitives, p: Packet): (ct: seq<byte>)
    requires c.Lawful() && p.Valid()
    ensures |ct| == |p.payload| + TAG
  {
    var keys := c.derive(p.prefix.version, p.prefix.dcid);
    c.seal(keys.key, Nonce(keys.iv, p.pn), p.Clear(), p.payload)
  }

  function SealMask(c: Primitives, p: Packet): (mask: seq<byte>)
    requires c.Lawful() && p.Valid()
    ensures |mask| == 16
  {
    Mask(c, c.derive(p.prefix.version, p.prefix.dcid), p.Clear() + Sealed(c, p), p.PnOffset())
  }

  /** Seal the payload, sample the ciphertext, and mask the header with it. */
  function Protect(c: Primitives, p: Packet): (d: seq<byte>)
    requires c.Lawful() && p.Valid()
    ensures |d| == p.PnOffset() + p.prefix.length.value
  {
    MaskedHeader(p.Clear(), p.PnOffset(), p.pnLen, SealMask(c, p)) + Sealed(c, p)
  }

  /** Sections 5.3, 5.4.1 and 5.4.2 of RFC 9001, byte by byte: the payload is sealed under the
  AEAD key with the header as associated data; sixteen bytes of the ciphertext, four bytes past
  the start of the packet number, make the mask under the header protection key; its first byte
  goes on the low four bits of the first byte, and the next ones on the packet number. */
  lemma ProtectIsStandard(c: Primitives, p: Packet)
    requires c.Lawful() && p.Valid()
    ensures var d, keys := Protect(c, p), c.derive(p.prefix.version, p.prefix.dcid);
            var at, clear := |EncodePrefix(p.prefix)|, EncodePrefix(p.prefix) + BeBytes(p.pn, p.pnLen);
            var ct := c.seal(keys.key, XorBytes(BeBytes(p.pn, 12), keys.iv), clear, p.payload);
            && p.pnLen == p.prefix.first % 4 + 1 && 0 < at && |ct| >= 20 - p.pnLen
            && var m := c.block(keys.hp, ct[4 - p.pnLen..20 - p.pnLen]);
            && |d| == |clear| + |ct| && |m| == 16
            && d[0] == XorByte(clear[0], m[0] % 16)
            && d[1..at] == clear[1..at]
            && (forall i | at <= i < |clear| :: d[i] == XorByte(clear[i], m[1 + i - at]))
            && d[|clear|..] == ct
  {
    PrefixNotEmpty(p.prefix);
    SealedIsStandard(c, p);
    SealMaskIsStandard(c, p);
    hide Be, BeBytes, XorByte, EncodePrefix, MaskedHeader, Sealed, SealMask, Mask;
    MaskedBytes(p.Clear(), p.PnOffset(), p.pnLen, SealMask(c, p), Sealed(c, p));
  }

  lemma SealedIsStandard(c: Primitives, p: Packet)
    requires c.Lawful() && p.Valid()
    ensures var keys := c.derive(p.prefix.version, p.prefix.dcid);
            Sealed(c, p) == c.seal(keys.key, XorBytes(BeBytes(p.pn, 12), keys.iv), p.Clear(), p.payload)
  {
    hide Be, BeBytes, XorByte, EncodePrefix, Nonce;
    NumberFits(p);
    NonceIsPaddedXor(c.derive(p.prefix.version, p.prefix.dcid).iv, p.pn);
  }

  lemma SealMaskIsStandard(c: Primitives, p: Packet)
    requires c.Lawful() && p.Valid()
    ensures |Sealed(c, p)| >= 20 - p.pnLen && p.pnLen <= 4
    ensures SealMask(c, p)
         == c.block(c.derive(p.prefix.version, p.prefix.dcid).hp, Sealed(c, p)[4 - p.pnLen..20 - p.pnLen])
  {
    hide BeBytes, EncodePrefix, Nonce, Sealed;
    var at, ct, u := p.PnOffset(), Sealed(c, p), p.Clear() + Sealed(c, p);
    assert u[at + 4..at + 20] == ct[4 - p.pnLen..20 - p.pnLen];
  }

  lemma NumberFits(p: Packet)
    requires p.Valid()
    ensures p.pn < U64_LIMIT
  {
    Pow256Small();
    Pow256Grows(p.pnLen, 4);
  }

  lemma MaskedBytes(clear: seq<byte>, at: nat, pnLen: nat, mask: seq<byte>, ct: seq<byte>)
    requires 0 < at && at + pnLen == |clear| && pnLen <= 4 && |mask| == 16
    ensures var d := MaskedHeader(clear, at, pnLen, mask) + ct;
            && |d| == |clear| + |ct| && d[|clear|..] == ct
            && d[0] == XorByte(clear[0], mask[0] % 16) && d[1..at] == clear[1..at]
            && forall i | at <= i < |clear| :: d[i] == XorByte(clear[i], mask[1 + i - at])
  {
    hide XorByte;
    MaskedParts(clear, at, pnLen, mask);
    hide MaskedHeader;
    var number := XorBytes(clear[at..at + pnLen], mask[1..]);
    var d := [XorByte(clear[0], mask[0] % 16)] + clear[1..at] + number + ct;
    assert d[1..at] == clear[1..at];
    forall i | at <= i < |clear| ensures d[i] == XorByte(clear[i], mask[1 + i - at]) {
      assert d[i] == number[i - at];
    }
  }

  /** And opening undoes just that, with the mask made from the datagram's own bytes. */
  lemma OpenedIsStandard(c: Primitives, keys: KeySet, d: seq<byte>, at: nat, length: nat)
    requires c.Lawful() && |keys.iv| == 12 && 0 < at && 20 <= length && at + length <= |d|
    ensures var m := c.block(keys.hp, d[at + 4..at + 20]);
            && |m| == 16
            && var first := XorByte(d[0], m[0] % 16);
               var n := first % 4 + 1;
               var number := XorBytes(d[at..at + n], m[1..]);
               Opened(c, keys, d, at, length)
               == c.decrypt(keys.key, XorBytes(BeBytes(Be(number), 12), keys.iv), [first] + d[1..at] + number,
                            d[at + n..at + length])
  {
    hide Be, BeBytes, XorByte, Nonce, MaskedHeader, XorBytes;
    var m := c.block(keys.hp, d[at + 4..at + 20]);
    var n := XorByte(d[0], m[0] % 16) % 4 + 1;
    MaskedParts(d, at, n, m);
    NumberIsShort(XorBytes(d[at..at + n], m[1..]));
    NonceIsPaddedXor(keys.iv, Be(XorBytes(d[at..at + n], m[1..])));
  }

  lemma MaskedParts(d: seq<byte>, at: nat, n: nat, m: seq<byte>)
    requires 0 < at && at + n <= |d| && n <= 4 && |m| == 16
    ensures MaskedHeader(d, at, n, m) == [XorByte(d[0], m[0] % 16)] + d[1..at] + XorBytes(d[at..at + n], m[1..])
    ensures MaskedHeader(d, at, n, m)[at..] == XorBytes(d[at..at + n], m[1..])
  {
    hide XorByte, XorBytes;
  }

  lemma NumberIsShort(number: seq<byte>)
    requires |number| <= 4
    ensures Be(number) < U64_LIMIT
  {
    BeBound(number);
    Pow256Small();
    Pow256Grows(|number|, 4);
  }

  // ----- opening inverts protecting

  lemma MaskTwice(d: seq<byte>, e: seq<byte>, pnOffset: nat, pnLen: nat, mask: seq<byte>)
    requires 0 < pnOffset && pnOffset + pnLen == |d| && pnLen <= 4 && |mask| == 16
    requires MaskedHeader(d, pnOffset, pnLen, mask) <= e
    ensures UnmaskedFirst(e[0], mask[0]) == d[0]
    ensures MaskedHeader(e, pnOffset, pnLen, mask) == d
  {
    hide Xor;
    var m := MaskedHeader(d, pnOffset, pnLen, mask);
    var number := d[pnOffset..];
    XorBytesSelfInverse(number, mask[1..]);
    XorSelfInverse(d[0], mask[0] % 16);
    assert e[..|m|] == m;
    assert e[pnOffset..pnOffset + pnLen] == m[pnOffset..] == XorBytes(number, mask[1..]);
    assert e[1..pnOffset] == m[1..pnOffset] == d[1..pnOffset];
    assert d == [d[0]] + d[1..pnOffset] + number;
  }

  /** The sample is the same bytes before and after protection, the rebuilt header is the
  associated data, and the number read from it is the packet's. */
  lemma ProtectionRemoved(c: Primitives, p: Packet, more: seq<byte>)
    requires c.Lawful() && p.Valid()
    ensures var d := Protect(c, p) + more;
            var keys := c.derive(p.prefix.version, p.prefix.dcid);
            var mask := Mask(c, keys, d, p.PnOffset());
            && mask == SealMask(c, p)
            && PnLen(UnmaskedFirst(d[0], mask[0])) == p.pnLen
            && MaskedHeader(d, p.PnOffset(), p.pnLen, mask) == p.Clear()
            && Be(p.Clear()[p.PnOffset()..]) == p.pn
  {
    hide Be, BeBytes, Xor, EncodePrefix;
    PrefixNotEmpty(p.prefix);
    var at, mask := p.PnOffset(), SealMask(c, p);
    var d, u := Protect(c, p) + more, p.Clear() + Sealed(c, p);
    assert d[at + 4..at + 4 + SAMPLE] == u[at + 4..at + 4 + SAMPLE];
    MaskTwice(p.Clear(), d, at, p.pnLen, mask);
    assert p.Clear()[at..] == BeBytes(p.pn, p.pnLen);
    BeInverts(p.pn, p.pnLen);
  }

  lemma PrefixNotEmpty(p: Prefix)
    requires p.Valid()
    ensures |EncodePrefix(p)| > 0 && EncodePrefix(p)[0] == p.first
  {
  }

  /** Opening inverts protecting for every mask, IV, packet-number length and number. */
  lemma OpenInvertsProtect(c: Primitives, p: Packet, more: seq<byte>)
    requires c.Lawful() && p.Valid()
    ensures 0 < p.PnOffset()
    ensures Opened(c, c.derive(p.prefix.version, p.prefix.dcid), Protect(c, p) + more,
                   p.PnOffset(), p.prefix.length.value) == Some(p.payload)
  {
    hide Be, BeBytes, XorByte, EncodePrefix, MaskedHeader, Nonce;
    PrefixNotEmpty(p.prefix);
    ProtectionRemoved(c, p, more);
    var d, at := Protect(c, p) + more, p.PnOffset();
    assert d[at + p.pnLen..at + p.prefix.length.value] == Sealed(c, p);
  }

  /** The protected datagram still opens with an Initial's long header, so it is found. */
  lemma ProtectedHeader(c: Primitives, p: Packet, more: seq<byte>)
    requires c.Lawful() && p.Valid()
    ensures HeaderOf(Protect(c, p) + more)
            == Some(Header(p.prefix.version, p.prefix.dcid, p.PnOffset(), p.prefix.length.value))
  {
    hide Be, BeBytes, Xor, EncodeVar, HeaderOf;
    PrefixNotEmpty(p.prefix);
    var d, mask := Protect(c, p) + more, SealMask(c, p);
    var q := p.prefix.(first := UnmaskedFirst(p.prefix.first, mask[0]));
    assert q.first / 64 == q.first / 16 / 4 == 3;
    assert EncodePrefix(q) == [q.first] + AfterFirst(q) && AfterFirst(q) == AfterFirst(p.prefix);
    assert EncodePrefix(p.prefix)[1..] == AfterFirst(p.prefix);
    assert p.Clear()[1..p.PnOffset()] == EncodePrefix(p.prefix)[1..];
    assert EncodePrefix(q) <= d;
    HeaderComplete(q, d, Header(q.version, q.dcid, p.PnOffset(), q.length.value));
  }

  lemma WholePacket(d: seq<byte>, h: Header)
    requires HeaderOf(d) == Some(h)
    ensures 0 < h.pnOffset && SAMPLE + TAG <= h.length && h.pnOffset + h.length <= |d|
  {
    hide EncodePrefix, HeaderOf;
    var p := HeaderSound(d);
    PrefixNotEmpty(p);
  }

  /** Once the header has parsed every slice is in range: only decryption can fail. */
  lemma OnlyDecryptionFails(c: Primitives, keys: KeySet, d: seq<byte>, pnOffset: nat, length: nat)
    requires c.Lawful() && |keys.iv| == 12
    requires exists h :: HeaderOf(d) == Some(h) && h.pnOffset == pnOffset && h.length == length
    ensures 0 < pnOffset && pnOffset + 4 + SAMPLE <= pnOffset + length <= |d|
    ensures Opened(c, keys, d, pnOffset, length) == AeadOpen(c, keys, d, pnOffset, length)
  {
    WholePacket(d, HeaderOf(d).value);
  }

  /** Opening reads nothing behind the packet. */
  lemma OpenLocal(c: Primitives, keys: KeySet, d: seq<byte>, pnOffset: nat, length: nat, more: seq<byte>)
    requires c.Lawful() && |keys.iv| == 12
    requires 0 < pnOffset && 4 + SAMPLE <= length && pnOffset + length <= |d|
    ensures Opened(c, keys, d + more, pnOffset, length) == Opened(c, keys, d, pnOffset, length)
  {
    hide Be, BeBytes, XorByte, Nonce;
    var e := d + more;
    assert e[pnOffset + 4..pnOffset + 4 + SAMPLE] == d[pnOffset + 4..pnOffset + 4 + SAMPLE];
    var pnLen := PnLen(UnmaskedFirst(d[0], Mask(c, keys, d, pnOffset)[0]));
    assert e[1..pnOffset] == d[1..pnOffset] && e[pnOffset..pnOffset + pnLen] == d[pnOffset..pnOffset + pnLen];
    assert e[pnOffset + pnLen..pnOffset + length] == d[pnOffset + pnLen..pnOffset + length];
  }

  /** The laws ask nothing impossible of the primitives: this toy instance obeys them. */
  lemma LawfulPrimitivesExist() returns (c: Primitives)
    ensures c.Lawful()
  {
    var zeros: seq<byte> := seq(16, _ => 0);
    c := Primitives(
      (version, dcid) => KeySet([], zeros[..12], []),
      (k, sample) => zeros,
      (k, n, aad, p) => p + zeros,
      (k, n, aad, ct) => if |ct| < TAG then None else Some(ct[..|ct| - TAG]),
      bs => true);
    forall k, n, aad, p
      ensures c.decrypt(k, n, aad, c.seal(k, n, aad, p)) == Some(p)
    {
      assert (p + zeros)[..|p|] == p;
    }
  }
}
