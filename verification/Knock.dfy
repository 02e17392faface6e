/** Recognising a client's arrival from the shape of its first datagram. */
module Knock {
  import opened Bits
  import opened LongHeader

  const MIN_INITIAL: nat := 1200

  /** Long enough, and starting with the first byte and version of an Initial of either version. */
  predicate IsQuicInitial(d: seq<byte>) {
    && |d| >= MIN_INITIAL
    && ((d[1..5] == [0x00, 0x00, 0x00, 0x01] && And(d[0], 0xf0) == 0xc0)
        || (d[1..5] == [0x6b, 0x33, 0x43, 0xcf] && And(d[0], 0xf0) == 0xd0))
  }

  /** The two masks and byte strings say what the header reader says: an Initial's first byte
  and a version that is known. */
  lemma KnockIsInitialStart(d: seq<byte>)
    requires |d| >= 5
    ensures IsQuicInitial(d) <==> |d| >= 1200 && InitialFirstByte(d[0], Be(d[1..5]))
  {
    HighMasks(d[0]);
    VersionBytes();
    BeBytesInverts(d[1..5]);
    hide And, Be, BeBytes;
    assert d[0] / 16 / 4 == d[0] / 64;
  }

  lemma VersionBytes()
    ensures BeBytes(V1, 4) == [0x00, 0x00, 0x00, 0x01] && Be([0x00, 0x00, 0x00, 0x01]) == V1
    ensures BeBytes(V2, 4) == [0x6b, 0x33, 0x43, 0xcf] && Be([0x6b, 0x33, 0x43, 0xcf]) == V2
  {
    Pow256Small();
    assert BeBytes(V1, 4) == [0x00, 0x00, 0x00, 0x01];
    assert BeBytes(V2, 4) == [0x6b, 0x33, 0x43, 0xcf];
    BeInverts(V1, 4);
    BeInverts(V2, 4);
  }

  /** Whatever the header reader accepts is a knock, once it is padded like a client's. */
  lemma HeaderKnocks(d: seq<byte>)
    requires HeaderOf(d).Some? && |d| >= MIN_INITIAL
    ensures IsQuicInitial(d)
  {
    hide IsQuicInitial, Be, CidsOf, LengthOf, And;
    KnockIsInitialStart(d);
    assert d[1..][..4] == d[1..5];
  }
}
