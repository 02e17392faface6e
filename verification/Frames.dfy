/** Walking the frames of an Initial's payload for its CRYPTO data.

Sections 19.1, 19.2, 19.3 and 19.6 of RFC 9000. */
module Frames {
  import opened Bits
  import opened Wire
  import opened Cursor
  import opened Wrappers

  /** The data of one CRYPTO frame and its offset in the handshake stream. */
  datatype Piece = Piece(offset: nat, data: seq<byte>)

  // ----- the format

  datatype Range = Range(gap: Var, length: Var)

  datatype Ecn = Ecn(ect0: Var, ect1: Var, ce: Var)

  datatype Frame =
    | Padding
    | Ping
    | Ack(largest: Var, delay: Var, countPrefix: nat, first: Var, ranges: seq<Range>, ecn: Option<Ecn>)
    | Crypto(offset: Var, lenPrefix: nat, data: seq<byte>)
  {
    ghost predicate Valid() {
      match this
      case Padding => true
      case Ping => true
      case Ack(largest, delay, countPrefix, first, ranges, ecn) =>
        && largest.Valid() && delay.Valid() && first.Valid()
        && Var(countPrefix, |ranges|).Valid()
        && (forall r <- ranges :: r.gap.Valid() && r.length.Valid())
        && (ecn.Some? ==> ecn.value.ect0.Valid() && ecn.value.ect1.Valid() && ecn.value.ce.Valid())
      case Crypto(offset, lenPrefix, data) =>
        offset.Valid() && Var(lenPrefix, |data|).Valid()
    }

    /** What the walk should collect from this frame. */
    function Pieces(): seq<Piece> {
      if Crypto? then [Piece(offset.value, data)] else []
    }
  }

  function EncodeRanges(rs: seq<Range>): seq<byte> {
    if rs == [] then []
    else EncodeVar(rs[0].gap) + (EncodeVar(rs[0].length) + EncodeRanges(rs[1..]))
  }

  function EncodeEcn(e: Option<Ecn>): seq<byte> {
    if e.None? then []
    else EncodeVar(e.value.ect0) + (EncodeVar(e.value.ect1) + EncodeVar(e.value.ce))
  }

  function EncodeFrame(f: Frame): seq<byte> {
    match f
    case Padding => [0x00]
    case Ping => [0x01]
    case Ack(largest, delay, countPrefix, first, ranges, ecn) =>
      [if ecn.Some? then 0x03 else 0x02]
      + (EncodeVar(largest) + (EncodeVar(delay) + (EncodeVar(Var(countPrefix, |ranges|))
      + (EncodeVar(first) + (EncodeRanges(ranges) + EncodeEcn(ecn))))))
    case Crypto(offset, lenPrefix, data) =>
      [0x06] + (EncodeVar(offset) + (EncodeVar(Var(lenPrefix, |data|)) + data))
  }

  function EncodeFrames(fs: seq<Frame>): seq<byte> {
    if fs == [] then [] else EncodeFrame(fs[0]) + EncodeFrames(fs[1..])
  }

  function CryptoPieces(fs: seq<Frame>): seq<Piece> {
    if fs == [] then [] else fs[0].Pieces() + CryptoPieces(fs[1..])
  }

  // ----- the walk

  /** The types the walk has a reader for; any other ends it. */
  predicate Known(kind: byte) {
    kind == 0x00 || kind == 0x01 || kind == 0x02 || kind == 0x03 || kind == 0x06
  }

  function RangesOf(s: seq<byte>, n: nat): (r: Read<()>)
    ensures r.Got? ==> |r.rest| + 2 * n <= |s|
    decreases n
  {
    if n == 0 then Got((), s) else
    var (gap, rest) :- VarOf(s);
    var (length, rest) :- VarOf(rest);
    RangesOf(rest, n - 1)
  }

  function EcnOf(s: seq<byte>): (r: Read<()>)
    ensures r.Got? ==> |r.rest| <= |s|
  {
    var (ect0, rest) :- VarOf(s);
    var (ect1, rest) :- VarOf(rest);
    var (ce, rest) :- VarOf(rest);
    Got((), rest)
  }

  /** An ACK up to its ranges, whose number it returns. */
  function AckHeadOf(s: seq<byte>): (r: Read<nat>)
    ensures r.Got? ==> |r.rest| <= |s|
  {
    var (largest, rest) :- VarOf(s);
    var (delay, rest) :- VarOf(rest);
    var (count, rest) :- VarOf(rest);
    var (first, rest) :- VarOf(rest);
    Got(count, rest)
  }

  function AckOf(s: seq<byte>, ecn: bool): (r: Read<seq<Piece>>)
    ensures r.Got? ==> r.value == [] && |r.rest| <= |s|
  {
    var (count, rest) :- AckHeadOf(s);
    var (_, rest) :- RangesOf(rest, count);
    if ecn then
      var (_, rest) :- EcnOf(rest);
      Got([], rest)
    else Got([], rest)
  }

  function CryptoOf(s: seq<byte>): (r: Read<seq<Piece>>)
    ensures r.Got? ==> |r.rest| + Total(r.value) <= |s|
  {
    var (offset, rest) :- VarOf(s);
    var (n, rest) :- VarOf(rest);
    var (data, rest) :- TakeOf(rest, n);
    Got([Piece(offset, data)], rest)
  }

  /** The bytes of data in a list of pieces. */
  function Total(ps: seq<Piece>): nat {
    if ps == [] then 0 else |ps[0].data| + Total(ps[1..])
  }

  /** The body of a frame of a known type: the pieces it carries. */
  function BodyOf(kind: byte, s: seq<byte>): (r: Read<seq<Piece>>)
    requires Known(kind)
    ensures r.Got? ==> |r.rest| + Total(r.value) <= |s|
  {
    if kind <= 0x01 then Got([], s)
    else if kind <= 0x03 then AckOf(s, kind == 0x03)
    else CryptoOf(s)
  }

  function Prepend(ps: seq<Piece>, more: Option<seq<Piece>>): Option<seq<Piece>> {
    if more.None? then None else Some(ps + more.value)
  }

  lemma PrependLaws(a: seq<Piece>, b: seq<Piece>, m: Option<seq<Piece>>)
    ensures Prepend([], m) == m
    ensures Prepend(a, Prepend(b, m)) == Prepend(a + b, m)
    ensures Prepend(a, Some([])) == Some(a)
  {
    if m.Some? {
      assert [] + m.value == m.value && a + (b + m.value) == a + b + m.value;
    }
    assert a + [] == a;
  }

  /** Nothing when a known frame is cut short; an unknown type ends the walk. */
  function Walk(s: seq<byte>): Option<seq<Piece>>
    decreases |s|
  {
    if s == [] || !Known(s[0]) then Some([])
    else
      var body := BodyOf(s[0], s[1..]);
      if body.Short? then None else Prepend(body.value, Walk(body.rest))
  }

  method SkipRanges(r: Reader, ranges: nat) returns (ok: Option<()>, ghost rounds: nat)
    requires r.Valid()
    modifies r
    ensures r.Follows(RangesOf(old(r.Rest()), ranges), ok)
    ensures 2 * rounds <= |old(r.Rest())|
  {
    hide VarOf, Reader.Rest, Reader.Valid;
    rounds := 0;
    ghost var s := r.Rest();
    for i := 0 to ranges
      invariant r.Valid() && rounds == i && |r.Rest()| + 2 * i <= |s|
      invariant RangesOf(s, ranges) == RangesOf(r.Rest(), ranges - i)
    {
      var gap := r.Varint();
      if gap.None? {
        return None, rounds;
      }
      var length := r.Varint();
      if length.None? {
        return None, rounds;
      }
      rounds := rounds + 1;
    }
    ok := Some(());
  }

  method SkipAck(r: Reader, ecn: bool) returns (ok: Option<()>)
    requires r.Valid()
    modifies r
    ensures r.Valid()
    ensures ok.Some? <==> AckOf(old(r.Rest()), ecn).Got?
    ensures ok.Some? ==> AckOf(old(r.Rest()), ecn) == Got([], r.Rest())
  {
    hide VarOf, Reader.Rest;
    ghost var s := r.Rest();
    var _ :- r.Varint();
    var _ :- r.Varint();
    var ranges :- r.Varint();
    var _ :- r.Varint();
    assert AckHeadOf(s) == Got(ranges, r.Rest());
    hide AckHeadOf;
    var skipped, _ := SkipRanges(r, ranges);
    if skipped.None? {
      return None;
    }
    if ecn {
      var _ :- r.Varint();
      var _ :- r.Varint();
      var _ :- r.Varint();
    }
    ok := Some(());
  }

  /** Collect the CRYPTO frames of a payload. */
  method CollectPieces(payload: Slice) returns (found: Option<seq<Piece>>)
    ensures found == Walk(payload)
  {
    hide VarOf, TakeOf, AckOf, Reader.Rest, Reader.Valid;
    var r := new Reader(payload);
    var pieces: seq<Piece> := [];
    PrependLaws([], [], Walk(payload));
    while true
      invariant fresh(r) && r.Valid()
      invariant Walk(payload) == Prepend(pieces, Walk(r.Rest()))
      decreases |r.Rest()|
    {
      ghost var s, before := r.Rest(), pieces;
      PrependLaws(pieces, [], None);
      var frame := r.U8();
      if frame.None? {
        break;
      }
      var kind := frame.value;
      if kind == 0x00 || kind == 0x01 {
        assert before + [] == before;
      } else if kind == 0x02 || kind == 0x03 {
        var _ :- SkipAck(r, kind == 0x03);
      } else if kind == 0x06 {
        var offset :- r.Varint();
        var len :- r.Varint();
        var data :- r.Take(len);
        pieces := pieces + [Piece(offset, data)];
      } else {
        break;
      }
      PrependLaws(before, BodyOf(kind, s[1..]).value, Walk(r.Rest()));
    }
    found := Some(pieces);
  }

  // ----- the walk inverts the encoder

  lemma {:induction false} RangesExact(rs: seq<Range>, rest: seq<byte>)
    requires forall r <- rs :: r.gap.Valid() && r.length.Valid()
    ensures RangesOf(EncodeRanges(rs) + rest, |rs|) == Got((), rest)
  {
    hide EncodeVar, VarOf;
    if rs == [] {
      assert EncodeRanges(rs) + rest == rest;
    } else {
      var s2 := EncodeRanges(rs[1..]) + rest;
      var s1 := EncodeVar(rs[0].length) + s2;
      assert EncodeRanges(rs) + rest == EncodeVar(rs[0].gap) + s1;
      VarRoundTrip(rs[0].gap, s1);
      VarRoundTrip(rs[0].length, s2);
      RangesExact(rs[1..], rest);
    }
  }

  lemma AckHeadExact(largest: Var, delay: Var, count: Var, first: Var, rest: seq<byte>)
    requires largest.Valid() && delay.Valid() && count.Valid() && first.Valid()
    ensures AckHeadOf(EncodeVar(largest) + (EncodeVar(delay) + (EncodeVar(count) + (EncodeVar(first) + rest))))
            == Got(count.value, rest)
  {
    hide EncodeVar, VarOf;
    var s3 := EncodeVar(first) + rest;
    var s2 := EncodeVar(count) + s3;
    VarRoundTrip(largest, EncodeVar(delay) + s2);
    VarRoundTrip(delay, s2);
    VarRoundTrip(count, s3);
    VarRoundTrip(first, rest);
  }

  lemma EcnExact(e: Ecn, rest: seq<byte>)
    requires e.ect0.Valid() && e.ect1.Valid() && e.ce.Valid()
    ensures EcnOf(EncodeEcn(Some(e)) + rest) == Got((), rest)
  {
    hide EncodeVar, VarOf;
    var s2 := EncodeVar(e.ce) + rest;
    var s1 := EncodeVar(e.ect1) + s2;
    assert EncodeEcn(Some(e)) + rest == EncodeVar(e.ect0) + s1;
    VarRoundTrip(e.ect0, s1);
    VarRoundTrip(e.ect1, s2);
    VarRoundTrip(e.ce, rest);
  }

  lemma AckExact(f: Frame, rest: seq<byte>)
    requires f.Ack? && f.Valid()
    ensures AckOf(EncodeFrame(f)[1..] + rest, f.ecn.Some?) == Got([], rest)
  {
    hide EncodeVar, VarOf, RangesOf, EncodeRanges, EcnOf, EncodeEcn, AckHeadOf;
    var count := Var(f.countPrefix, |f.ranges|);
    var s2 := EncodeEcn(f.ecn) + rest;
    var s1 := EncodeRanges(f.ranges) + s2;
    assert EncodeFrame(f)[1..] + rest
        == EncodeVar(f.largest) + (EncodeVar(f.delay) + (EncodeVar(count) + (EncodeVar(f.first) + s1)));
    AckHeadExact(f.largest, f.delay, count, f.first, s1);
    RangesExact(f.ranges, s2);
    if f.ecn.Some? {
      EcnExact(f.ecn.value, rest);
    } else {
      NoEcn(rest);
    }
  }

  lemma NoEcn(rest: seq<byte>)
    ensures EncodeEcn(None) + rest == rest
  {
  }

  lemma CryptoExact(f: Frame, rest: seq<byte>)
    requires f.Crypto? && f.Valid()
    ensures CryptoOf(EncodeFrame(f)[1..] + rest) == Got(f.Pieces(), rest)
  {
    hide EncodeVar, VarOf;
    var s2 := f.data + rest;
    var s1 := EncodeVar(Var(f.lenPrefix, |f.data|)) + s2;
    assert EncodeFrame(f)[1..] + rest == EncodeVar(f.offset) + s1;
    VarRoundTrip(f.offset, s1);
    VarRoundTrip(Var(f.lenPrefix, |f.data|), s2);
    TakeExact(f.data, rest);
  }

  lemma FrameExact(f: Frame, rest: seq<byte>)
    requires f.Valid()
    ensures |EncodeFrame(f)| > 0 && Known(EncodeFrame(f)[0])
    ensures BodyOf(EncodeFrame(f)[0], EncodeFrame(f)[1..] + rest) == Got(f.Pieces(), rest)
  {
    hide EncodeVar, AckOf, CryptoOf, EncodeRanges, EncodeEcn;
    match f
    case Padding => assert EncodeFrame(f)[1..] + rest == rest;
    case Ping => assert EncodeFrame(f)[1..] + rest == rest;
    case Ack(_, _, _, _, _, _) => AckExact(f, rest);
    case Crypto(_, _, _) => CryptoExact(f, rest);
  }

  lemma {:induction false} WalkOverFrames(fs: seq<Frame>, rest: seq<byte>)
    requires forall f <- fs :: f.Valid()
    ensures Walk(EncodeFrames(fs) + rest) == Prepend(CryptoPieces(fs), Walk(rest))
  {
    hide EncodeFrame, BodyOf;
    if fs == [] {
      assert EncodeFrames(fs) + rest == rest;
      PrependLaws([], [], Walk(rest));
    } else {
      var e, more := EncodeFrame(fs[0]), EncodeFrames(fs[1..]) + rest;
      FrameExact(fs[0], more);
      var s := EncodeFrames(fs) + rest;
      assert s == e + more && s[0] == e[0] && s[1..] == e[1..] + more;
      WalkOverFrames(fs[1..], rest);
      PrependLaws(fs[0].Pieces(), CryptoPieces(fs[1..]), Walk(rest));
    }
  }

  /** The rest of a payload that the walk never looks into. */
  ghost predicate Ends(tail: seq<byte>) {
    tail == [] || !Known(tail[0])
  }

  /** Exactly the CRYPTO frames of any encoded list are collected, in order, and whatever
  follows a frame type the walk does not know is ignored. */
  lemma WalkComplete(fs: seq<Frame>, tail: seq<byte>)
    requires (forall f <- fs :: f.Valid()) && Ends(tail)
    ensures Walk(EncodeFrames(fs) + tail) == Some(CryptoPieces(fs))
  {
    WalkOverFrames(fs, tail);
    PrependLaws(CryptoPieces(fs), [], None);
  }

  // ----- and collects nothing else

  lemma {:induction false} RangesSound(s: seq<byte>, n: nat) returns (rs: seq<Range>)
    requires RangesOf(s, n).Got?
    ensures |rs| == n && forall r <- rs :: r.gap.Valid() && r.length.Valid()
    ensures s == EncodeRanges(rs) + RangesOf(s, n).rest
    decreases n
  {
    hide EncodeVar, VarOf;
    if n == 0 {
      rs := [];
    } else {
      VarSound(s);
      var s1 := VarOf(s).rest;
      VarSound(s1);
      var tail := RangesSound(VarOf(s1).rest, n - 1);
      var r := Range(Var(s[0] / 64, VarOf(s).value), Var(s1[0] / 64, VarOf(s1).value));
      rs := [r] + tail;
      assert rs[1..] == tail;
    }
  }

  lemma AckHeadSound(s: seq<byte>) returns (largest: Var, delay: Var, count: Var, first: Var)
    requires AckHeadOf(s).Got?
    ensures largest.Valid() && delay.Valid() && count.Valid() && first.Valid()
    ensures count.value == AckHeadOf(s).value
    ensures s == EncodeVar(largest) + (EncodeVar(delay) + (EncodeVar(count)
                 + (EncodeVar(first) + AckHeadOf(s).rest)))
  {
    hide EncodeVar, VarOf;
    VarSound(s);
    largest := Var(s[0] / 64, VarOf(s).value);
    var s1 := VarOf(s).rest;
    VarSound(s1);
    delay := Var(s1[0] / 64, VarOf(s1).value);
    var s2 := VarOf(s1).rest;
    VarSound(s2);
    count := Var(s2[0] / 64, VarOf(s2).value);
    var s3 := VarOf(s2).rest;
    VarSound(s3);
    first := Var(s3[0] / 64, VarOf(s3).value);
  }

  lemma EcnSound(s: seq<byte>) returns (e: Ecn)
    requires EcnOf(s).Got?
    ensures e.ect0.Valid() && e.ect1.Valid() && e.ce.Valid()
    ensures s == EncodeEcn(Some(e)) + EcnOf(s).rest
  {
    hide EncodeVar, VarOf;
    VarSound(s);
    var s1 := VarOf(s).rest;
    VarSound(s1);
    var s2 := VarOf(s1).rest;
    VarSound(s2);
    e := Ecn(Var(s[0] / 64, VarOf(s).value), Var(s1[0] / 64, VarOf(s1).value), Var(s2[0] / 64, VarOf(s2).value));
  }

  lemma AckSound(s: seq<byte>, ecn: bool) returns (f: Frame)
    requires AckOf(s, ecn).Got?
    ensures f.Ack? && f.Valid() && f.ecn.Some? == ecn && AckOf(s, ecn).value == []
    ensures [if ecn then 0x03 else 0x02] + s == EncodeFrame(f) + AckOf(s, ecn).rest
  {
    hide EncodeVar, VarOf, AckHeadOf, RangesOf, EncodeRanges, EcnOf, EncodeEcn;
    var largest, delay, count, first := AckHeadSound(s);
    var s1 := AckHeadOf(s).rest;
    var rs := RangesSound(s1, count.value);
    var s2, ecns := RangesOf(s1, count.value).rest, None;
    if ecn {
      var e := EcnSound(s2);
      ecns := Some(e);
    } else {
      NoEcn(s2);
    }
    var rest := AckOf(s, ecn).rest;
    assert s2 == EncodeEcn(ecns) + rest;
    f := Ack(largest, delay, count.prefix, first, rs, ecns);
    assert count == Var(count.prefix, |rs|);
    AckJoin(largest, delay, count, first, rs, ecns, rest);
  }

  /** The encoding of an ACK with bytes behind it, the way the reader meets it. */
  lemma AckJoin(largest: Var, delay: Var, count: Var, first: Var, rs: seq<Range>, ecn: Option<Ecn>, rest: seq<byte>)
    requires count.value == |rs|
    ensures EncodeFrame(Ack(largest, delay, count.prefix, first, rs, ecn)) + rest
         == [if ecn.Some? then 0x03 else 0x02] + (EncodeVar(largest) + (EncodeVar(delay) + (EncodeVar(count)
            + (EncodeVar(first) + (EncodeRanges(rs) + (EncodeEcn(ecn) + rest))))))
  {
    hide EncodeVar, EncodeRanges, EncodeEcn;
    assert count == Var(count.prefix, |rs|);
    var e5 := EncodeRanges(rs) + EncodeEcn(ecn);
    var e4 := EncodeVar(first) + e5;
    var e3 := EncodeVar(count) + e4;
    var e2 := EncodeVar(delay) + e3;
    Regroup(EncodeRanges(rs), EncodeEcn(ecn), rest);
    Regroup(EncodeVar(first), e5, rest);
    Regroup(EncodeVar(count), e4, rest);
    Regroup(EncodeVar(delay), e3, rest);
    Regroup(EncodeVar(largest), e2, rest);
    Regroup([if ecn.Some? then 0x03 else 0x02], EncodeVar(largest) + e2, rest);
  }

  lemma Regroup(a: seq<byte>, b: seq<byte>, c: seq<byte>)
    ensures a + b + c == a + (b + c)
  {
  }

  lemma CryptoSound(s: seq<byte>) returns (f: Frame)
    requires CryptoOf(s).Got?
    ensures f.Crypto? && f.Valid() && CryptoOf(s).value == f.Pieces()
    ensures [0x06] + s == EncodeFrame(f) + CryptoOf(s).rest
  {
    hide EncodeVar, VarOf;
    VarSound(s);
    var s1 := VarOf(s).rest;
    VarSound(s1);
    var n, s2 := VarOf(s1).value, VarOf(s1).rest;
    var offset, len := Var(s[0] / 64, VarOf(s).value), Var(s1[0] / 64, n);
    f := Crypto(offset, len.prefix, s2[..n]);
    assert s2 == s2[..n] + s2[n..];
    assert EncodeFrame(f) == [0x06] + (EncodeVar(offset) + (EncodeVar(len) + s2[..n]));
  }

  lemma BodySound(kind: byte, s: seq<byte>) returns (f: Frame)
    requires Known(kind) && BodyOf(kind, s).Got?
    ensures f.Valid() && BodyOf(kind, s).value == f.Pieces()
    ensures [kind] + s == EncodeFrame(f) + BodyOf(kind, s).rest
  {
    PlainFrames();
    hide EncodeFrame, AckOf, CryptoOf;
    if kind == 0x00 {
      f := Padding;
    } else if kind == 0x01 {
      f := Ping;
    } else if kind == 0x06 {
      f := CryptoSound(s);
    } else {
      f := AckSound(s, kind == 0x03);
    }
  }

  lemma {:induction false} WalkSound(s: seq<byte>) returns (fs: seq<Frame>, tail: seq<byte>)
    requires Walk(s).Some?
    ensures (forall f <- fs :: f.Valid()) && Ends(tail)
    ensures s == EncodeFrames(fs) + tail && Walk(s).value == CryptoPieces(fs)
    decreases |s|
  {
    WalkUnfolds(s);
    hide EncodeFrame, BodyOf, Walk;
    if s == [] || !Known(s[0]) {
      fs, tail := [], s;
    } else {
      hide EncodeFrames, CryptoPieces;
      var f := BodySound(s[0], s[1..]);
      var more;
      more, tail := WalkSound(BodyOf(s[0], s[1..]).rest);
      fs := [f] + more;
      FramesCons(f, more);
      assert s == [s[0]] + s[1..];
    }
  }

  lemma WalkUnfolds(s: seq<byte>)
    ensures s == [] || !Known(s[0]) ==> Walk(s) == Some([])
    ensures s != [] && Known(s[0]) && Walk(s).Some? ==>
              var body := BodyOf(s[0], s[1..]);
              && body.Got? && |body.rest| < |s|
              && Walk(body.rest).Some? && Walk(s).value == body.value + Walk(body.rest).value
  {
    hide BodyOf;
  }

  lemma FramesCons(f: Frame, more: seq<Frame>)
    ensures EncodeFrames([f] + more) == EncodeFrame(f) + EncodeFrames(more)
    ensures CryptoPieces([f] + more) == f.Pieces() + CryptoPieces(more)
  {
    hide EncodeFrame;
    assert ([f] + more)[1..] == more;
  }

  lemma PlainFrames()
    ensures EncodeFrame(Padding) == [0x00] && EncodeFrame(Ping) == [0x01]
  {
  }

  /** The frames and tail a payload is made of, and the pieces it yields. */
  ghost predicate MadeOf(s: seq<byte>, fs: seq<Frame>, tail: seq<byte>, ps: seq<Piece>) {
    && (forall f <- fs :: f.Valid()) && Ends(tail)
    && s == EncodeFrames(fs) + tail && ps == CryptoPieces(fs)
  }

  /** A payload yields these pieces if and only if it is a list of the five known frames,
  carrying exactly them, up to its end or to a foreign frame type. */
  lemma WalkExact(s: seq<byte>, ps: seq<Piece>)
    ensures Walk(s) == Some(ps) <==> exists fs, tail :: MadeOf(s, fs, tail, ps)
  {
    hide Walk, EncodeFrames, CryptoPieces;
    if Walk(s) == Some(ps) {
      var fs, tail := WalkSound(s);
      assert MadeOf(s, fs, tail, ps);
    }
    if fs, tail :| MadeOf(s, fs, tail, ps) {
      WalkComplete(fs, tail);
    }
  }

  /** However large its declared count, an ACK with more ranges than half the remaining
  bytes is refused. */
  lemma AckCountBounded(s: seq<byte>, ecn: bool)
    requires AckHeadOf(s).Got? && 2 * AckHeadOf(s).value > |AckHeadOf(s).rest|
    ensures AckOf(s, ecn).Short?
  {
  }
}
