/** Joining CRYPTO fragments into the start of the handshake stream. */
module Reassembly {
  import opened Bits
  import opened Wire
  import opened Frames
  import opened Wrappers

  ghost predicate Covers(p: Piece, i: nat) {
    p.offset <= i < p.offset + |p.data|
  }

  /** Some fragment carries the byte at offset i. */
  ghost predicate Covered(ps: seq<Piece>, i: nat) {
    exists p <- ps :: Covers(p, i)
  }

  /** Some fragment says the byte at offset i is b. */
  ghost predicate Says(ps: seq<Piece>, i: nat, b: byte) {
    exists p <- ps :: Covers(p, i) && p.data[i - p.offset] == b
  }

  /** No fragment contradicts what m says. */
  ghost predicate AgreesWith(ps: seq<Piece>, m: nat -> byte) {
    forall p <- ps, i: nat | Covers(p, i) :: p.data[i - p.offset] == m(i)
  }

  // ----- the library's stable sort by offset

  ghost predicate Sorted(ps: seq<Piece>) {
    forall i, j | 0 <= i < j < |ps| :: ps[i].offset <= ps[j].offset
  }

  function Insert(p: Piece, ps: seq<Piece>): seq<Piece> {
    if ps == [] || p.offset <= ps[0].offset then [p] + ps
    else [ps[0]] + Insert(p, ps[1..])
  }

  function SortByOffset(ps: seq<Piece>): seq<Piece> {
    if ps == [] then [] else Insert(ps[0], SortByOffset(ps[1..]))
  }

  lemma {:induction false} InsertSorts(p: Piece, ps: seq<Piece>)
    requires Sorted(ps)
    ensures Sorted(Insert(p, ps))
    ensures forall q :: q in Insert(p, ps) <==> q == p || q in ps
  {
    if ps != [] && p.offset > ps[0].offset {
      InsertSorts(p, ps[1..]);
      var rest := Insert(p, ps[1..]);
      assert ps == [ps[0]] + ps[1..];
      forall j | 0 <= j < |rest| ensures ps[0].offset <= rest[j].offset {
        assert rest[j] in rest;
        if rest[j] != p {
          var k :| 0 <= k < |ps[1..]| && ps[1..][k] == rest[j];
        }
      }
    }
  }

  lemma {:induction false} InsertKeeps(p: Piece, ps: seq<Piece>)
    ensures multiset(Insert(p, ps)) == multiset(ps) + multiset{p}
  {
    if ps != [] && p.offset > ps[0].offset {
      InsertKeeps(p, ps[1..]);
      assert ps == [ps[0]] + ps[1..];
    }
  }

  lemma {:induction false} SortSorts(ps: seq<Piece>)
    ensures Sorted(SortByOffset(ps))
    ensures forall q :: q in SortByOffset(ps) <==> q in ps
    ensures multiset(SortByOffset(ps)) == multiset(ps)
  {
    if ps != [] {
      SortSorts(ps[1..]);
      InsertSorts(ps[0], SortByOffset(ps[1..]));
      InsertKeeps(ps[0], SortByOffset(ps[1..]));
      assert ps == [ps[0]] + ps[1..];
    }
  }

  function AtOffset(ps: seq<Piece>, o: nat): seq<Piece> {
    if ps == [] then []
    else (if ps[0].offset == o then [ps[0]] else []) + AtOffset(ps[1..], o)
  }

  lemma AtOffsetCons(p: Piece, ps: seq<Piece>, o: nat)
    ensures AtOffset([p] + ps, o) == AtOffset([p], o) + AtOffset(ps, o)
    ensures AtOffset([p], o) == if p.offset == o then [p] else []
  {
    assert ([p] + ps)[1..] == ps;
    assert [p][1..] == [];
  }

  lemma {:induction false} InsertStable(p: Piece, ps: seq<Piece>, o: nat)
    ensures AtOffset(Insert(p, ps), o) == AtOffset([p], o) + AtOffset(ps, o)
  {
    hide AtOffset;
    if ps == [] || p.offset <= ps[0].offset {
      AtOffsetCons(p, ps, o);
    } else {
      var q, rest := ps[0], ps[1..];
      InsertStable(p, rest, o);
      assert ps == [q] + rest && Insert(p, ps) == [q] + Insert(p, rest);
      hide Insert;
      AtOffsetCons(q, Insert(p, rest), o);
      AtOffsetCons(q, rest, o);
      AtOffsetCons(p, [], o);
    }
  }

  /** Fragments at one offset keep their order of arrival. */
  lemma {:induction false} SortIsStable(ps: seq<Piece>, o: nat)
    ensures AtOffset(SortByOffset(ps), o) == AtOffset(ps, o)
  {
    if ps != [] {
      SortIsStable(ps[1..], o);
      InsertStable(ps[0], SortByOffset(ps[1..]), o);
      AtOffsetCons(ps[0], ps[1..], o);
      assert ps == [ps[0]] + ps[1..];
    }
  }

  lemma {:induction false} AtOffsetOf(ps: seq<Piece>, o: nat, q: Piece)
    ensures q in AtOffset(ps, o) <==> q in ps && q.offset == o
  {
    if ps != [] {
      AtOffsetOf(ps[1..], o, q);
      assert ps == [ps[0]] + ps[1..];
    }
  }

  lemma BothEmpty(ps: seq<Piece>, qs: seq<Piece>)
    requires forall o: nat :: AtOffset(ps, o) == AtOffset(qs, o)
    ensures ps == [] ==> qs == []
  {
    if qs != [] {
      AtOffsetOf(qs, qs[0].offset, qs[0]);
      AtOffsetOf(ps, qs[0].offset, qs[0]);
      assert AtOffset(ps, qs[0].offset) == AtOffset(qs, qs[0].offset);
    }
  }

  /** Order and stability leave no choice, so whatever stable sort the library uses, its answer
  is SortByOffset's. */
  lemma {:induction false} StableSortIsUnique(ps: seq<Piece>, qs: seq<Piece>)
    requires Sorted(ps) && Sorted(qs) && forall o: nat :: AtOffset(ps, o) == AtOffset(qs, o)
    ensures ps == qs
  {
    BothEmpty(ps, qs);
    BothEmpty(qs, ps);
    if ps != [] {
      SmallestFirst(ps, qs);
      SmallestFirst(qs, ps);
      var o := ps[0].offset;
      assert AtOffset(ps, o) == AtOffset(qs, o);
      assert AtOffset(ps, o)[0] == ps[0] && AtOffset(qs, o)[0] == qs[0];
      forall o': nat ensures AtOffset(ps[1..], o') == AtOffset(qs[1..], o') {
        assert AtOffset(ps, o') == AtOffset(qs, o');
        SameTails(AtOffset([ps[0]], o'), AtOffset(ps[1..], o'), AtOffset(qs[1..], o'));
        AtOffsetCons(ps[0], ps[1..], o');
        AtOffsetCons(qs[0], qs[1..], o');
        assert ps == [ps[0]] + ps[1..] && qs == [qs[0]] + qs[1..];
      }
      StableSortIsUnique(ps[1..], qs[1..]);
      assert ps == [ps[0]] + ps[1..] && qs == [qs[0]] + qs[1..];
    }
  }

  lemma SameTails(a: seq<Piece>, x: seq<Piece>, y: seq<Piece>)
    ensures a + x == a + y ==> x == y
  {
    assert (a + x)[|a|..] == x && (a + y)[|a|..] == y;
  }

  lemma SmallestFirst(ps: seq<Piece>, qs: seq<Piece>)
    requires ps != [] && qs != [] && Sorted(qs) && forall o: nat :: AtOffset(ps, o) == AtOffset(qs, o)
    ensures qs[0].offset <= ps[0].offset
  {
    AtOffsetOf(ps, ps[0].offset, ps[0]);
    AtOffsetOf(qs, ps[0].offset, ps[0]);
    assert AtOffset(ps, ps[0].offset) == AtOffset(qs, ps[0].offset);
  }

  /** What a stable sort by offset promises. */
  ghost predicate StablySorts(ps: seq<Piece>, qs: seq<Piece>) {
    Sorted(qs) && forall o: nat :: AtOffset(qs, o) == AtOffset(ps, o)
  }

  /** A list is SortByOffset's answer if and only if it is ordered and stable. */
  lemma SortIsTheStableSort(ps: seq<Piece>, qs: seq<Piece>)
    ensures qs == SortByOffset(ps) <==> StablySorts(ps, qs)
  {
    SortSorts(ps);
    forall o: nat ensures AtOffset(SortByOffset(ps), o) == AtOffset(ps, o) {
      SortIsStable(ps, o);
    }
    assert StablySorts(ps, SortByOffset(ps));
    if StablySorts(ps, qs) {
      StableSortIsUnique(qs, SortByOffset(ps));
    }
  }

  // ----- appending what is new, up to the first hole

  function Extend(have: seq<byte>, p: Piece): seq<byte>
    requires p.offset <= |have|
  {
    var skip := |have| - p.offset;
    if skip <= |p.data| then have + p.data[skip..] else have
  }

  function Assemble(have: seq<byte>, ps: seq<Piece>): seq<byte>
    decreases |ps|
  {
    if ps == [] || ps[0].offset > |have| then have
    else Assemble(Extend(have, ps[0]), ps[1..])
  }

  function Stream(ps: seq<Piece>): seq<byte> {
    Assemble([], SortByOffset(ps))
  }

  /** What the proxy makes of a payload: nothing if the stream's first byte is missing. */
  function CryptoStream(payload: seq<byte>): Option<seq<byte>> {
    var ps := Walk(payload);
    if ps.None? || Stream(ps.value) == [] then None else Some(Stream(ps.value))
  }

  /** CryptoStream: collect, sort, and append each fragment's new bytes until a hole. */
  method ReassembleCrypto(payload: Slice) returns (stream: Option<seq<byte>>)
    ensures stream == CryptoStream(payload)
  {
    hide Walk, SortByOffset;
    var found :- CollectPieces(payload);
    var pieces := SortByOffset(found);
    var crypto: seq<byte> := [];
    var i := 0;
    assert pieces[0..] == pieces;
    while i < |pieces|
      invariant 0 <= i <= |pieces|
      invariant Stream(found) == Assemble(crypto, pieces[i..])
    {
      var have := |crypto|;
      if pieces[i].offset > have {
        break;
      }
      var skip := have - pieces[i].offset;
      if skip <= |pieces[i].data| {
        crypto := crypto + pieces[i].data[skip..];
      }
      assert pieces[i..][1..] == pieces[i + 1..];
      i := i + 1;
    }
    stream := if crypto == [] then None else Some(crypto);
  }

  // ----- the stream is no longer than the payload

  lemma {:induction false} TotalOfConcat(a: seq<Piece>, b: seq<Piece>)
    ensures Total(a + b) == Total(a) + Total(b)
  {
    if a == [] {
      assert a + b == b;
    } else {
      assert (a + b)[1..] == a[1..] + b;
      TotalOfConcat(a[1..], b);
    }
  }

  lemma {:induction false} WalkTotal(s: seq<byte>)
    requires Walk(s).Some?
    ensures Total(Walk(s).value) <= |s|
    decreases |s|
  {
    hide BodyOf;
    if s != [] && Known(s[0]) {
      var body := BodyOf(s[0], s[1..]);
      WalkTotal(body.rest);
      TotalOfConcat(body.value, Walk(body.rest).value);
    }
  }

  lemma {:induction false} InsertTotal(p: Piece, ps: seq<Piece>)
    ensures Total(Insert(p, ps)) == |p.data| + Total(ps)
  {
    if ps == [] || p.offset <= ps[0].offset {
      assert ([p] + ps)[1..] == ps;
    } else {
      assert ([ps[0]] + Insert(p, ps[1..]))[1..] == Insert(p, ps[1..]);
      InsertTotal(p, ps[1..]);
    }
  }

  lemma {:induction false} SortTotal(ps: seq<Piece>)
    ensures Total(SortByOffset(ps)) == Total(ps)
  {
    if ps != [] {
      SortTotal(ps[1..]);
      InsertTotal(ps[0], SortByOffset(ps[1..]));
    }
  }

  lemma {:induction false} AssembleTotal(have: seq<byte>, ps: seq<Piece>)
    ensures |Assemble(have, ps)| <= |have| + Total(ps)
    decreases |ps|
  {
    if ps != [] && ps[0].offset <= |have| {
      AssembleTotal(Extend(have, ps[0]), ps[1..]);
    }
  }

  /** So a stream fits wherever its payload did. */
  lemma StreamFits(payload: seq<byte>)
    requires CryptoStream(payload).Some?
    ensures |CryptoStream(payload).value| <= |payload|
  {
    var ps := Walk(payload).value;
    WalkTotal(payload);
    SortTotal(ps);
    AssembleTotal([], SortByOffset(ps));
  }

  // ----- the result, whatever the order, duplication, overlap or cutting

  lemma ExtendLengths(have: seq<byte>, p: Piece)
    requires p.offset <= |have|
    ensures have <= Extend(have, p)
    ensures |Extend(have, p)| >= p.offset + |p.data|
    ensures forall i | |have| <= i < |Extend(have, p)| :: Covers(p, i) && Extend(have, p)[i] == p.data[i - p.offset]
  {
  }

  lemma {:induction false} AssembleStopsAtHole(have: seq<byte>, ps: seq<Piece>)
    requires Sorted(ps)
    ensures have <= Assemble(have, ps)
    ensures !Covered(ps, |Assemble(have, ps)|)
    ensures forall i | |have| <= i < |Assemble(have, ps)| :: Says(ps, i, Assemble(have, ps)[i])
    decreases |ps|
  {
    if ps != [] && ps[0].offset <= |have| {
      var p, more := ps[0], Extend(have, ps[0]);
      ExtendLengths(have, p);
      AssembleStopsAtHole(more, ps[1..]);
      var r := Assemble(have, ps);
      forall i | |have| <= i < |r| ensures Says(ps, i, r[i]) {
        if i < |more| {
          assert r[i] == more[i];
        } else {
          assert Says(ps[1..], i, r[i]);
          var q :| q in ps[1..] && Covers(q, i) && q.data[i - q.offset] == r[i];
        }
      }
      forall q | q in ps ensures !Covers(q, |r|) {
        if q != p {
          assert q in ps[1..];
        }
      }
    }
  }

  /** The stream is a run of bytes the fragments carry, and the byte after it is one that no
  fragment carries. Nothing is assumed of the fragments. */
  lemma StreamIsLongestRun(ps: seq<Piece>)
    ensures forall i | 0 <= i < |Stream(ps)| :: Covered(ps, i) && Says(ps, i, Stream(ps)[i])
    ensures !Covered(ps, |Stream(ps)|)
  {
    var sorted := SortByOffset(ps);
    SortSorts(ps);
    AssembleStopsAtHole([], sorted);
    var r := Stream(ps);
    forall i | 0 <= i < |r| ensures Covered(ps, i) && Says(ps, i, r[i]) {
      assert Says(sorted, i, r[i]);
    }
  }

  /** The first of the fragments that covers offset i. */
  ghost function FirstCovering(ps: seq<Piece>, i: nat): (p: Piece)
    requires Covered(ps, i)
    ensures p in ps && Covers(p, i)
  {
    if Covers(ps[0], i) then ps[0]
    else
      var q :| q in ps && Covers(q, i);
      assert q in ps[1..];
      FirstCovering(ps[1..], i)
  }

  /** Each new byte is the one the first fragment covering it carries. */
  ghost predicate FirstSays(ps: seq<Piece>, i: nat, b: byte) {
    Covered(ps, i) && var p := FirstCovering(ps, i); p.data[i - p.offset] == b
  }

  lemma FirstSaysLater(ps: seq<Piece>, i: nat, b: byte)
    requires ps != [] && !Covers(ps[0], i) && FirstSays(ps[1..], i, b)
    ensures FirstSays(ps, i, b)
  {
    var p := FirstCovering(ps[1..], i);
    assert p in ps;
  }

  lemma {:induction false} AssembleTakesFirst(have: seq<byte>, ps: seq<Piece>)
    ensures have <= Assemble(have, ps)
    ensures forall i | |have| <= i < |Assemble(have, ps)| :: FirstSays(ps, i, Assemble(have, ps)[i])
    decreases |ps|
  {
    if ps != [] && ps[0].offset <= |have| {
      var p, more := ps[0], Extend(have, ps[0]);
      ExtendLengths(have, p);
      AssembleTakesFirst(more, ps[1..]);
      var r := Assemble(have, ps);
      forall i | |have| <= i < |r| ensures FirstSays(ps, i, r[i]) {
        if i < |more| {
          assert r[i] == more[i] && p in ps;
        } else {
          FirstSaysLater(ps, i, r[i]);
        }
      }
    }
  }

  /** It runs as far as the fragments cover without a gap, and each byte is that of the first
  fragment in the second list that covers it. */
  ghost predicate FirstComeRun(ps: seq<Piece>, sorted: seq<Piece>, r: seq<byte>) {
    !Covered(ps, |r|) && forall i | 0 <= i < |r| :: Covered(ps, i) && FirstSays(sorted, i, r[i])
  }

  lemma OneFirstComeRun(ps: seq<Piece>, sorted: seq<Piece>, r: seq<byte>, s: seq<byte>)
    requires FirstComeRun(ps, sorted, r) && FirstComeRun(ps, sorted, s)
    ensures r == s
  {
    hide Covered;
    var m: nat, n: nat := |s|, |r|;
    assert m < n ==> Covered(ps, m);
    assert n < m ==> Covered(ps, n);
    forall i | 0 <= i < n ensures s[i] == r[i] {
      assert FirstSays(sorted, i, s[i]) && FirstSays(sorted, i, r[i]);
    }
  }

  /** Even for fragments that disagree the result is fixed: every byte is the one carried by the
  first fragment covering it, by offset and then by arrival. */
  lemma StreamIsFirstCome(ps: seq<Piece>, r: seq<byte>)
    ensures Stream(ps) == r <==> FirstComeRun(ps, SortByOffset(ps), r)
  {
    StreamIsLongestRun(ps);
    AssembleTakesFirst([], SortByOffset(ps));
    assert FirstComeRun(ps, SortByOffset(ps), Stream(ps));
    if FirstComeRun(ps, SortByOffset(ps), r) {
      OneFirstComeRun(ps, SortByOffset(ps), r, Stream(ps));
    }
  }

  ghost predicate SameCoverage(ps: seq<Piece>, qs: seq<Piece>) {
    forall i: nat :: Covered(ps, i) <==> Covered(qs, i)
  }

  /** Even fragments that disagree give a length that only depends on what they cover. */
  lemma LengthDependsOnCoverage(ps: seq<Piece>, qs: seq<Piece>)
    requires SameCoverage(ps, qs)
    ensures |Stream(ps)| == |Stream(qs)|
  {
    StreamIsLongestRun(ps);
    StreamIsLongestRun(qs);
    var m, n := |Stream(ps)|, |Stream(qs)|;
    assert Covered(ps, m) <==> Covered(qs, m);
    assert Covered(ps, n) <==> Covered(qs, n);
  }

  /** Fragments that agree with one map from offset to byte reassemble to that map's longest
  contiguous run from zero, and to nothing else. */
  lemma StreamFollowsMap(ps: seq<Piece>, m: nat -> byte, r: seq<byte>)
    requires AgreesWith(ps, m)
    ensures Stream(ps) == r
       <==> !Covered(ps, |r|) && forall i | 0 <= i < |r| :: Covered(ps, i) && r[i] == m(i)
  {
    StreamIsLongestRun(ps);
    var s := Stream(ps);
    var k: nat, n: nat := |s|, |r|;
    forall i | 0 <= i < |s| ensures s[i] == m(i) {
      assert Says(ps, i, s[i]);
    }
    if !Covered(ps, |r|) && forall i | 0 <= i < |r| :: Covered(ps, i) && r[i] == m(i) {
      assert n < k ==> Covered(ps, n);
      assert k < n ==> Covered(ps, k);
    }
  }

  lemma StreamIsCanonical(ps: seq<Piece>, qs: seq<Piece>, m: nat -> byte)
    requires SameCoverage(ps, qs) && AgreesWith(ps, m) && AgreesWith(qs, m)
    ensures Stream(ps) == Stream(qs)
  {
    LengthDependsOnCoverage(ps, qs);
    StreamFollowsMap(ps, m, Stream(ps));
    StreamFollowsMap(qs, m, Stream(qs));
  }

  /** The fragments carry every byte of a message and contradict none of them. */
  ghost predicate Carry(ps: seq<Piece>, message: seq<byte>) {
    && (forall i: nat | i < |message| :: Covered(ps, i))
    && (forall p <- ps, i: nat | Covers(p, i) && i < |message| :: p.data[i - p.offset] == message[i])
  }

  /** Then the stream begins with the message, whatever else the fragments hold. */
  lemma StreamStartsWithMessage(ps: seq<Piece>, message: seq<byte>)
    requires Carry(ps, message)
    ensures message <= Stream(ps)
  {
    StreamIsLongestRun(ps);
    var s := Stream(ps);
    var n: nat := |s|;
    assert n < |message| ==> Covered(ps, n);
    forall i | 0 <= i < |message| ensures s[i] == message[i] {
      assert Says(ps, i, s[i]);
    }
  }
}
