/** Finding the host name a TLS client asks for: the message format, its readers, and the proof
that the two agree.

Section 4.1.2 of RFC 8446 and section 3 of RFC 6066. */
module Hello {
  import opened Bits
  import opened Wire
  import opened Cursor
  import opened Wrappers

  const MAX_SERVER_NAME: nat := 253

  // ----- the format

  datatype Entry = Entry(kind: byte, name: seq<byte>) {

    /** Whether this entry is a host name the proxy takes. */
    predicate Chosen() {
      kind == 0x00 && 1 <= |name| <= MAX_SERVER_NAME
    }
  }

  datatype Extension = Extension(kind: nat, body: seq<byte>)

  function EncodeEntry(e: Entry): seq<byte> {
    [e.kind] + Prefixed(2, e.name)
  }

  function EncodeEntries(es: seq<Entry>): seq<byte> {
    if es == [] then [] else EncodeEntry(es[0]) + EncodeEntries(es[1..])
  }

  function EncodeExtension(x: Extension): seq<byte> {
    BeBytes(x.kind, 2) + Prefixed(2, x.body)
  }

  function EncodeExtensions(xs: seq<Extension>): seq<byte> {
    if xs == [] then [] else EncodeExtension(xs[0]) + EncodeExtensions(xs[1..])
  }

  const U16_LIMIT: nat := 0x1_0000

  /** A ClientHello that names a host. The `after` fields are bytes nobody reads: behind the
  host in its list, behind the list in its extension, behind that extension in the block,
  and behind the block in the message. */
  datatype ClientHello = ClientHello(
    start: seq<byte>, sessionId: seq<byte>, cipherSuites: seq<byte>, compression: seq<byte>,
    before: seq<Extension>, skipped: seq<Entry>, host: seq<byte>,
    afterHost: seq<byte>, afterList: seq<byte>, afterName: seq<byte>, afterBlock: seq<byte>)
  {
    function NameList(): seq<byte> {
      EncodeEntries(skipped) + (EncodeEntry(Entry(0, host)) + afterHost)
    }

    function NameBody(): seq<byte> {
      Prefixed(2, NameList()) + afterList
    }

    function Block(): seq<byte> {
      EncodeExtensions(before) + (EncodeExtension(Extension(0, NameBody())) + afterName)
    }

    function Body(): seq<byte> {
      start + (Prefixed(1, sessionId) + (Prefixed(2, cipherSuites) + (Prefixed(1, compression)
      + (Prefixed(2, Block()) + afterBlock))))
    }

    /** Every field fits the length in front of it, and nothing earlier is the host. */
    ghost predicate Valid() {
      && |start| == 34 && |sessionId| < 256 && |cipherSuites| < U16_LIMIT && |compression| < 256
      && (forall x <- before :: 0 < x.kind < U16_LIMIT && |x.body| < U16_LIMIT)
      && (forall e <- skipped :: |e.name| < U16_LIMIT && (e.kind == 0 ==> e.name == [] || |e.name| > 253))
      && 1 <= |host| <= 253
      && |NameList()| < U16_LIMIT && |NameBody()| < U16_LIMIT && |Block()| < U16_LIMIT
      && |Body()| < 0x100_0000
    }
  }

  /** Every name of 1 to 253 bytes has a ClientHello that offers it. */
  lemma EveryHostHasAHello(host: seq<byte>) returns (h: ClientHello)
    requires 1 <= |host| <= 253
    ensures h.Valid() && h.host == host
  {
    h := ClientHello(seq(34, _ => 0), [], [], [], [], [], host, [], [], [], []);
  }

  function EncodeHello(h: ClientHello): seq<byte> {
    [0x01] + Prefixed(3, h.Body())
  }

  // ----- reading it

  /** A byte string behind its length in w bytes. */
  function PrefixedOf(s: seq<byte>, w: nat): (r: Read<seq<byte>>)
    ensures r.Got? ==> |s| == w + |r.value| + |r.rest|
  {
    var (n, rest) :- NumberOf(s, w);
    TakeOf(rest, n)
  }

  function EntryOf(s: seq<byte>): (r: Read<Entry>)
    ensures r.Got? ==> |r.rest| < |s|
  {
    var (kind, rest) :- ByteOf(s);
    var (name, rest) :- PrefixedOf(rest, 2);
    Got(Entry(kind, name), rest)
  }

  /** The first entry of a list that is a usable host name. */
  function HostOf(s: seq<byte>): Option<seq<byte>>
    decreases |s|
  {
    var e := EntryOf(s);
    if e.Short? then None
    else if e.value.Chosen() then Some(e.value.name)
    else HostOf(e.rest)
  }

  function ExtensionOf(s: seq<byte>): (r: Read<Extension>)
    ensures r.Got? ==> |r.rest| < |s|
  {
    var (kind, rest) :- NumberOf(s, 2);
    var (body, rest) :- PrefixedOf(rest, 2);
    Got(Extension(kind, body), rest)
  }

  /** The body of the first extension of type zero, server_name. */
  function NameExtensionOf(s: seq<byte>): Option<seq<byte>>
    decreases |s|
  {
    var x := ExtensionOf(s);
    if x.Short? then None
    else if x.value.kind == 0 then Some(x.value.body)
    else NameExtensionOf(x.rest)
  }

  function NameListOf(body: seq<byte>): Option<seq<byte>> {
    var list := PrefixedOf(body, 2);
    if list.Short? then None else Some(list.value)
  }

  /** The extension block of a ClientHello body. */
  function BlockOf(body: seq<byte>): Read<seq<byte>> {
    var (start, rest) :- TakeOf(body, 34);
    var (sessionId, rest) :- PrefixedOf(rest, 1);
    var (cipherSuites, rest) :- PrefixedOf(rest, 2);
    var (compression, rest) :- PrefixedOf(rest, 1);
    PrefixedOf(rest, 2)
  }

  function BodyOf(s: seq<byte>): Read<seq<byte>> {
    var (kind, rest) :- ByteOf(s);
    if kind != 0x01 then Short else PrefixedOf(rest, 3)
  }

  /** The name list of the handshake stream, if it opens with a whole ClientHello that has one. */
  function OfferedList(s: seq<byte>): Option<seq<byte>> {
    var body := BodyOf(s);
    if body.Short? then None else
    var block := BlockOf(body.value);
    if block.Short? then None else
    var name :- NameExtensionOf(block.value);
    NameListOf(name)
  }

  function ServerNameOf(utf8: seq<byte> -> bool, s: seq<byte>): Option<seq<byte>> {
    var list :- OfferedList(s);
    var host :- HostOf(list);
    if utf8(host) then Some(host) else None
  }

  /** A field behind its length, as the source reads it: the length, then that many bytes. */
  method TakeNumbered(r: Reader, w: nat) returns (field: Option<Slice>)
    requires r.Valid() && 1 <= w <= 3
    modifies r
    ensures r.Follows(PrefixedOf(old(r.Rest()), w), field)
  {
    hide Be, Reader.Rest, Reader.Valid;
    var n: nat;
    if w == 1 {
      ghost var s := r.Rest();
      var b :- r.U8();
      OneByteNumber(s);
      n := b;
    } else if w == 2 {
      n :- r.U16();
    } else {
      n :- r.U24();
    }
    field := r.Take(n);
  }

  lemma OneByteNumber(s: seq<byte>)
    ensures ByteOf(s).Short? ==> NumberOf(s, 1).Short?
    ensures ByteOf(s).Got? ==> NumberOf(s, 1) == Got(ByteOf(s).value, ByteOf(s).rest)
  {
    if s != [] {
      BeOne(s[0]);
      assert s[..1] == [s[0]];
    }
  }

  /** The nested readers, one per length field, follow ServerNameOf. */
  method ClientHelloServerName(utf8: seq<byte> -> bool, handshake: Slice) returns (name: Option<seq<byte>>)
    ensures name == ServerNameOf(utf8, handshake)
  {
    hide Be, NumberOf, PrefixedOf, TakeOf, HostOf, NameExtensionOf, Reader.Rest, Reader.Valid;
    var r := new Reader(handshake);
    var kind :- r.U8();
    if kind != 0x01 {
      return None;
    }
    var body :- TakeNumbered(r, 3);
    assert BodyOf(handshake).value == body;
    hide BodyOf;
    r := new Reader(body);
    var _ :- r.Skip(2 + 32);
    var _ :- TakeNumbered(r, 1);
    var _ :- TakeNumbered(r, 2);
    var _ :- TakeNumbered(r, 1);
    var extensions :- TakeNumbered(r, 2);
    hide BlockOf;
    var extension :- FindNameExtension(extensions);
    r := new Reader(extension);
    var list :- TakeNumbered(r, 2);
    var host :- FindHost(list);
    name := if utf8(host) then Some(host) else None;
  }

  /** Walk the extensions for the first of type zero. */
  method FindNameExtension(extensions: Slice) returns (found: Option<Slice>)
    ensures found == NameExtensionOf(extensions)
  {
    hide Be, NumberOf, PrefixedOf, Reader.Rest, Reader.Valid;
    var r := new Reader(extensions);
    while true
      invariant fresh(r) && r.Valid()
      invariant NameExtensionOf(extensions) == NameExtensionOf(r.Rest())
      decreases |r.Rest()|
    {
      var extension := r.U16();
      if extension.None? {
        break;
      }
      var body :- TakeNumbered(r, 2);
      if extension.value != 0x0000 {
        continue;
      }
      return Some(body);
    }
    found := None;
  }

  /** Walk the names for the first usable host name. */
  method FindHost(list: Slice) returns (found: Option<seq<byte>>)
    ensures found == HostOf(list)
  {
    hide Be, NumberOf, PrefixedOf, Reader.Rest, Reader.Valid;
    var r := new Reader(list);
    while true
      invariant fresh(r) && r.Valid()
      invariant HostOf(list) == HostOf(r.Rest())
      decreases |r.Rest()|
    {
      var kind := r.U8();
      if kind.None? {
        break;
      }
      var name :- TakeNumbered(r, 2);
      if kind.value == 0x00 && 1 <= |name| <= MAX_SERVER_NAME {
        return Some(name);
      }
    }
    found := None;
  }

  // ----- the reader inverts the encoder

  lemma FieldExact(w: nat, a: seq<byte>, rest: seq<byte>)
    requires |a| < Pow256(w)
    ensures PrefixedOf(Prefixed(w, a) + rest, w) == Got(a, rest)
  {
    hide Be, BeBytes, Prefixed;
    PrefixedExact(w, a, rest);
  }

  lemma FieldSound(w: nat, s: seq<byte>)
    requires PrefixedOf(s, w).Got?
    ensures |PrefixedOf(s, w).value| < Pow256(w)
    ensures s == Prefixed(w, PrefixedOf(s, w).value) + PrefixedOf(s, w).rest
  {
    hide Be, BeBytes;
    BeBytesInverts(s[..w]);
    BeBound(s[..w]);
    var n, tail := Be(s[..w]), s[w..];
    assert PrefixedOf(s, w) == Got(tail[..n], tail[n..]);
    hide PrefixedOf;
    assert Prefixed(w, tail[..n]) == s[..w] + tail[..n];
    hide Prefixed;
    assert tail == tail[..n] + tail[n..] && s == s[..w] + tail;
  }

  lemma EntryExact(e: Entry, rest: seq<byte>)
    requires |e.name| < U16_LIMIT
    ensures EntryOf(EncodeEntry(e) + rest) == Got(e, rest)
  {
    hide PrefixedOf, Prefixed;
    Pow256Small();
    FieldExact(2, e.name, rest);
    assert EncodeEntry(e) + rest == [e.kind] + (Prefixed(2, e.name) + rest);
    ByteExact(e.kind, Prefixed(2, e.name) + rest);
  }

  lemma ExtensionExact(x: Extension, rest: seq<byte>)
    requires x.kind < U16_LIMIT && |x.body| < U16_LIMIT
    ensures ExtensionOf(EncodeExtension(x) + rest) == Got(x, rest)
  {
    hide PrefixedOf, Prefixed, NumberOf, BeBytes;
    Pow256Small();
    FieldExact(2, x.body, rest);
    assert EncodeExtension(x) + rest == BeBytes(x.kind, 2) + (Prefixed(2, x.body) + rest);
    NumberExact(x.kind, 2, Prefixed(2, x.body) + rest);
  }

  lemma {:induction false} HostExact(skipped: seq<Entry>, host: Entry, rest: seq<byte>)
    requires forall e <- skipped :: |e.name| < U16_LIMIT && !e.Chosen()
    requires host.Chosen()
    ensures HostOf(EncodeEntries(skipped) + (EncodeEntry(host) + rest)) == Some(host.name)
  {
    hide EncodeEntry, EntryOf;
    var tail := EncodeEntry(host) + rest;
    if skipped == [] {
      assert EncodeEntries(skipped) + tail == tail;
      EntryExact(host, rest);
    } else {
      var more := EncodeEntries(skipped[1..]) + tail;
      assert EncodeEntries(skipped) + tail == EncodeEntry(skipped[0]) + more;
      EntryExact(skipped[0], more);
      HostExact(skipped[1..], host, rest);
    }
  }

  lemma {:induction false} NameExtensionExact(before: seq<Extension>, body: seq<byte>, rest: seq<byte>)
    requires forall x <- before :: 0 < x.kind < U16_LIMIT && |x.body| < U16_LIMIT
    requires |body| < U16_LIMIT
    ensures NameExtensionOf(EncodeExtensions(before) + (EncodeExtension(Extension(0, body)) + rest)) == Some(body)
  {
    hide EncodeExtension, ExtensionOf;
    var x := Extension(0, body);
    var tail := EncodeExtension(x) + rest;
    if before == [] {
      assert EncodeExtensions(before) + tail == tail;
      ExtensionExact(x, rest);
    } else {
      var more := EncodeExtensions(before[1..]) + tail;
      assert EncodeExtensions(before) + tail == EncodeExtension(before[0]) + more;
      ExtensionExact(before[0], more);
      NameExtensionExact(before[1..], body, rest);
    }
  }

  lemma BlockExact(h: ClientHello)
    requires h.Valid()
    ensures BlockOf(h.Body()) == Got(h.Block(), h.afterBlock)
  {
    hide PrefixedOf, Prefixed, TakeOf, EncodeEntries, EncodeExtensions, EncodeEntry, EncodeExtension;
    Pow256Small();
    var s4 := Prefixed(2, h.Block()) + h.afterBlock;
    var s3 := Prefixed(1, h.compression) + s4;
    var s2 := Prefixed(2, h.cipherSuites) + s3;
    var s1 := Prefixed(1, h.sessionId) + s2;
    TakeExact(h.start, s1);
    FieldExact(1, h.sessionId, s2);
    FieldExact(2, h.cipherSuites, s3);
    FieldExact(1, h.compression, s4);
    FieldExact(2, h.Block(), h.afterBlock);
  }

  lemma BodyExact(body: seq<byte>, rest: seq<byte>)
    requires |body| < 0x100_0000
    ensures BodyOf([0x01] + Prefixed(3, body) + rest) == Got(body, rest)
  {
    hide PrefixedOf, Prefixed;
    Pow256Small();
    assert [0x01] + Prefixed(3, body) + rest == [0x01] + (Prefixed(3, body) + rest);
    ByteExact(0x01, Prefixed(3, body) + rest);
    FieldExact(3, body, rest);
  }

  lemma ListExact(h: ClientHello)
    requires h.Valid()
    ensures NameExtensionOf(h.Block()) == Some(h.NameBody())
    ensures NameListOf(h.NameBody()) == Some(h.NameList())
    ensures HostOf(h.NameList()) == Some(h.host)
  {
    NameExtensionExact(h.before, h.NameBody(), h.afterName);
    Pow256Small();
    FieldExact(2, h.NameList(), h.afterList);
    HostExact(h.skipped, Entry(0, h.host), h.afterHost);
  }

  /** The host comes back for every session id, cipher list, compression list, preceding
  extensions and names, and whatever follows the message; unless it is not UTF-8. */
  lemma HelloComplete(utf8: seq<byte> -> bool, h: ClientHello, rest: seq<byte>)
    requires h.Valid()
    ensures ServerNameOf(utf8, EncodeHello(h) + rest) == if utf8(h.host) then Some(h.host) else None
  {
    hide BodyOf, BlockOf, NameExtensionOf, NameListOf, HostOf;
    BodyExact(h.Body(), rest);
    BlockExact(h);
    ListExact(h);
  }

  // ----- and accepts nothing else

  lemma EntrySound(s: seq<byte>)
    requires EntryOf(s).Got?
    ensures |EntryOf(s).value.name| < U16_LIMIT
    ensures s == EncodeEntry(EntryOf(s).value) + EntryOf(s).rest
  {
    hide PrefixedOf, Prefixed;
    Pow256Small();
    FieldSound(2, s[1..]);
  }

  lemma ExtensionSound(s: seq<byte>)
    requires ExtensionOf(s).Got?
    ensures ExtensionOf(s).value.kind < U16_LIMIT && |ExtensionOf(s).value.body| < U16_LIMIT
    ensures s == EncodeExtension(ExtensionOf(s).value) + ExtensionOf(s).rest
  {
    hide PrefixedOf, Prefixed, Be, BeBytes;
    Pow256Small();
    BeBytesInverts(s[..2]);
    BeBound(s[..2]);
    FieldSound(2, s[2..]);
  }

  lemma {:induction false} HostSound(s: seq<byte>) returns (skipped: seq<Entry>, rest: seq<byte>)
    requires HostOf(s).Some?
    ensures forall e <- skipped :: |e.name| < U16_LIMIT && !e.Chosen()
    ensures Entry(0, HostOf(s).value).Chosen()
    ensures s == EncodeEntries(skipped) + (EncodeEntry(Entry(0, HostOf(s).value)) + rest)
    decreases |s|
  {
    hide EncodeEntry, EntryOf;
    var e := EntryOf(s);
    EntrySound(s);
    if e.value.Chosen() {
      skipped, rest := [], e.rest;
    } else {
      var more;
      more, rest := HostSound(e.rest);
      skipped := [e.value] + more;
      assert skipped[1..] == more;
    }
  }

  lemma {:induction false} NameExtensionSound(s: seq<byte>) returns (before: seq<Extension>, rest: seq<byte>)
    requires NameExtensionOf(s).Some?
    ensures forall x <- before :: 0 < x.kind < U16_LIMIT && |x.body| < U16_LIMIT
    ensures |NameExtensionOf(s).value| < U16_LIMIT
    ensures s == EncodeExtensions(before) + (EncodeExtension(Extension(0, NameExtensionOf(s).value)) + rest)
    decreases |s|
  {
    hide EncodeExtension, ExtensionOf;
    var x := ExtensionOf(s);
    ExtensionSound(s);
    if x.value.kind == 0 {
      before, rest := [], x.rest;
    } else {
      var more;
      more, rest := NameExtensionSound(x.rest);
      before := [x.value] + more;
      assert before[1..] == more;
    }
  }

  lemma BlockSound(body: seq<byte>) returns (start: seq<byte>, sessionId: seq<byte>,
        cipherSuites: seq<byte>, compression: seq<byte>)
    requires BlockOf(body).Got?
    ensures |start| == 34 && |sessionId| < 256 && |cipherSuites| < U16_LIMIT && |compression| < 256
    ensures |BlockOf(body).value| < U16_LIMIT
    ensures body == start + (Prefixed(1, sessionId) + (Prefixed(2, cipherSuites) + (Prefixed(1, compression)
                    + (Prefixed(2, BlockOf(body).value) + BlockOf(body).rest))))
  {
    hide PrefixedOf, Prefixed;
    Pow256Small();
    start := body[..34];
    var s1 := body[34..];
    FieldSound(1, s1);
    sessionId := PrefixedOf(s1, 1).value;
    var s2 := PrefixedOf(s1, 1).rest;
    FieldSound(2, s2);
    cipherSuites := PrefixedOf(s2, 2).value;
    var s3 := PrefixedOf(s2, 2).rest;
    FieldSound(1, s3);
    compression := PrefixedOf(s3, 1).value;
    FieldSound(2, PrefixedOf(s3, 1).rest);
  }

  lemma HelloSound(utf8: seq<byte> -> bool, s: seq<byte>) returns (h: ClientHello, rest: seq<byte>)
    requires ServerNameOf(utf8, s).Some?
    ensures h.Valid() && utf8(h.host) && ServerNameOf(utf8, s) == Some(h.host)
    ensures s == EncodeHello(h) + rest
  {
    hide PrefixedOf, Prefixed, BlockOf, NameExtensionOf, HostOf, EncodeEntries, EncodeExtensions,
      EncodeEntry, EncodeExtension;
    Pow256Small();
    FieldSound(3, s[1..]);
    var body := BodyOf(s).value;
    rest := BodyOf(s).rest;
    var start, sessionId, cipherSuites, compression := BlockSound(body);
    var block := BlockOf(body).value;
    var before, afterName := NameExtensionSound(block);
    var name := NameExtensionOf(block).value;
    FieldSound(2, name);
    var list := NameListOf(name).value;
    var skipped, afterHost := HostSound(list);
    h := ClientHello(start, sessionId, cipherSuites, compression, before, skipped, HostOf(list).value,
                     afterHost, PrefixedOf(name, 2).rest, afterName, BlockOf(body).rest);
    assert h.NameList() == list;
    assert h.NameBody() == name;
    assert h.Block() == block;
    assert h.Body() == body;
    assert s == [0x01] + s[1..];
  }

  /** The stream opens with this ClientHello. */
  ghost predicate Opens(h: ClientHello, s: seq<byte>) {
    h.Valid() && EncodeHello(h) <= s
  }

  /** A name is read if and only if the stream opens with a ClientHello offering it first. */
  lemma HelloExact(utf8: seq<byte> -> bool, s: seq<byte>, name: seq<byte>)
    ensures ServerNameOf(utf8, s) == Some(name)
       <==> utf8(name) && exists h :: Opens(h, s) && h.host == name
  {
    hide ServerNameOf, EncodeHello;
    if ServerNameOf(utf8, s) == Some(name) {
      var h, rest := HelloSound(utf8, s);
      assert Opens(h, s);
    }
    if h :| utf8(name) && Opens(h, s) && h.host == name {
      var e := EncodeHello(h);
      assert s == e + s[|e|..];
      HelloComplete(utf8, h, s[|e|..]);
    }
  }

  // ----- only the message itself is read

  /** The length of the message a stream announces: its four-byte header and its body. */
  function MessageLength(s: seq<byte>): nat
    requires |s| >= 4
  {
    4 + Be(s[1..4])
  }

  lemma NameNeedsWholeMessage(utf8: seq<byte> -> bool, s: seq<byte>)
    requires |s| < 4 || |s| < MessageLength(s)
    ensures ServerNameOf(utf8, s).None?
  {
    hide Be, BlockOf, NameExtensionOf, HostOf;
    if |s| >= 4 {
      assert s[1..][..3] == s[1..4];
    }
  }

  lemma NameDependsOnMessageOnly(utf8: seq<byte> -> bool, s: seq<byte>, t: seq<byte>)
    requires |s| >= 4 && |s| >= MessageLength(s)
    requires |t| >= MessageLength(s) && t[..MessageLength(s)] == s[..MessageLength(s)]
    ensures ServerNameOf(utf8, s) == ServerNameOf(utf8, t)
  {
    hide Be, BlockOf, NameExtensionOf, HostOf;
    var n := MessageLength(s);
    assert s[0] == s[..n][0] && t[0] == t[..n][0];
    assert s[1..][..3] == s[..n][1..4] == t[..n][1..4] == t[1..][..3];
    assert s[1..][3..][..n - 4] == s[..n][4..] == t[..n][4..] == t[1..][3..][..n - 4];
    assert s[1..4] == s[1..][..3];
  }
}
