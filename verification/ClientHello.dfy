/** Server-name sniffing from a TLS ClientHello (internal/sniff/tls.go).

    The functions say what a message means from a position on; the methods are the
    cursor loops of the code, proved to compute the same answers. */
module ClientHello {
  import opened Options
  import opened ByteStrings

  /** What the code does to the text of a name before returning it: trimming white
      space and folding case, as the library defines them. */
  type Normalizer = Bytes -> Bytes

  function Named(norm: Normalizer, s: Bytes): Option<Bytes> { if norm(s) == [] then None else Some(norm(s)) }

  // ---- reading -------------------------------------------------------------------------

  function Uint24(s: Bytes, p: nat): nat
    requires p + 3 <= |s|
  {
    (s[p] as int) * 65536 + (s[p + 1] as int) * 256 + s[p + 2]
  }

  /** The position behind a vector with a one-byte length, if it is complete. */
  function Skip8(s: Bytes, p: nat): (r: Option<nat>)
    ensures r.Some? ==> p < r.value <= |s|
  {
    if p >= |s| || p + 1 + (s[p] as int) > |s| then None else Some(p + 1 + (s[p] as int))
  }

  /** The position behind a vector with a two-byte length, if it is complete. */
  function Skip16(s: Bytes, p: nat): (r: Option<nat>)
    ensures r.Some? ==> p < r.value <= |s|
  {
    if p + 2 > |s| || p + 2 + Uint16(s, p) > |s| then None else Some(p + 2 + Uint16(s, p))
  }

  function Clip(s: Bytes, n: nat): Bytes { if n < |s| then s[..n] else s }

  /** The first host_name entry of a server name list, from position p on. */
  function HostFrom(norm: Normalizer, list: Bytes, p: nat): Option<Bytes>
    decreases |list| - p
  {
    if p + 3 > |list| then None
    else
      var next := p + 3 + Uint16(list, p + 1);
      if next > |list| then None
      else if list[p] == 0 then Named(norm, list[p + 3..next])
      else HostFrom(norm, list, next)
  }

  /** parseSNI. */
  function HostInExtension(norm: Normalizer, ext: Bytes): Option<Bytes> {
    if |ext| < 2 || 2 + Uint16(ext, 0) > |ext| then None else HostFrom(norm, ext[2..2 + Uint16(ext, 0)], 0)
  }

  /** The host name in the first server_name extension between p and end. */
  function BlockFrom(norm: Normalizer, hello: Bytes, p: nat, end: nat): Option<Bytes>
    requires end <= |hello|
    decreases end - p
  {
    if p + 4 > end then None
    else
      var next := p + 4 + Uint16(hello, p + 2);
      if next > end then None
      else if Uint16(hello, p) == 0 then HostInExtension(norm, hello[p + 4..next])
      else BlockFrom(norm, hello, next, end)
  }

  /** The position behind the session identifier, cipher suites and compression
      methods. */
  function AfterFixed(hello: Bytes): (r: Option<nat>)
    ensures r.Some? ==> r.value <= |hello|
  {
    if |hello| < 34 then None
    else match Skip8(hello, 34)
      case None => None
      case Some(a) => match Skip16(hello, a)
        case None => None
        case Some(b) => Skip8(hello, b)
  }

  /** parseClientHelloExtensions. */
  function HostInHello(norm: Normalizer, hello: Bytes): Option<Bytes> {
    match AfterFixed(hello)
    case None => None
    case Some(p) => if p + 2 > |hello| then None else BlockFrom(norm, hello, p + 2, BlockEnd(hello, p))
  }

  /** Where the extension block ends, as far as it has arrived. */
  function BlockEnd(hello: Bytes, p: nat): (r: nat)
    requires p + 2 <= |hello|
    ensures p + 2 <= r <= |hello|
  {
    var end := p + 2 + Uint16(hello, p);
    if end > |hello| then |hello| else end
  }

  /** The record body, as far as it has arrived. */
  function Body(data: Bytes): Bytes
    requires |data| >= 5
  {
    var n := Uint16(data, 3);
    if n < 4 then data[5..] else Clip(data[5..], n)
  }

  /** TLSClientHello. */
  function Sniff(norm: Normalizer, data: Bytes): Option<Bytes> {
    if |data| < 5 || data[0] != 0x16 || data[1] != 0x03 then None
    else
      var body := Body(data);
      if |body| < 4 || body[0] != 0x01 then None
      else HostInHello(norm, Clip(body[4..], Uint24(body, 1)))
  }

  // ---- the cursor loops -------------------------------------------------------------------

  method ParseSni(norm: Normalizer, ext: Bytes) returns (r: Option<Bytes>)
    ensures r == HostInExtension(norm, ext)
  {
    if |ext| < 2 {
      return None;
    }
    var listLen := Uint16(ext, 0);
    if listLen + 2 > |ext| {
      return None;
    }
    var list := ext[2..2 + listLen];
    var p := 0;
    while p + 3 <= |list|
      invariant p <= |list| && HostFrom(norm, list, 0) == HostFrom(norm, list, p)
    {
      var nameType := list[p];
      var nameLen := Uint16(list, p + 1);
      p := p + 3;
      if p + nameLen > |list| {
        return None;
      }
      if nameType == 0 {
        var name := norm(list[p..p + nameLen]);
        if name == [] {
          return None;
        }
        return Some(name);
      }
      p := p + nameLen;
    }
    return None;
  }

  method ParseClientHelloExtensions(norm: Normalizer, hello: Bytes) returns (r: Option<Bytes>)
    ensures r == HostInHello(norm, hello)
  {
    if |hello| < 34 {
      return None;
    }
    var p := 34;
    if p >= |hello| {
      return None;
    }
    var sidLen: int := hello[p];
    p := p + 1;
    if p + sidLen > |hello| {
      return None;
    }
    p := p + sidLen;
    if p + 2 > |hello| {
      return None;
    }
    var csLen := Uint16(hello, p);
    p := p + 2;
    if p + csLen > |hello| {
      return None;
    }
    p := p + csLen;
    if p + 1 > |hello| {
      return None;
    }
    var cmLen: int := hello[p];
    p := p + 1;
    if p + cmLen > |hello| {
      return None;
    }
    p := p + cmLen;
    if p + 2 > |hello| {
      return None;
    }
    var extLen := Uint16(hello, p);
    p := p + 2;
    var extEnd := p + extLen;
    if extEnd > |hello| {
      extEnd := |hello|;
    }
    r := FindServerName(norm, hello, p, extEnd);
  }

  /** The walk over the extension blocks. */
  method FindServerName(norm: Normalizer, hello: Bytes, start: nat, end: nat) returns (r: Option<Bytes>)
    requires start <= end <= |hello|
    ensures r == BlockFrom(norm, hello, start, end)
  {
    var p := start;
    while p + 4 <= end
      invariant start <= p <= end && BlockFrom(norm, hello, start, end) == BlockFrom(norm, hello, p, end)
    {
      var extType := Uint16(hello, p);
      var extDataLen := Uint16(hello, p + 2);
      p := p + 4;
      if p + extDataLen > end {
        return None;
      }
      if extType == 0 {
        r := ParseSni(norm, hello[p..p + extDataLen]);
        return;
      }
      p := p + extDataLen;
    }
    return None;
  }

  method TlsClientHello(norm: Normalizer, data: Bytes) returns (r: Option<Bytes>)
    ensures r == Sniff(norm, data)
  {
    if |data| < 5 {
      return None;
    }
    if data[0] != 0x16 {
      return None;
    }
    if data[1] != 0x03 {
      return None;
    }
    var recordLen := Uint16(data, 3);
    if recordLen < 4 || 5 + recordLen > |data| {
      recordLen := |data| - 5;
    }
    var body := data[5..5 + recordLen];
    assert body == Body(data);
    if |body| < 4 {
      return None;
    }
    if body[0] != 0x01 {
      return None;
    }
    var hsLen := Uint24(body, 1);
    var hello := body[4..];
    if hsLen < |hello| {
      hello := hello[..hsLen];
    }
    r := ParseClientHelloExtensions(norm, hello);
  }

  // ---- prefix stability ------------------------------------------------------------------

  lemma SamePart<T>(x: seq<T>, y: seq<T>, i: nat, j: nat)
    requires x <= y && i <= j <= |x|
    ensures x[i..j] == y[i..j]
  {}

  lemma {:induction false} BlockStable(norm: Normalizer, x: Bytes, y: Bytes, p: nat, end: nat, end': nat)
    requires x <= y && end <= |x| && end <= end' <= |y| && BlockFrom(norm, x, p, end).Some?
    ensures BlockFrom(norm, y, p, end') == BlockFrom(norm, x, p, end)
    decreases end - p
  {
    var next := p + 4 + Uint16(x, p + 2);
    SamePart(x, y, p + 4, next);
    if Uint16(x, p) != 0 {
      BlockStable(norm, x, y, next, end, end');
    }
  }

  lemma HelloStable(norm: Normalizer, x: Bytes, y: Bytes)
    requires x <= y && HostInHello(norm, x).Some?
    ensures HostInHello(norm, y) == HostInHello(norm, x)
  {
    var p := AfterFixed(x).value;
    assert AfterFixed(y) == Some(p);
    BlockStable(norm, x, y, p + 2, BlockEnd(x, p), BlockEnd(y, p));
  }

  lemma ClipPrefix(x: Bytes, y: Bytes, k: nat, n: nat)
    requires x <= y && k <= |x|
    ensures Clip(x[k..], n) <= Clip(y[k..], n) && x[k..] <= y[k..]
  {}

  /** A name found in the bytes seen so far is the name found however many more
      bytes arrive. */
  lemma PrefixStable(norm: Normalizer, x: Bytes, y: Bytes)
    requires x <= y && Sniff(norm, x).Some?
    ensures Sniff(norm, y) == Sniff(norm, x)
  {
    ClipPrefix(x, y, 5, Uint16(x, 3));
    var b, b' := Body(x), Body(y);
    ClipPrefix(b, b', 4, Uint24(b, 1));
    HelloStable(norm, Clip(b[4..], Uint24(b, 1)), Clip(b'[4..], Uint24(b, 1)));
  }

  // ---- well-formed messages ------------------------------------------------------------------

  /** An entry of a server name list; kind 0 is host_name. */
  datatype Name = Name(kind: Byte, name: Bytes)

  /** Kind 0 is server_name, whose payload is a server name list. */
  datatype Extension = Extension(kind: nat, payload: Bytes)

  datatype Hello = Hello(version: nat, random: Bytes, sessionId: Bytes, suites: Bytes, compression: Bytes,
    extensions: seq<Extension>)

  function Put24(n: nat): (r: Bytes)
    requires n < 0x1000000
    ensures |r| == 3 && Uint24(r, 0) == n
  {
    [n / 65536, n / 256 % 256, n % 256]
  }

  function Vec8(s: Bytes): Bytes
    requires |s| < 256
  {
    [|s|] + s
  }

  function Vec16(s: Bytes): Bytes
    requires |s| < 65536
  {
    Put16(|s|) + s
  }

  predicate NamesFit(names: seq<Name>) { forall i :: 0 <= i < |names| ==> |names[i].name| < 65536 }

  function PutNames(names: seq<Name>): Bytes
    requires NamesFit(names)
  {
    if names == [] then [] else [names[0].kind] + Vec16(names[0].name) + PutNames(names[1..])
  }

  predicate ExtensionFits(e: Extension) { e.kind < 65536 && |e.payload| < 65536 }

  predicate ExtensionsFit(es: seq<Extension>) { forall i :: 0 <= i < |es| ==> ExtensionFits(es[i]) }

  function PutExtension(e: Extension): Bytes
    requires ExtensionFits(e)
  {
    Put16(e.kind) + Vec16(e.payload)
  }

  function PutExtensions(es: seq<Extension>): Bytes
    requires ExtensionsFit(es)
  {
    if es == [] then [] else PutExtension(es[0]) + PutExtensions(es[1..])
  }

  predicate HelloFits(h: Hello) {
    && h.version < 65536 && |h.random| == 32 && |h.sessionId| < 256 && |h.suites| < 65536 && |h.compression| < 256
    && ExtensionsFit(h.extensions) && |PutExtensions(h.extensions)| < 65536
  }

  function Join(parts: seq<Bytes>): Bytes {
    if parts == [] then [] else parts[0] + Join(parts[1..])
  }

  lemma JoinFive(a: Bytes, b: Bytes, c: Bytes, d: Bytes, e: Bytes)
    ensures Join([a, b, c, d, e]) == a + (b + (c + (d + e)))
  {
    var all := [a, b, c, d, e];
    assert all[1..] == [b, c, d, e] && all[1..][1..] == [c, d, e];
    assert [c, d, e][1..] == [d, e] && [d, e][1..] == [e] && [e][1..] == [];
    assert Join([e]) == e + [] == e;
    assert Join([c, d, e]) == c + (d + e);
  }

  function PutHello(h: Hello): (r: Bytes)
    requires HelloFits(h)
    ensures |r| < 0x40000
  {
    var fixed, block := Put16(h.version) + h.random, Vec16(PutExtensions(h.extensions));
    JoinFive(fixed, Vec8(h.sessionId), Vec16(h.suites), Vec8(h.compression), block);
    Join([fixed, Vec8(h.sessionId), Vec16(h.suites), Vec8(h.compression), block])
  }

  lemma HelloLayout(h: Hello, fixed: Bytes, block: Bytes)
    requires HelloFits(h) && fixed == Put16(h.version) + h.random && block == Vec16(PutExtensions(h.extensions))
    ensures PutHello(h) == fixed + (Vec8(h.sessionId) + (Vec16(h.suites) + (Vec8(h.compression) + block)))
  {
    JoinFive(fixed, Vec8(h.sessionId), Vec16(h.suites), Vec8(h.compression), block);
  }

  function Message(hello: Bytes): Bytes
    requires |hello| < 0x1000000
  {
    [0x01] + Put24(|hello|) + hello
  }

  /** A handshake record. */
  function PutRecord(minor: Byte, body: Bytes): Bytes
    requires |body| < 65536
  {
    [0x16, 0x03, minor] + Vec16(body)
  }

  /** A record can hold the first n bytes of the message, its header included. */
  predicate FragmentFits(h: Hello, n: nat)
    requires HelloFits(h)
  {
    4 <= n <= 4 + |PutHello(h)| && n < 65536
  }

  /** The record that holds the first n bytes of the message. */
  function PutFragment(minor: Byte, h: Hello, n: nat): Bytes
    requires HelloFits(h) && n <= 4 + |PutHello(h)| && n < 65536
  {
    PutRecord(minor, Message(PutHello(h))[..n])
  }

  /** One record can hold the whole message. */
  predicate RecordFits(h: Hello) { HelloFits(h) && 4 + |PutHello(h)| < 65536 }

  function PutWhole(minor: Byte, h: Hello): Bytes
    requires RecordFits(h)
  {
    PutRecord(minor, Message(PutHello(h)))
  }

  /** The host name a server name list carries: that of its first host_name entry,
      unless it is blank. */
  function CarriedName(norm: Normalizer, names: seq<Name>): Option<Bytes> {
    if names == [] then None
    else if names[0].kind == 0 then Named(norm, names[0].name)
    else CarriedName(norm, names[1..])
  }

  /** The payload of the first server_name extension. */
  function ServerNamePayload(es: seq<Extension>): Option<Bytes> {
    if es == [] then None
    else if es[0].kind == 0 then Some(es[0].payload)
    else ServerNamePayload(es[1..])
  }

  function HostOf(norm: Normalizer, payload: Option<Bytes>): Option<Bytes> {
    match payload
    case None => None
    case Some(p) => HostInExtension(norm, p)
  }

  lemma Vec16At(s: Bytes, p: nat, v: Bytes, rest: Bytes)
    requires p <= |s| && |v| < 65536 && s[p..] == Vec16(v) + rest
    ensures p + 2 + |v| <= |s| && Uint16(s, p) == |v| && Skip16(s, p) == Some(p + 2 + |v|)
    ensures s[p + 2..p + 2 + |v|] == v && s[p + 2 + |v|..] == rest
  {}

  lemma Vec8At(s: Bytes, p: nat, v: Bytes, rest: Bytes)
    requires p <= |s| && |v| < 256 && s[p..] == Vec8(v) + rest
    ensures Skip8(s, p) == Some(p + 1 + |v|) && s[p + 1 + |v|..] == rest
  {}

  lemma NameAt(s: Bytes, p: nat, n: Name, rest: Bytes)
    requires p <= |s| && |n.name| < 65536 && s[p..] == [n.kind] + Vec16(n.name) + rest
    ensures var next := p + 3 + |n.name|;
      next <= |s| && s[p] == n.kind && Uint16(s, p + 1) == |n.name| && s[p + 3..next] == n.name && s[next..] == rest
  {}

  /** These names, one after the other, from p to the end. */
  predicate NamesStand(s: Bytes, p: nat, names: seq<Name>)
    decreases |names|
  {
    if names == [] then p == |s|
    else
      var next := p + 3 + |names[0].name|;
      next <= |s| && s[p] == names[0].kind && Uint16(s, p + 1) == |names[0].name| && s[p + 3..next] == names[0].name
      && NamesStand(s, next, names[1..])
  }

  lemma {:induction false} PutNamesStand(s: Bytes, p: nat, names: seq<Name>)
    requires NamesFit(names) && p <= |s| && s[p..] == PutNames(names)
    ensures NamesStand(s, p, names)
    decreases |names|
  {
    if names != [] {
      NameAt(s, p, names[0], PutNames(names[1..]));
      PutNamesStand(s, p + 3 + |names[0].name|, names[1..]);
    }
  }

  lemma {:induction false} NamesRead(norm: Normalizer, s: Bytes, p: nat, names: seq<Name>)
    requires NamesStand(s, p, names)
    ensures HostFrom(norm, s, p) == CarriedName(norm, names)
    decreases |names|
  {
    if names != [] {
      NamesRead(norm, s, p + 3 + |names[0].name|, names[1..]);
    }
  }

  lemma ServerNamesRead(norm: Normalizer, names: seq<Name>)
    requires NamesFit(names) && |PutNames(names)| < 65534
    ensures HostInExtension(norm, Vec16(PutNames(names))) == CarriedName(norm, names)
  {
    var list := PutNames(names);
    var ext := Vec16(list);
    assert ext[0..] == Vec16(list) + [];
    Vec16At(ext, 0, list, []);
    PutNamesStand(list, 0, names);
    NamesRead(norm, list, 0, names);
  }

  lemma ExtensionAt(s: Bytes, p: nat, e: Extension, rest: Bytes)
    requires ExtensionFits(e) && p <= |s| && s[p..] == PutExtension(e) + rest
    ensures var next := p + 4 + |e.payload|;
      next <= |s| && Uint16(s, p) == e.kind && Uint16(s, p + 2) == |e.payload| && s[p + 4..next] == e.payload
        && s[next..] == rest
  {}

  /** These extensions, one after the other, from p to the end. */
  predicate ExtensionsStand(s: Bytes, p: nat, es: seq<Extension>)
    decreases |es|
  {
    if es == [] then p == |s|
    else
      var next := p + 4 + |es[0].payload|;
      next <= |s| && Uint16(s, p) == es[0].kind && Uint16(s, p + 2) == |es[0].payload|
        && s[p + 4..next] == es[0].payload
      && ExtensionsStand(s, next, es[1..])
  }

  lemma {:induction false} PutExtensionsStand(s: Bytes, p: nat, es: seq<Extension>)
    requires ExtensionsFit(es) && p <= |s| && s[p..] == PutExtensions(es)
    ensures ExtensionsStand(s, p, es)
    decreases |es|
  {
    if es != [] {
      ExtensionAt(s, p, es[0], PutExtensions(es[1..]));
      PutExtensionsStand(s, p + 4 + |es[0].payload|, es[1..]);
    }
  }

  lemma {:induction false} ExtensionsRead(norm: Normalizer, s: Bytes, p: nat, es: seq<Extension>)
    requires ExtensionsStand(s, p, es)
    ensures BlockFrom(norm, s, p, |s|) == HostOf(norm, ServerNamePayload(es))
    decreases |es|
  {
    if es != [] {
      ExtensionsRead(norm, s, p + 4 + |es[0].payload|, es[1..]);
    }
  }

  lemma SuitesRead(s: Bytes, i: nat, suites: Bytes, compression: Bytes, rest: Bytes) returns (j: nat, p: nat)
    requires i <= |s| && |suites| < 65536 && |compression| < 256
    requires s[i..] == Vec16(suites) + (Vec8(compression) + rest)
    ensures Skip16(s, i) == Some(j) && Skip8(s, j) == Some(p) && s[p..] == rest
    ensures p == i + 3 + |suites| + |compression|
  {
    Vec16At(s, i, suites, Vec8(compression) + rest);
    j := i + 2 + |suites|;
    Vec8At(s, j, compression, rest);
    p := j + 1 + |compression|;
  }

  lemma FixedRead(s: Bytes, fixed: Bytes, sessionId: Bytes, suites: Bytes, compression: Bytes, rest: Bytes)
        returns (p: nat)
    requires |fixed| == 34 && |sessionId| < 256 && |suites| < 65536 && |compression| < 256
    requires s == fixed + (Vec8(sessionId) + (Vec16(suites) + (Vec8(compression) + rest)))
    ensures AfterFixed(s) == Some(p) && s[p..] == rest
    ensures p == 38 + |sessionId| + |suites| + |compression|
  {
    var tail := Vec16(suites) + (Vec8(compression) + rest);
    assert s[34..] == Vec8(sessionId) + tail;
    Vec8At(s, 34, sessionId, tail);
    var j;
    j, p := SuitesRead(s, 35 + |sessionId|, suites, compression, rest);
  }

  lemma BlockRead(norm: Normalizer, s: Bytes, p: nat, block: Bytes)
    requires p <= |s| && |block| < 65536 && AfterFixed(s) == Some(p) && s[p..] == Vec16(block)
    ensures p + 2 <= |s| && s[p + 2..] == block && HostInHello(norm, s) == BlockFrom(norm, s, p + 2, |s|)
  {}

  lemma BlockHostRead(norm: Normalizer, s: Bytes, p: nat, es: seq<Extension>)
    requires ExtensionsFit(es) && |PutExtensions(es)| < 65536
    requires AfterFixed(s) == Some(p) && s[p..] == Vec16(PutExtensions(es))
    ensures HostInHello(norm, s) == HostOf(norm, ServerNamePayload(es))
  {
    BlockRead(norm, s, p, PutExtensions(es));
    PutExtensionsStand(s, p + 2, es);
    ExtensionsRead(norm, s, p + 2, es);
  }

  lemma HelloRead(norm: Normalizer, h: Hello)
    requires HelloFits(h)
    ensures HostInHello(norm, PutHello(h)) == HostOf(norm, ServerNamePayload(h.extensions))
  {
    var s := PutHello(h);
    var fixed, block := Put16(h.version) + h.random, Vec16(PutExtensions(h.extensions));
    HelloLayout(h, fixed, block);
    var p := FixedRead(s, fixed, h.sessionId, h.suites, h.compression, block);
    BlockHostRead(norm, s, p, h.extensions);
  }

  // ---- messages cut short ----------------------------------------------------------------------

  lemma Skip8Cut(s: Bytes, i: nat, j: nat, k: nat)
    requires k <= |s| && Skip8(s, i) == Some(j)
    ensures Skip8(s[..k], i) == if j <= k then Some(j) else None
  {}

  lemma Skip16Cut(s: Bytes, i: nat, j: nat, k: nat)
    requires k <= |s| && Skip16(s, i) == Some(j)
    ensures Skip16(s[..k], i) == if j <= k then Some(j) else None
  {}

  lemma FixedCut(s: Bytes, p: nat, k: nat)
    requires k <= |s| && AfterFixed(s) == Some(p)
    ensures AfterFixed(s[..k]) == if p <= k then Some(p) else None
  {
    var a := Skip8(s, 34).value;
    var b := Skip16(s, a).value;
    Skip8Cut(s, 34, a, k);
    Skip16Cut(s, a, b, k);
    Skip8Cut(s, b, p, k);
  }

  /** How far the first server_name extension reaches into the extensions. */
  function ServerNameReach(es: seq<Extension>): nat {
    if es == [] then 0
    else
      var own := 4 + |es[0].payload|;
      if es[0].kind == 0 then own else own + ServerNameReach(es[1..])
  }

  lemma {:induction false} ExtensionsCut(norm: Normalizer, s: Bytes, p: nat, es: seq<Extension>, k: nat)
    requires k <= |s| && ExtensionsStand(s, p, es)
    ensures BlockFrom(norm, s[..k], p, k) ==
            if p + ServerNameReach(es) <= k then HostOf(norm, ServerNamePayload(es)) else None
    decreases |es|
  {
    if es != [] {
      var next := p + 4 + |es[0].payload|;
      if next <= k {
        SamePart(s[..k], s, p + 4, next);
        if es[0].kind != 0 {
          ExtensionsCut(norm, s, next, es[1..], k);
        }
      }
    }
  }

  /** Where in a hello its first server_name extension ends. */
  function ServerNameEnd(h: Hello): nat {
    40 + |h.sessionId| + |h.suites| + |h.compression| + ServerNameReach(h.extensions)
  }

  lemma BlockCut(norm: Normalizer, s: Bytes, p: nat, block: Bytes, k: nat)
    requires k <= |s| && |block| < 65536 && AfterFixed(s) == Some(p) && s[p..] == Vec16(block)
    ensures HostInHello(norm, s[..k]) == if p + 2 <= k then BlockFrom(norm, s[..k], p + 2, k) else None
  {
    FixedCut(s, p, k);
    assert s[p..][0] == s[p] && s[p..][1] == s[p + 1];
  }

  lemma BlockHostCut(norm: Normalizer, s: Bytes, p: nat, es: seq<Extension>, k: nat)
    requires k <= |s| && ExtensionsFit(es) && |PutExtensions(es)| < 65536
    requires AfterFixed(s) == Some(p) && s[p..] == Vec16(PutExtensions(es))
    ensures HostInHello(norm, s[..k]) ==
            if p + 2 + ServerNameReach(es) <= k then HostOf(norm, ServerNamePayload(es)) else None
  {
    BlockCut(norm, s, p, PutExtensions(es), k);
    BlockRead(norm, s, p, PutExtensions(es));
    PutExtensionsStand(s, p + 2, es);
    ExtensionsCut(norm, s, p + 2, es, k);
  }

  /** Of a hello cut at k bytes the name is found exactly when the cut does not fall
      before the end of the first server_name extension. */
  lemma HelloCut(norm: Normalizer, h: Hello, k: nat)
    requires HelloFits(h) && k <= |PutHello(h)|
    ensures HostInHello(norm, PutHello(h)[..k]) ==
            if ServerNameEnd(h) <= k then HostOf(norm, ServerNamePayload(h.extensions)) else None
  {
    var s := PutHello(h);
    var fixed, block := Put16(h.version) + h.random, Vec16(PutExtensions(h.extensions));
    HelloLayout(h, fixed, block);
    var p := FixedRead(s, fixed, h.sessionId, h.suites, h.compression, block);
    BlockHostCut(norm, s, p, h.extensions, k);
  }

  lemma RecordBody(minor: Byte, body: Bytes, after: Bytes, data: Bytes)
    requires |body| < 65536 && data == PutRecord(minor, body) + after
    ensures |data| >= 5 && data[0] == 0x16 && data[1] == 0x03 && data[5..] == body + after
    ensures Body(data) == if |body| < 4 then body + after else body
  {
    assert data[3..] == Vec16(body) + after;
    Vec16At(data, 3, body, after);
    assert data[5..][..|body|] == data[5..5 + |body|];
  }

  /** What the sniffer takes for the hello when n bytes of the message are in sight. */
  lemma MessageCut(hello: Bytes, n: nat, body: Bytes)
    requires |hello| < 0x1000000 && 4 <= n <= 4 + |hello| && body == Message(hello)[..n]
    ensures body[0] == 0x01 && Clip(body[4..], Uint24(body, 1)) == hello[..n - 4]
  {
    assert body[4..] == hello[..n - 4] && Uint24(body, 1) == |hello|;
  }

  /** A first record with at least the handshake header yields what its part of the
      hello yields, whatever follows. */
  lemma FragmentRead(norm: Normalizer, minor: Byte, hello: Bytes, n: nat, after: Bytes)
    requires |hello| < 0x1000000 && 4 <= n <= 4 + |hello| && n < 65536
    ensures Sniff(norm, PutRecord(minor, Message(hello)[..n]) + after) == HostInHello(norm, hello[..n - 4])
  {
    var body := Message(hello)[..n];
    RecordBody(minor, body, after, PutRecord(minor, body) + after);
    MessageCut(hello, n, body);
  }

  /** The first server_name extension of a hello holds these names. */
  predicate Offers(h: Hello, names: seq<Name>) {
    && HelloFits(h) && NamesFit(names) && |PutNames(names)| < 65534
    && ServerNamePayload(h.extensions) == Some(Vec16(PutNames(names)))
  }

  lemma OfferedCut(norm: Normalizer, h: Hello, names: seq<Name>, k: nat)
    requires Offers(h, names) && k <= |PutHello(h)|
    ensures HostInHello(norm, PutHello(h)[..k]) == if ServerNameEnd(h) <= k then CarriedName(norm, names) else None
  {
    HelloCut(norm, h, k);
    ServerNamesRead(norm, names);
  }

  /** The code does not put fragments together, so for a hello spread over several
      records the name is found exactly when its extension ends in the first. */
  lemma FirstFragmentDecides(norm: Normalizer, minor: Byte, h: Hello, names: seq<Name>, n: nat, after: Bytes)
    requires Offers(h, names) && FragmentFits(h, n)
    ensures Sniff(norm, PutFragment(minor, h, n) + after) ==
            if 4 + ServerNameEnd(h) <= n then CarriedName(norm, names) else None
  {
    var hello := PutHello(h);
    OfferedCut(norm, h, names, n - 4);
    FragmentRead(norm, minor, hello, n, after);
    assert PutFragment(minor, h, n) == PutRecord(minor, Message(hello)[..n]);
  }

  /** A first record too short for the handshake header is run together with whatever
      follows it, the header of the next record included. */
  lemma ShortFragmentRunsOn(minor: Byte, h: Hello, n: nat, after: Bytes)
    requires HelloFits(h) && n < 4
    ensures Body(PutFragment(minor, h, n) + after) == Message(PutHello(h))[..n] + after
  {
    RecordBody(minor, Message(PutHello(h))[..n], after, PutFragment(minor, h, n) + after);
  }

  lemma CutRecordBody(minor: Byte, body: Bytes, m: nat, data: Bytes)
    requires 4 <= |body| < 65536 && 5 <= m <= 5 + |body| && data == PutRecord(minor, body)[..m]
    ensures |data| >= 5 && data[0] == 0x16 && data[1] == 0x03 && Body(data) == body[..m - 5]
  {
    assert data[3] == Put16(|body|)[0] && data[4] == Put16(|body|)[1];
    assert Uint16(data, 3) == |body|;
    assert data[5..] == body[..m - 5];
  }

  lemma ArrivedRead(norm: Normalizer, minor: Byte, hello: Bytes, n: nat, m: nat)
    requires |hello| < 0x1000000 && 4 <= n <= 4 + |hello| && n < 65536 && m <= 5 + n
    ensures Sniff(norm, PutRecord(minor, Message(hello)[..n])[..m]) ==
            if m < 9 then None else HostInHello(norm, hello[..m - 9])
  {
    var body := Message(hello)[..n];
    if m >= 5 {
      var data := PutRecord(minor, body)[..m];
      CutRecordBody(minor, body, m, data);
      if m >= 9 {
        assert body[..m - 5] == Message(hello)[..m - 5];
        MessageCut(hello, m - 5, Body(data));
      }
    }
  }

  /** The same holds of the bytes that have arrived: m of them are enough exactly when
      they reach the end of that extension. */
  lemma ArrivedBytesDecide(norm: Normalizer, minor: Byte, h: Hello, names: seq<Name>, n: nat, m: nat)
    requires Offers(h, names) && FragmentFits(h, n) && m <= 5 + n
    ensures Sniff(norm, PutFragment(minor, h, n)[..m]) ==
            if 9 + ServerNameEnd(h) <= m then CarriedName(norm, names) else None
  {
    var hello := PutHello(h);
    if m >= 9 {
      OfferedCut(norm, h, names, m - 9);
    }
    ArrivedRead(norm, minor, hello, n, m);
    assert PutFragment(minor, h, n) == PutRecord(minor, Message(hello)[..n]);
  }

  lemma OfferedRead(norm: Normalizer, h: Hello, names: seq<Name>)
    requires Offers(h, names)
    ensures HostInHello(norm, PutHello(h)) == CarriedName(norm, names)
  {
    HelloRead(norm, h);
    ServerNamesRead(norm, names);
  }

  lemma WholeRead(norm: Normalizer, minor: Byte, hello: Bytes, after: Bytes)
    requires 4 + |hello| < 65536
    ensures Sniff(norm, PutRecord(minor, Message(hello)) + after) == HostInHello(norm, hello)
  {
    FragmentRead(norm, minor, hello, 4 + |hello|, after);
    assert hello[..|hello|] == hello;
    assert Message(hello)[..4 + |hello|] == Message(hello);
  }

  /** Every ClientHello in one record whose first server_name extension holds a well
      formed list yields the host name that list carries, normalized, whatever
      follows the record. */
  lemma WellFormedHelloIsRead(norm: Normalizer, minor: Byte, h: Hello, names: seq<Name>, after: Bytes)
    requires RecordFits(h) && Offers(h, names)
    ensures Sniff(norm, PutWhole(minor, h) + after) == CarriedName(norm, names)
  {
    var hello := PutHello(h);
    OfferedRead(norm, h, names);
    WholeRead(norm, minor, hello, after);
    assert PutWhole(minor, h) == PutRecord(minor, Message(hello));
  }

  /** A ClientHello without a server_name extension yields no name, however much of it
      is in the first record. */
  lemma NamelessHelloIsRead(norm: Normalizer, minor: Byte, h: Hello, n: nat, after: Bytes)
    requires HelloFits(h) && FragmentFits(h, n) && ServerNamePayload(h.extensions) == None
    ensures Sniff(norm, PutFragment(minor, h, n) + after) == None
  {
    var hello := PutHello(h);
    HelloCut(norm, h, n - 4);
    FragmentRead(norm, minor, hello, n, after);
    assert PutFragment(minor, h, n) == PutRecord(minor, Message(hello)[..n]);
  }

  /** The smallest hello for the host "a". */
  predicate SmallHello(h: Hello) {
    && h.version == 0x0303 && |h.random| == 32 && h.sessionId == h.suites == h.compression == []
    && h.extensions == [Extension(0, Vec16(PutNames([Name(0, [97])])))]
  }

  lemma SmallHelloFits(h: Hello)
    requires SmallHello(h)
    ensures RecordFits(h) && ServerNameEnd(h) == 50 == |PutHello(h)| && Offers(h, [Name(0, [97])])
  {
    assert [Name(0, [97])][1..] == [];
    assert |PutNames([Name(0, [97])])| == 4;
    assert h.extensions[1..] == [];
    assert |PutExtensions(h.extensions)| == 10;
    HelloLayout(h, Put16(h.version) + h.random, Vec16(PutExtensions(h.extensions)));
  }

  /** Split one byte before its end, it is read for no name at all, although the two
      records together carry one. */
  lemma SplitHelloIsMissed(norm: Normalizer, minor: Byte, h: Hello, after: Bytes)
    requires SmallHello(h) && norm([97]) == [97]
    ensures RecordFits(h) && |PutHello(h)| == 50
    ensures Sniff(norm, PutWhole(minor, h) + after) == Some([97])
    ensures Sniff(norm, PutFragment(minor, h, 53) + after) == None
  {
    var names := [Name(0, [97])];
    SmallHelloFits(h);
    assert CarriedName(norm, names) == Some([97]);
    WellFormedHelloIsRead(norm, minor, h, names, after);
    FirstFragmentDecides(norm, minor, h, names, 53, after);
  }
}
