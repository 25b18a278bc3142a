/** The DNS cache reader and question builder
    (internal/localtun/chinadns_cache_linux.go): cached entries are scanned for
    questions that are still worth asking, and each is asked again byte for byte. */
module DnsCache {
  import opened ByteStrings
  import opened Integers
  import opened Options
  import opened Sequences

  const HEADER := 24
  const MESSAGE_HEADER := 12
  const MAX_ENTRIES := 10000
  const DOT: Byte := 46

  // ---- names -----------------------------------------------------------------------

  /** The labels of a wire-format name that ends where the bytes end. */
  function Labels(wire: Bytes): Option<seq<Bytes>> {
    if wire == [] then None
    else if wire[0] == 0 then
      if |wire| == 1 then Some([]) else None
    else if wire[0] > 63 || 1 + (wire[0] as int) > |wire| then None
    else Prepend([wire[1..1 + (wire[0] as int)]], Labels(wire[1 + (wire[0] as int)..]))
  }

  function Prepend(ls: seq<Bytes>, rest: Option<seq<Bytes>>): Option<seq<Bytes>> {
    match rest
    case None => None
    case Some(r) => Some(ls + r)
  }

  lemma PrependNothing(rest: Option<seq<Bytes>>)
    ensures Prepend([], rest) == rest
  {
    if rest.Some? {
      assert [] + rest.value == rest.value;
    }
  }

  function PutLabels(ls: seq<Bytes>): Bytes
    requires AllShort(ls)
  {
    if ls == [] then [] else [|ls[0]|] + ls[0] + PutLabels(ls[1..])
  }

  predicate AllShort(ls: seq<Bytes>) { forall i :: 0 <= i < |ls| ==> |ls[i]| < 256 }

  /** strings.Join(labels, "."). */
  function Join(ls: seq<Bytes>): Bytes {
    if ls == [] then [] else if |ls| == 1 then ls[0] else ls[0] + [DOT] + Join(ls[1..])
  }

  /** strings.Split(name, "."). */
  function Split(name: Bytes): (r: seq<Bytes>)
    ensures r != []
  {
    if name == [] then [[]]
    else
      var rest := Split(name[1..]);
      if name[0] == DOT then [[]] + rest else [[name[0]] + rest[0]] + rest[1..]
  }

  /** Library text functions: strings.TrimSpace keeps the bytes from `first` up to
      `last` of its argument, and strings.ToLower folds case. */
  datatype Text = Text(first: Bytes -> nat, last: Bytes -> nat, lower: Bytes -> Bytes)

  /** strings.TrimSpace: a part of its argument, which part being up to the library. */
  function Trim(lib: Text, s: Bytes): (r: Bytes)
    ensures |r| <= |s| && (|r| == |s| ==> r == s)
  {
    if lib.first(s) <= lib.last(s) <= |s| then s[lib.first(s)..lib.last(s)] else []
  }

  /** Space, tab, carriage return, line feed and / \ [ ] ( ) ^ $ * + ? { } | . */
  predicate Forbidden(b: Byte) {
    b in {32, 9, 13, 10, 47, 92, 91, 93, 40, 41, 94, 36, 42, 43, 63, 123, 125, 124}
  }

  /** normalizeIngressDomain gives a non-empty answer. */
  predicate IsDomain(lib: Text, name: Bytes) {
    var t := WithoutLast(lib.lower(Trim(lib, name)), DOT);
    t != [] && |t| <= 253 && forall i :: 0 <= i < |t| ==> !Forbidden(t[i])
  }

  /** decodeDNSQName. */
  function QName(lib: Text, wire: Bytes): Option<Bytes> {
    match Labels(wire)
    case None => None
    case Some(ls) => if ls == [] || !IsDomain(lib, Join(ls)) then None else Some(Join(ls))
  }

  method DecodeDnsQName(lib: Text, wire: Bytes) returns (r: Option<Bytes>)
    ensures r == QName(lib, wire)
  {
    var labels: seq<Bytes> := [];
    var rest := wire;
    PrependNothing(Labels(wire));
    while rest != []
      invariant Labels(wire) == Prepend(labels, Labels(rest))
      decreases |rest|
    {
      var length: int := rest[0];
      if length == 0 {
        if |rest| != 1 || |labels| == 0 {
          return None;
        }
        assert labels + [] == labels;
        var name := Join(labels);
        if !IsDomain(lib, name) {
          return None;
        }
        return Some(name);
      }
      if length > 63 || 1 + length > |rest| {
        return None;
      }
      LabelsStep(labels, rest);
      labels := labels + [rest[1..1 + length]];
      rest := rest[1 + length..];
    }
    return None;
  }

  lemma LabelsStep(labels: seq<Bytes>, rest: Bytes)
    requires rest != [] && 0 < rest[0] <= 63 && 1 + (rest[0] as int) <= |rest|
    ensures Prepend(labels, Labels(rest)) ==
            Prepend(labels + [rest[1..1 + (rest[0] as int)]], Labels(rest[1 + (rest[0] as int)..]))
  {
    var first, tail := rest[1..1 + (rest[0] as int)], Labels(rest[1 + (rest[0] as int)..]);
    if tail.Some? {
      assert labels + ([first] + tail.value) == labels + [first] + tail.value;
    }
  }

  // ---- the question ----------------------------------------------------------------------

  predicate Asked(qtype: nat) { qtype == 1 || qtype == 28 }

  /** The name a question is built for. */
  function Cleaned(lib: Text, name: Bytes): Bytes { WithoutLast(Trim(lib, name), DOT) }

  /** append(packet, byte(len(label))) keeps only the low byte of the length. */
  function PutLabelsLow(ls: seq<Bytes>): Bytes {
    if ls == [] then [] else PutLabelsLow(ls[..|ls| - 1]) + ([|ls[|ls| - 1]| % 256] + ls[|ls| - 1])
  }

  /** The question section's name in the packet built for a cached name, if any. */
  function QuestionName(lib: Text, name: Bytes, qtype: nat): Option<Bytes> {
    if !IsDomain(lib, Cleaned(lib, name)) || !Asked(qtype) then None
    else Some(PutLabelsLow(Split(Cleaned(lib, name))) + [0])
  }

  class Questions {
    var lastId: nat

    constructor ()
      ensures lastId == 0
    {
      lastId := 0;
    }

    /** buildDNSQuestion: header, name, type and class, under the next identifier. */
    method BuildDnsQuestion(lib: Text, name: Bytes, qtype: nat) returns (r: Option<Bytes>)
      requires qtype < 65536
      modifies this
      ensures r.None? <==> QuestionName(lib, name, qtype).None?
      ensures lastId == if r.Some? then old(lastId) + 1 else old(lastId)
      ensures r.Some? ==>
              r.value == Put16(lastId % 65536) + [1, 0, 0, 1, 0, 0, 0, 0, 0, 0]
                + QuestionName(lib, name, qtype).value + Put16(qtype) + [0, 1]
    {
      var clean := WithoutLast(Trim(lib, name), DOT);
      if !IsDomain(lib, clean) || (qtype != 1 && qtype != 28) {
        return None;
      }
      lastId := lastId + 1;
      var packet: Bytes := Put16(lastId % 65536) + [1, 0, 0, 1, 0, 0, 0, 0, 0, 0];
      ghost var head := packet;
      var labels := Split(clean);
      for i := 0 to |labels|
        invariant packet == head + PutLabelsLow(labels[..i]) && lastId == old(lastId) + 1
      {
        AppendLabel(head, labels, i);
        packet := packet + [|labels[i]| % 256];
        packet := packet + labels[i];
      }
      assert labels[..|labels|] == labels;
      r := Some(packet + [0] + Put16(qtype) + [0, 1]);
      assert packet + [0] == head + (PutLabelsLow(labels) + [0]);
    }
  }

  lemma AppendLabel(head: Bytes, labels: seq<Bytes>, i: nat)
    requires i < |labels|
    ensures head + PutLabelsLow(labels[..i]) + [|labels[i]| % 256] + labels[i] == head + PutLabelsLow(labels[..i + 1])
  {
    assert labels[..i + 1][..i] == labels[..i];
  }

  // ---- asking again reproduces the name ------------------------------------------------------

  predicate NoDot(s: Bytes) { forall i :: 0 <= i < |s| ==> s[i] != DOT }

  predicate NoDots(ls: seq<Bytes>) { forall i :: 0 <= i < |ls| ==> NoDot(ls[i]) }

  lemma {:induction false} SplitPlain(s: Bytes)
    requires NoDot(s)
    ensures Split(s) == [s]
  {
    if s != [] {
      SplitPlain(s[1..]);
      assert [s[0]] + s[1..] == s;
      assert [s[1..]][1..] == [];
    }
  }

  lemma {:induction false} SplitAtDot(s: Bytes, rest: Bytes)
    requires NoDot(s)
    ensures Split(s + [DOT] + rest) == [s] + Split(rest)
  {
    var all := s + [DOT] + rest;
    if s == [] {
      assert all[1..] == rest;
    } else {
      assert all[1..] == s[1..] + [DOT] + rest;
      SplitAtDot(s[1..], rest);
      assert ([s[1..]] + Split(rest))[1..] == Split(rest);
      assert [s[0]] + s[1..] == s;
    }
  }

  lemma {:induction false} SplitJoin(ls: seq<Bytes>)
    requires ls != [] && NoDots(ls)
    ensures Split(Join(ls)) == ls
  {
    if |ls| == 1 {
      SplitPlain(ls[0]);
    } else {
      SplitJoin(ls[1..]);
      SplitAtDot(ls[0], Join(ls[1..]));
      assert [ls[0]] + ls[1..] == ls;
    }
  }

  lemma {:induction false} JoinSplit(name: Bytes)
    ensures Join(Split(name)) == name && NoDots(Split(name))
  {
    if name != [] {
      var rest := Split(name[1..]);
      JoinSplit(name[1..]);
      if name[0] == DOT {
        assert ([[]] + rest)[1..] == rest;
        assert [] + [DOT] + name[1..] == name;
      } else {
        var first := [name[0]] + rest[0];
        var ls := [first] + rest[1..];
        assert ls[1..] == rest[1..];
        if |rest| > 1 {
          assert first + [DOT] + Join(rest[1..]) == [name[0]] + (rest[0] + [DOT] + Join(rest[1..]));
        }
        assert [name[0]] + name[1..] == name;
      }
    }
  }

  /** The labels read are exactly those written. */
  lemma {:induction false} LabelsAreWire(wire: Bytes)
    requires Labels(wire).Some?
    ensures AllShort(Labels(wire).value) && wire == PutLabels(Labels(wire).value) + [0]
    ensures forall i :: 0 <= i < |Labels(wire).value| ==> 0 < |Labels(wire).value[i]| <= 63
  {
    if wire[0] != 0 {
      var n: int := wire[0];
      LabelsAreWire(wire[1 + n..]);
      var ls := Labels(wire[1 + n..]).value;
      assert ([wire[1..1 + n]] + ls)[1..] == ls;
      assert wire == [wire[0]] + wire[1..1 + n] + wire[1 + n..];
    }
  }

  lemma LowByte(n: nat)
    requires n < 256
    ensures n % 256 == n
  {}

  lemma {:induction false} PutLowIsPut(ls: seq<Bytes>)
    requires AllShort(ls)
    ensures PutLabelsLow(ls) == PutLabels(ls)
  {
    if ls != [] {
      var init, last := ls[..|ls| - 1], ls[|ls| - 1];
      PutLowIsPut(init);
      PutSnoc(init, last);
      SplitLast(ls);
      LowByte(|last|);
    }
  }

  lemma {:induction false} PutSnoc(ls: seq<Bytes>, l: Bytes)
    requires AllShort(ls) && |l| < 256
    ensures PutLabels(ls + [l]) == PutLabels(ls) + ([|l|] + l)
  {
    if ls == [] {
      assert ls + [l] == [l] && [l][1..] == [];
    } else {
      assert (ls + [l])[1..] == ls[1..] + [l];
      PutSnoc(ls[1..], l);
    }
  }

  lemma {:induction false} PutInjective(a: seq<Bytes>, b: seq<Bytes>)
    requires AllShort(a) && AllShort(b) && PutLabels(a) == PutLabels(b)
    ensures a == b
  {
    if a != [] && b != [] {
      var x, y := PutLabels(a), PutLabels(b);
      assert x[0] == |a[0]| && y[0] == |b[0]|;
      assert x[1..1 + |a[0]|] == a[0] && y[1..1 + |b[0]|] == b[0];
      assert x[1 + |a[0]|..] == PutLabels(a[1..]) && y[1 + |b[0]|..] == PutLabels(b[1..]);
      PutInjective(a[1..], b[1..]);
      assert a == [a[0]] + a[1..] && b == [b[0]] + b[1..];
    }
  }

  lemma TrimSize(lib: Text, name: Bytes)
    ensures Cleaned(lib, name) == name ==> Trim(lib, name) == name
    ensures Trim(lib, name) == name && name != [] && name[|name| - 1] != DOT ==> Cleaned(lib, name) == name
  {}

  lemma {:induction false} JoinEnds(ls: seq<Bytes>)
    requires ls != [] && NoDots(ls) && ls[|ls| - 1] != []
    ensures Join(ls) != [] && Join(ls)[|Join(ls)| - 1] != DOT
  {
    if |ls| > 1 {
      JoinEnds(ls[1..]);
    }
  }

  /** The name asked again is byte for byte the cached one exactly when no label
      contains a dot and trimming leaves the dotted name as it is. */
  lemma QuestionReproducesIff(lib: Text, wire: Bytes, qtype: nat)
    requires QName(lib, wire).Some? && Asked(qtype)
    ensures QuestionName(lib, QName(lib, wire).value, qtype) == Some(wire)
       <==> NoDots(Labels(wire).value) && Trim(lib, QName(lib, wire).value) == QName(lib, wire).value
  {
    var ls, name := Labels(wire).value, QName(lib, wire).value;
    if NoDots(ls) && Trim(lib, name) == name {
      PlainNameReproduced(lib, wire, qtype);
    }
    if QuestionName(lib, name, qtype) == Some(wire) {
      ReproducedNameIsPlain(lib, wire, qtype);
    }
  }

  lemma PlainNameReproduced(lib: Text, wire: Bytes, qtype: nat)
    requires QName(lib, wire).Some? && Asked(qtype)
    requires NoDots(Labels(wire).value) && Trim(lib, QName(lib, wire).value) == QName(lib, wire).value
    ensures QuestionName(lib, QName(lib, wire).value, qtype) == Some(wire)
  {
    var ls, name := Labels(wire).value, QName(lib, wire).value;
    LabelsAreWire(wire);
    JoinEnds(ls);
    TrimSize(lib, name);
    SplitJoin(ls);
    PutLowIsPut(ls);
  }

  lemma ReproducedNameIsPlain(lib: Text, wire: Bytes, qtype: nat)
    requires QName(lib, wire).Some? && QuestionName(lib, QName(lib, wire).value, qtype) == Some(wire)
    ensures NoDots(Labels(wire).value) && Trim(lib, QName(lib, wire).value) == QName(lib, wire).value
  {
    var ls, name := Labels(wire).value, QName(lib, wire).value;
    var clean := Cleaned(lib, name);
    LabelsAreWire(wire);
    JoinSplit(clean);
    CleanedIsShort(lib, ls);
    PutLowIsPut(Split(clean));
    SameFront(PutLabels(Split(clean)), PutLabels(ls), 0);
    PutInjective(Split(clean), ls);
    TrimSize(lib, name);
  }

  // ---- no part of a cleaned name is long -----------------------------------------------------

  predicate NoDotIn(s: Bytes, i: nat, j: nat)
    requires i <= j <= |s|
  {
    forall k :: i <= k < j ==> s[k] != DOT
  }

  /** No stretch without a dot is longer than n. */
  predicate Dotted(s: Bytes, n: nat) {
    forall i, j :: 0 <= i <= j <= |s| && NoDotIn(s, i, j) ==> j - i <= n
  }

  lemma PartDotted(s: Bytes, a: nat, b: nat, n: nat)
    requires a <= b <= |s| && Dotted(s, n)
    ensures Dotted(s[a..b], n)
  {
    var t := s[a..b];
    forall i, j | 0 <= i <= j <= |t| && NoDotIn(t, i, j) ensures j - i <= n {
      forall k | a + i <= k < a + j ensures s[k] != DOT {
        assert s[k] == t[k - a];
      }
      assert NoDotIn(s, a + i, a + j);
    }
  }

  lemma {:induction false} JoinDotted(ls: seq<Bytes>, n: nat)
    requires forall i :: 0 <= i < |ls| ==> |ls[i]| <= n
    ensures Dotted(Join(ls), n)
  {
    if |ls| > 1 {
      JoinDotted(ls[1..], n);
      ConcatDotted(ls[0], Join(ls[1..]), n);
    }
  }

  lemma ConcatDotted(a: Bytes, b: Bytes, n: nat)
    requires |a| <= n && Dotted(b, n)
    ensures Dotted(a + [DOT] + b, n)
  {
    var s := a + [DOT] + b;
    assert s[|a|] == DOT;
    forall i, j | 0 <= i <= j <= |s| && NoDotIn(s, i, j) ensures j - i <= n {
      if i > |a| {
        forall k | i - |a| - 1 <= k < j - |a| - 1 ensures b[k] != DOT {
          assert b[k] == s[k + |a| + 1];
        }
        assert NoDotIn(b, i - |a| - 1, j - |a| - 1);
      }
    }
  }

  lemma {:induction false} SplitHead(s: Bytes)
    ensures |Split(s)[0]| <= |s| && NoDotIn(s, 0, |Split(s)[0]|)
  {
    if s != [] && s[0] != DOT {
      SplitHead(s[1..]);
      assert forall k :: 1 <= k < |s| ==> s[k] == s[1..][k - 1];
    }
  }

  lemma {:induction false} SplitDotted(s: Bytes, n: nat)
    requires Dotted(s, n)
    ensures forall i :: 0 <= i < |Split(s)| ==> |Split(s)[i]| <= n
  {
    if s != [] {
      PartDotted(s, 1, |s|, n);
      assert s[1..|s|] == s[1..];
      SplitDotted(s[1..], n);
      SplitHead(s);
    }
  }

  lemma CleanedIsShort(lib: Text, ls: seq<Bytes>)
    requires forall i :: 0 <= i < |ls| ==> |ls[i]| <= 63
    ensures AllShort(Split(Cleaned(lib, Join(ls))))
  {
    var name := Join(ls);
    var t := Trim(lib, name);
    JoinDotted(ls, 63);
    if lib.first(name) <= lib.last(name) <= |name| {
      PartDotted(name, lib.first(name), lib.last(name), 63);
    } else {
      PartDotted(name, 0, 0, 63);
    }
    PartDotted(t, 0, |Cleaned(lib, name)|, 63);
    assert t[0..|Cleaned(lib, name)|] == Cleaned(lib, name);
    SplitDotted(Cleaned(lib, name), 63);
  }

  predicate Ldh(b: Byte) { 48 <= b <= 57 || 65 <= b <= 90 || 97 <= b <= 122 || b == 45 }

  predicate LdhLabels(ls: seq<Bytes>) { forall i, j :: 0 <= i < |ls| && 0 <= j < |ls[i]| ==> Ldh(ls[i][j]) }

  /** Text that begins and ends with a letter, digit or hyphen is not trimmed. */
  ghost predicate KeepsLdhEnds(lib: Text) {
    forall s: Bytes :: s != [] && Ldh(s[0]) && Ldh(s[|s| - 1]) ==> Trim(lib, s) == s
  }

  /** Names of letters, digits and hyphens are always reproduced. */
  lemma LdhNamesReproduced(lib: Text, wire: Bytes, qtype: nat)
    requires QName(lib, wire).Some? && Asked(qtype) && LdhLabels(Labels(wire).value) && KeepsLdhEnds(lib)
    ensures QuestionName(lib, QName(lib, wire).value, qtype) == Some(wire)
  {
    LabelsAreWire(wire);
    LdhEnds(Labels(wire).value);
    PlainNameReproduced(lib, wire, qtype);
  }

  lemma {:induction false} LdhEnds(ls: seq<Bytes>)
    requires ls != [] && LdhLabels(ls) && forall i :: 0 <= i < |ls| ==> ls[i] != []
    ensures Join(ls) != [] && Ldh(Join(ls)[0]) && Ldh(Join(ls)[|Join(ls)| - 1])
  {
    assert Ldh(ls[0][0]) && Ldh(ls[|ls| - 1][|ls[|ls| - 1]| - 1]);
    if |ls| > 1 {
      LdhEnds(ls[1..]);
    }
  }

  /** A label with a dot in it is asked as two labels. */
  lemma DottedLabelChanges(lib: Text)
    requires Trim(lib, [97, DOT, 98]) == [97, DOT, 98] == lib.lower([97, DOT, 98])
    ensures QName(lib, [3, 97, DOT, 98, 0]) == Some([97, DOT, 98])
    ensures QuestionName(lib, [97, DOT, 98], 1) == Some([1, 97, 1, 98, 0])
  {
    var name: Bytes, wire: Bytes := [97, DOT, 98], [3, 97, DOT, 98, 0];
    assert wire == [3] + name + [0];
    OneLabel(wire, name);
    TwoLabelsOut();
    assert Cleaned(lib, name) == name && IsDomain(lib, name);
  }

  lemma TwoLabelsPut(x: Bytes, y: Bytes)
    ensures PutLabelsLow([x, y]) == [|x| % 256] + x + ([|y| % 256] + y)
  {
    assert [x, y][..1] == [x] && [x][..0] == [];
    assert PutLabelsLow([x]) == [] + ([|x| % 256] + x);
  }

  lemma TwoLabelsOut()
    ensures PutLabelsLow(Split([97, DOT, 98])) + [0] == [1, 97, 1, 98, 0]
  {
    var x: Bytes, y: Bytes := [97], [98];
    SplitAtDot(x, y);
    SplitPlain(y);
    assert x + [DOT] + y == [97, DOT, 98];
    assert [x] + [y] == [x, y];
    TwoLabelsPut(x, y);
  }

  /** A name that ends in a no-break space, which the library trims, is asked
      without it. */
  lemma TrimmedNameChanges(lib: Text)
    requires Trim(lib, [97, 0xC2, 0xA0]) == [97] == Trim(lib, [97]) == lib.lower([97])
    ensures QName(lib, [3, 97, 0xC2, 0xA0, 0]) == Some([97, 0xC2, 0xA0])
    ensures QuestionName(lib, [97, 0xC2, 0xA0], 1) == Some([1, 97, 0])
  {
    var name: Bytes, wire: Bytes := [97, 0xC2, 0xA0], [3, 97, 0xC2, 0xA0, 0];
    assert wire == [3] + name + [0];
    OneLabel(wire, name);
    SplitPlain([97]);
    assert [[97]][..0] == [];
    assert PutLabelsLow([[97]]) == [1, 97];
    assert Cleaned(lib, name) == [97] && IsDomain(lib, [97]);
    assert [1, 97] + [0] == [1, 97, 0];
  }

  lemma OneLabel(wire: Bytes, l: Bytes)
    requires 0 < |l| <= 63 && wire == [|l|] + l + [0]
    ensures Labels(wire) == Some([l]) && Join([l]) == l
  {
    assert wire[1..1 + |l|] == l;
    assert wire[1 + |l|..] == [0];
    assert Labels([0]) == Some([]);
    assert [l] + [] == [l];
  }

  lemma SameFront<T>(a: seq<T>, b: seq<T>, x: T)
    requires a + [x] == b + [x]
    ensures a == b
  {
    assert |a + [x]| == |a| + 1 && |b + [x]| == |b| + 1;
    assert a == (a + [x])[..|a|] && b == (b + [x])[..|b|];
  }

  // ---- the cache file ------------------------------------------------------------------------

  datatype Endian = Little | Big

  function FromLittle(s: Bytes): nat { if s == [] then 0 else (s[0] as int) + 256 * FromLittle(s[1..]) }

  function FromBig(s: Bytes): nat { if s == [] then 0 else 256 * FromBig(s[..|s| - 1]) + s[|s| - 1] }

  /** binary.NativeEndian, whichever the machine has. */
  function Native(order: Endian, s: Bytes): nat { if order == Little then FromLittle(s) else FromBig(s) }

  /** What the machine contributes: its byte order and its text library. */
  datatype Machine = Machine(order: Endian, text: Text)

  datatype CacheEntry = CacheEntry(updatedAt: int, ttl: int, name: Bytes, qtype: nat)

  /** The length of the message that follows a header. */
  function MessageLen(m: Machine, data: Bytes): nat
    requires |data| >= HEADER
  {
    Native(m.order, data[20..22])
  }

  /** One entry at the front of the data. */
  function ReadEntry(m: Machine, data: Bytes): Option<CacheEntry> {
    if |data| < HEADER then None
    else
      var msgLen := MessageLen(m, data);
      var qnameLen: int := data[22];
      if msgLen < MESSAGE_HEADER + qnameLen + 4 || qnameLen < 2 || msgLen > 65535 then None
      else if HEADER + msgLen > |data| then None
      else Contents(m, data[..HEADER], data[HEADER..HEADER + msgLen])
  }

  function Contents(m: Machine, header: Bytes, msg: Bytes): Option<CacheEntry>
    requires |header| == HEADER && |msg| >= MESSAGE_HEADER + (header[22] as int) + 4
  {
    var end := MESSAGE_HEADER + (header[22] as int);
    match QName(m.text, msg[MESSAGE_HEADER..end])
    case None => None
    case Some(name) =>
      Some(CacheEntry(Signed(Native(m.order, header[0..8]), TWO_63), Signed(Native(m.order, header[12..16]), TWO_31),
        name, FromBig(msg[end..end + 2])))
  }

  function EntrySize(m: Machine, data: Bytes): (r: nat)
    requires ReadEntry(m, data).Some?
    ensures HEADER < r <= |data|
  {
    HEADER + MessageLen(m, data)
  }

  /** All entries, or None if one is malformed or there are too many. */
  function ReadAll(m: Machine, data: Bytes, seen: nat): Option<seq<CacheEntry>>
    decreases |data|
  {
    if data == [] then Some([])
    else if seen >= MAX_ENTRIES then None
    else match ReadEntry(m, data)
      case None => None
      case Some(e) => match ReadAll(m, data[EntrySize(m, data)..], seen + 1)
        case None => None
        case Some(rest) => Some([e] + rest)
  }

  datatype Query = Query(name: Bytes, qtype: nat)

  /** ttl-elapsed > 0 in int64 arithmetic. */
  predicate Live(e: CacheEntry, now: int) {
    var elapsed := if now > e.updatedAt then Signed(now - e.updatedAt, TWO_63) else 0;
    Signed(e.ttl - elapsed, TWO_63) > 0
  }

  function QueriesOf(es: seq<CacheEntry>, now: int): set<Query> {
    set e | e in es && Live(e, now) && Asked(e.qtype) :: Query(e.name, e.qtype)
  }

  /** Byte-wise order of text. */
  predicate BytesLess(a: Bytes, b: Bytes) {
    b != [] && (a == [] || a[0] < b[0] || (a[0] == b[0] && BytesLess(a[1..], b[1..])))
  }

  /** By name, then by type. */
  predicate Before(a: Query, b: Query) {
    if a.name == b.name then a.qtype < b.qtype else BytesLess(a.name, b.name)
  }

  predicate InOrder(s: seq<Query>) { forall i, j :: 0 <= i < j < |s| ==> Before(s[i], s[j]) }

  lemma {:induction false} BytesLessTotal(a: Bytes, b: Bytes)
    ensures a == b || BytesLess(a, b) || BytesLess(b, a)
    ensures !BytesLess(a, a)
  {
    if a != [] {
      BytesLessTotal(a[1..], if b == [] then b else b[1..]);
    }
    if a != [] && b != [] && a[0] == b[0] && a[1..] == b[1..] {
      assert a == [a[0]] + a[1..] && b == [b[0]] + b[1..];
    }
  }

  lemma {:induction false} BytesLessTransitive(a: Bytes, b: Bytes, c: Bytes)
    requires BytesLess(a, b) && BytesLess(b, c)
    ensures BytesLess(a, c)
  {
    if a != [] && a[0] == b[0] && b[0] == c[0] {
      BytesLessTransitive(a[1..], b[1..], c[1..]);
    }
  }

  lemma BeforeTransitive(a: Query, b: Query, c: Query)
    requires Before(a, b) && Before(b, c)
    ensures Before(a, c)
  {
    BytesLessTotal(a.name, a.name);
    if a.name != b.name && b.name != c.name {
      BytesLessTransitive(a.name, b.name, c.name);
    }
  }

  function Insert(s: seq<Query>, q: Query): (r: seq<Query>)
    ensures multiset(r) == multiset(s) + multiset{q}
  {
    if s == [] || Before(q, s[0]) then [q] + s
    else
      assert s == [s[0]] + s[1..];
      [s[0]] + Insert(s[1..], q)
  }

  lemma PrependKeepsOrder(q: Query, s: seq<Query>)
    requires InOrder(s) && forall k :: 0 <= k < |s| ==> Before(q, s[k])
    ensures InOrder([q] + s)
  {}

  lemma {:induction false} InsertKeepsOrder(s: seq<Query>, q: Query)
    requires InOrder(s) && q !in s
    ensures InOrder(Insert(s, q))
  {
    if s != [] && !Before(q, s[0]) {
      InsertKeepsOrder(s[1..], q);
      BytesLessTotal(q.name, s[0].name);
      var tail := Insert(s[1..], q);
      forall k | 0 <= k < |tail| ensures Before(s[0], tail[k]) {
        assert tail[k] in multiset(tail);
        assert tail[k] == q || tail[k] in s[1..];
      }
      PrependKeepsOrder(s[0], tail);
    } else if s != [] {
      forall k | 0 <= k < |s| ensures Before(q, s[k]) {
        if k > 0 {
          BeforeTransitive(q, s[0], s[k]);
        }
      }
      PrependKeepsOrder(q, s);
    }
  }

  /** The collected questions, sorted. */
  method SortQueries(queries: set<Query>) returns (r: seq<Query>)
    ensures InOrder(r) && forall q :: q in r <==> q in queries
  {
    r := [];
    var todo := queries;
    while todo != {}
      invariant InOrder(r) && todo <= queries && forall q :: q in r <==> q in queries - todo
      decreases todo
    {
      var q :| q in todo;
      InsertKeepsOrder(r, q);
      var next := Insert(r, q);
      assert forall x :: x in next <==> x in multiset(next);
      assert forall x :: x in r <==> x in multiset(r);
      r := next;
      todo := todo - {q};
    }
  }

  /** parseChinaDNSCache: the live questions of all entries, each once, by name and
      type; nothing if an entry is malformed or there are too many. */
  method ParseChinaDnsCache(m: Machine, bytes: Bytes, now: int) returns (r: Option<seq<Query>>)
    ensures r.Some? <==> ReadAll(m, bytes, 0).Some?
    ensures r.Some? ==>
            InOrder(r.value) && forall q :: q in r.value <==> q in QueriesOf(ReadAll(m, bytes, 0).value, now)
  {
    var queries := CollectQueries(m, bytes, now);
    if queries.None? {
      return None;
    }
    var sorted := SortQueries(queries.value);
    r := Some(sorted);
  }

  /** The scan over the entries. */
  method CollectQueries(m: Machine, bytes: Bytes, now: int) returns (r: Option<set<Query>>)
    ensures r == match ReadAll(m, bytes, 0)
              case None => None
              case Some(es) => Some(QueriesOf(es, now))
  {
    var data, entries := bytes, 0;
    var seen: set<Query> := {};
    ghost var done: seq<CacheEntry> := [];
    PrependEntries([], ReadAll(m, bytes, 0));
    while data != []
      invariant ReadAll(m, bytes, 0) == After(done, ReadAll(m, data, entries))
      invariant seen == QueriesOf(done, now)
      decreases |data|
    {
      if entries >= MAX_ENTRIES {
        return None;
      }
      var e := ReadEntry(m, data);
      if e.None? {
        return None;
      }
      EntryStep(m, data, entries, done);
      QueriesSnoc(done, e.value, now);
      if Live(e.value, now) && Asked(e.value.qtype) {
        seen := seen + {Query(e.value.name, e.value.qtype)};
      }
      data := data[EntrySize(m, data)..];
      entries := entries + 1;
      done := done + [e.value];
    }
    assert done + [] == done;
    return Some(seen);
  }

  function After(done: seq<CacheEntry>, rest: Option<seq<CacheEntry>>): Option<seq<CacheEntry>> {
    match rest
    case None => None
    case Some(r) => Some(done + r)
  }

  lemma PrependEntries(done: seq<CacheEntry>, rest: Option<seq<CacheEntry>>)
    ensures done == [] ==> After(done, rest) == rest
  {
    if done == [] && rest.Some? {
      assert [] + rest.value == rest.value;
    }
  }

  lemma EntryStep(m: Machine, data: Bytes, seen: nat, done: seq<CacheEntry>)
    requires data != [] && seen < MAX_ENTRIES && ReadEntry(m, data).Some?
    ensures After(done, ReadAll(m, data, seen))
         == After(done + [ReadEntry(m, data).value], ReadAll(m, data[EntrySize(m, data)..], seen + 1))
  {
    var e, rest := ReadEntry(m, data).value, ReadAll(m, data[EntrySize(m, data)..], seen + 1);
    if rest.Some? {
      assert done + ([e] + rest.value) == done + [e] + rest.value;
    }
  }

  lemma QueriesSnoc(es: seq<CacheEntry>, e: CacheEntry, now: int)
    ensures QueriesOf(es + [e], now) ==
            QueriesOf(es, now) + (if Live(e, now) && Asked(e.qtype) then {Query(e.name, e.qtype)} else {})
  {}

  /** The liveness test agrees with the arithmetic it stands for exactly when the
      entry is not so old that the subtraction leaves the 64-bit range. */
  lemma LiveIsExactIff(e: CacheEntry, now: int)
    requires 0 <= now < TWO_63 && -TWO_63 <= e.updatedAt < TWO_63 && -TWO_31 <= e.ttl < TWO_31
    ensures (Live(e, now) <==> e.ttl > (if now > e.updatedAt then now - e.updatedAt else 0))
       <==> now <= e.updatedAt || now - e.updatedAt <= TWO_63 + e.ttl || now - e.updatedAt >= 2 * TWO_63 + e.ttl
  {}

  /** An entry last touched at the lowest time has been dead for ages, and yet the
      difference wraps and the test finds it alive. */
  lemma AncientEntryIsLive(name: Bytes)
    ensures var e, now := CacheEntry(-TWO_63, 0, name, 1), 1;
            Live(e, now) && now > e.updatedAt && now - e.updatedAt > e.ttl
  {}

  // ---- truncated files -------------------------------------------------------------------------

  /** A cut at k falls between two entries. */
  predicate Boundary(m: Machine, data: Bytes, k: nat)
    decreases |data|
  {
    k == 0 || (ReadEntry(m, data).Some? && EntrySize(m, data) <= k
               && Boundary(m, data[EntrySize(m, data)..], k - EntrySize(m, data)))
  }

  lemma SlicesOfPrefix<T>(data: seq<T>, k: nat, i: nat, j: nat)
    requires i <= j <= k <= |data|
    ensures data[..k][i..j] == data[i..j]
  {}

  lemma ShortEntryRejected(m: Machine, data: Bytes, k: nat)
    requires HEADER <= |data| && k <= |data| && k < HEADER + MessageLen(m, data)
    ensures ReadEntry(m, data[..k]).None?
  {
    if k >= HEADER {
      SlicesOfPrefix(data, k, 20, 22);
    }
  }

  lemma WholeEntryKept(m: Machine, data: Bytes, cut: Bytes, k: nat)
    requires ReadEntry(m, data).Some? && EntrySize(m, data) <= k <= |data| && cut == data[..k]
    ensures ReadEntry(m, cut) == ReadEntry(m, data) && EntrySize(m, cut) == EntrySize(m, data)
  {
    SlicesOfPrefix(data, k, 20, 22);
    SlicesOfPrefix(data, k, 0, HEADER);
    SlicesOfPrefix(data, k, HEADER, EntrySize(m, data));
    assert cut[..HEADER] == cut[0..HEADER] && data[..HEADER] == data[0..HEADER];
  }

  lemma CutTail<T>(data: seq<T>, n: nat, k: nat)
    requires n <= k <= |data|
    ensures data[..k][n..] == data[n..][..k - n]
  {}

  lemma CutInside(m: Machine, data: Bytes, cut: Bytes, seen: nat, k: nat)
    requires ReadEntry(m, data).Some? && 0 < k < EntrySize(m, data) && cut == data[..k]
    ensures ReadAll(m, cut, seen).None? && !Boundary(m, data, k)
  {
    ShortEntryRejected(m, data, k);
    assert |cut| == k;
  }

  lemma ReadAllStep(m: Machine, data: Bytes, rest: Bytes, seen: nat)
    requires seen < MAX_ENTRIES && ReadEntry(m, data).Some? && rest == data[EntrySize(m, data)..]
    ensures ReadAll(m, data, seen).Some? <==> ReadAll(m, rest, seen + 1).Some?
  {}

  lemma CutBehind(m: Machine, data: Bytes, cut: Bytes, seen: nat, k: nat, n: nat)
    requires seen < MAX_ENTRIES && ReadEntry(m, data).Some? && EntrySize(m, data) == n <= k <= |data|
             && cut == data[..k]
    ensures ReadAll(m, cut, seen).Some? <==> ReadAll(m, data[n..][..k - n], seen + 1).Some?
  {
    WholeEntryKept(m, data, cut, k);
    CutTail(data, n, k);
    ReadAllStep(m, cut, data[n..][..k - n], seen);
  }

  lemma BoundaryStep(m: Machine, data: Bytes, rest: Bytes, k: nat)
    requires ReadEntry(m, data).Some? && EntrySize(m, data) <= k && rest == data[EntrySize(m, data)..]
    ensures Boundary(m, data, k) <==> Boundary(m, rest, k - EntrySize(m, data))
  {}

  lemma NonEmptyIsRead(m: Machine, data: Bytes, seen: nat)
    requires data != [] && ReadAll(m, data, seen).Some?
    ensures seen < MAX_ENTRIES && ReadEntry(m, data).Some?
    ensures ReadAll(m, data[EntrySize(m, data)..], seen + 1).Some?
  {}

  /** Cutting a readable cache file is accepted exactly at an entry boundary. */
  lemma {:induction false} TruncationRejectedIff(m: Machine, data: Bytes, cut: Bytes, seen: nat, k: nat)
    requires ReadAll(m, data, seen).Some? && k <= |data| && cut == data[..k]
    ensures ReadAll(m, cut, seen).Some? <==> Boundary(m, data, k)
    decreases |data|
  {
    if k > 0 {
      NonEmptyIsRead(m, data, seen);
      var n := EntrySize(m, data);
      if k < n {
        CutInside(m, data, cut, seen, k);
      } else {
        var rest, left := data[n..], data[n..][..k - n];
        CutBehind(m, data, cut, seen, k, n);
        BoundaryStep(m, data, rest, k);
        TruncationRejectedIff(m, rest, left, seen + 1, k - n);
      }
    }
  }
}
