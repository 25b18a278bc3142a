/** The geo database reader (node/geo_dat.go): address lists and domain lists by
    name, read from protobuf messages, and merged source by source. */
module GeoDat {
  import opened Integers
  import opened Options
  import opened ByteStrings
  import opened Protobuf
  import opened Prefixes

  // ---- addresses as bytes -----------------------------------------------------------

  /** IPv4 addresses written as IPv6: ten zero bytes and two of ones. */
  predicate IsMapped(bits: seq<bool>)
    requires |bits| == 128
  {
    (forall i :: 0 <= i < 80 ==> !bits[i]) && (forall i :: 80 <= i < 96 ==> bits[i])
  }

  /** netip.AddrFromSlice followed by Unmap. */
  function AddrFrom(s: Bytes): Option<Addr> {
    if |s| == 4 then Some(Addr(V4, BitsOf(s)))
    else if |s| != 16 then None
    else if IsMapped(BitsOf(s)) then Some(Addr(V4, BitsOf(s)[96..]))
    else Some(Addr(V6, BitsOf(s)))
  }

  // ---- address lists -----------------------------------------------------------------

  datatype CidrParts = CidrParts(ip: Bytes, bits: nat)

  predicate CidrKnows(f: Field) { (f.num == 1 && f.value.Chunk?) || (f.num == 2 && f.value.Varint?) }

  function CidrStep(a: CidrParts, f: Field): Option<CidrParts> {
    if f.num == 1 && f.value.Chunk? then Some(a.(ip := f.value.bytes))
    else if f.num == 2 && f.value.Varint? then Some(a.(bits := f.value.v))
    else Some(a)
  }

  function CidrOf(parts: CidrParts): Option<Prefix> {
    match AddrFrom(parts.ip)
    case None => None
    case Some(a) => if parts.bits > Width(a.family) then None else Some(Masked(Prefix(a, parts.bits)))
  }

  /** parseCIDRMessage. */
  function ParseCidr(data: Bytes): Option<Prefix> {
    match Message(data, CidrParts([], 0), CidrStep)
    case None => None
    case Some(parts) => CidrOf(parts)
  }

  /** A named list: a country's prefixes or a site's domain rules. */
  datatype Entry<T> = Entry(code: Bytes, items: seq<T>)

  predicate EntryKnows(f: Field) { (f.num == 1 || f.num == 2) && f.value.Chunk? }

  /** parseGeoIPMessage and parseGeoSiteMessage, which differ in how an item of the
      list is read. */
  function EntryStep<T>(item: Bytes -> Option<T>): (Entry<T>, Field) -> Option<Entry<T>> {
    (a: Entry<T>, f: Field) =>
      if f.num == 1 && f.value.Chunk? then Some(a.(code := f.value.bytes))
      else if f.num == 2 && f.value.Chunk? then
        (match item(f.value.bytes)
         case None => None
         case Some(x) => Some(a.(items := a.items + [x])))
      else Some(a)
  }

  function ParseEntry<T>(item: Bytes -> Option<T>): Bytes -> Option<Entry<T>> {
    (data: Bytes) => Message(data, Entry([], []), EntryStep(item))
  }

  predicate ListKnows(f: Field) { f.num == 1 && f.value.Chunk? }

  /** parseGeoIPList and parseGeoSiteList. */
  function ListStep<T>(entry: Bytes -> Option<T>): (seq<T>, Field) -> Option<seq<T>> {
    (out: seq<T>, f: Field) =>
      if f.num == 1 && f.value.Chunk? then
        (match entry(f.value.bytes)
         case None => None
         case Some(x) => Some(out + [x]))
      else Some(out)
  }

  function ParseGeoIpList(data: Bytes): Option<seq<Entry<Prefix>>> {
    Message(data, [], ListStep(ParseEntry(ParseCidr)))
  }

  // ---- domain lists --------------------------------------------------------------------

  datatype DomainKind = Plain | Regex | RootDomain | Full

  datatype DomainRule = DomainRule(kind: DomainKind, value: Bytes)

  function KindOf(v: nat): Option<DomainKind> {
    match v
    case 0 => Some(Plain)
    case 1 => Some(Regex)
    case 2 => Some(RootDomain)
    case 3 => Some(Full)
    case _ => None
  }

  function KindNumber(k: DomainKind): (r: nat)
    ensures KindOf(r) == Some(k)
  {
    match k
    case Plain => 0
    case Regex => 1
    case RootDomain => 2
    case Full => 3
  }

  predicate RuleKnows(f: Field) { (f.num == 1 && f.value.Varint?) || (f.num == 2 && f.value.Chunk?) }

  function RuleStep(a: DomainRule, f: Field): Option<DomainRule> {
    if f.num == 1 && f.value.Varint? then
      (match KindOf(f.value.v)
       case None => None
       case Some(k) => Some(a.(kind := k)))
    else if f.num == 2 && f.value.Chunk? then Some(a.(value := f.value.bytes))
    else Some(a)
  }

  /** parseDomainRuleMessage. */
  function ParseRule(data: Bytes): Option<DomainRule> {
    Message(data, DomainRule(Plain, []), RuleStep)
  }

  function ParseGeoSiteList(data: Bytes): Option<seq<Entry<DomainRule>>> {
    Message(data, [], ListStep(ParseEntry(ParseRule)))
  }

  // ---- what counts as an encoding --------------------------------------------------------

  function AddrBytes(a: Addr): Bytes { BytesOf(a.bits) }

  /** The fields may come in any order, repeated and with others between: of a
      repeated field the last counts, and one left out has its default value. */
  ghost predicate EncodesCidr(data: Bytes, p: Prefix) {
    exists fs :: AllFit(fs) && data == PutFields(fs)
      && LastChunk(fs, 1) == AddrBytes(p.addr) && LastVarint(fs, 2) == p.bits
  }

  /** No field says that the rule is of an unknown kind. */
  predicate KindsKnown(fs: seq<Field>) {
    forall i :: 0 <= i < |fs| && IsVarint(fs[i], 1) ==> KindOf(fs[i].value.v).Some?
  }

  ghost predicate EncodesRule(data: Bytes, r: DomainRule) {
    exists fs :: AllFit(fs) && data == PutFields(fs)
      && KindsKnown(fs) && LastVarint(fs, 1) == KindNumber(r.kind) && LastChunk(fs, 2) == r.value
  }

  ghost predicate EncodesAll<T>(encodes: (Bytes, T) -> bool, parts: seq<Bytes>, xs: seq<T>) {
    |parts| == |xs| && forall i :: 0 <= i < |parts| ==> encodes(parts[i], xs[i])
  }

  /** A name and an encoding of each item, in order. */
  ghost predicate EncodesEntry<T>(encodes: (Bytes, T) -> bool, data: Bytes, e: Entry<T>) {
    exists fs :: AllFit(fs) && data == PutFields(fs)
      && LastChunk(fs, 1) == e.code && EncodesAll(encodes, ChunksOf(fs, 2), e.items)
  }

  ghost predicate EncodesList<T>(encodes: (Bytes, T) -> bool, data: Bytes, xs: seq<T>) {
    exists fs :: AllFit(fs) && data == PutFields(fs) && EncodesAll(encodes, ChunksOf(fs, 1), xs)
  }

  ghost predicate EncodesGeoIp(data: Bytes, e: Entry<Prefix>) { EncodesEntry(EncodesCidr, data, e) }

  ghost predicate EncodesSite(data: Bytes, e: Entry<DomainRule>) { EncodesEntry(EncodesRule, data, e) }

  ghost predicate EncodesGeoIpList(data: Bytes, es: seq<Entry<Prefix>>) { EncodesList(EncodesGeoIp, data, es) }

  ghost predicate EncodesSiteList(data: Bytes, es: seq<Entry<DomainRule>>) { EncodesList(EncodesSite, data, es) }

  // ---- what the readers make of a message ------------------------------------------------------

  lemma {:induction false} CidrFold(fs: seq<Field>)
    ensures Fold(CidrParts([], 0), CidrStep, fs) == Some(CidrParts(LastChunk(fs, 1), LastVarint(fs, 2)))
  {
    if fs != [] {
      CidrFold(fs[..|fs| - 1]);
      FoldLast(CidrParts([], 0), CidrStep, fs);
    }
  }

  lemma {:induction false} RuleFold(fs: seq<Field>)
    ensures KindOf(LastVarint(fs, 1)).Some? || !KindsKnown(fs)
    ensures Fold(DomainRule(Plain, []), RuleStep, fs) ==
            if KindsKnown(fs) then Some(DomainRule(KindOf(LastVarint(fs, 1)).value, LastChunk(fs, 2))) else None
  {
    if fs != [] {
      var init, last := fs[..|fs| - 1], fs[|fs| - 1];
      RuleFold(init);
      FoldLast(DomainRule(Plain, []), RuleStep, fs);
      KindsKnownLast(fs);
    }
  }

  lemma KindsKnownLast(fs: seq<Field>)
    requires fs != []
    ensures var last := fs[|fs| - 1];
            KindsKnown(fs) <==> KindsKnown(fs[..|fs| - 1]) && (IsVarint(last, 1) ==> KindOf(last.value.v).Some?)
  {
    assert fs == fs[..|fs| - 1] + [fs[|fs| - 1]];
  }

  /** Every part read, or none if one of them cannot be. */
  function ReadParts<T>(read: Bytes -> Option<T>, parts: seq<Bytes>): Option<seq<T>> {
    if parts == [] then Some([])
    else
      var init, last := ReadParts(read, parts[..|parts| - 1]), read(parts[|parts| - 1]);
      if init.None? || last.None? then None else Some(init.value + [last.value])
  }

  lemma {:induction false} ReadPartsIff<T>(read: Bytes -> Option<T>, parts: seq<Bytes>, xs: seq<T>)
    ensures ReadParts(read, parts) == Some(xs) <==>
            |parts| == |xs| && forall i :: 0 <= i < |parts| ==> read(parts[i]) == Some(xs[i])
  {
    if parts != [] && xs != [] {
      ReadPartsIff(read, parts[..|parts| - 1], xs[..|xs| - 1]);
      assert xs == xs[..|xs| - 1] + [xs[|xs| - 1]];
      assert parts == parts[..|parts| - 1] + [parts[|parts| - 1]];
    }
  }

  lemma {:induction false} ReadPartsRefuses<T>(read: Bytes -> Option<T>, parts: seq<Bytes>, i: nat)
    requires i < |parts| && read(parts[i]) == None
    ensures ReadParts(read, parts) == None
  {
    if i < |parts| - 1 {
      ReadPartsRefuses(read, parts[..|parts| - 1], i);
    }
  }

  lemma ReadPartsLast<T>(read: Bytes -> Option<T>, parts: seq<Bytes>, part: Bytes)
    ensures ReadParts(read, parts + [part]) ==
            if ReadParts(read, parts).None? || read(part).None? then None
            else Some(ReadParts(read, parts).value + [read(part).value])
  {}

  lemma {:induction false} EntryFold<T>(item: Bytes -> Option<T>, fs: seq<Field>)
    ensures var items := ReadParts(item, ChunksOf(fs, 2));
            Fold(Entry([], []), EntryStep(item), fs) ==
            if items.None? then None else Some(Entry(LastChunk(fs, 1), items.value))
  {
    if fs != [] {
      var init, last := fs[..|fs| - 1], fs[|fs| - 1];
      EntryFold(item, init);
      FoldLast(Entry([], []), EntryStep(item), fs);
      if IsChunk(last, 2) {
        ReadPartsLast(item, ChunksOf(init, 2), last.value.bytes);
      } else {
        assert ChunksOf(fs, 2) == ChunksOf(init, 2);
      }
    }
  }

  lemma {:induction false} ListFold<T>(entry: Bytes -> Option<T>, fs: seq<Field>)
    ensures Fold([], ListStep(entry), fs) == ReadParts(entry, ChunksOf(fs, 1))
  {
    if fs != [] {
      var init, last := fs[..|fs| - 1], fs[|fs| - 1];
      ListFold(entry, init);
      FoldLast([], ListStep(entry), fs);
      if IsChunk(last, 1) {
        ReadPartsLast(entry, ChunksOf(init, 1), last.value.bytes);
      } else {
        assert ChunksOf(fs, 1) == ChunksOf(init, 1);
      }
    }
  }

  /** Dropping the fields that a reader does not know, at any level, changes nothing. */
  lemma UnknownDropped<T(!new)>(read: Bytes -> Option<T>, fs: seq<Field>)
    requires AllFit(fs)
    ensures ParseCidr(PutFields(fs)) == ParseCidr(PutFields(Filter(fs, CidrKnows)))
    ensures ParseRule(PutFields(fs)) == ParseRule(PutFields(Filter(fs, RuleKnows)))
    ensures ParseEntry(read)(PutFields(fs)) == ParseEntry(read)(PutFields(Filter(fs, EntryKnows)))
    ensures Message(PutFields(fs), [], ListStep(read)) == Message(PutFields(Filter(fs, ListKnows)), [], ListStep(read))
  {
    UnknownFieldsDropped(CidrParts([], 0), CidrStep, CidrKnows, fs);
    UnknownFieldsDropped(DomainRule(Plain, []), RuleStep, RuleKnows, fs);
    UnknownFieldsDropped(Entry([], []), EntryStep(read), EntryKnows, fs);
    UnknownFieldsDropped([], ListStep(read), ListKnows, fs);
  }

  // ---- reading inverts encoding ------------------------------------------------------------

  /** What an address is read back as. */
  function Unmapped(a: Addr): Addr {
    if a.family == V6 && IsMapped(a.bits) then Addr(V4, a.bits[96..]) else a
  }

  lemma AddrRead(a: Addr)
    ensures AddrFrom(AddrBytes(a)) == Some(Unmapped(a))
  {
    BytesOfBits(a.bits);
  }

  /** Every encoding of a prefix is read the same way. */
  lemma CidrRead(data: Bytes, p: Prefix)
    requires EncodesCidr(data, p)
    ensures var a := Unmapped(p.addr);
            ParseCidr(data) == if p.bits > Width(a.family) then None else Some(Masked(Prefix(a, p.bits)))
  {
    var fs :| AllFit(fs) && data == PutFields(fs)
      && LastChunk(fs, 1) == AddrBytes(p.addr) && LastVarint(fs, 2) == p.bits;
    MessageRead(fs, CidrParts([], 0), CidrStep);
    CidrFold(fs);
    AddrRead(p.addr);
  }

  predicate Recoverable(p: Prefix) { IsMasked(p) && !(p.addr.family == V6 && IsMapped(p.addr.bits)) }

  /** A prefix comes back from its encoding exactly when it is masked and its
      address is not an IPv4 address in IPv6 clothing. */
  lemma CidrReadIff(data: Bytes, p: Prefix)
    requires EncodesCidr(data, p)
    ensures ParseCidr(data) == Some(p) <==> Recoverable(p)
  {
    CidrRead(data, p);
    MaskedFixpoint(p);
  }

  lemma MaskedFixpoint(p: Prefix)
    ensures Masked(p) == p <==> IsMasked(p)
  {}

  lemma RuleRead(data: Bytes, r: DomainRule)
    requires EncodesRule(data, r)
    ensures ParseRule(data) == Some(r)
  {
    var fs :| AllFit(fs) && data == PutFields(fs)
      && KindsKnown(fs) && LastVarint(fs, 1) == KindNumber(r.kind) && LastChunk(fs, 2) == r.value;
    MessageRead(fs, DomainRule(Plain, []), RuleStep);
    RuleFold(fs);
  }

  /** An encoded list is read by reading each part. */
  lemma ListRead<T>(read: Bytes -> Option<T>, encodes: (Bytes, T) -> bool, data: Bytes, xs: seq<T>)
      returns (parts: seq<Bytes>)
    requires EncodesList(encodes, data, xs)
    ensures EncodesAll(encodes, parts, xs) && Message(data, [], ListStep(read)) == ReadParts(read, parts)
  {
    var fs :| AllFit(fs) && data == PutFields(fs) && EncodesAll(encodes, ChunksOf(fs, 1), xs);
    parts := ChunksOf(fs, 1);
    MessageRead(fs, [], ListStep(read));
    ListFold(read, fs);
  }

  lemma EntryRead<T>(read: Bytes -> Option<T>, encodes: (Bytes, T) -> bool, data: Bytes, e: Entry<T>)
      returns (parts: seq<Bytes>)
    requires EncodesEntry(encodes, data, e)
    ensures EncodesAll(encodes, parts, e.items)
    ensures var items := ReadParts(read, parts);
            ParseEntry(read)(data) == if items.None? then None else Some(Entry(e.code, items.value))
  {
    var fs :| AllFit(fs) && data == PutFields(fs)
      && LastChunk(fs, 1) == e.code && EncodesAll(encodes, ChunksOf(fs, 2), e.items);
    parts := ChunksOf(fs, 2);
    MessageRead(fs, Entry([], []), EntryStep(read));
    EntryFold(read, fs);
  }

  predicate EntryRecoverable(e: Entry<Prefix>) { forall j :: 0 <= j < |e.items| ==> Recoverable(e.items[j]) }

  predicate AllRecoverable(es: seq<Entry<Prefix>>) { forall i :: 0 <= i < |es| ==> EntryRecoverable(es[i]) }

  lemma GeoIpReadIff(data: Bytes, e: Entry<Prefix>)
    requires EncodesGeoIp(data, e)
    ensures ParseEntry(ParseCidr)(data) == Some(e) <==> EntryRecoverable(e)
  {
    var parts := EntryRead(ParseCidr, EncodesCidr, data, e);
    forall i | 0 <= i < |parts| ensures ParseCidr(parts[i]) == Some(e.items[i]) <==> Recoverable(e.items[i]) {
      CidrReadIff(parts[i], e.items[i]);
    }
    ReadPartsIff(ParseCidr, parts, e.items);
  }

  /** Reading a geoip file gives back the lists it encodes exactly when each of their
      prefixes is recoverable, in whatever order and among whatever other fields the
      known ones stand at any level. */
  lemma GeoIpListReadIff(data: Bytes, es: seq<Entry<Prefix>>)
    requires EncodesGeoIpList(data, es)
    ensures ParseGeoIpList(data) == Some(es) <==> AllRecoverable(es)
  {
    var read := ParseEntry(ParseCidr);
    var parts := ListRead(read, EncodesGeoIp, data, es);
    forall i | 0 <= i < |parts| ensures read(parts[i]) == Some(es[i]) <==> EntryRecoverable(es[i]) {
      GeoIpReadIff(parts[i], es[i]);
    }
    ReadPartsIff(read, parts, es);
  }

  /** One mapped prefix longer than an IPv4 address makes the whole file unreadable. */
  lemma MappedPrefixRefusesFile(data: Bytes, es: seq<Entry<Prefix>>, i: nat, j: nat)
    requires EncodesGeoIpList(data, es) && i < |es| && j < |es[i].items|
    requires var p := es[i].items[j]; p.addr.family == V6 && IsMapped(p.addr.bits) && p.bits > 32
    ensures ParseGeoIpList(data) == None
  {
    var read := ParseEntry(ParseCidr);
    var parts := ListRead(read, EncodesGeoIp, data, es);
    assert EncodesGeoIp(parts[i], es[i]);
    var items := EntryRead(ParseCidr, EncodesCidr, parts[i], es[i]);
    CidrRead(items[j], es[i].items[j]);
    ReadPartsRefuses(ParseCidr, items, j);
    ReadPartsRefuses(read, parts, i);
  }

  lemma SiteRead(data: Bytes, e: Entry<DomainRule>)
    requires EncodesSite(data, e)
    ensures ParseEntry(ParseRule)(data) == Some(e)
  {
    var parts := EntryRead(ParseRule, EncodesRule, data, e);
    forall i | 0 <= i < |parts| ensures ParseRule(parts[i]) == Some(e.items[i]) {
      RuleRead(parts[i], e.items[i]);
    }
    ReadPartsIff(ParseRule, parts, e.items);
  }

  /** A geosite file always gives back the lists it encodes. */
  lemma GeoSiteListRead(data: Bytes, es: seq<Entry<DomainRule>>)
    requires EncodesSiteList(data, es)
    ensures ParseGeoSiteList(data) == Some(es)
  {
    var read := ParseEntry(ParseRule);
    var parts := ListRead(read, EncodesSite, data, es);
    forall i | 0 <= i < |parts| ensures read(parts[i]) == Some(es[i]) {
      SiteRead(parts[i], es[i]);
    }
    ReadPartsIff(read, parts, es);
  }

  // ---- a canonical encoder ---------------------------------------------------------------------

  function Chunks(num: nat, parts: seq<Bytes>): (r: seq<Field>)
    ensures |r| == |parts| && forall i :: 0 <= i < |parts| ==> r[i] == Field(num, Chunk(parts[i]))
  {
    seq(|parts|, i requires 0 <= i < |parts| => Field(num, Chunk(parts[i])))
  }

  function PutAll<T>(put: T -> Bytes, xs: seq<T>): (r: seq<Bytes>)
    ensures |r| == |xs| && forall i :: 0 <= i < |xs| ==> r[i] == put(xs[i])
  {
    seq(|xs|, i requires 0 <= i < |xs| => put(xs[i]))
  }

  function CidrFields(p: Prefix): seq<Field> { [Field(1, Chunk(AddrBytes(p.addr))), Field(2, Varint(p.bits))] }

  function RuleFields(r: DomainRule): seq<Field> {
    [Field(1, Varint(KindNumber(r.kind))), Field(2, Chunk(r.value))]
  }

  function EntryFields(code: Bytes, parts: seq<Bytes>): seq<Field> { [Field(1, Chunk(code))] + Chunks(2, parts) }

  function PutCidr(p: Prefix): Bytes { PutFields(CidrFields(p)) }

  function PutRule(r: DomainRule): Bytes { PutFields(RuleFields(r)) }

  function PutGeoIp(e: Entry<Prefix>): Bytes { PutFields(EntryFields(e.code, PutAll(PutCidr, e.items))) }

  function PutSite(e: Entry<DomainRule>): Bytes { PutFields(EntryFields(e.code, PutAll(PutRule, e.items))) }

  function PutGeoIpList(es: seq<Entry<Prefix>>): Bytes { PutFields(Chunks(1, PutAll(PutGeoIp, es))) }

  function PutSiteList(es: seq<Entry<DomainRule>>): Bytes { PutFields(Chunks(1, PutAll(PutSite, es))) }

  lemma {:induction false} FieldSize(fs: seq<Field>, i: nat)
    requires i < |fs| && fs[i].value.Chunk?
    ensures |fs[i].value.bytes| <= |PutFields(fs)|
  {
    if i > 0 {
      FieldSize(fs[1..], i - 1);
    }
  }

  lemma TwoFields(a: Field, b: Field, num: nat)
    ensures LastChunk([a, b], num) ==
            if IsChunk(b, num) then b.value.bytes else if IsChunk(a, num) then a.value.bytes else []
    ensures LastVarint([a, b], num) ==
            if IsVarint(b, num) then b.value.v else if IsVarint(a, num) then a.value.v else 0
  {
    var fs := [a, b];
    assert fs[..1] == [a] && [a][..0] == [] && fs[|fs| - 1] == b;
    assert LastChunk([a], num) == if IsChunk(a, num) then a.value.bytes else [];
    assert LastVarint([a], num) == if IsVarint(a, num) then a.value.v else 0;
  }

  lemma CidrEncodes(p: Prefix)
    ensures EncodesCidr(PutCidr(p), p)
  {
    var fs := CidrFields(p);
    TwoFields(fs[0], fs[1], 1);
    TwoFields(fs[0], fs[1], 2);
    assert LastChunk(fs, 1) == AddrBytes(p.addr) && LastVarint(fs, 2) == p.bits;
  }

  lemma RuleEncodes(r: DomainRule)
    requires |r.value| < TWO_64
    ensures EncodesRule(PutRule(r), r)
  {
    var fs := RuleFields(r);
    TwoFields(fs[0], fs[1], 1);
    TwoFields(fs[0], fs[1], 2);
    assert LastVarint(fs, 1) == KindNumber(r.kind) && LastChunk(fs, 2) == r.value;
  }

  lemma ChunksLast(fs: seq<Field>, num: nat, parts: seq<Bytes>)
    requires parts != []
    ensures var init, last := fs + Chunks(num, parts[..|parts| - 1]), Field(num, Chunk(parts[|parts| - 1]));
            fs + Chunks(num, parts) == init + [last]
  {}

  lemma FieldLast(fs: seq<Field>, f: Field, num: nat)
    ensures ChunksOf(fs + [f], num) == ChunksOf(fs, num) + if IsChunk(f, num) then [f.value.bytes] else []
    ensures LastChunk(fs + [f], num) == if IsChunk(f, num) then f.value.bytes else LastChunk(fs, num)
  {
    assert (fs + [f])[..|fs|] == fs;
  }

  lemma {:induction false} ChunksListed(fs: seq<Field>, num: nat, parts: seq<Bytes>, other: nat)
    requires ChunksOf(fs, num) == [] && other != num
    ensures ChunksOf(fs + Chunks(num, parts), num) == parts
    ensures LastChunk(fs + Chunks(num, parts), other) == LastChunk(fs, other)
  {
    if parts == [] {
      assert fs + Chunks(num, parts) == fs;
    } else {
      var init, last := parts[..|parts| - 1], parts[|parts| - 1];
      ChunksListed(fs, num, init, other);
      ChunksLast(fs, num, parts);
      var before, f := fs + Chunks(num, init), Field(num, Chunk(last));
      FieldLast(before, f, num);
      FieldLast(before, f, other);
      assert fs + Chunks(num, parts) == before + [f];
      assert init + [last] == parts;
    }
  }

  lemma ChunksFit(num: nat, parts: seq<Bytes>)
    requires 0 < num < 3 && forall i :: 0 <= i < |parts| ==> |parts[i]| < TWO_64
    ensures AllFit(Chunks(num, parts))
  {
    forall i | 0 <= i < |parts| ensures Fits(Chunks(num, parts)[i]) {
    }
  }

  lemma EntryListed(code: Bytes, parts: seq<Bytes>)
    requires |PutFields(EntryFields(code, parts))| < TWO_64
    ensures var fs := EntryFields(code, parts); AllFit(fs) && LastChunk(fs, 1) == code && ChunksOf(fs, 2) == parts
    ensures forall i :: 0 <= i < |parts| ==> |parts[i]| < TWO_64
  {
    var fs, name := EntryFields(code, parts), [Field(1, Chunk(code))];
    assert name[..0] == [];
    ChunksListed(name, 2, parts, 1);
    FieldSize(fs, 0);
    forall i | 0 <= i < |parts| ensures |parts[i]| < TWO_64 {
      assert fs[i + 1] == Field(2, Chunk(parts[i]));
      FieldSize(fs, i + 1);
    }
    ChunksFit(2, parts);
  }

  lemma ListListed(parts: seq<Bytes>)
    requires |PutFields(Chunks(1, parts))| < TWO_64
    ensures AllFit(Chunks(1, parts)) && ChunksOf(Chunks(1, parts), 1) == parts
    ensures forall i :: 0 <= i < |parts| ==> |parts[i]| < TWO_64
  {
    var fs := Chunks(1, parts);
    ChunksListed([], 1, parts, 0);
    assert [] + fs == fs;
    forall i | 0 <= i < |parts| ensures |parts[i]| < TWO_64 {
      FieldSize(fs, i);
    }
    ChunksFit(1, parts);
  }

  lemma GeoIpEncodes(e: Entry<Prefix>)
    requires |PutGeoIp(e)| < TWO_64
    ensures EncodesGeoIp(PutGeoIp(e), e)
  {
    var parts := PutAll(PutCidr, e.items);
    EntryListed(e.code, parts);
    forall i | 0 <= i < |parts| ensures EncodesCidr(parts[i], e.items[i]) {
      CidrEncodes(e.items[i]);
    }
    assert EncodesAll(EncodesCidr, parts, e.items);
  }

  lemma GeoIpListEncodes(es: seq<Entry<Prefix>>)
    requires |PutGeoIpList(es)| < TWO_64
    ensures EncodesGeoIpList(PutGeoIpList(es), es)
  {
    var parts := PutAll(PutGeoIp, es);
    ListListed(parts);
    forall i | 0 <= i < |parts| ensures EncodesGeoIp(parts[i], es[i]) {
      GeoIpEncodes(es[i]);
    }
    assert EncodesAll(EncodesGeoIp, parts, es);
  }

  lemma SiteEncodes(e: Entry<DomainRule>)
    requires |PutSite(e)| < TWO_64
    ensures EncodesSite(PutSite(e), e)
  {
    var parts := PutAll(PutRule, e.items);
    EntryListed(e.code, parts);
    forall i | 0 <= i < |parts| ensures EncodesRule(parts[i], e.items[i]) {
      FieldSize(RuleFields(e.items[i]), 1);
      RuleEncodes(e.items[i]);
    }
    assert EncodesAll(EncodesRule, parts, e.items);
  }

  /** Writing a geoip file and reading it back gives the same lists exactly when all
      their prefixes are recoverable. */
  lemma GeoIpRoundTrip(es: seq<Entry<Prefix>>)
    requires |PutGeoIpList(es)| < TWO_64
    ensures ParseGeoIpList(PutGeoIpList(es)) == Some(es) <==> AllRecoverable(es)
  {
    GeoIpListEncodes(es);
    GeoIpListReadIff(PutGeoIpList(es), es);
  }

  /** A geosite file always gives back the lists written. */
  lemma GeoSiteRoundTrip(es: seq<Entry<DomainRule>>)
    requires |PutSiteList(es)| < TWO_64
    ensures ParseGeoSiteList(PutSiteList(es)) == Some(es)
  {
    var parts := PutAll(PutSite, es);
    ListListed(parts);
    forall i | 0 <= i < |parts| ensures EncodesSite(parts[i], es[i]) {
      SiteEncodes(es[i]);
    }
    assert EncodesAll(EncodesSite, parts, es);
    GeoSiteListRead(PutSiteList(es), es);
  }

  /** The IPv6 form of 255.255.255.255, as a host prefix. */
  const MAPPED_HOST: Prefix := Prefix(Addr(V6, seq(128, i => 80 <= i)), 128)

  /** It is masked, and still refused. */
  lemma MappedHostRefused()
    ensures IsMasked(MAPPED_HOST) && ParseCidr(PutCidr(MAPPED_HOST)) == None
  {
    CidrEncodes(MAPPED_HOST);
    CidrRead(PutCidr(MAPPED_HOST), MAPPED_HOST);
  }

  // ---- merging ------------------------------------------------------------------------------

  /** The lists by normalized name. An absent name has no items. */
  type Lists<T> = map<Bytes, seq<T>>

  function At<T>(db: Lists<T>, key: Bytes): seq<T> { if key in db then db[key] else [] }

  predicate NoRepeats<T(==)>(s: seq<T>) { forall i, j :: 0 <= i < j < |s| ==> s[i] != s[j] }

  /** The items so far, then each new one the first time it appears. */
  function Union<T(==)>(have: seq<T>, more: seq<T>): seq<T> {
    if more == [] then have
    else
      var u := Union(have, more[..|more| - 1]);
      if more[|more| - 1] in u then u else u + [more[|more| - 1]]
  }

  function MergeEntry<T(==)>(norm: Bytes -> Bytes, db: Lists<T>, e: Entry<T>): Lists<T> {
    var key := norm(e.code);
    if key == [] || Union(At(db, key), e.items) == At(db, key) then db
    else db[key := Union(At(db, key), e.items)]
  }

  function MergeAll<T(==)>(norm: Bytes -> Bytes, db: Lists<T>, es: seq<Entry<T>>): Lists<T> {
    if es == [] then db else MergeEntry(norm, MergeAll(norm, db, es[..|es| - 1]), es[|es| - 1])
  }

  /** The merge loops of loadGeoIPDatMerge and loadGeositeDatMerge. */
  method Merge<T(==)>(norm: Bytes -> Bytes, before: Lists<T>, es: seq<Entry<T>>) returns (db: Lists<T>)
    ensures db == MergeAll(norm, before, es)
  {
    db := before;
    for n := 0 to |es|
      invariant db == MergeAll(norm, before, es[..n])
    {
      assert es[..n + 1][..n] == es[..n];
      var key := norm(es[n].code);
      if key == [] {
        continue;
      }
      db := MergeItems(db, key, es[n].items);
    }
    assert es[..|es|] == es;
  }

  /** The lists with this one under a name, left alone if it is the list already there. */
  function Updated<T(==)>(before: Lists<T>, key: Bytes, list: seq<T>): Lists<T> {
    if list == At(before, key) then before else before[key := list]
  }

  lemma UpdatedAgain<T>(before: Lists<T>, key: Bytes, list: seq<T>, x: T)
    requires At(before, key) <= list
    ensures Updated(before, key, list)[key := list + [x]] == Updated(before, key, list + [x])
    ensures At(Updated(before, key, list + [x]), key) == list + [x]
  {
    assert |list + [x]| > |At(before, key)|;
  }

  method MergeItems<T(==)>(before: Lists<T>, key: Bytes, items: seq<T>) returns (db: Lists<T>)
    ensures db == if Union(At(before, key), items) == At(before, key) then before
            else before[key := Union(At(before, key), items)]
  {
    db := before;
    var seen := set x | x in At(db, key);
    for n := 0 to |items|
      invariant seen == set x | x in At(db, key)
      invariant At(db, key) == Union(At(before, key), items[..n])
      invariant db == Updated(before, key, At(db, key))
    {
      assert items[..n + 1][..n] == items[..n];
      UnionGrows(At(before, key), items[..n]);
      if items[n] in seen {
        continue;
      }
      UpdatedAgain(before, key, At(db, key), items[n]);
      seen := seen + {items[n]};
      db := db[key := At(db, key) + [items[n]]];
    }
    assert items[..|items|] == items;
  }

  lemma {:induction false} UnionGrows<T>(have: seq<T>, more: seq<T>)
    ensures have <= Union(have, more)
    ensures forall x :: x in Union(have, more) <==> x in have || x in more
    ensures NoRepeats(have) ==> NoRepeats(Union(have, more))
  {
    if more != [] {
      UnionGrows(have, more[..|more| - 1]);
    }
  }

  /** The elements of more that are neither in have nor earlier in more. */
  function Fresh<T(==)>(have: seq<T>, more: seq<T>): seq<T> {
    if more == [] then []
    else
      var init, last := more[..|more| - 1], more[|more| - 1];
      Fresh(have, init) + (if last in have || last in init then [] else [last])
  }

  lemma {:induction false} UnionIsFirstOccurrences<T>(have: seq<T>, more: seq<T>)
    ensures Union(have, more) == have + Fresh(have, more)
  {
    if more != [] {
      UnionIsFirstOccurrences(have, more[..|more| - 1]);
      UnionGrows(have, more[..|more| - 1]);
    }
  }

  lemma {:induction false} UnionConcat<T>(have: seq<T>, a: seq<T>, b: seq<T>)
    ensures Union(have, a + b) == Union(Union(have, a), b)
  {
    if b == [] {
      assert a + b == a;
    } else {
      assert (a + b)[..|a + b| - 1] == a + b[..|b| - 1];
      UnionConcat(have, a, b[..|b| - 1]);
    }
  }

  lemma {:induction false} UnionAbsorbs<T>(have: seq<T>, more: seq<T>)
    requires forall x :: x in more ==> x in have
    ensures Union(have, more) == have
  {
    if more != [] {
      UnionAbsorbs(have, more[..|more| - 1]);
    }
  }

  /** Everything the entries hold under a name. */
  function ItemsUnder<T>(norm: Bytes -> Bytes, es: seq<Entry<T>>, key: Bytes): seq<T> {
    if es == [] then []
    else
      var last := es[|es| - 1];
      ItemsUnder(norm, es[..|es| - 1], key) + (if norm(last.code) == key then last.items else [])
  }

  /** After a merge, the list under a name is what was there, then the first
      occurrence of everything the entries hold under that name. */
  lemma {:induction false} MergeIsUnion<T>(norm: Bytes -> Bytes, db: Lists<T>, es: seq<Entry<T>>, key: Bytes)
    ensures At(MergeAll(norm, db, es), key) == if key == [] then At(db, key)
            else Union(At(db, key), ItemsUnder(norm, es, key))
  {
    if es != [] {
      var init, last := es[..|es| - 1], es[|es| - 1];
      MergeIsUnion(norm, db, init, key);
      if norm(last.code) == key {
        UnionConcat(At(db, key), ItemsUnder(norm, init, key), last.items);
      } else {
        assert ItemsUnder(norm, es, key) == ItemsUnder(norm, init, key);
      }
    }
  }

  lemma {:induction false} ItemIsUnder<T>(norm: Bytes -> Bytes, es: seq<Entry<T>>, n: nat, x: T)
    requires n < |es| && x in es[n].items
    ensures x in ItemsUnder(norm, es, norm(es[n].code))
  {
    if n < |es| - 1 {
      ItemIsUnder(norm, es[..|es| - 1], n, x);
    }
  }

  lemma {:induction false} AbsorbedPrefix<T>(norm: Bytes -> Bytes, db: Lists<T>, es: seq<Entry<T>>, n: nat)
    requires n <= |es|
    requires forall i, x :: 0 <= i < |es| && norm(es[i].code) != [] && x in es[i].items ==>
             x in At(db, norm(es[i].code))
    ensures MergeAll(norm, db, es[..n]) == db
  {
    if n > 0 {
      AbsorbedPrefix(norm, db, es, n - 1);
      assert es[..n][..n - 1] == es[..n - 1];
      var e := es[n - 1];
      if norm(e.code) != [] {
        UnionAbsorbs(At(db, norm(e.code)), e.items);
      }
    }
  }

  /** Merging the same source again changes nothing. */
  lemma MergeIdempotent<T>(norm: Bytes -> Bytes, db: Lists<T>, es: seq<Entry<T>>)
    ensures MergeAll(norm, MergeAll(norm, db, es), es) == MergeAll(norm, db, es)
  {
    var merged := MergeAll(norm, db, es);
    forall i, x | 0 <= i < |es| && norm(es[i].code) != [] && x in es[i].items
      ensures x in At(merged, norm(es[i].code))
    {
      var key := norm(es[i].code);
      MergeIsUnion(norm, db, es, key);
      ItemIsUnder(norm, es, i, x);
      UnionGrows(At(db, key), ItemsUnder(norm, es, key));
    }
    AbsorbedPrefix(norm, merged, es, |es|);
    assert es[..|es|] == es;
  }

  /** Lists without repeats stay so. */
  lemma MergeKeepsDistinct<T>(norm: Bytes -> Bytes, db: Lists<T>, es: seq<Entry<T>>, key: Bytes)
    requires NoRepeats(At(db, key))
    ensures NoRepeats(At(MergeAll(norm, db, es), key))
  {
    MergeIsUnion(norm, db, es, key);
    UnionGrows(At(db, key), ItemsUnder(norm, es, key));
  }
}
