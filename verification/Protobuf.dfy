/** The protobuf wire format, as far as the geo database reader uses it
    (node/geo_dat.go): variable-length integers and tagged fields. */
module Protobuf {
  import opened Integers
  import opened Options
  import opened ByteStrings

  /** A number and the bytes behind it. */
  datatype Number = Number(value: int, rest: Bytes)

  const MAX_VARINT_LEN := 10

  /** binary.Uvarint after i bytes: at most ten bytes, the tenth at most one. */
  function Uvarint(s: Bytes, i: nat): (r: Option<Number>)
    requires i <= MAX_VARINT_LEN
    ensures r.Some? ==> r.value.value >= 0 && |r.value.rest| < |s|
    decreases MAX_VARINT_LEN - i
  {
    if s == [] || i == MAX_VARINT_LEN then None
    else if s[0] < 128 then
      if i == MAX_VARINT_LEN - 1 && s[0] > 1 then None else Some(Number(s[0], s[1..]))
    else match Uvarint(s[1..], i + 1)
      case None => None
      case Some(d) => Some(Number((s[0] as int) - 128 + 128 * d.value, d.rest))
  }

  /** The payload of a field, by wire type 0, 1, 2 and 5. */
  datatype Value = Varint(v: nat) | Fixed64(raw: Bytes) | Chunk(bytes: Bytes) | Fixed32(raw: Bytes)

  datatype Field = Field(num: nat, value: Value)

  datatype Read = Read(field: Field, rest: Bytes)

  /** nextProtoField. */
  function NextField(s: Bytes): (r: Option<Read>)
    ensures r.Some? ==> |r.value.rest| < |s|
  {
    match Uvarint(s, 0)
    case None => None
    case Some(key) => if key.value / 8 == 0 then None else Payload(key.rest, key.value / 8, key.value % 8)
  }

  function Payload(s: Bytes, num: nat, wireType: nat): (r: Option<Read>)
    ensures r.Some? ==> |r.value.rest| <= |s|
  {
    match wireType
    case 0 => VarintPayload(s, num)
    case 1 => if |s| < 8 then None else Some(Read(Field(num, Fixed64(s[..8])), s[8..]))
    case 2 => ChunkPayload(s, num)
    case 5 => if |s| < 4 then None else Some(Read(Field(num, Fixed32(s[..4])), s[4..]))
    case _ => None
  }

  function VarintPayload(s: Bytes, num: nat): (r: Option<Read>)
    ensures r.Some? ==> |r.value.rest| <= |s|
  {
    match Uvarint(s, 0)
    case None => None
    case Some(d) => Some(Read(Field(num, Varint(d.value)), d.rest))
  }

  function ChunkPayload(s: Bytes, num: nat): (r: Option<Read>)
    ensures r.Some? ==> |r.value.rest| <= |s|
  {
    match Uvarint(s, 0)
    case None => None
    case Some(d) =>
      if d.value > |d.rest| then None
      else Some(Read(Field(num, Chunk(d.rest[..d.value])), d.rest[d.value..]))
  }

  // ---- messages ---------------------------------------------------------------------

  /** What a message means to a reader that takes its fields one by one into an
      accumulator and gives up at the first malformed or refused one. */
  function Message<A>(data: Bytes, a: A, step: (A, Field) -> Option<A>): Option<A>
    decreases |data|
  {
    if data == [] then Some(a)
    else match NextField(data)
      case None => None
      case Some(r) => match step(a, r.field)
        case None => None
        case Some(next) => Message(r.rest, next, step)
  }

  /** The loop shared by the message readers: take a field off the front, act on
      it, and go on with the rest. */
  method ReadMessage<A>(bytes: Bytes, init: A, step: (A, Field) -> Option<A>) returns (r: Option<A>)
    ensures r == Message(bytes, init, step)
  {
    var data, a := bytes, init;
    while |data| > 0
      invariant Message(bytes, init, step) == Message(data, a, step)
      decreases |data|
    {
      var f := NextField(data);
      if f.None? {
        return None;
      }
      data := f.value.rest;
      var next := step(a, f.value.field);
      if next.None? {
        return None;
      }
      a := next.value;
    }
    return Some(a);
  }

  /** The same over fields already taken apart. */
  function Fold<A>(a: A, step: (A, Field) -> Option<A>, fs: seq<Field>): Option<A> {
    if fs == [] then Some(a)
    else match step(a, fs[0])
      case None => None
      case Some(next) => Fold(next, step, fs[1..])
  }

  /** One more field at the end. */
  lemma {:induction false} FoldLast<A>(a: A, step: (A, Field) -> Option<A>, fs: seq<Field>)
    requires fs != []
    ensures var init := Fold(a, step, fs[..|fs| - 1]);
            Fold(a, step, fs) == if init.None? then None else step(init.value, fs[|fs| - 1])
    decreases |fs|
  {
    if |fs| > 1 && step(a, fs[0]).Some? {
      FoldLast(step(a, fs[0]).value, step, fs[1..]);
      assert fs[..|fs| - 1][1..] == fs[1..][..|fs| - 2];
    }
  }

  // ---- the fields of a message ----------------------------------------------------------

  predicate IsChunk(f: Field, num: nat) { f.num == num && f.value.Chunk? }

  predicate IsVarint(f: Field, num: nat) { f.num == num && f.value.Varint? }

  /** The last byte string under a number; nothing when there is none. */
  function LastChunk(fs: seq<Field>, num: nat): Bytes {
    if fs == [] then []
    else if IsChunk(fs[|fs| - 1], num) then fs[|fs| - 1].value.bytes
    else LastChunk(fs[..|fs| - 1], num)
  }

  /** The last integer under a number; zero when there is none. */
  function LastVarint(fs: seq<Field>, num: nat): nat {
    if fs == [] then 0
    else if IsVarint(fs[|fs| - 1], num) then fs[|fs| - 1].value.v
    else LastVarint(fs[..|fs| - 1], num)
  }

  /** All byte strings under a number, in order. */
  function ChunksOf(fs: seq<Field>, num: nat): seq<Bytes> {
    if fs == [] then []
    else ChunksOf(fs[..|fs| - 1], num) + if IsChunk(fs[|fs| - 1], num) then [fs[|fs| - 1].value.bytes] else []
  }

  function Filter(fs: seq<Field>, known: Field -> bool): seq<Field> {
    if fs == [] then []
    else if known(fs[0]) then [fs[0]] + Filter(fs[1..], known)
    else Filter(fs[1..], known)
  }

  ghost predicate ActsOnlyOn<A(!new)>(step: (A, Field) -> Option<A>, known: Field -> bool) {
    forall a: A, f: Field :: !known(f) ==> step(a, f) == Some(a)
  }

  /** Fields that a reader does not act on change nothing, wherever they stand. */
  lemma {:induction false} UnknownFieldsIgnored<A(!new)>(a: A, step: (A, Field) -> Option<A>, known: Field -> bool,
        fs: seq<Field>)
    requires ActsOnlyOn(step, known)
    ensures Fold(a, step, fs) == Fold(a, step, Filter(fs, known))
    decreases |fs|
  {
    if fs != [] {
      if known(fs[0]) {
        assert Filter(fs, known)[1..] == Filter(fs[1..], known);
        if step(a, fs[0]).Some? {
          UnknownFieldsIgnored(step(a, fs[0]).value, step, known, fs[1..]);
        }
      } else {
        UnknownFieldsIgnored(a, step, known, fs[1..]);
      }
    }
  }

  // ---- encoding -----------------------------------------------------------------------

  function PutUvarint(v: nat): (r: Bytes)
    ensures |r| > 0
  {
    if v < 128 then [v] else [v % 128 + 128] + PutUvarint(v / 128)
  }

  function WireType(v: Value): nat {
    match v
    case Varint(_) => 0
    case Fixed64(_) => 1
    case Chunk(_) => 2
    case Fixed32(_) => 5
  }

  predicate Fits(f: Field) {
    && 0 < f.num && f.num * 8 + 7 < TWO_64
    && match f.value
       case Varint(v) => v < TWO_64
       case Fixed64(raw) => |raw| == 8
       case Chunk(bytes) => |bytes| < TWO_64
       case Fixed32(raw) => |raw| == 4
  }

  function PutValue(v: Value): Bytes {
    match v
    case Varint(n) => PutUvarint(n)
    case Fixed64(raw) => raw
    case Chunk(bytes) => PutUvarint(|bytes|) + bytes
    case Fixed32(raw) => raw
  }

  function PutField(f: Field): Bytes {
    PutUvarint(f.num * 8 + WireType(f.value)) + PutValue(f.value)
  }

  function PutFields(fs: seq<Field>): Bytes {
    if fs == [] then [] else PutField(fs[0]) + PutFields(fs[1..])
  }

  predicate AllFit(fs: seq<Field>) { forall i :: 0 <= i < |fs| ==> Fits(fs[i]) }

  /** What the bytes from the i-th of a 64-bit value on can hold. */
  function Limit(i: nat): nat
    requires i < MAX_VARINT_LEN
    decreases MAX_VARINT_LEN - i
  {
    if i == MAX_VARINT_LEN - 1 then 2 else 128 * Limit(i + 1)
  }

  lemma LimitOfAll()
    ensures Limit(0) == TWO_64
  {}

  lemma Tail<T>(x: T, a: seq<T>, b: seq<T>)
    ensures ([x] + a + b)[1..] == a + b && ([x] + a + b)[0] == x
  {}

  lemma {:induction false} UvarintRead(i: nat, v: nat, rest: Bytes)
    requires i < MAX_VARINT_LEN && v < Limit(i)
    ensures Uvarint(PutUvarint(v) + rest, i) == Some(Number(v, rest))
    decreases v
  {
    if v < 128 {
      Tail(v, [], rest);
      assert [v] + [] + rest == [v] + rest && [] + rest == rest;
    } else {
      Tail(v % 128 + 128, PutUvarint(v / 128), rest);
      UvarintRead(i + 1, v / 128, rest);
    }
  }

  lemma WholeUvarintRead(v: nat, rest: Bytes)
    requires v < TWO_64
    ensures Uvarint(PutUvarint(v) + rest, 0) == Some(Number(v, rest))
  {
    LimitOfAll();
    UvarintRead(0, v, rest);
  }

  lemma KeyParts(num: nat, wireType: nat)
    requires wireType < 8
    ensures (num * 8 + wireType) / 8 == num && (num * 8 + wireType) % 8 == wireType
  {}

  lemma Regrouped<T>(a: seq<T>, b: seq<T>, c: seq<T>)
    ensures a + b + c == a + (b + c)
  {}

  lemma Parts<T>(a: seq<T>, b: seq<T>)
    ensures (a + b)[..|a|] == a && (a + b)[|a|..] == b
  {}

  lemma KeyRead(num: nat, wireType: nat, tail: Bytes)
    requires num > 0 && wireType < 8 && num * 8 + 7 < TWO_64
    ensures NextField(PutUvarint(num * 8 + wireType) + tail) == Payload(tail, num, wireType)
  {
    WholeUvarintRead(num * 8 + wireType, tail);
    KeyParts(num, wireType);
  }

  lemma ValueRead(num: nat, v: Value, rest: Bytes)
    requires Fits(Field(num, v))
    ensures Payload(PutValue(v) + rest, num, WireType(v)) == Some(Read(Field(num, v), rest))
  {
    match v {
      case Varint(n) => WholeUvarintRead(n, rest);
      case Fixed64(raw) => Parts(raw, rest);
      case Fixed32(raw) => Parts(raw, rest);
      case Chunk(bytes) =>
        Regrouped(PutUvarint(|bytes|), bytes, rest);
        WholeUvarintRead(|bytes|, bytes + rest);
        Parts(bytes, rest);
    }
  }

  /** Reading inverts writing for every field. */
  lemma FieldRead(f: Field, rest: Bytes)
    requires Fits(f)
    ensures NextField(PutField(f) + rest) == Some(Read(f, rest))
  {
    Regrouped(PutUvarint(f.num * 8 + WireType(f.value)), PutValue(f.value), rest);
    KeyRead(f.num, WireType(f.value), PutValue(f.value) + rest);
    ValueRead(f.num, f.value, rest);
  }

  /** Reading the bytes of a list of fields is folding over that list. */
  lemma {:induction false} MessageRead<A>(fs: seq<Field>, a: A, step: (A, Field) -> Option<A>)
    requires AllFit(fs)
    ensures Message(PutFields(fs), a, step) == Fold(a, step, fs)
    decreases |fs|
  {
    if fs != [] {
      FieldRead(fs[0], PutFields(fs[1..]));
      if step(a, fs[0]).Some? {
        MessageRead(fs[1..], step(a, fs[0]).value, step);
      }
    }
  }

  lemma {:induction false} FilterFits(fs: seq<Field>, known: Field -> bool)
    requires AllFit(fs)
    ensures AllFit(Filter(fs, known))
  {
    if fs != [] {
      FilterFits(fs[1..], known);
    }
  }

  /** A message means the same without the fields that its reader does not act on. */
  lemma UnknownFieldsDropped<A(!new)>(a: A, step: (A, Field) -> Option<A>, known: Field -> bool, fs: seq<Field>)
    requires ActsOnlyOn(step, known) && AllFit(fs)
    ensures Message(PutFields(fs), a, step) == Message(PutFields(Filter(fs, known)), a, step)
  {
    FilterFits(fs, known);
    MessageRead(fs, a, step);
    MessageRead(Filter(fs, known), a, step);
    UnknownFieldsIgnored(a, step, known, fs);
  }
}
