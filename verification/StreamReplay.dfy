/** The peeking connection (internal/sniff/sniff.go): a background fill reads the
    first bytes into a buffer, a peek copies the buffer whenever it times out, and
    reads drain the buffer before falling through to the connection.

    The fill, the peek and the reads run concurrently; a step of the machine is one
    of their atomic actions. */
module StreamReplay {
  import opened ByteStrings
  import opened Options
  import ClientHello

  const MAX_PEEK := 4096

  /** How far the background fill has come: not yet read, read but not stored,
      stored under the lock, and announced to waiting readers. */
  datatype Fill = Waiting | Fetched(bytes: Bytes, failed: bool) | Stored | Done

  datatype State = State(rest: Bytes, fill: Fill, buf: Bytes, failed: bool, delivered: Bytes)

  /** In Fetch and Read, got is how many bytes the connection's own read returns and
      error whether it returns an error with them. */
  datatype Step =
    | Fetch(got: nat, error: bool)
    | Store
    | Announce
    | Read(size: nat, got: nat, error: bool)

  function Initial(stream: Bytes): State { State(stream, Waiting, [], false, []) }

  function Least(a: nat, b: nat): nat { if a < b then a else b }

  predicate Enabled(s: State, step: Step) {
    match step
    case Fetch(got, _) => s.fill == Waiting && got <= MAX_PEEK && got <= |s.rest|
    case Store => s.fill.Fetched?
    case Announce => s.fill == Stored
    case Read(size, got, _) => s.fill == Done && got <= size && got <= |s.rest|
  }

  /** What a read returns once the fill is announced. */
  function ReadBytes(s: State, size: nat, got: nat): Bytes
    requires got <= |s.rest|
  {
    if s.buf != [] then s.buf[..Least(size, |s.buf|)]
    else if s.failed then []
    else s.rest[..got]
  }

  function Next(s: State, step: Step): State
    requires Enabled(s, step)
  {
    match step
    case Fetch(got, error) => s.(fill := Fetched(s.rest[..got], error), rest := s.rest[got..])
    case Store => s.(fill := Stored, buf := s.buf + s.fill.bytes, failed := s.fill.failed)
    case Announce => s.(fill := Done)
    case Read(size, got, error) =>
      var r := s.(delivered := s.delivered + ReadBytes(s, size, got));
      if s.buf != [] then r.(buf := s.buf[Least(size, |s.buf|)..])
      else if s.failed then r
      else r.(rest := s.rest[got..])
  }

  predicate Runs(s: State, steps: seq<Step>)
    decreases |steps|, 0
  {
    steps == [] ||
    (Runs(s, steps[..|steps| - 1]) && Enabled(Run(s, steps[..|steps| - 1]), steps[|steps| - 1]))
  }

  function Run(s: State, steps: seq<Step>): State
    requires Runs(s, steps)
    decreases |steps|, 1
  {
    if steps == [] then s
    else Next(Run(s, steps[..|steps| - 1]), steps[|steps| - 1])
  }

  function InTransit(s: State): Bytes { if s.fill.Fetched? then s.fill.bytes else [] }

  /** Everything the stream held, in order: delivered, buffered, on its way into the
      buffer, and not yet read. */
  predicate Whole(s: State, stream: Bytes) {
    s.delivered + s.buf + InTransit(s) + s.rest == stream
  }

  lemma NextKeepsWhole(s: State, step: Step, stream: Bytes)
    requires Enabled(s, step) && Whole(s, stream)
    ensures Whole(Next(s, step), stream)
  {}

  /** No loss, duplication or reordering, in every interleaving and however short
      the connection's own reads are. */
  lemma {:induction false} NothingLost(stream: Bytes, steps: seq<Step>)
    requires Runs(Initial(stream), steps)
    ensures Whole(Run(Initial(stream), steps), stream)
  {
    if steps != [] {
      var before := steps[..|steps| - 1];
      NothingLost(stream, before);
      NextKeepsWhole(Run(Initial(stream), before), steps[|steps| - 1], stream);
    } else {
      assert [] + [] + [] + stream == stream;
    }
  }

  lemma Heads<T>(a: seq<T>, b: seq<T>, c: seq<T>, d: seq<T>)
    ensures a <= a + b + c + d && (a == [] ==> b <= a + b + c + d)
  {}

  /** What readers have seen is always a prefix of the stream. */
  lemma DeliveredIsPrefix(stream: Bytes, steps: seq<Step>, s: State)
    requires Runs(Initial(stream), steps) && s == Run(Initial(stream), steps)
    ensures s.delivered <= stream
  {
    NothingLost(stream, steps);
    Heads(s.delivered, s.buf, InTransit(s), s.rest);
  }

  /** Whenever the peek fires before anything was read, the bytes it copies are a
      prefix of the stream, so a server name found in them is the one the whole
      stream would give. */
  lemma PeekedNameIsTheStreams(norm: ClientHello.Normalizer, stream: Bytes, steps: seq<Step>, s: State)
    requires Runs(Initial(stream), steps) && s == Run(Initial(stream), steps) && s.delivered == []
    ensures s.buf <= stream
    ensures ClientHello.Sniff(norm, s.buf).Some? ==> ClientHello.Sniff(norm, stream) == ClientHello.Sniff(norm, s.buf)
  {
    NothingLost(stream, steps);
    Heads(s.delivered, s.buf, InTransit(s), s.rest);
    if ClientHello.Sniff(norm, s.buf).Some? {
      ClientHello.PrefixStable(norm, s.buf, stream);
    }
  }

  // ---- the connection ---------------------------------------------------------------------

  class BufferedConn {
    /** What the underlying connection has still to give. */
    var rest: Bytes
    var buf: Bytes
    var failed: bool
    var done: bool
    /** What callers have been given. */
    ghost var delivered: Bytes

    ghost predicate Valid()
      reads this
    {
      !done ==> buf == [] && delivered == []
    }

    ghost function Contents(): State
      reads this
    {
      State(rest, if done then Done else Waiting, buf, failed, delivered)
    }

    constructor (stream: Bytes)
      ensures Valid() && Contents() == Initial(stream)
    {
      rest, buf, failed, done, delivered := stream, [], false, false, [];
    }

    /** The background fill: one read of at most MAX_PEEK bytes. */
    method RunFill(got: nat, error: bool)
      requires Valid() && !done && got <= MAX_PEEK && got <= |rest|
      modifies this
      ensures Valid() && Contents() == Next(Next(Next(old(Contents()), Fetch(got, error)), Store), Announce)
    {
      var chunk := rest[..got];
      rest := rest[got..];
      if |chunk| > 0 {
        buf := buf + chunk;
      }
      failed := error;
      done := true;
    }

    /** A copy of what the fill has stored when the peek's timer or the fill comes first. */
    method PeekWait() returns (out: Bytes)
      requires Valid()
      ensures out == buf && (!done ==> out == [])
    {
      if |buf| == 0 {
        return [];
      }
      out := buf;
    }

    /** A read after the fill was announced; got and error are what the underlying
        connection would return. */
    method Read(size: nat, got: nat, error: bool) returns (bytes: Bytes, failure: bool)
      requires Valid() && done && got <= size && got <= |rest|
      modifies this
      ensures Valid() && Contents() == Next(old(Contents()), Step.Read(size, got, error))
      ensures delivered == old(delivered) + bytes && |bytes| <= size
      ensures failure <==> old(buf) == [] && (old(failed) || error)
    {
      if |buf| > 0 {
        var n := Least(size, |buf|);
        bytes, failure := buf[..n], false;
        buf := buf[n..];
      } else if failed {
        bytes, failure := [], true;
      } else {
        bytes, failure := rest[..got], error;
        rest := rest[got..];
      }
      delivered := delivered + bytes;
    }
  }
  // ---- peeking for a host name ------------------------------------------------------------

  type Sniffer = Bytes -> Option<Bytes>

  datatype Peek = Host(name: Bytes) | NoData | NoSniffer

  /** A host name found in the first bytes of a stream is the one found in the whole. */
  ghost predicate Stable(sniffer: Sniffer) {
    forall x: Bytes, y: Bytes :: x <= y && sniffer(x).Some? ==> sniffer(y) == sniffer(x)
  }

  predicate Finds(sniffer: Sniffer, data: Bytes) { sniffer(data).Some? && sniffer(data).value != [] }

  lemma TlsIsStable(norm: ClientHello.Normalizer)
    ensures Stable((data: Bytes) => ClientHello.Sniff(norm, data))
  {
    forall x: Bytes, y: Bytes | x <= y && ClientHello.Sniff(norm, x).Some?
      ensures ClientHello.Sniff(norm, y) == ClientHello.Sniff(norm, x)
    {
      ClientHello.PrefixStable(norm, x, y);
    }
  }

  /** Sniffer i is the first to find a host. */
  predicate FirstFinds(sniffers: seq<Sniffer>, data: Bytes, i: nat) {
    i < |sniffers| && Finds(sniffers[i], data) && forall j :: 0 <= j < i ==> !Finds(sniffers[j], data)
  }

  method RunSniffers(sniffers: seq<Sniffer>, data: Bytes) returns (host: Option<Bytes>)
    ensures host.None? ==> forall i :: 0 <= i < |sniffers| ==> !Finds(sniffers[i], data)
    ensures host.Some? ==> exists i: nat :: FirstFinds(sniffers, data, i) && sniffers[i](data) == host
  {
    for i := 0 to |sniffers|
      invariant forall j :: 0 <= j < i ==> !Finds(sniffers[j], data)
    {
      host := sniffers[i](data);
      if host.Some? && host.value != [] {
        assert FirstFinds(sniffers, data, i);
        return;
      }
    }
    return None;
  }

  /** The connection that is handed on, after the fill if that came before the timer. */
  method Wrapped(stream: Bytes, inTime: bool, got: nat, error: bool) returns (conn: BufferedConn, data: Bytes)
    requires got <= MAX_PEEK && got <= |stream|
    ensures fresh(conn) && conn.Valid() && conn.delivered == [] && Whole(conn.Contents(), stream)
    ensures data == if inTime then stream[..got] else []
  {
    conn := new BufferedConn(stream);
    assert [] + [] + [] + stream == stream;
    if inTime {
      conn.RunFill(got, error);
      assert conn.buf == stream[..got] && conn.rest == stream[got..] && conn.delivered == [];
      assert [] + stream[..got] + [] + stream[got..] == stream;
    }
    data := conn.PeekWait();
  }

  /** Sniffer i gave this host from the peeked bytes; a stable one gives it from all. */
  ghost predicate HostFrom(sniffers: seq<Sniffer>, stream: Bytes, got: nat, i: nat, host: Bytes)
    requires got <= |stream|
  {
    && FirstFinds(sniffers, stream[..got], i) && sniffers[i](stream[..got]) == Some(host)
    && (Stable(sniffers[i]) ==> sniffers[i](stream) == Some(host))
  }

  /** Peeking at a connection, whether or not the fill got its bytes before the timer.
      The host is the first sniffer's that finds one in the peeked bytes, and for a stable
      sniffer that of the whole stream; the connection handed on still has every byte. */
  method PeekConn(stream: Bytes, sniffers: seq<Sniffer>, inTime: bool, got: nat, error: bool)
      returns (r: Peek, conn: BufferedConn)
    requires got <= MAX_PEEK && got <= |stream|
    ensures fresh(conn) && conn.Valid() && conn.delivered == [] && Whole(conn.Contents(), stream)
    ensures r == NoData <==> !inTime || got == 0
    ensures r == NoSniffer ==> forall i :: 0 <= i < |sniffers| ==> !Finds(sniffers[i], stream[..got])
    ensures r.Host? ==> exists i: nat :: HostFrom(sniffers, stream, got, i, r.name)
  {
    var data;
    conn, data := Wrapped(stream, inTime, got, error);
    if |data| == 0 {
      return NoData, conn;
    }
    var host := RunSniffers(sniffers, data);
    if host.None? {
      return NoSniffer, conn;
    }
    ghost var i: nat :| FirstFinds(sniffers, data, i) && sniffers[i](data) == host;
    assert HostFrom(sniffers, stream, got, i, host.value);
    return Host(host.value), conn;
  }
}
