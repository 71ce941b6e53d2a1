/** protocol.py: length-prefixed framing over a byte stream that arrives in arbitrary fragments. */
module Framing {
  import opened Collections

  type Byte = x: int | 0 <= x < 256

  type Bytes = seq<Byte>

  // ----- The big-endian length -----

  const U32: nat := 0x1_0000_0000

  /** Most significant byte first. */
  function Pack(n: nat): (r: Bytes)
    requires n < U32
    ensures |r| == 4
    ensures n == r[0] as int * 0x100_0000 + r[1] as int * 0x1_0000 + r[2] as int * 0x100 + r[3] as int
  {
    var high, low := n / 0x1_0000, n % 0x1_0000;
    [high / 256, high % 256, low / 256, low % 256]
  }

  function Unpack(b: Bytes): nat
    requires |b| == 4
  {
    b[0] as int * 0x100_0000 + b[1] as int * 0x1_0000 + b[2] as int * 256 + b[3] as int
  }

  lemma UnpackOfPack(n: nat)
    requires n < U32
    ensures Unpack(Pack(n)) == n
  {
    var high, low := n / 0x1_0000, n % 0x1_0000;
    assert n == high * 0x1_0000 + low && high == high / 256 * 256 + high % 256;
  }

  // ----- Metadata -----

  type Metadata(!new, ==, 0)

  /** The JSON codec, as far as framing uses it: `decode` is None for text that is not a JSON object. */
  datatype Codec = Codec(
    encode: Metadata -> Bytes,
    decode: Bytes -> Option<Metadata>,
    withSizes: (Metadata, seq<int>) -> Metadata,   // {**metadata, "blob_sizes": sizes}
    sizes: Metadata -> seq<int>)                   // metadata.get("blob_sizes", [])

  ghost predicate RoundTrips(codec: Codec) {
    && (forall m: Metadata {:trigger codec.encode(m)} :: codec.decode(codec.encode(m)) == Some(m))
    && (forall m: Metadata, sizes: seq<int> {:trigger codec.withSizes(m, sizes)} ::
          codec.sizes(codec.withSizes(m, sizes)) == sizes)
  }

  // ----- Sending -----

  function Lengths(blobs: seq<Bytes>): (r: seq<int>)
    ensures |r| == |blobs| && forall i :: 0 <= i < |r| ==> r[i] == |blobs[i]|
  {
    seq(|blobs|, i requires 0 <= i < |blobs| => |blobs[i]|)
  }

  function Concat(parts: seq<Bytes>): Bytes {
    if parts == [] then [] else parts[0] + Concat(parts[1..])
  }

  datatype Message = Message(metadata: Metadata, blobs: seq<Bytes>)

  /** What the peer will see: the metadata with the blob sizes filled in. */
  function Stamped(codec: Codec, m: Message): Message {
    m.(metadata := codec.withSizes(m.metadata, Lengths(m.blobs)))
  }

  function PayloadOf(codec: Codec, m: Message): Bytes {
    codec.encode(Stamped(codec, m).metadata)
  }

  /** `send_frame`; packing a length that needs more than 32 bits raises, which is None here. */
  function Frame(codec: Codec, magic: Bytes, m: Message): Option<Bytes> {
    var payload := PayloadOf(codec, m);
    if |payload| < U32 then Some(magic + Pack(|payload|) + payload + Concat(m.blobs)) else None
  }

  // ----- Receiving, as a function of the bytes on the wire -----

  datatype Outcome =
    | Received(message: Message)
    | Closed          // the peer closed the connection in the middle of a read
    | BadMagic
    | BadSize
    | BadMetadata

  datatype Parsed = Parsed(outcome: Outcome, rest: Bytes)

  /** `recv_exact`: the next n bytes, or nothing if the stream is shorter. Negative sizes read nothing. */
  predicate CanTake(bytes: Bytes, n: int) {
    n <= |bytes|
  }

  function Taken(bytes: Bytes, n: int): Bytes
    requires CanTake(bytes, n)
  {
    if n <= 0 then [] else bytes[..n]
  }

  function Left(bytes: Bytes, n: int): Bytes
    requires CanTake(bytes, n)
  {
    if n <= 0 then bytes else bytes[n..]
  }

  datatype ParsedBlobs = ParsedBlobs(blobs: Option<seq<Bytes>>, rest: Bytes)

  function ParseBlobs(bytes: Bytes, sizes: seq<int>): ParsedBlobs {
    if sizes == [] then ParsedBlobs(Some([]), bytes)
    else if !CanTake(bytes, sizes[0]) then ParsedBlobs(None, [])
    else
      var tail := ParseBlobs(Left(bytes, sizes[0]), sizes[1..]);
      if tail.blobs.None? then tail else ParsedBlobs(Some([Taken(bytes, sizes[0])] + tail.blobs.value), tail.rest)
  }

  function ParseBody(codec: Codec, bytes: Bytes, size: nat): Parsed {
    if !CanTake(bytes, size) then Parsed(Closed, [])
    else
      match codec.decode(Taken(bytes, size))
      case None => Parsed(BadMetadata, Left(bytes, size))
      case Some(metadata) =>
        var blobs := ParseBlobs(Left(bytes, size), codec.sizes(metadata));
        if blobs.blobs.None? then Parsed(Closed, blobs.rest)
        else Parsed(Received(Message(metadata, blobs.blobs.value)), blobs.rest)
  }

  /** `recv_frame`. */
  function ParseFrame(codec: Codec, magic: Bytes, maxMetadata: nat, bytes: Bytes): Parsed {
    if !CanTake(bytes, |magic|) then Parsed(Closed, [])
    else if Taken(bytes, |magic|) != magic then Parsed(BadMagic, Left(bytes, |magic|))
    else
      var afterMagic := Left(bytes, |magic|);
      if !CanTake(afterMagic, 4) then Parsed(Closed, [])
      else
        var size := Unpack(Taken(afterMagic, 4));
        if size <= 0 || size > maxMetadata then Parsed(BadSize, Left(afterMagic, 4))
        else ParseBody(codec, Left(afterMagic, 4), size)
  }

  // ----- Round trips -----

  lemma TakeConcat(a: Bytes, b: Bytes)
    ensures CanTake(a + b, |a|) && Taken(a + b, |a|) == a && Left(a + b, |a|) == b
  {
  }

  lemma BlobsRoundTrip(blobs: seq<Bytes>, rest: Bytes)
    ensures ParseBlobs(Concat(blobs) + rest, Lengths(blobs)) == ParsedBlobs(Some(blobs), rest)
  {
    BlobsParse(Concat(blobs) + rest, blobs, Lengths(blobs), rest);
  }

  /** The metadata fits the receiver's limit. */
  predicate InBounds(codec: Codec, maxMetadata: nat, m: Message) {
    0 < |PayloadOf(codec, m)| <= maxMetadata && |PayloadOf(codec, m)| < U32
  }

  lemma BodyRoundTrip(codec: Codec, m: Message, rest: Bytes)
    requires RoundTrips(codec)
    ensures ParseBody(codec, PayloadOf(codec, m) + (Concat(m.blobs) + rest), |PayloadOf(codec, m)|) ==
            Parsed(Received(Stamped(codec, m)), rest)
  {
    var payload, tail := PayloadOf(codec, m), Concat(m.blobs) + rest;
    TakeConcat(payload, tail);
    BlobsRoundTrip(m.blobs, rest);
    assert codec.decode(payload) == Some(codec.withSizes(m.metadata, Lengths(m.blobs)));
  }

  /** A frame followed by anything is read back exactly, and exactly its own bytes are consumed. */
  lemma FrameRoundTrip(codec: Codec, magic: Bytes, maxMetadata: nat, m: Message, rest: Bytes)
    requires RoundTrips(codec) && InBounds(codec, maxMetadata, m)
    ensures Frame(codec, magic, m).Some?
    ensures ParseFrame(codec, magic, maxMetadata, Frame(codec, magic, m).value + rest) ==
            Parsed(Received(Stamped(codec, m)), rest)
  {
    var payload := PayloadOf(codec, m);
    var size, body := Pack(|payload|), payload + (Concat(m.blobs) + rest);
    assert Frame(codec, magic, m).value + rest == magic + (size + body);
    TakeConcat(magic, size + body);
    TakeConcat(size, body);
    UnpackOfPack(|payload|);
    BodyRoundTrip(codec, m, rest);
  }

  /** The bytes of a frame, in order: the magic, the length of the metadata, the metadata and the blobs. */
  lemma FrameLayout(codec: Codec, magic: Bytes, m: Message, size: Bytes)
    requires Frame(codec, magic, m).Some? && |size| == 4 && Unpack(size) == |PayloadOf(codec, m)|
    ensures Frame(codec, magic, m).value == magic + size + PayloadOf(codec, m) + Concat(m.blobs)
  {
    var packed := Pack(|PayloadOf(codec, m)|);
    UnpackIsInjective(packed, size);
  }

  lemma UnpackIsInjective(a: Bytes, b: Bytes)
    requires |a| == 4 && |b| == 4 && Unpack(a) == Unpack(b)
    ensures a == b
  {
    Digit(a[0] as int * 0x1_0000 + a[1] as int * 0x100 + a[2] as int, a[3], b[0] as int * 0x1_0000 + b[1] as int * 0x100 + b[2] as int, b[3]);
    Digit(a[0] as int * 0x100 + a[1] as int, a[2], b[0] as int * 0x100 + b[1] as int, b[2]);
    Digit(a[0] as int, a[1], b[0] as int, b[1]);
  }

  lemma Digit(x: int, low: Byte, y: int, low': Byte)
    requires x * 256 + low as int == y * 256 + low' as int
    ensures x == y && low == low'
  {
  }

  // ----- Exactly what is received -----

  /** One blob for each size; a negative size is an empty blob. */
  predicate BlobsFit(blobs: seq<Bytes>, sizes: seq<int>) {
    && |blobs| == |sizes|
    && forall i :: 0 <= i < |blobs| ==> |blobs[i]| == if sizes[i] < 0 then 0 else sizes[i]
  }

  lemma {:induction false} BlobsParse(bytes: Bytes, blobs: seq<Bytes>, sizes: seq<int>, rest: Bytes)
    requires BlobsFit(blobs, sizes) && bytes == Concat(blobs) + rest
    ensures ParseBlobs(bytes, sizes) == ParsedBlobs(Some(blobs), rest)
  {
    if blobs == [] {
      assert bytes == rest;
    } else {
      var tail := Concat(blobs[1..]) + rest;
      assert bytes == blobs[0] + tail;
      TakeConcat(blobs[0], tail);
      BlobsParse(tail, blobs[1..], sizes[1..], rest);
      assert [blobs[0]] + blobs[1..] == blobs;
    }
  }

  lemma TakeSplits(bytes: Bytes, n: int)
    requires CanTake(bytes, n)
    ensures bytes == Taken(bytes, n) + Left(bytes, n) && |Taken(bytes, n)| == if n < 0 then 0 else n
  {
  }

  lemma FitCons(blob: Bytes, blobs: seq<Bytes>, size: int, sizes: seq<int>)
    requires BlobsFit(blobs, sizes) && |blob| == if size < 0 then 0 else size
    ensures BlobsFit([blob] + blobs, [size] + sizes) && Concat([blob] + blobs) == blob + Concat(blobs)
  {
    assert ([blob] + blobs)[1..] == blobs;
  }

  lemma {:induction false} ParsedBlobsFit(bytes: Bytes, sizes: seq<int>)
    requires ParseBlobs(bytes, sizes).blobs.Some?
    ensures ParsedFit(bytes, sizes, ParseBlobs(bytes, sizes))
  {
    if sizes == [] {
      assert bytes == [] + bytes;
    } else {
      TakeSplits(bytes, sizes[0]);
      ParsedBlobsFit(Left(bytes, sizes[0]), sizes[1..]);
      ParsedCons(Taken(bytes, sizes[0]), Left(bytes, sizes[0]), sizes, ParseBlobs(Left(bytes, sizes[0]), sizes[1..]));
    }
  }

  /** The bytes are the blobs that were parsed, of the right sizes, and then the rest. */
  ghost predicate ParsedFit(bytes: Bytes, sizes: seq<int>, p: ParsedBlobs) {
    p.blobs.Some? && BlobsFit(p.blobs.value, sizes) && bytes == Concat(p.blobs.value) + p.rest
  }

  lemma ParsedCons(blob: Bytes, left: Bytes, sizes: seq<int>, tail: ParsedBlobs)
    requires sizes != [] && ParsedFit(left, sizes[1..], tail) && |blob| == if sizes[0] < 0 then 0 else sizes[0]
    ensures ParsedFit(blob + left, sizes, ParsedBlobs(Some([blob] + tail.blobs.value), tail.rest))
  {
    FitCons(blob, tail.blobs.value, sizes[0], sizes[1..]);
    assert [sizes[0]] + sizes[1..] == sizes;
  }

  /** The bytes are a frame with this message, cut as the message says, and then `rest`. */
  ghost predicate IsFramed(codec: Codec, magic: Bytes, maxMetadata: nat, bytes: Bytes, size: Bytes, payload: Bytes,
                           m: Message, rest: Bytes) {
    && bytes == magic + (size + (payload + (Concat(m.blobs) + rest)))
    && |size| == 4 && Unpack(size) == |payload| && 0 < |payload| <= maxMetadata
    && codec.decode(payload) == Some(m.metadata) && BlobsFit(m.blobs, codec.sizes(m.metadata))
  }

  /** Receiving is sound and complete, whatever the bytes: a message is received, leaving `rest`, if and only if the bytes
      are a frame with that message followed by `rest`. */
  lemma ReceivedIff(codec: Codec, magic: Bytes, maxMetadata: nat, bytes: Bytes, m: Message, rest: Bytes)
    ensures ParseFrame(codec, magic, maxMetadata, bytes) == Parsed(Received(m), rest) <==>
            exists size, payload :: IsFramed(codec, magic, maxMetadata, bytes, size, payload, m, rest)
  {
    if ParseFrame(codec, magic, maxMetadata, bytes) == Parsed(Received(m), rest) {
      ReceivedIsFramed(codec, magic, maxMetadata, bytes, m, rest);
    }
    if size, payload :| IsFramed(codec, magic, maxMetadata, bytes, size, payload, m, rest) {
      FramedIsReceived(codec, magic, maxMetadata, bytes, size, payload, m, rest);
    }
  }

  lemma ReceivedIsFramed(codec: Codec, magic: Bytes, maxMetadata: nat, bytes: Bytes, m: Message, rest: Bytes)
    requires ParseFrame(codec, magic, maxMetadata, bytes) == Parsed(Received(m), rest)
    ensures exists size, payload :: IsFramed(codec, magic, maxMetadata, bytes, size, payload, m, rest)
  {
    var afterMagic := Left(bytes, |magic|);
    var size, afterSize := Taken(afterMagic, 4), Left(afterMagic, 4);
    TakeSplits(bytes, |magic|);
    TakeSplits(afterMagic, 4);
    var payload := BodyIsFramed(codec, afterSize, Unpack(size), m, rest);
    assert IsFramed(codec, magic, maxMetadata, bytes, size, payload, m, rest);
  }

  lemma BodyIsFramed(codec: Codec, bytes: Bytes, n: nat, m: Message, rest: Bytes) returns (payload: Bytes)
    requires ParseBody(codec, bytes, n) == Parsed(Received(m), rest)
    ensures bytes == payload + (Concat(m.blobs) + rest) && |payload| == n
    ensures codec.decode(payload) == Some(m.metadata) && BlobsFit(m.blobs, codec.sizes(m.metadata))
  {
    payload := Taken(bytes, n);
    TakeSplits(bytes, n);
    ParsedBlobsFit(Left(bytes, n), codec.sizes(m.metadata));
  }

  lemma FramedIsReceived(codec: Codec, magic: Bytes, maxMetadata: nat, bytes: Bytes, size: Bytes, payload: Bytes,
                         m: Message, rest: Bytes)
    requires IsFramed(codec, magic, maxMetadata, bytes, size, payload, m, rest)
    ensures ParseFrame(codec, magic, maxMetadata, bytes) == Parsed(Received(m), rest)
  {
    var tail := Concat(m.blobs) + rest;
    TakeConcat(magic, size + (payload + tail));
    TakeConcat(size, payload + tail);
    TakeConcat(payload, tail);
    BlobsParse(tail, m.blobs, codec.sizes(m.metadata), rest);
  }

  /** The bytes start with the magic and go on with at least n more. */
  predicate HasMagic(magic: Bytes, bytes: Bytes, n: nat) {
    |magic| + n <= |bytes| && bytes[..|magic|] == magic
  }

  /** The announced length of the metadata. */
  function Announced(magic: Bytes, bytes: Bytes): nat
    requires HasMagic(magic, bytes, 4)
  {
    Unpack(bytes[|magic|..|magic| + 4])
  }

  predicate SizeAccepted(magic: Bytes, maxMetadata: nat, bytes: Bytes) {
    HasMagic(magic, bytes, 4) && 0 < Announced(magic, bytes) <= maxMetadata
  }

  /** Every rejection, told apart by the bytes alone: a wrong magic, an announced length out of bounds, and metadata that
      does not decode; the first of them that applies is reported. */
  lemma RejectedIff(codec: Codec, magic: Bytes, maxMetadata: nat, bytes: Bytes)
    ensures var outcome := ParseFrame(codec, magic, maxMetadata, bytes).outcome;
      && (outcome == BadMagic <==> |magic| <= |bytes| && bytes[..|magic|] != magic)
      && (outcome == BadSize <==> HasMagic(magic, bytes, 4) && !SizeAccepted(magic, maxMetadata, bytes))
      && (outcome == BadMetadata <==>
            SizeAccepted(magic, maxMetadata, bytes) && HasMagic(magic, bytes, 4 + Announced(magic, bytes)) &&
            codec.decode(bytes[|magic| + 4..|magic| + 4 + Announced(magic, bytes)]) == None)
  {
    if HasMagic(magic, bytes, 4) {
      var afterMagic := Left(bytes, |magic|);
      assert Taken(afterMagic, 4) == bytes[|magic|..|magic| + 4];
      var n := Announced(magic, bytes);
      if HasMagic(magic, bytes, 4 + n) {
        assert Left(afterMagic, 4)[..n] == bytes[|magic| + 4..|magic| + 4 + n];
      }
    }
  }

  /** The metadata and blobs of a list of frames read one after the other. */
  function ParseFrames(codec: Codec, magic: Bytes, maxMetadata: nat, n: nat, bytes: Bytes): (seq<Outcome>, Bytes) {
    if n == 0 then ([], bytes)
    else
      var first := ParseFrame(codec, magic, maxMetadata, bytes);
      var (others, rest) := ParseFrames(codec, magic, maxMetadata, n - 1, first.rest);
      ([first.outcome] + others, rest)
  }

  predicate AllFramed(codec: Codec, magic: Bytes, messages: seq<Message>) {
    forall i :: 0 <= i < |messages| ==> Frame(codec, magic, messages[i]).Some?
  }

  function Wire(codec: Codec, magic: Bytes, messages: seq<Message>): Bytes
    requires AllFramed(codec, magic, messages)
  {
    if messages == [] then [] else Frame(codec, magic, messages[0]).value + Wire(codec, magic, messages[1..])
  }

  function Outcomes(codec: Codec, messages: seq<Message>): (r: seq<Outcome>)
    ensures |r| == |messages|
  {
    seq(|messages|, i requires 0 <= i < |messages| => Received(Stamped(codec, messages[i])))
  }

  ghost predicate AllInBounds(codec: Codec, maxMetadata: nat, messages: seq<Message>) {
    forall i :: 0 <= i < |messages| ==> InBounds(codec, maxMetadata, messages[i])
  }

  /** Framing is self-delimiting: any list of frames sent back to back is read back in order, and what follows
      on the wire is left untouched. */
  lemma {:induction false} StreamRoundTrip(codec: Codec, magic: Bytes, maxMetadata: nat, messages: seq<Message>, rest: Bytes)
    requires RoundTrips(codec) && AllInBounds(codec, maxMetadata, messages)
    ensures AllFramed(codec, magic, messages)
    ensures ParseFrames(codec, magic, maxMetadata, |messages|, Wire(codec, magic, messages) + rest) ==
            (Outcomes(codec, messages), rest)
  {
    if messages == [] {
      assert Wire(codec, magic, messages) + rest == rest;
    } else {
      var m, others := messages[0], messages[1..];
      StreamRoundTrip(codec, magic, maxMetadata, others, rest);
      FrameRoundTrip(codec, magic, maxMetadata, m, Wire(codec, magic, others) + rest);
      AllFramedCons(codec, magic, messages);
      WireCons(codec, magic, messages, rest);
      OutcomesCons(codec, messages);
    }
  }

  lemma AllFramedCons(codec: Codec, magic: Bytes, messages: seq<Message>)
    requires messages != [] && Frame(codec, magic, messages[0]).Some? && AllFramed(codec, magic, messages[1..])
    ensures AllFramed(codec, magic, messages)
  {
    assert forall i :: 1 <= i < |messages| ==> messages[i] == messages[1..][i - 1];
  }

  lemma WireCons(codec: Codec, magic: Bytes, messages: seq<Message>, rest: Bytes)
    requires messages != [] && AllFramed(codec, magic, messages)
    ensures Wire(codec, magic, messages) + rest ==
            Frame(codec, magic, messages[0]).value + (Wire(codec, magic, messages[1..]) + rest)
  {
  }

  lemma OutcomesCons(codec: Codec, messages: seq<Message>)
    requires messages != []
    ensures Outcomes(codec, messages) == [Received(Stamped(codec, messages[0]))] + Outcomes(codec, messages[1..])
  {
  }

  lemma FrameIsNotEmpty(codec: Codec, magic: Bytes, m: Message)
    requires Frame(codec, magic, m).Some?
    ensures Frame(codec, magic, m).value != []
  {
    assert |Pack(|PayloadOf(codec, m)|)| == 4;
  }

  lemma WireNonEmpty(codec: Codec, magic: Bytes, messages: seq<Message>)
    requires AllFramed(codec, magic, messages)
    ensures Wire(codec, magic, messages) == [] <==> messages == []
  {
    if messages != [] {
      FrameIsNotEmpty(codec, magic, messages[0]);
    }
  }

  /** So the bytes determine the messages and how many there are. */
  lemma {:induction false} WireIsInjective(codec: Codec, magic: Bytes, maxMetadata: nat, a: seq<Message>, b: seq<Message>)
    requires RoundTrips(codec) && AllInBounds(codec, maxMetadata, a) && AllInBounds(codec, maxMetadata, b)
    requires AllFramed(codec, magic, a) && AllFramed(codec, magic, b)
    requires Wire(codec, magic, a) == Wire(codec, magic, b)
    ensures Outcomes(codec, a) == Outcomes(codec, b)
    decreases |a|
  {
    WireNonEmpty(codec, magic, a);
    WireNonEmpty(codec, magic, b);
    if a != [] {
      SameFirstFrame(codec, magic, maxMetadata, a, b);
      WireIsInjective(codec, magic, maxMetadata, a[1..], b[1..]);
      OutcomesCons(codec, a);
      OutcomesCons(codec, b);
    }
  }

  /** The same bytes start with the same frame and go on with the same bytes. */
  lemma SameFirstFrame(codec: Codec, magic: Bytes, maxMetadata: nat, a: seq<Message>, b: seq<Message>)
    requires RoundTrips(codec) && AllInBounds(codec, maxMetadata, a) && AllInBounds(codec, maxMetadata, b)
    requires AllFramed(codec, magic, a) && AllFramed(codec, magic, b) && a != [] && b != []
    requires Wire(codec, magic, a) == Wire(codec, magic, b)
    ensures Stamped(codec, a[0]) == Stamped(codec, b[0])
    ensures AllFramed(codec, magic, a[1..]) && AllFramed(codec, magic, b[1..])
    ensures Wire(codec, magic, a[1..]) == Wire(codec, magic, b[1..])
  {
    FrameRoundTrip(codec, magic, maxMetadata, a[0], Wire(codec, magic, a[1..]));
    FrameRoundTrip(codec, magic, maxMetadata, b[0], Wire(codec, magic, b[1..]));
  }

  // ----- The socket and the receiving loops -----

  predicate NoEmpty(fragments: seq<Bytes>) {
    forall i :: 0 <= i < |fragments| ==> fragments[i] != []
  }

  /** A connection: the fragments the network will deliver, then end of stream. */
  class Socket {
    var fragments: seq<Bytes>

    ghost function Stream(): Bytes
      reads this
    {
      Concat(fragments)
    }

    constructor (fragments: seq<Bytes>)
      requires NoEmpty(fragments)
      ensures this.fragments == fragments
    {
      this.fragments := fragments;
    }

    /** One recv call: at least one byte and at most what is asked for, unless the stream has ended. */
    method Recv(size: nat) returns (value: Bytes)
      requires NoEmpty(fragments) && size > 0
      modifies this
      ensures NoEmpty(fragments) && |value| <= size
      ensures old(Stream()) == value + Stream()
      ensures value == [] ==> Stream() == []
    {
      if fragments == [] {
        return [];
      }
      value := fragments[0];
      if |value| <= size {
        fragments := fragments[1..];
      } else {
        fragments := [value[size..]] + fragments[1..];
        assert fragments[1..] == old(fragments)[1..];
        value := value[..size];
      }
    }
  }

  /** `recv_exact`: whatever the fragmentation, the next `size` bytes of the stream. */
  method RecvExact(sock: Socket, size: int) returns (data: Option<Bytes>)
    requires NoEmpty(sock.fragments)
    modifies sock
    ensures NoEmpty(sock.fragments)
    ensures data.Some? <==> CanTake(old(sock.Stream()), size)
    ensures data.Some? ==> data.value == Taken(old(sock.Stream()), size) && sock.Stream() == Left(old(sock.Stream()), size)
    ensures data.None? ==> sock.Stream() == []
  {
    var chunks: Bytes := [];
    while |chunks| < size
      invariant NoEmpty(sock.fragments)
      invariant old(sock.Stream()) == chunks + sock.Stream()
      invariant |chunks| <= size || (size < 0 && chunks == [])
      decreases size - |chunks|
    {
      ghost var before := sock.Stream();
      var value := sock.Recv(size - |chunks|);
      assert chunks + before == chunks + value + sock.Stream();
      if value == [] {
        return None;
      }
      chunks := chunks + value;
    }
    data := Some(chunks);
  }

  /** `recv_frame`: a function of the bytes on the wire, not of how they were cut into fragments. */
  method RecvFrame(sock: Socket, codec: Codec, magic: Bytes, maxMetadata: nat) returns (outcome: Outcome)
    requires NoEmpty(sock.fragments)
    modifies sock
    ensures NoEmpty(sock.fragments)
    ensures Parsed(outcome, sock.Stream()) == ParseFrame(codec, magic, maxMetadata, old(sock.Stream()))
  {
    var start := RecvExact(sock, |magic|);
    if start.None? {
      return Closed;
    }
    if start.value != magic {
      return BadMagic;
    }
    var length := RecvExact(sock, 4);
    if length.None? {
      return Closed;
    }
    var size := Unpack(length.value);
    if size <= 0 || size > maxMetadata {
      return BadSize;
    }
    var text := RecvExact(sock, size);
    if text.None? {
      return Closed;
    }
    var metadata := codec.decode(text.value);
    if metadata.None? {
      return BadMetadata;
    }
    var blobs := RecvBlobs(sock, codec.sizes(metadata.value));
    if blobs.None? {
      return Closed;
    }
    outcome := Received(Message(metadata.value, blobs.value));
  }

  /** Repeated `recv_frame`: n frames off a fragmented connection are what parsing the whole byte stream gives. */
  method RecvFrames(sock: Socket, codec: Codec, magic: Bytes, maxMetadata: nat, n: nat) returns (outcomes: seq<Outcome>)
    requires NoEmpty(sock.fragments)
    modifies sock
    ensures NoEmpty(sock.fragments)
    ensures (outcomes, sock.Stream()) == ParseFrames(codec, magic, maxMetadata, n, old(sock.Stream()))
  {
    outcomes := [];
    ghost var all := ParseFrames(codec, magic, maxMetadata, n, sock.Stream());
    assert [] + all.0 == all.0;
    for i := 0 to n
      invariant NoEmpty(sock.fragments)
      invariant var rest := ParseFrames(codec, magic, maxMetadata, n - i, sock.Stream());
                all == (outcomes + rest.0, rest.1)
    {
      ghost var rest := ParseFrames(codec, magic, maxMetadata, n - i, sock.Stream());
      var outcome := RecvFrame(sock, codec, magic, maxMetadata);
      ghost var others := ParseFrames(codec, magic, maxMetadata, n - i - 1, sock.Stream());
      assert rest == ([outcome] + others.0, others.1);
      assert outcomes + rest.0 == outcomes + [outcome] + others.0;
      outcomes := outcomes + [outcome];
    }
    assert outcomes + [] == outcomes;
  }

  /** Self-delimiting under arbitrary fragmentation: however a connection cuts the bytes of a list of frames, receiving
      that many frames gives their messages in order and leaves exactly the bytes after them. */
  method RecvMessages(sock: Socket, codec: Codec, magic: Bytes, maxMetadata: nat, n: nat,
                      ghost messages: seq<Message>, ghost rest: Bytes)
    returns (outcomes: seq<Outcome>)
    requires NoEmpty(sock.fragments) && RoundTrips(codec) && |messages| == n
    requires AllInBounds(codec, maxMetadata, messages) && AllFramed(codec, magic, messages)
    requires sock.Stream() == Wire(codec, magic, messages) + rest
    modifies sock
    ensures outcomes == Outcomes(codec, messages) && sock.Stream() == rest && NoEmpty(sock.fragments)
  {
    StreamRoundTrip(codec, magic, maxMetadata, messages, rest);
    outcomes := RecvFrames(sock, codec, magic, maxMetadata, n);
  }

  /** The list comprehension that reads the blobs. */
  method RecvBlobs(sock: Socket, sizes: seq<int>) returns (blobs: Option<seq<Bytes>>)
    requires NoEmpty(sock.fragments)
    modifies sock
    ensures NoEmpty(sock.fragments)
    ensures ParsedBlobs(blobs, sock.Stream()) == ParseBlobs(old(sock.Stream()), sizes)
  {
    var read: seq<Bytes> := [];
    PrependNothing(ParseBlobs(sock.Stream(), sizes));
    assert sizes[0..] == sizes;
    for i := 0 to |sizes|
      invariant NoEmpty(sock.fragments)
      invariant ParseBlobs(old(sock.Stream()), sizes) == Prepend(read, ParseBlobs(sock.Stream(), sizes[i..]))
    {
      ghost var before := sock.Stream();
      var blob := RecvExact(sock, sizes[i]);
      if blob.None? {
        return None;
      }
      assert sizes[i..][1..] == sizes[i + 1..];
      PrependOne(read, blob.value, ParseBlobs(sock.Stream(), sizes[i + 1..]));
      read := read + [blob.value];
    }
    assert sizes[|sizes|..] == [] && read + [] == read;
    blobs := Some(read);
  }

  lemma PrependNothing(p: ParsedBlobs)
    ensures Prepend([], p) == p
  {
    if p.blobs.Some? {
      assert [] + p.blobs.value == p.blobs.value;
    }
  }

  function Prepend(read: seq<Bytes>, p: ParsedBlobs): ParsedBlobs {
    if p.blobs.None? then p else ParsedBlobs(Some(read + p.blobs.value), p.rest)
  }

  lemma PrependOne(read: seq<Bytes>, blob: Bytes, tail: ParsedBlobs)
    ensures Prepend(read, if tail.blobs.None? then tail else ParsedBlobs(Some([blob] + tail.blobs.value), tail.rest)) ==
            Prepend(read + [blob], tail)
  {
    if tail.blobs.Some? {
      assert read + ([blob] + tail.blobs.value) == read + [blob] + tail.blobs.value;
    }
  }
}
