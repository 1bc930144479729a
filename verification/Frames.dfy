/**
 The control channel's frames on a stream that may be cut anywhere, by the
 sender and by the receiver. A descriptor travels with the byte it was sent
 with, and is lost when a plain read passes that byte.
 */
module Frames {

  type Byte = b: int | 0 <= b < 256
  type Fd = nat

  const HEADER_LEN: nat := 8
  const MAX_JSON_LEN: nat := 64 * 1024
  const MAX_PAYLOAD_LEN: nat := 256 * 1024 * 1024
  const MAX_FDS: nat := 4
  const U32_LIMIT: nat := 0x1_0000_0000

  /** One byte of the stream and the descriptors sent with it. */
  datatype Cell = Cell(byte: Byte, fds: seq<Fd>)

  /** A frame; the message is its encoded bytes. */
  datatype Frame = Frame(json: seq<Byte>, payload: seq<Byte>, fds: seq<Fd>)

  // ----- numbers

  function Le32(n: nat): (r: seq<Byte>)
    requires n < U32_LIMIT
    ensures |r| == 4
  {
    [n % 256, n / 256 % 256, n / 65536 % 256, n / 16777216]
  }

  function FromLe32(b: seq<Byte>): nat
    requires |b| == 4
  {
    (b[0] as int) + 256 * (b[1] as int) + 65536 * (b[2] as int) + 16777216 * (b[3] as int)
  }

  lemma Le32RoundTrip(n: nat)
    requires n < U32_LIMIT
    ensures FromLe32(Le32(n)) == n
  {
    assert n / 256 / 256 == n / 65536 && n / 65536 / 256 == n / 16777216;
  }

  // ----- what the sender puts on the stream

  /** What `send` accepts. */
  predicate Sendable(f: Frame) {
    |f.json| < U32_LIMIT && |f.payload| < U32_LIMIT
  }

  /** What `recv` takes whole. */
  predicate Within(f: Frame) {
    |f.json| <= MAX_JSON_LEN && |f.payload| <= MAX_PAYLOAD_LEN && |f.fds| <= MAX_FDS
  }

  function Bytes(f: Frame): (r: seq<Byte>)
    requires Sendable(f)
    ensures |r| == HEADER_LEN + |f.json| + |f.payload|
  {
    Le32(|f.json|) + Le32(|f.payload|) + f.json + f.payload
  }

  /** Bytes with nothing attached. */
  function Plain(bytes: seq<Byte>): (r: seq<Cell>)
    ensures |r| == |bytes|
  {
    seq(|bytes|, i requires 0 <= i < |bytes| => Cell(bytes[i], []))
  }

  /** Bytes of one call that attaches `fds`. */
  function Attached(bytes: seq<Byte>, fds: seq<Fd>): (r: seq<Cell>)
    requires |bytes| > 0
    ensures |r| == |bytes|
  {
    [Cell(bytes[0], fds)] + Plain(bytes[1..])
  }

  function Encode(f: Frame): (r: seq<Cell>)
    requires Sendable(f)
    ensures |r| == HEADER_LEN + |f.json| + |f.payload|
  {
    Attached(Bytes(f), f.fds)
  }

  /** Byte by byte: the two lengths, lowest byte first, then the message and the payload; descriptors go with the first. */
  lemma WireLayout(f: Frame, i: nat)
    requires Sendable(f) && i < |Encode(f)|
    ensures Encode(f)[i].byte ==
            if i < 4 then [|f.json| % 256, |f.json| / 256 % 256, |f.json| / 65536 % 256, |f.json| / 16777216 % 256][i]
            else if i < 8 then
              [|f.payload| % 256, |f.payload| / 256 % 256, |f.payload| / 65536 % 256, |f.payload| / 16777216 % 256][i - 4]
            else if i < 8 + |f.json| then f.json[i - 8]
            else f.payload[i - 8 - |f.json|]
    ensures Encode(f)[i].fds == if i == 0 then f.fds else []
    ensures |Encode(f)| == 8 + |f.json| + |f.payload|
  {
    assert Encode(f)[i].byte == Bytes(f)[i];
  }

  // ----- what the receiver makes of a stream

  /** `BadControl` is descriptors beyond the room there is for them. */
  datatype Received = End | Got(frame: Frame) | Closed | TooLarge | BadControl

  /** The bytes of a stretch of stream. */
  function Payload(cells: seq<Cell>): (r: seq<Byte>)
    ensures |r| == |cells|
  {
    seq(|cells|, i requires 0 <= i < |cells| => cells[i].byte)
  }

  /** The descriptors sent with a stretch of stream. */
  function AllFds(cells: seq<Cell>): seq<Fd> {
    if cells == [] then [] else cells[0].fds + AllFds(cells[1..])
  }

  /**
   `recv`, on all that will ever arrive: the answer, and what is left for the
   next call. After `BadControl` that depends on how the bytes came, and
   nothing is promised of it.
   */
  function Receive(stream: seq<Cell>): (Received, seq<Cell>) {
    if stream == [] then (End, [])
    else if |stream[0].fds| > MAX_FDS then (BadControl, stream[1..])
    else if |stream| < HEADER_LEN then (Closed, [])
    else
      var header := Payload(stream[..HEADER_LEN]);
      var j, p := FromLe32(header[..4]), FromLe32(header[4..]);
      var body := stream[HEADER_LEN..];
      if j > MAX_JSON_LEN || p > MAX_PAYLOAD_LEN then (TooLarge, body)
      else if |body| < j + p then (Closed, [])
      else (Got(Frame(Payload(body[..j]), Payload(body[j..j + p]), stream[0].fds)), body[j + p..])
  }

  // ----- one frame

  /** What the receiver reads of the header. */
  lemma HeaderOfEncode(f: Frame, rest: seq<Cell>)
    requires Sendable(f)
    ensures Payload((Encode(f) + rest)[..HEADER_LEN]) == Le32(|f.json|) + Le32(|f.payload|)
    ensures FromLe32(Payload((Encode(f) + rest)[..HEADER_LEN])[..4]) == |f.json|
    ensures FromLe32(Payload((Encode(f) + rest)[..HEADER_LEN])[4..]) == |f.payload|
  {
    var header := Payload((Encode(f) + rest)[..HEADER_LEN]);
    assert header == Bytes(f)[..HEADER_LEN];
    assert header[..4] == Le32(|f.json|) && header[4..] == Le32(|f.payload|);
    Le32RoundTrip(|f.json|);
    Le32RoundTrip(|f.payload|);
  }

  lemma BodyOfEncode(f: Frame, rest: seq<Cell>)
    requires Sendable(f)
    ensures var body := (Encode(f) + rest)[HEADER_LEN..];
            && |body| == |f.json| + |f.payload| + |rest|
            && Payload(body[..|f.json|]) == f.json
            && Payload(body[|f.json|..|f.json| + |f.payload|]) == f.payload
            && body[|f.json| + |f.payload|..] == rest
  {
    var body := (Encode(f) + rest)[HEADER_LEN..];
    assert Plain(Bytes(f)[1..])[7..] == Plain(f.json + f.payload);
    assert body == Plain(f.json + f.payload) + rest;
  }

  /** A frame `send` accepts comes back as it was exactly when it is within the limits; then its bytes are all it takes. */
  lemma RoundTripExactly(f: Frame, rest: seq<Cell>)
    requires Sendable(f)
    ensures Receive(Encode(f) + rest) == (Got(f), rest) <==> Within(f)
    ensures |f.fds| > MAX_FDS ==> Receive(Encode(f) + rest).0 == BadControl
    ensures |f.fds| <= MAX_FDS && (|f.json| > MAX_JSON_LEN || |f.payload| > MAX_PAYLOAD_LEN) ==>
              Receive(Encode(f) + rest).0 == TooLarge
  {
    HeaderOfEncode(f, rest);
    BodyOfEncode(f, rest);
    assert (Encode(f) + rest)[0].fds == f.fds;
    hide Encode, Payload, FromLe32;
  }

  /** A frame cut short, anywhere inside it, is an error and never a frame. */
  lemma CutFrame(f: Frame, n: nat)
    requires Within(f) && 0 < n < |Encode(f)|
    ensures Receive(Encode(f)[..n]) == (Closed, [])
  {
    var cut := Encode(f)[..n];
    assert cut[0].fds == f.fds;
    if n >= HEADER_LEN {
      HeaderOfEncode(f, []);
      assert cut[..HEADER_LEN] == (Encode(f) + [])[..HEADER_LEN];
      hide Encode, Payload, FromLe32;
    }
  }

  // ----- a stream of frames

  function EncodeAll(fs: seq<Frame>): (r: seq<Cell>)
    requires forall i :: 0 <= i < |fs| ==> Sendable(fs[i])
  {
    if fs == [] then [] else Encode(fs[0]) + EncodeAll(fs[1..])
  }

  /** A frame always takes bytes, so successive calls come to an end. */
  lemma FramesTakeBytes(stream: seq<Cell>)
    requires Receive(stream).0.Got?
    ensures |Receive(stream).1| < |stream|
  {
  }

  /** Successive `recv` calls until one does not give a frame. */
  function ReceiveAll(stream: seq<Cell>): (seq<Frame>, Received)
    decreases |stream|
  {
    match Receive(stream)
    case (Got(f), rest) =>
      FramesTakeBytes(stream);
      var r := ReceiveAll(rest);
      ([f] + r.0, r.1)
    case (other, _) => ([], other)
  }

  /** How many of the frames are whole in the first `n` bytes of the stream. */
  function WholeFrames(fs: seq<Frame>, n: nat): (k: nat)
    requires forall i :: 0 <= i < |fs| ==> Sendable(fs[i])
    requires n <= |EncodeAll(fs)|
    ensures k <= |fs|
  {
    if fs == [] || n < |Encode(fs[0])| then 0 else 1 + WholeFrames(fs[1..], n - |Encode(fs[0])|)
  }

  /**
   For any frames within the limits and a stream that ends after any number of
   bytes, the calls give exactly the frames that arrived whole, in order, and
   then end: cleanly at a boundary, with an error inside a frame.
   */
  lemma {:induction false} StreamRoundTrip(fs: seq<Frame>, n: nat)
    requires forall i :: 0 <= i < |fs| ==> Sendable(fs[i]) && Within(fs[i])
    requires n <= |EncodeAll(fs)|
    ensures ReceiveAll(EncodeAll(fs)[..n]).0 == fs[..WholeFrames(fs, n)]
    ensures ReceiveAll(EncodeAll(fs)[..n]).1
            == if n == |EncodeAll(fs[..WholeFrames(fs, n)])| then End else Closed
    decreases |fs|
  {
    hide Encode, Receive, Within;
    var stream := EncodeAll(fs)[..n];
    NothingReceived();
    if fs == [] {
      assert stream == [];
    } else if n < |Encode(fs[0])| {
      assert stream == Encode(fs[0])[..n];
      if n > 0 {
        CutFrame(fs[0], n);
      }
    } else {
      var first, tail := |Encode(fs[0])|, fs[1..];
      StreamRoundTrip(tail, n - first);
      var rest := EncodeAll(tail)[..n - first];
      assert stream == Encode(fs[0]) + rest;
      RoundTripExactly(fs[0], rest);
      FramesTakeBytes(stream);
      JoinFirst(fs, WholeFrames(tail, n - first));
    }
  }

  lemma JoinFirst(fs: seq<Frame>, k: nat)
    requires k < |fs|
    ensures fs[..1 + k] == [fs[0]] + fs[1..][..k] && fs[..1 + k][1..] == fs[1..][..k] && fs[..1 + k][0] == fs[0]
  {
  }

  lemma NothingReceived()
    ensures Receive([]) == (End, [])
  {
  }
}
