/** The wire format of the agent tunnel: one frame per binary WebSocket message. */
module TunnelFrames {
  import opened Bytes

  const HEADER_BYTES := 5
  const MAX_DATA_PAYLOAD := 65536
  const MAX_FRAME_BYTES := HEADER_BYTES + MAX_DATA_PAYLOAD
  const ID_SPACE := 0x1_0000_0000

  type StreamId = n: int | 0 <= n < ID_SPACE

  /** An ERROR frame keeps its JSON body; the text it carries is not part of this model. */
  datatype Frame =
    | Open(id: StreamId, port: nat)
    | Opened(id: StreamId)
    | Data(id: StreamId, data: seq<byte>)
    | Close(id: StreamId)
    | Error(id: StreamId, body: seq<byte>)

  datatype Decoded = Ok(frame: Frame) | ProtocolError

  predicate ValidPort(port: nat)
  {
    1 <= port <= 65535
  }

  /** What the encoders can be asked to write; `isError` says which bodies parse as `{ message, code? }`. */
  ghost predicate Encodable(f: Frame, isError: seq<byte> -> bool)
  {
    match f
    case Open(_, port) => ValidPort(port)
    case Data(_, data) => |data| <= MAX_DATA_PAYLOAD
    case Error(_, body) => |body| <= MAX_DATA_PAYLOAD && isError(body)
    case _ => true
  }

  function TypeByte(f: Frame): byte
  {
    match f
    case Open(_, _) => 1
    case Opened(_) => 2
    case Data(_, _) => 3
    case Close(_) => 4
    case Error(_, _) => 5
  }

  function Payload(f: Frame): seq<byte>
    requires f.Open? ==> f.port < 65536
  {
    match f
    case Open(_, port) => BE(port, 2)
    case Data(_, data) => data
    case Error(_, body) => body
    case _ => []
  }

  /** `header` and the five encoders. */
  function Encode(f: Frame): (raw: seq<byte>)
    requires f.Open? ==> f.port < 65536
    ensures |raw| == HEADER_BYTES + |Payload(f)|
  {
    [TypeByte(f)] + BE(f.id, 4) + Payload(f)
  }

  /** `decodeFrame`; the length checks come first, then the type decides what the payload may be. */
  function Decode(raw: seq<byte>, isError: seq<byte> -> bool): Decoded
  {
    if |raw| < HEADER_BYTES || |raw| > MAX_FRAME_BYTES then ProtocolError
    else
      FieldSizes();
      FromBEBound(raw[1..5]);
      var id: StreamId := FromBE(raw[1..5]);
      var payload := raw[HEADER_BYTES..];
      match raw[0]
      case 1 =>
        if |payload| != 2 then ProtocolError
        else if !ValidPort(FromBE(payload)) then ProtocolError
        else Ok(Open(id, FromBE(payload)))
      case 2 => if |payload| != 0 then ProtocolError else Ok(Opened(id))
      case 3 => Ok(Data(id, payload))
      case 4 => if |payload| != 0 then ProtocolError else Ok(Close(id))
      case 5 => if isError(payload) then Ok(Error(id, payload)) else ProtocolError
      case _ => ProtocolError
  }

  /** Every frame a sender can write is read back as itself. */
  lemma DecodeOfEncode(f: Frame, isError: seq<byte> -> bool)
    requires Encodable(f, isError)
    ensures Decode(Encode(f), isError) == Ok(f)
  {
    var raw := Encode(f);
    FieldSizes();
    assert raw[1..5] == BE(f.id, 4);
    assert raw[HEADER_BYTES..] == Payload(f);
    FromBEOfBE(f.id, 4);
    if f.Open? {
      FromBEOfBE(f.port, 2);
    }
  }

  lemma {:induction false} BEOfFromBE(s: seq<byte>)
    ensures BE(FromBE(s), |s|) == s
  {
    if s != [] {
      BEOfFromBE(s[..|s| - 1]);
    }
  }

  /** And nothing else is accepted: a message that decodes is exactly the encoding of what it decodes to. */
  lemma EncodeOfDecode(raw: seq<byte>, isError: seq<byte> -> bool)
    requires Decode(raw, isError).Ok?
    ensures Encodable(Decode(raw, isError).frame, isError)
    ensures Encode(Decode(raw, isError).frame) == raw
  {
    var payload := raw[HEADER_BYTES..];
    BEOfFromBE(raw[1..5]);
    assert raw == [raw[0]] + raw[1..5] + payload;
    if raw[0] == 1 {
      BEOfFromBE(payload);
    }
  }

  /** `encodeDataFrames`: pieces of at most MAX_DATA_PAYLOAD bytes. */
  function DataFrames(id: StreamId, data: seq<byte>): seq<Frame>
  {
    if data == [] then []
    else if |data| <= MAX_DATA_PAYLOAD then [Data(id, data)]
    else [Data(id, data[..MAX_DATA_PAYLOAD])] + DataFrames(id, data[MAX_DATA_PAYLOAD..])
  }

  /** As few as can be: every frame but the last is full. */
  lemma {:induction false} FramesAreFew(id: StreamId, data: seq<byte>)
    ensures var n := |DataFrames(id, data)|;
            65536 * (n - 1) < |data| <= 65536 * n || (n == 0 && data == [])
    decreases |data|
  {
    if |data| > MAX_DATA_PAYLOAD {
      FramesAreFew(id, data[MAX_DATA_PAYLOAD..]);
    }
  }

  lemma {:induction false} DataFramesFrom(id: StreamId, data: seq<byte>, offset: nat)
    requires offset < |data|
    ensures var end := if offset + MAX_DATA_PAYLOAD <= |data| then offset + MAX_DATA_PAYLOAD else |data|;
            DataFrames(id, data[offset..]) == [Data(id, data[offset..end])] + DataFrames(id, data[end..])
  {
    var end := if offset + MAX_DATA_PAYLOAD <= |data| then offset + MAX_DATA_PAYLOAD else |data|;
    var rest := data[offset..];
    assert data[offset..end] == rest[..end - offset];
    assert data[end..] == rest[end - offset..];
    if |rest| <= MAX_DATA_PAYLOAD {
      assert rest[..end - offset] == rest;
    }
  }

  /** The loop of `encodeDataFrames`. */
  method EncodeDataFrames(id: StreamId, data: seq<byte>) returns (frames: seq<Frame>)
    ensures frames == DataFrames(id, data)
  {
    frames := [];
    var offset := 0;
    while offset < |data|
      invariant 0 <= offset
      invariant offset <= |data| ==> DataFrames(id, data) == frames + DataFrames(id, data[offset..])
      invariant offset > |data| ==> frames == DataFrames(id, data)
    {
      var end := if offset + MAX_DATA_PAYLOAD <= |data| then offset + MAX_DATA_PAYLOAD else |data|;
      DataFramesFrom(id, data, offset);
      frames := frames + [Data(id, data[offset..end])];
      offset := offset + MAX_DATA_PAYLOAD;
    }
  }
}
