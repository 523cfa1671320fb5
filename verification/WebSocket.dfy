// Receiving messages over a WebSocket connection (crates/gunda-capture/src/websocket.rs), RFC 6455
// sections 5.4 and 5.5.
module WebSockets {
  import opened Basics
  import opened Frames
  import Utf8

  /** What one call of `Receive` comes to: its result, what it wrote, and what is left to read. */
  datatype Reception = Reception(result: Result<Option<Bytes>, WebSocketError>, written: Bytes, rest: Bytes)

  /** The text of a complete message. */
  function DecodeText(message: Bytes): Result<Option<Bytes>, WebSocketError> {
    if Utf8.IsValid(message) then Ok(Some(message)) else Err(Protocol)
  }

  /** Frame by frame, with the fragments gathered so far. */
  function ReceiveFrom(input: Bytes, message: Bytes, started: bool, written: Bytes): (r: Reception)
    decreases |input|
  {
    match Decode(input)
    case Err(error) => Reception(Err(error), written, input)
    case Ok((frame, rest)) =>
      var gathered := message + frame.payload;
      if frame.opcode == OP_PING then
        ReceiveFrom(rest, message, started, written + EncodeUnmasked(OP_PONG, frame.payload))
      else if frame.opcode == OP_PONG then ReceiveFrom(rest, message, started, written)
      else if frame.opcode == OP_CLOSE then Reception(Ok(None), written + EncodeUnmasked(OP_CLOSE, []), rest)
      else if frame.opcode == OP_TEXT && (started || message != []) then Reception(Err(Protocol), written, rest)
      else if frame.opcode == OP_CONTINUATION && !started then Reception(Err(Protocol), written, rest)
      else if frame.opcode != OP_TEXT && frame.opcode != OP_CONTINUATION then Reception(Err(Protocol), written, rest)
      else if |gathered| > MAX_MESSAGE_BYTES then Reception(Err(MessageTooLarge), written, rest)
      else if frame.fin then Reception(DecodeText(gathered), written, rest)
      else ReceiveFrom(rest, gathered, true, written)
  }

  class WebSocket {
    var input: Bytes
    var output: Bytes

    constructor (input: Bytes)
      ensures this.input == input && output == []
    {
      this.input, output := input, [];
    }

    method ReadExact(count: nat) returns (r: Result<Bytes, WebSocketError>)
      modifies this`input
      ensures count <= |old(input)| ==> r == Ok(old(input)[..count]) && input == old(input)[count..]
      ensures count > |old(input)| ==> r == Err(Io)
    {
      if count > |input| {
        return Err(Io);
      }
      r := Ok(input[..count]);
      input := input[count..];
    }

    /** Reads what precedes the mask. */
    method ReadHeader() returns (r: Result<Header, WebSocketError>)
      modifies this`input
      ensures r == DecodeHeader(old(input))
      ensures r.Ok? ==> input == old(input)[r.value.size..]
    {
      hide FromBigEndian, HasReservedBits, IsMasked, IsFinal, OpcodeOf;
      var header := ReadExact(2);
      if header.Err? {
        return Err(header.error);
      }
      var first, second := header.value[0], header.value[1];
      if HasReservedBits(first) {
        return Err(Protocol);
      }
      if !IsMasked(second) {
        return Err(Protocol);
      }
      var length, width := ShortLength(second), ExtensionWidth(second);
      if width > 0 {
        var extended := ReadExact(width);
        if extended.Err? {
          return Err(extended.error);
        }
        assert extended.value == old(input)[2..2 + width];
        length := FromBigEndian(extended.value);
      }
      if OpcodeOf(first) >= OP_CLOSE && (!IsFinal(first) || length > 125) {
        return Err(Protocol);
      }
      if length > MAX_MESSAGE_BYTES {
        return Err(MessageTooLarge);
      }
      r := Ok(Header(IsFinal(first), OpcodeOf(first), length, 2 + width));
    }

    /** Reads one frame and unmasks its payload in place. */
    method ReadFrame() returns (r: Result<Frame, WebSocketError>)
      modifies this`input
      ensures match Decode(old(input))
              case Ok((frame, rest)) => r == Ok(frame) && input == rest
              case Err(error) => r == Err(error)
    {
      hide DecodeHeader, Masked;
      var header := ReadHeader();
      if header.Err? {
        return Err(header.error);
      }
      var size, length := header.value.size, header.value.length;
      var mask := ReadExact(4);
      if mask.Err? {
        return Err(mask.error);
      }
      var received := ReadExact(length);
      if received.Err? {
        return Err(received.error);
      }
      assert mask.value == old(input)[size..size + 4];
      assert received.value == old(input)[size + 4..size + 4 + length];
      var payload := new bv8[length](i requires 0 <= i < |received.value| => received.value[i]);
      assert payload[..] == received.value;
      Unmask(payload, mask.value);
      r := Ok(Frame(header.value.fin, header.value.opcode, payload[..]));
    }

    static method Unmask(payload: array<bv8>, mask: Bytes)
      requires |mask| == 4
      modifies payload
      ensures payload[..] == Masked(old(payload[..]), mask)
    {
      for index := 0 to payload.Length
        invariant forall i :: 0 <= i < payload.Length ==>
          payload[i] == if i < index then old(payload[i]) ^ mask[i % 4] else old(payload[i])
      {
        payload[index] := payload[index] ^ mask[index % 4];
      }
    }

    /** Writes one whole frame. */
    method WriteFrame(opcode: bv8, payload: Bytes)
      requires |payload| <= U64_MAX
      modifies this`output
      ensures output == old(output) + EncodeUnmasked(opcode, payload)
    {
      var frame := [FirstByte(true, opcode)];
      if |payload| < 126 {
        frame := frame + [|payload| as bv8];
      } else if |payload| < 0x1_0000 {
        frame := frame + [126] + ToBigEndian(|payload|, 2);
      } else {
        frame := frame + [127] + ToBigEndian(|payload|, 8);
      }
      frame := frame + payload;
      assert frame == EncodeUnmasked(opcode, payload);
      output := output + frame;
    }

    /** Reads the next text message, answering control frames on the way; `None` when the peer closes. */
    method Receive() returns (r: Result<Option<Bytes>, WebSocketError>)
      modifies this
      ensures var reception := ReceiveFrom(old(input), [], false, old(output));
              && r == reception.result
              && output == reception.written
              && (r.Ok? ==> input == reception.rest)
    {
      hide Decode, EncodeUnmasked, Utf8.IsValid;
      var message: Bytes := [];
      var started := false;
      while true
        invariant ReceiveFrom(input, message, started, output) == ReceiveFrom(old(input), [], false, old(output))
        decreases |input|
      {
        var read := ReadFrame();
        if read.Err? {
          return Err(read.error);
        }
        var frame := read.value;
        if frame.opcode == OP_PING {
          WriteFrame(OP_PONG, frame.payload);
        } else if frame.opcode == OP_PONG {
        } else if frame.opcode == OP_CLOSE {
          WriteFrame(OP_CLOSE, []);
          return Ok(None);
        } else if frame.opcode == OP_TEXT {
          if started || message != [] {
            return Err(Protocol);
          }
          started := true;
          if |message| + |frame.payload| > MAX_MESSAGE_BYTES {
            return Err(MessageTooLarge);
          }
          message := message + frame.payload;
          if frame.fin {
            return DecodeText(message);
          }
        } else if frame.opcode == OP_CONTINUATION {
          if !started {
            return Err(Protocol);
          }
          if |message| + |frame.payload| > MAX_MESSAGE_BYTES {
            return Err(MessageTooLarge);
          }
          message := message + frame.payload;
          if frame.fin {
            return DecodeText(message);
          }
        } else {
          return Err(Protocol);
        }
      }
    }
  }

  // ---- What a client may send for one message ----

  datatype Kind = Fragment | Ping | Pong

  /** One frame of a script: a piece of the message, or a control frame between the pieces. */
  datatype Piece = Piece(kind: Kind, payload: Bytes, mask: Bytes, form: LengthForm) {

    predicate Sendable() {
      && |mask| == 4
      && form.Fits(|payload|)
      && (!kind.Fragment? ==> |payload| <= 125)
    }

    function AsFrame(started: bool, last: bool): (frame: Frame) {
      match kind
      case Fragment => Frame(last, if started then OP_CONTINUATION else OP_TEXT, payload)
      case Ping => Frame(true, OP_PING, payload)
      case Pong => Frame(true, OP_PONG, payload)
    }
  }

  /** A message cut into fragments anywhere, control frames anywhere but after the last fragment. */
  predicate IsScript(pieces: seq<Piece>) {
    && pieces != []
    && pieces[|pieces| - 1].kind.Fragment?
    && forall i :: 0 <= i < |pieces| ==> pieces[i].Sendable()
  }

  function MessageOf(pieces: seq<Piece>): (message: Bytes) {
    if pieces == [] then []
    else (if pieces[0].kind.Fragment? then pieces[0].payload else []) + MessageOf(pieces[1..])
  }

  /** One pong for each ping, in order, with its payload. */
  function PongsFor(pieces: seq<Piece>): (bytes: Bytes)
    requires forall i :: 0 <= i < |pieces| ==> pieces[i].Sendable()
  {
    if pieces == [] then []
    else
      assert pieces[0].Sendable();
      (if pieces[0].kind.Ping? then EncodeUnmasked(OP_PONG, pieces[0].payload) else []) + PongsFor(pieces[1..])
  }

  function WireOf(pieces: seq<Piece>, started: bool): (bytes: Bytes)
    requires forall i :: 0 <= i < |pieces| ==> pieces[i].Sendable()
  {
    if pieces == [] then []
    else
      assert pieces[0].Sendable();
      EncodeMasked(pieces[0].AsFrame(started, |pieces| == 1), pieces[0].mask, pieces[0].form)
      + WireOf(pieces[1..], started || pieces[0].kind.Fragment?)
  }

  /** The first frame of a script is decoded, and the rest of the script is what follows. */
  lemma FirstPieceDecodes(pieces: seq<Piece>, started: bool, rest: Bytes)
    requires IsScript(pieces) && |pieces[0].payload| <= MAX_MESSAGE_BYTES
    ensures Decode(WireOf(pieces, started) + rest) ==
            Ok((pieces[0].AsFrame(started, |pieces| == 1),
                WireOf(pieces[1..], started || pieces[0].kind.Fragment?) + rest))
  {
    hide EncodeMasked, Decode;
    var frame := pieces[0].AsFrame(started, |pieces| == 1);
    var after := WireOf(pieces[1..], started || pieces[0].kind.Fragment?);
    DecodeEncode(frame, pieces[0].mask, pieces[0].form, after + rest);
    var wire := EncodeMasked(frame, pieces[0].mask, pieces[0].form);
    assert wire + after + rest == wire + (after + rest);
  }

  /** The last piece completes the message. */
  lemma LastPieceDelivers(pieces: seq<Piece>, message: Bytes, started: bool, written: Bytes, rest: Bytes)
    requires IsScript(pieces) && |pieces| == 1
    requires !started ==> message == []
    requires |message| + |pieces[0].payload| <= MAX_MESSAGE_BYTES
    ensures ReceiveFrom(WireOf(pieces, started) + rest, message, started, written)
            == Reception(DecodeText(message + pieces[0].payload), written, rest)
  {
    hide EncodeMasked, EncodeUnmasked, Decode, Utf8.IsValid;
    FirstPieceDecodes(pieces, started, rest);
    assert WireOf(pieces[1..], true) + rest == rest;
  }

  /** Any other piece leaves the rest of the script to be received, with what it added. */
  lemma OnePieceOn(pieces: seq<Piece>, message: Bytes, started: bool, written: Bytes, rest: Bytes)
    requires IsScript(pieces) && |pieces| > 1
    requires !started ==> message == []
    requires |message| + |pieces[0].payload| <= MAX_MESSAGE_BYTES || (!pieces[0].kind.Fragment? && |pieces[0].payload| <= 125)
    ensures ReceiveFrom(WireOf(pieces, started) + rest, message, started, written)
            == ReceiveFrom(
                 WireOf(pieces[1..], started || pieces[0].kind.Fragment?) + rest,
                 message + if pieces[0].kind.Fragment? then pieces[0].payload else [],
                 started || pieces[0].kind.Fragment?,
                 written + if pieces[0].kind.Ping? then EncodeUnmasked(OP_PONG, pieces[0].payload) else [])
  {
    hide EncodeMasked, EncodeUnmasked, Decode, Utf8.IsValid, WireOf;
    FirstPieceDecodes(pieces, started, rest);
    assert message + [] == message && written + [] == written;
  }

  /**
   Whatever the split, the masks, the length encodings and the control frames in between: the message
   comes out whole, every ping is answered in order, and what follows the message is left unread.
   */
  lemma {:induction false} ReceiveDelivers(pieces: seq<Piece>, message: Bytes, started: bool, written: Bytes, rest: Bytes)
    requires IsScript(pieces)
    requires !started ==> message == []
    requires |message| + |MessageOf(pieces)| <= MAX_MESSAGE_BYTES
    ensures ReceiveFrom(WireOf(pieces, started) + rest, message, started, written) ==
            Reception(DecodeText(message + MessageOf(pieces)), written + PongsFor(pieces), rest)
    decreases |pieces|
  {
    hide EncodeUnmasked, ReceiveFrom, DecodeText, WireOf, MessageOf, PongsFor;
    var piece, tail := pieces[0], pieces[1..];
    WhatOnePieceAdds(pieces, message, written);
    if |pieces| == 1 {
      LastPieceDelivers(pieces, message, started, written, rest);
    } else {
      var pong := if piece.kind.Ping? then EncodeUnmasked(OP_PONG, piece.payload) else [];
      var part := if piece.kind.Fragment? then piece.payload else [];
      OnePieceOn(pieces, message, started, written, rest);
      ReceiveDelivers(tail, message + part, started || piece.kind.Fragment?, written + pong, rest);
    }
  }

  lemma WhatOnePieceAdds(pieces: seq<Piece>, message: Bytes, written: Bytes)
    requires IsScript(pieces)
    ensures var pong := if pieces[0].kind.Ping? then EncodeUnmasked(OP_PONG, pieces[0].payload) else [];
            var part := if pieces[0].kind.Fragment? then pieces[0].payload else [];
            && message + MessageOf(pieces) == message + part + MessageOf(pieces[1..])
            && written + PongsFor(pieces) == written + pong + PongsFor(pieces[1..])
            && |MessageOf(pieces)| == |part| + |MessageOf(pieces[1..])|
    ensures |pieces| == 1 ==> message + MessageOf(pieces) == message + pieces[0].payload && written + PongsFor(pieces) == written
  {
    hide EncodeUnmasked;
    var pong := if pieces[0].kind.Ping? then EncodeUnmasked(OP_PONG, pieces[0].payload) else [];
    var part := if pieces[0].kind.Fragment? then pieces[0].payload else [];
    var parts, pongs := MessageOf(pieces[1..]), PongsFor(pieces[1..]);
    assert MessageOf(pieces) == part + parts && PongsFor(pieces) == pong + pongs;
    hide MessageOf, PongsFor;
    Associates(message, part, parts);
    Associates(written, pong, pongs);
    if |pieces| == 1 {
      NothingAdds(pieces[1..]);
      assert part + parts == part && pong + pongs == [] && written + [] == written;
    }
  }

  lemma Associates(a: Bytes, b: Bytes, c: Bytes)
    ensures a + (b + c) == a + b + c
  {
  }

  lemma NothingAdds(pieces: seq<Piece>)
    requires pieces == []
    ensures MessageOf(pieces) == [] && PongsFor(pieces) == []
  {
  }

  /** A message over the limit is refused for its size, however it was cut up. */
  lemma {:induction false} ReceiveRefusesTooLarge(pieces: seq<Piece>, message: Bytes, started: bool, written: Bytes, rest: Bytes)
    requires IsScript(pieces)
    requires !started ==> message == []
    requires |message| <= MAX_MESSAGE_BYTES < |message| + |MessageOf(pieces)|
    ensures ReceiveFrom(WireOf(pieces, started) + rest, message, started, written).result == Err(MessageTooLarge)
    decreases |pieces|
  {
    hide EncodeMasked, EncodeUnmasked, Decode, Utf8.IsValid;
    var piece, tail := pieces[0], pieces[1..];
    if |piece.payload| > MAX_MESSAGE_BYTES {
      OversizedFrame(pieces, started, rest);
    } else {
      FirstPieceDecodes(pieces, started, rest);
      if piece.kind.Fragment? && |message| + |piece.payload| > MAX_MESSAGE_BYTES {
      } else {
        var pong := if piece.kind.Ping? then EncodeUnmasked(OP_PONG, piece.payload) else [];
        var part := if piece.kind.Fragment? then piece.payload else [];
        assert message + [] == message && written + [] == written;
        assert tail == [] ==> MessageOf(tail) == [];
        ReceiveRefusesTooLarge(tail, message + part, started || piece.kind.Fragment?, written + pong, rest);
      }
    }
  }

  lemma OversizedFrame(pieces: seq<Piece>, started: bool, rest: Bytes)
    requires IsScript(pieces) && |pieces[0].payload| > MAX_MESSAGE_BYTES
    ensures Decode(WireOf(pieces, started) + rest) == Err(MessageTooLarge)
  {
    hide EncodeMasked, Decode;
    var frame := pieces[0].AsFrame(started, |pieces| == 1);
    var after := WireOf(pieces[1..], started || pieces[0].kind.Fragment?);
    DecodeEncode(frame, pieces[0].mask, pieces[0].form, after + rest);
    var wire := EncodeMasked(frame, pieces[0].mask, pieces[0].form);
    assert wire + after + rest == wire + (after + rest);
  }
}
