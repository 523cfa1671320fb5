// WebSocket frames on the wire (crates/gunda-capture/src/websocket.rs), RFC 6455 section 5.2.
module Frames {
  import opened Basics

  const MAX_MESSAGE_BYTES: nat := 2 * 1024 * 1024

  const OP_CONTINUATION: bv8 := 0x0
  const OP_TEXT: bv8 := 0x1
  const OP_CLOSE: bv8 := 0x8
  const OP_PING: bv8 := 0x9
  const OP_PONG: bv8 := 0xA

  datatype WebSocketError = Io | Protocol | MessageTooLarge

  datatype Frame = Frame(fin: bool, opcode: bv8, payload: Bytes)

  // ---- Network byte order ----

  function FromBigEndian(bytes: Bytes): (n: nat) {
    if bytes == [] then 0 else FromBigEndian(bytes[..|bytes| - 1]) * 256 + bytes[|bytes| - 1] as nat
  }

  function ToBigEndian(n: nat, width: nat): (bytes: Bytes)
    ensures |bytes| == width
  {
    if width == 0 then [] else ToBigEndian(n / 256, width - 1) + [Byte(n % 256)]
  }

  lemma {:induction false} BigEndianRoundTrip(n: nat, width: nat)
    requires n < Power256(width)
    ensures FromBigEndian(ToBigEndian(n, width)) == n
  {
    if width > 0 {
      BigEndianRoundTrip(n / 256, width - 1);
      assert ToBigEndian(n, width)[..width - 1] == ToBigEndian(n / 256, width - 1);
    }
  }

  // ---- Masking ----

  function Masked(payload: Bytes, mask: Bytes): (r: Bytes)
    requires |mask| == 4
    ensures |r| == |payload|
  {
    seq(|payload|, i requires 0 <= i < |payload| => payload[i] ^ mask[i % 4])
  }

  lemma MaskTwice(payload: Bytes, mask: Bytes)
    requires |mask| == 4
    ensures Masked(Masked(payload, mask), mask) == payload
  {
  }

  // ---- Reading a frame ----

  // The fields of a frame's first two bytes.

  predicate HasReservedBits(first: bv8) {
    first & 0x70 != 0
  }

  predicate IsFinal(first: bv8) {
    first & 0x80 != 0
  }

  function OpcodeOf(first: bv8): bv8 {
    first & 0x0F
  }

  predicate IsMasked(second: bv8) {
    second & 0x80 != 0
  }

  function ShortLength(second: bv8): (n: nat)
    ensures n < 128
  {
    assert second & 0x7F < 128;
    (second & 0x7F) as nat
  }

  /** How many bytes extend the seven-bit length. */
  function ExtensionWidth(second: bv8): nat {
    if ShortLength(second) == 126 then 2 else if ShortLength(second) == 127 then 8 else 0
  }

  /** What precedes the mask: `size` bytes that say how the frame is used and how long its payload is. */
  datatype Header = Header(fin: bool, opcode: bv8, length: nat, size: nat)

  function DecodeHeader(input: Bytes): (r: Result<Header, WebSocketError>)
    ensures r.Ok? ==> r.value.length <= MAX_MESSAGE_BYTES && 2 <= r.value.size <= |input|
  {
    if |input| < 2 then Err(Io)
    else
      var first, second := input[0], input[1];
      var width := ExtensionWidth(second);
      if HasReservedBits(first) || !IsMasked(second) then Err(Protocol)
      else if |input| < 2 + width then Err(Io)
      else
        var length := if width == 0 then ShortLength(second) else FromBigEndian(input[2..2 + width]);
        var fin, opcode := IsFinal(first), OpcodeOf(first);
        if opcode >= OP_CLOSE && (!fin || length > 125) then Err(Protocol)
        else if length > MAX_MESSAGE_BYTES then Err(MessageTooLarge)
        else Ok(Header(fin, opcode, length, 2 + width))
  }

  /** The frame at the start of what a client sent, and what follows it. */
  function Decode(input: Bytes): (r: Result<(Frame, Bytes), WebSocketError>)
    ensures r.Ok? ==> |r.value.0.payload| <= MAX_MESSAGE_BYTES
    ensures r.Ok? ==> |r.value.1| + |r.value.0.payload| + 6 <= |input| && r.value.1 == input[|input| - |r.value.1|..]
  {
    match DecodeHeader(input)
    case Err(error) => Err(error)
    case Ok(Header(fin, opcode, length, size)) =>
      if |input| < size + 4 + length then Err(Io)
      else
        var payload := Masked(input[size + 4..size + 4 + length], input[size..size + 4]);
        Ok((Frame(fin, opcode, payload), input[size + 4 + length..]))
  }

  // ---- Writing a frame ----

  /** Any of the three ways a length may be written, as long as it fits; the shortest is not insisted on. */
  datatype LengthForm = Short | Medium | Long {

    predicate Fits(length: nat) {
      match this
      case Short => length < 126
      case Medium => length < 0x1_0000
      case Long => length <= U64_MAX
    }

    /** The seven-bit length and what extends it. */
    function Field(length: nat): (r: (bv8, Bytes))
      requires Fits(length)
    {
      match this
      case Short => (length as bv8, [])
      case Medium => (126, ToBigEndian(length, 2))
      case Long => (127, ToBigEndian(length, 8))
    }
  }

  function FirstByte(fin: bool, opcode: bv8): bv8 {
    if fin then 0x80 | opcode else opcode
  }

  /** A frame as a client sends it. */
  function EncodeMasked(frame: Frame, mask: Bytes, form: LengthForm): (r: Bytes)
    requires |mask| == 4 && form.Fits(|frame.payload|)
  {
    var (field, extension) := form.Field(|frame.payload|);
    [FirstByte(frame.fin, frame.opcode), 0x80 | field] + extension + mask + Masked(frame.payload, mask)
  }

  /** The form the server picks. */
  function ShortestForm(length: nat): (form: LengthForm)
    requires length <= U64_MAX
    ensures form.Fits(length)
  {
    if length < 126 then Short else if length < 0x1_0000 then Medium else Long
  }

  /** A frame as the server sends it: whole, and not masked. */
  function EncodeUnmasked(opcode: bv8, payload: Bytes): (r: Bytes)
    requires |payload| <= U64_MAX
  {
    var (field, extension) := ShortestForm(|payload|).Field(|payload|);
    [FirstByte(true, opcode), field] + extension + payload
  }

  // ---- What decodes ----

  /** A frame the protocol lets a client send. */
  predicate Sendable(frame: Frame) {
    && frame.opcode < 16
    && |frame.payload| <= U64_MAX
    && (frame.opcode >= OP_CLOSE ==> frame.fin && |frame.payload| <= 125)
  }

  lemma FirstByteReads(fin: bool, opcode: bv8)
    requires opcode < 16
    ensures var b := FirstByte(fin, opcode);
            !HasReservedBits(b) && (IsFinal(b) <==> fin) && OpcodeOf(b) == opcode
  {
  }

  /** The second byte of a masked frame and of a plain one, with the same length field. */
  lemma SecondByteReads(field: bv8)
    requires field < 128
    ensures IsMasked(0x80 | field) && ShortLength(0x80 | field) == field as nat
    ensures !IsMasked(field) && ShortLength(field) == field as nat
  {
  }

  /** The length is in the field, or in the extension the field announces. */
  lemma FieldReads(form: LengthForm, length: nat)
    requires form.Fits(length)
    ensures var (field, extension) := form.Field(length);
            && field < 128
            && ExtensionWidth(field) == ExtensionWidth(0x80 | field) == |extension|
            && length == (if extension == [] then ShortLength(field) else FromBigEndian(extension))
  {
    var (field, extension) := form.Field(length);
    match form
    case Short =>
      ByteRoundTrip(length);
      FieldBelow(field);
      SecondByteReads(field);
    case Medium =>
      SecondByteReads(field);
      assert Power256(2) == 0x1_0000;
      BigEndianRoundTrip(length, 2);
    case Long =>
      SecondByteReads(field);
      assert Power256(8) == 0x1_0000_0000_0000_0000 by { assert Power256(4) == 0x1_0000_0000; }
      BigEndianRoundTrip(length, 8);
  }

  lemma FieldBelow(field: bv8)
    requires field as nat < 126
    ensures field < 128
  {
  }

  /** The parts of a frame laid end to end come apart where they were joined. */
  lemma PartsSeparate(first: bv8, second: bv8, extension: Bytes, mask: Bytes, body: Bytes, rest: Bytes)
    ensures var input := [first, second] + extension + mask + body + rest;
            var e := |extension|;
            && |input| >= 2 + e + |mask| + |body|
            && input[0] == first && input[1] == second
            && input[2..2 + e] == extension
            && input[2 + e..2 + e + |mask|] == mask
            && input[2 + e + |mask|..2 + e + |mask| + |body|] == body
            && input[2 + e + |mask| + |body|..] == rest
  {
  }

  lemma HeaderSeparates(first: bv8, second: bv8, extension: Bytes, after: Bytes)
    ensures var input := [first, second] + extension + after;
            && |input| >= 2 + |extension|
            && input[0] == first && input[1] == second
            && input[2..2 + |extension|] == extension
  {
  }

  lemma Regroup(head: Bytes, mask: Bytes, body: Bytes, rest: Bytes)
    ensures head + mask + body + rest == head + (mask + body + rest)
  {
  }

  lemma HeaderReads(frame: Frame, form: LengthForm, after: Bytes)
    requires form.Fits(|frame.payload|) && Sendable(frame)
    ensures var (field, extension) := form.Field(|frame.payload|);
            DecodeHeader([FirstByte(frame.fin, frame.opcode), 0x80 | field] + extension + after) ==
            if |frame.payload| <= MAX_MESSAGE_BYTES
            then Ok(Header(frame.fin, frame.opcode, |frame.payload|, 2 + |extension|))
            else Err(MessageTooLarge)
  {
    hide FromBigEndian, ToBigEndian, FirstByte, LengthForm.Field;
    hide HasReservedBits, IsFinal, OpcodeOf, IsMasked, ShortLength, ExtensionWidth;
    var (field, extension) := form.Field(|frame.payload|);
    FirstByteReads(frame.fin, frame.opcode);
    FieldReads(form, |frame.payload|);
    SecondByteReads(field);
    HeaderSeparates(FirstByte(frame.fin, frame.opcode), 0x80 | field, extension, after);
  }

  /** Every frame a client may send decodes to itself, whatever its mask and length form, up to the size limit. */
  lemma DecodeEncode(frame: Frame, mask: Bytes, form: LengthForm, rest: Bytes)
    requires |mask| == 4 && form.Fits(|frame.payload|) && Sendable(frame)
    ensures Decode(EncodeMasked(frame, mask, form) + rest) ==
            if |frame.payload| <= MAX_MESSAGE_BYTES then Ok((frame, rest)) else Err(MessageTooLarge)
  {
    hide DecodeHeader, Masked, FirstByte, LengthForm.Field;
    var (field, extension) := form.Field(|frame.payload|);
    var first, body := FirstByte(frame.fin, frame.opcode), Masked(frame.payload, mask);
    HeaderReads(frame, form, mask + body + rest);
    PartsSeparate(first, 0x80 | field, extension, mask, body, rest);
    Regroup([first, 0x80 | field] + extension, mask, body, rest);
    MaskTwice(frame.payload, mask);
  }

  // ---- The client's side ----

  /** What a client makes of an unmasked frame. */
  function DecodeUnmasked(input: Bytes): (r: Option<(Frame, Bytes)>) {
    if |input| < 2 || IsMasked(input[1]) then None
    else
      var width := ExtensionWidth(input[1]);
      if |input| < 2 + width then None
      else
        var length := if width == 0 then ShortLength(input[1]) else FromBigEndian(input[2..2 + width]);
        if |input| < 2 + width + length then None
        else
          Some((Frame(IsFinal(input[0]), OpcodeOf(input[0]), input[2 + width..2 + width + length]),
                input[2 + width + length..]))
  }

  /** Every frame the server writes is read back by a client, at all three lengths. */
  lemma ClientReadsWritten(opcode: bv8, payload: Bytes, rest: Bytes)
    requires opcode < 16 && |payload| <= U64_MAX
    ensures DecodeUnmasked(EncodeUnmasked(opcode, payload) + rest) == Some((Frame(true, opcode, payload), rest))
  {
    hide FromBigEndian, ToBigEndian, FirstByte, LengthForm.Field;
    hide HasReservedBits, IsFinal, OpcodeOf, IsMasked, ShortLength, ExtensionWidth;
    var form := ShortestForm(|payload|);
    var (field, extension) := form.Field(|payload|);
    FirstByteReads(true, opcode);
    FieldReads(form, |payload|);
    SecondByteReads(field);
    PartsSeparate(FirstByte(true, opcode), field, extension, [], payload, rest);
    assert EncodeUnmasked(opcode, payload) + rest ==
      [FirstByte(true, opcode), field] + extension + [] + payload + rest;
  }
}
