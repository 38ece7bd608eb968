/** The single-frame WebSocket exchange with a running backend (sections 5.2 and 5.3 of RFC 6455). */
module WebSocketFrames {
  import opened Bytes
  import opened Results

  // ----- The wire format, independently of the code -----

  type Mask = m: seq<Byte> | |m| == 4 witness [0, 0, 0, 0]

  /** One frame: its final bit, its opcode, its mask if it has one, and its data as they are on the wire. */
  datatype WireFrame = WireFrame(fin: bool, opcode: nat, mask: Option<Mask>, data: seq<Byte>) {
    function Payload(): seq<Byte> { if mask.Some? then Masked(data, mask.value) else data }
  }

  /** Applying a mask twice gives the bytes back. */
  function Masked(payload: seq<Byte>, mask: Mask): (r: seq<Byte>)
    ensures |r| == |payload|
  {
    seq(|payload|, i requires 0 <= i < |payload| => Xor(payload[i], mask[i % 4]))
  }

  lemma MaskedTwice(payload: seq<Byte>, mask: seq<Byte>)
    requires |mask| == 4
    ensures Masked(Masked(payload, mask), mask) == payload
  {
    forall i | 0 <= i < |payload| ensures Masked(Masked(payload, mask), mask)[i] == payload[i] {
      XorTwice(payload[i], mask[i % 4]);
    }
  }

  /** Big-endian number of any width. */
  function Number(b: seq<Byte>): nat
  {
    if b == [] then 0 else 256 * Number(b[..|b| - 1]) + b[|b| - 1]
  }

  /** Bytes that the payload length takes after the two fixed ones. */
  function ExtraLengthBytes(code: nat): nat
  {
    if code == 126 then 2 else if code == 127 then 8 else 0
  }

  /** The frame at the front of a buffer and the number of its bytes, if it is complete. */
  function Decode(b: seq<Byte>): Option<(WireFrame, nat)>
  {
    if |b| < 2 then None
    else
      var code := b[1] % 128;
      var lengthEnd := 2 + ExtraLengthBytes(code);
      if |b| < lengthEnd then None
      else
        DecodeData(b, lengthEnd, if code < 126 then code else Number(b[2..lengthEnd]))
  }

  /** The mask and the data behind a length field that ends at `lengthEnd`. */
  function DecodeData(b: seq<Byte>, lengthEnd: nat, length: nat): Option<(WireFrame, nat)>
    requires 2 <= lengthEnd <= |b|
  {
    var start := lengthEnd + (if b[1] >= 128 then 4 else 0);
    if |b| < start + length then None
    else
      var mask: Option<Mask> := if b[1] >= 128 then Some(b[lengthEnd..start]) else None;
      Some((WireFrame(b[0] >= 128, b[0] % 16, mask, b[start..start + length]), start + length))
  }

  // ----- The code -----

  /** The header of a text frame of fewer than 65536 bytes. */
  function Header(length: nat, maskBit: Byte): seq<Byte>
    requires length < 0x1_0000 && (maskBit == 0 || maskBit == 128)
  {
    if length < 126 then [0x81, maskBit + length] else [0x81, maskBit + 126] + Put16BE(length)
  }

  function ClientFrame(payload: seq<Byte>, mask: seq<Byte>): seq<Byte>
    requires |payload| < 0x1_0000 && |mask| == 4
  {
    Header(|payload|, 128) + mask + Masked(payload, mask)
  }

  datatype RangeError = RangeError

  /** Longer payloads make `writeUInt16BE` throw. The random mask is a parameter. */
  method CreateClientTextFrame(payload: seq<Byte>, mask: seq<Byte>) returns (r: Result<seq<Byte>, RangeError>)
    requires |mask| == 4
    ensures r == if |payload| < 0x1_0000 then Ok(ClientFrame(payload, mask)) else Err(RangeError)
  {
    var headerLength := if |payload| < 126 then 6 else 8;
    var frame := new Byte[headerLength + |payload|];
    frame[0] := 0x81;
    if |payload| < 126 {
      frame[1] := 128 + |payload|;
    } else {
      frame[1] := 128 + 126;
      if |payload| >= 0x1_0000 { return Err(RangeError); }
      frame[2], frame[3] := |payload| / 256, |payload| % 256;
    }
    forall i | 0 <= i < 4 { frame[headerLength - 4 + i] := mask[i]; }
    assert frame[..headerLength] == Header(|payload|, 128) + mask;
    WriteMasked(frame, headerLength, payload, mask);
    return Ok(frame[..]);
  }

  /** The loop that masks the payload into the frame. */
  method WriteMasked(frame: array<Byte>, at: nat, payload: seq<Byte>, mask: seq<Byte>)
    requires |mask| == 4 && frame.Length == at + |payload|
    modifies frame
    ensures frame[..] == old(frame[..at]) + Masked(payload, mask)
  {
    ghost var masked := Masked(payload, mask);
    for index := 0 to |payload|
      invariant frame[..at] == old(frame[..at])
      invariant frame[at..at + index] == masked[..index]
    {
      frame[at + index] := Xor(payload[index], mask[index % 4]);
      assert frame[at..at + index + 1] == masked[..index] + [masked[index]];
    }
    assert masked[..|payload|] == masked;
    assert frame[..] == frame[..at] + frame[at..at + |payload|];
  }

  /** What the reader of server frames returns: the payload and the number of bytes it takes. */
  method TryReadServerTextFrame(buffer: seq<Byte>) returns (r: Option<(seq<Byte>, nat)>)
    ensures r == ReadServerFrame(buffer)
  {
    if |buffer| < 2 { return None; }
    var opcode := buffer[0] % 16;
    var payloadLength: nat := buffer[1] % 128;
    var offset := 2;
    if payloadLength == 126 {
      if |buffer| < 4 { return None; }
      payloadLength := U16BE(buffer, 2);
      offset := 4;
    } else if payloadLength == 127 {
      return None;
    }
    if |buffer| < offset + payloadLength { return None; }
    if opcode != 1 { return None; }
    return Some((buffer[offset..offset + payloadLength], offset + payloadLength));
  }

  function ReadServerFrame(b: seq<Byte>): Option<(seq<Byte>, nat)>
  {
    if |b| < 2 || b[1] % 128 == 127 || (b[1] % 128 == 126 && |b| < 4) then None
    else
      var extended := b[1] % 128 == 126;
      var start := if extended then 4 else 2;
      var end := start + if extended then U16BE(b, 2) else b[1] % 128;
      if |b| < end || b[0] % 16 != 1 then None else Some((b[start..end], end))
  }

  // ----- The client's frames -----

  lemma NumberOfTwo(b: seq<Byte>)
    requires |b| == 2
    ensures Number(b) == U16BE(b, 0)
  {
    assert b[..1][..0] == [];
    assert Number(b[..1]) == b[0];
  }

  lemma HeaderLength(length: nat, rest: seq<Byte>)
    requires length < 0x1_0000
    ensures var b := Header(length, 128) + rest;
            && b[0] == 0x81 && b[1] >= 128
            && |Header(length, 128)| == 2 + ExtraLengthBytes(b[1] % 128)
            && length == if b[1] % 128 < 126 then b[1] % 128 else Number(b[2..|Header(length, 128)|])
  {
    if length >= 126 {
      var b := Header(length, 128) + rest;
      assert b[2..4] == Put16BE(length);
      NumberOfTwo(b[2..4]);
    }
  }

  /** A masked text frame whose parts lie where its length field says. */
  lemma MaskedTextDecodes(b: seq<Byte>, lengthEnd: nat, length: nat, mask: seq<Byte>, data: seq<Byte>)
    requires |b| >= 2 && b[0] == 0x81 && b[1] >= 128 && lengthEnd == 2 + ExtraLengthBytes(b[1] % 128)
    requires |b| >= lengthEnd + 4 + length && |mask| == 4
    requires length == if b[1] % 128 < 126 then b[1] % 128 else Number(b[2..lengthEnd])
    requires b[lengthEnd..lengthEnd + 4] == mask && b[lengthEnd + 4..lengthEnd + 4 + length] == data
    ensures Decode(b) == Some((WireFrame(true, 1, Some(mask), data), lengthEnd + 4 + length))
  {
    MaskedTextData(b, lengthEnd, length, mask, data);
  }

  lemma MaskedTextData(b: seq<Byte>, lengthEnd: nat, length: nat, mask: seq<Byte>, data: seq<Byte>)
    requires 2 <= lengthEnd && |b| >= lengthEnd + 4 + length && |mask| == 4 && b[0] == 0x81 && b[1] >= 128
    requires b[lengthEnd..lengthEnd + 4] == mask && b[lengthEnd + 4..lengthEnd + 4 + length] == data
    ensures DecodeData(b, lengthEnd, length) == Some((WireFrame(true, 1, Some(mask), data), lengthEnd + 4 + length))
  {
  }

  lemma FrameParts(header: seq<Byte>, mask: seq<Byte>, body: seq<Byte>, rest: seq<Byte>)
    ensures var b := header + mask + body + rest;
            var (h, m) := (|header|, |mask|);
            && b == header + (mask + body + rest) && |b| >= h + m + |body|
            && b[h..h + m] == mask && b[h + m..h + m + |body|] == body
  {
  }

  /** Every payload under 65536 bytes reaches the server: one final masked text frame, whatever follows it. */
  lemma ClientFrameDecodes(payload: seq<Byte>, mask: seq<Byte>, rest: seq<Byte>)
    requires |payload| < 0x1_0000 && |mask| == 4
    ensures var frame := ClientFrame(payload, mask);
            && Decode(frame + rest) == Some((WireFrame(true, 1, Some(mask), Masked(payload, mask)), |frame|))
            && Decode(frame + rest).value.0.Payload() == payload
  {
    var (header, body) := (Header(|payload|, 128), Masked(payload, mask));
    MaskedTwice(payload, mask);
    HeaderLength(|payload|, mask + body + rest);
    FrameParts(header, mask, body, rest);
    MaskedTextDecodes(header + (mask + body + rest), |header|, |payload|, mask, body);
  }

  // ----- The server's frames -----

  /**
   On an unmasked buffer the reader is the RFC decoder restricted to text frames whose length takes
   at most two extra bytes; it does not look at the final bit.
   */
  lemma ReaderRefinesDecoder(b: seq<Byte>)
    requires |b| >= 2 ==> b[1] < 128
    ensures ReadServerFrame(b) == match Decode(b)
              case None => None
              case Some((frame, size)) =>
                if frame.opcode == 1 && b[1] != 127 then Some((frame.Payload(), size)) else None
  {
    if |b| >= 4 && b[1] == 126 {
      NumberOfTwo(b[2..4]);
      assert U16BE(b[2..4], 0) == U16BE(b, 2);
    }
  }

  /** A frame is returned as soon as its last byte is there, and not before; what follows does not matter. */
  lemma ReaderWaitsForTheWholeFrame(b: seq<Byte>, k: nat, rest: seq<Byte>)
    requires ReadServerFrame(b).Some? && k <= |b|
    ensures var size := ReadServerFrame(b).value.1;
            && ReadServerFrame(b[..k]) == (if k < size then None else ReadServerFrame(b))
            && ReadServerFrame(b[..size] + rest) == ReadServerFrame(b)
  {
    var (payload, size) := ReadServerFrame(b).value;
    var start := size - |payload|;
    var whole := b[..size] + rest;
    assert whole[start..size] == b[start..size];
    if k >= size { assert b[..k][start..size] == b[start..size]; }
  }

  /** Text frames a server sends: nothing on a proper prefix, the exact payload and size once complete. */
  lemma ServerFrameReadsBack(payload: seq<Byte>, k: nat, rest: seq<Byte>)
    requires |payload| < 0x1_0000
    requires k < |Header(|payload|, 0) + payload|
    ensures var frame := Header(|payload|, 0) + payload;
            && ReadServerFrame(frame[..k]) == None
            && ReadServerFrame(frame + rest) == Some((payload, |frame|))
  {
    var frame := Header(|payload|, 0) + payload;
    assert frame[|frame| - |payload|..|frame|] == payload;
    if |payload| >= 126 { assert U16BE(frame, 2) == U16BE(Put16BE(|payload|), 0); }
    assert ReadServerFrame(frame) == Some((payload, |frame|));
    ReaderWaitsForTheWholeFrame(frame, k, rest);
    assert frame[..|frame|] == frame;
  }

  /** Payloads of 65536 bytes or more need the eight-byte length, which the reader never accepts. */
  lemma LongFramesAreNeverRead(b: seq<Byte>)
    requires |b| >= 2 && b[1] < 128
    requires Decode(b).Some? && |Decode(b).value.0.data| >= 0x1_0000
    ensures ReadServerFrame(b) == None
  {
    ReaderRefinesDecoder(b);
    if b[1] == 126 { NumberOfTwo(b[2..4]); }
  }
}
