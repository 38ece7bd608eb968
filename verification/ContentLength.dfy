/**
 Messages framed by a `Content-Length` header, as in the base protocol of the Language Server
 Protocol. A message value `M` is carried by its UTF-8 JSON text; `parse` stands for decoding
 and `JSON.parse`, and is `None` where that throws.
 */
module ContentLength {
  import opened Bytes
  import opened Results
  import opened Text

  const SEPARATOR: seq<Byte> := [13, 10, 13, 10]

  datatype FrameError = MissingContentLength | InvalidContentLength | InvalidJson

  // ----- Header -----

  /** `Buffer.toString("ascii")` clears the top bit of every byte. */
  function Ascii(bytes: seq<Byte>): (s: string)
    ensures |s| == |bytes|
    ensures forall i :: 0 <= i < |s| ==> s[i] == (bytes[i] % 128) as char
  {
    seq(|bytes|, i requires 0 <= i < |bytes| => (bytes[i] % 128) as char)
  }

  /** Splits at every "\r\n"; `start` is where the current line began and `i` is the cursor. */
  function Lines(s: string, start: nat := 0, i: nat := 0): (lines: seq<string>)
    requires start <= i <= |s|
    ensures lines != []
    decreases |s| - i
  {
    if |s| - i < 2 then [s[start..]]
    else if s[i] == '\r' && s[i + 1] == '\n' then [s[start..i]] + Lines(s, i + 2, i + 2)
    else Lines(s, start, i + 1)
  }

  predicate IsFieldName(name: string) { Lower(Trim(name)) == "content-length" }

  function FieldValue(text: string): Result<nat, FrameError>
  {
    var value := Trim(text);
    if value != [] && AllDigits(value) then Ok(NumeralValue(value)) else Err(InvalidContentLength)
  }

  /** What one header line says: `None` when it is not a Content-Length field. */
  function LineLength(line: string): Option<Result<nat, FrameError>> { LineValue(line, IsFieldName, FieldValue) }

  function LineValue(line: string, isField: string -> bool, valueOf: string -> Result<nat, FrameError>): Option<Result<nat, FrameError>>
  {
    var colon := IndexOfChar(line, ':');
    if colon < 0 || !isField(line[..colon]) then None else Some(valueOf(line[colon + 1..]))
  }

  /** The first Content-Length line decides. */
  function LinesLength(lines: seq<string>): Result<nat, FrameError>
  {
    if lines == [] then Err(MissingContentLength)
    else match LineLength(lines[0])
      case Some(r) => r
      case None => LinesLength(lines[1..])
  }

  method ParseContentLength(header: string) returns (r: Result<nat, FrameError>)
    ensures r == LinesLength(Lines(header))
  {
    var lines := Lines(header);
    for k := 0 to |lines|
      invariant LinesLength(lines) == LinesLength(lines[k..])
    {
      var line := lines[k];
      var colon := IndexOfChar(line, ':');
      if colon < 0 { continue; }
      if Lower(Trim(line[..colon])) != "content-length" { continue; }
      var value := Trim(line[colon + 1..]);
      if value == [] || !AllDigits(value) { return Err(InvalidContentLength); }
      return Ok(NumeralValue(value));
    }
    return Err(MissingContentLength);
  }

  // ----- Lines of a header -----

  /** No line break starts inside. */
  predicate IsOneLine(s: string) { forall i :: 0 <= i < |s| - 1 ==> !(s[i] == '\r' && s[i + 1] == '\n') }

  function JoinLines(lines: seq<string>): string
    requires lines != []
  {
    if |lines| == 1 then lines[0] else lines[0] + "\r\n" + JoinLines(lines[1..])
  }

  /** The lines are what line breaks separate: joined they give the text, and none holds a line break. */
  lemma {:induction false} LinesSplit(s: string, start: nat, i: nat)
    requires start <= i <= |s| && IsOneLine(s[start..i])
    requires i < |s| && i > start ==> !(s[i - 1] == '\r' && s[i] == '\n')
    ensures JoinLines(Lines(s, start, i)) == s[start..]
    ensures forall k :: 0 <= k < |Lines(s, start, i)| ==> IsOneLine(Lines(s, start, i)[k])
    decreases |s| - i
  {
    if |s| - i < 2 {
      LastLine(s, start, i);
    } else if s[i] == '\r' && s[i + 1] == '\n' {
      LinesSplit(s, i + 2, i + 2);
      var rest := Lines(s, i + 2, i + 2);
      assert ([s[start..i]] + rest)[1..] == rest;
      assert s[start..] == s[start..i] + "\r\n" + s[i + 2..];
    } else {
      LongerLine(s, start, i);
      LinesSplit(s, start, i + 1);
    }
  }

  lemma LastLine(s: string, start: nat, i: nat)
    requires start <= i <= |s| && |s| - i < 2 && IsOneLine(s[start..i])
    requires i < |s| && i > start ==> !(s[i - 1] == '\r' && s[i] == '\n')
    ensures IsOneLine(s[start..])
  {
    var line := s[start..];
    forall k | 0 <= k < |line| - 1 ensures !(line[k] == '\r' && line[k + 1] == '\n') {
      if k + 1 < i - start { assert s[start..i][k] == line[k] && s[start..i][k + 1] == line[k + 1]; }
    }
  }

  lemma LongerLine(s: string, start: nat, i: nat)
    requires start <= i && i + 1 < |s| && IsOneLine(s[start..i])
    requires i > start ==> !(s[i - 1] == '\r' && s[i] == '\n')
    ensures IsOneLine(s[start..i + 1])
  {
    var line := s[start..i + 1];
    forall k | 0 <= k < |line| - 1 ensures !(line[k] == '\r' && line[k + 1] == '\n') {
      if k + 1 < i - start { assert s[start..i][k] == line[k] && s[start..i][k + 1] == line[k + 1]; }
    }
  }

  /** The first line that is a Content-Length field decides, whatever stands around it; without one the header is refused. */
  lemma {:induction false} FirstFieldDecides(lines: seq<string>)
    ensures LinesLength(lines) == Err(MissingContentLength) <==> forall i :: 0 <= i < |lines| ==> LineLength(lines[i]) == None
    ensures forall i :: 0 <= i < |lines| && LineLength(lines[i]).Some? && (forall j :: 0 <= j < i ==> LineLength(lines[j]) == None) ==>
              LinesLength(lines) == LineLength(lines[i]).value
  {
    if lines != [] {
      FirstFieldDecides(lines[1..]);
      FieldsOfTail(lines);
    }
  }

  /** A line names an error only as an invalid number. */
  lemma LineErrors(line: string)
    ensures LineLength(line) != Some(Err(MissingContentLength))
  {
  }

  lemma FieldsOfTail(lines: seq<string>)
    requires lines != []
    ensures forall i :: 0 < i < |lines| ==> lines[i] == lines[1..][i - 1]
    ensures LineLength(lines[0]) != Some(Err(MissingContentLength))
  {
    LineErrors(lines[0]);
  }

  /** The value of a header: the first field decides, and the lines are those that line breaks separate. */
  lemma HeaderIsReadByLines(header: string)
    ensures JoinLines(Lines(header)) == header
    ensures forall k :: 0 <= k < |Lines(header)| ==> IsOneLine(Lines(header)[k])
    ensures HeaderIsMissing(Lines(header)) <==> LinesLength(Lines(header)) == Err(MissingContentLength)
  {
    LinesSplit(header, 0, 0);
    assert header[0..] == header;
    FirstFieldDecides(Lines(header));
  }

  predicate HeaderIsMissing(lines: seq<string>) { forall i :: 0 <= i < |lines| ==> LineLength(lines[i]) == None }

  // ----- Frames -----

  predicate SeparatorAt(b: seq<Byte>, i: nat) { i + 4 <= |b| && b[i..i + 4] == SEPARATOR }

  /** `Buffer.indexOf`: the first separator at or after `from`, or -1. */
  function IndexOfSeparator(b: seq<Byte>, from: nat := 0): (r: int)
    requires from <= |b|
    ensures r >= 0 ==> from <= r && SeparatorAt(b, r) && forall i :: from <= i < r ==> !SeparatorAt(b, i)
    ensures r < 0 ==> forall i :: from <= i ==> !SeparatorAt(b, i)
    decreases |b| - from
  {
    if SeparatorAt(b, from) then from
    else if from == |b| then -1
    else IndexOfSeparator(b, from + 1)
  }

  /** What the front of a buffer holds. */
  datatype Front<M> = Incomplete | Broken(error: FrameError) | Frame(message: M, rest: seq<Byte>)

  /** The body length that a header gives. */
  type HeaderReader = seq<Byte> -> Result<nat, FrameError>

  function HeaderLength(header: seq<Byte>): Result<nat, FrameError> { LinesLength(Lines(Ascii(header))) }

  function ReadFront<M>(buffer: seq<Byte>, parse: seq<Byte> -> Option<M>): (f: Front<M>)
    ensures f.Frame? ==> |f.rest| < |buffer|
  {
    FrontOf(buffer, parse, HeaderLength)
  }

  function FrontOf<M>(buffer: seq<Byte>, parse: seq<Byte> -> Option<M>, lengthOf: HeaderReader): (f: Front<M>)
    ensures f.Frame? ==> |f.rest| < |buffer|
  {
    var end := IndexOfSeparator(buffer);
    if end < 0 then Incomplete
    else match lengthOf(buffer[..end])
      case Err(e) => Broken(e)
      case Ok(n) =>
        var bodyStart := end + 4;
        if |buffer| < bodyStart + n then Incomplete
        else match parse(buffer[bodyStart..bodyStart + n])
          case None => Broken(InvalidJson)
          case Some(m) => Frame(m, buffer[bodyStart + n..])
  }

  /** The messages read from a buffer, what is left in it, and the error that stopped the reading. */
  datatype Outcome<M> = Outcome(messages: seq<M>, buffer: seq<Byte>, error: Option<FrameError>) {
    function After(earlier: seq<M>): Outcome<M> { this.(messages := earlier + messages) }
  }

  lemma AfterTwice<M>(o: Outcome<M>, later: seq<M>, earlier: seq<M>)
    ensures o.After(later).After(earlier) == o.After(earlier + later)
  {
    assert earlier + (later + o.messages) == (earlier + later) + o.messages;
  }

  function Drain<M>(buffer: seq<Byte>, parse: seq<Byte> -> Option<M>): Outcome<M>
    decreases |buffer|
  {
    match ReadFront(buffer, parse)
    case Incomplete => Outcome([], buffer, None)
    case Broken(e) => Outcome([], buffer, Some(e))
    case Frame(m, rest) => Drain(rest, parse).After([m])
  }

  /** The streaming parser. `Push` throws away the messages it has read when it meets a bad frame. */
  class Parser<M> {
    const parse: seq<Byte> -> Option<M>
    var buffer: seq<Byte>

    constructor (parse: seq<Byte> -> Option<M>)
      ensures this.parse == parse && buffer == []
    {
      this.parse := parse;
      buffer := [];
    }

    method Push(chunk: seq<Byte>) returns (r: Result<seq<M>, FrameError>)
      modifies this
      ensures var o := Drain(old(buffer) + chunk, parse);
              && buffer == o.buffer
              && r == (if o.error.None? then Ok(o.messages) else Err(o.error.value))
    {
      buffer := buffer + chunk;
      ghost var all := buffer;
      var messages: seq<M> := [];
      while true
        invariant Drain(all, parse) == Drain(buffer, parse).After(messages)
        decreases |buffer|
      {
        var front := ReadFrame();
        match front {
          case Incomplete =>
            assert messages + [] == messages;
            return Ok(messages);
          case Broken(e) =>
            return Err(e);
          case Frame(m, rest) =>
            AfterTwice(Drain(rest, parse), [m], messages);
            messages := messages + [m];
            buffer := rest;
        }
      }
    }

    /** The body of the loop: the frame at the front of the buffer, if it is complete. */
    method ReadFrame() returns (front: Front<M>)
      ensures front == ReadFront(buffer, parse)
    {
      var headerEnd := IndexOfSeparator(buffer);
      if headerEnd < 0 { return Incomplete; }
      var contentLength := ParseContentLength(Ascii(buffer[..headerEnd]));
      front := ReadBody(headerEnd, contentLength, HeaderLength);
    }

    /** The rest of that pass, once the header has been read. */
    method ReadBody(headerEnd: nat, contentLength: Result<nat, FrameError>, ghost lengthOf: HeaderReader) returns (front: Front<M>)
      requires headerEnd == IndexOfSeparator(buffer) && contentLength == lengthOf(buffer[..headerEnd])
      ensures front == FrontOf(buffer, parse, lengthOf)
    {
      if contentLength.Err? { return Broken(contentLength.error); }
      var bodyStart := headerEnd + 4;
      var bodyEnd := bodyStart + contentLength.value;
      if |buffer| < bodyEnd { return Incomplete; }
      var message := parse(buffer[bodyStart..bodyEnd]);
      if message.None? { return Broken(InvalidJson); }
      return Frame(message.value, buffer[bodyEnd..]);
    }
  }

  // ----- Chunk boundaries do not matter -----

  /** A separator found in a buffer is found at the same place when more bytes follow. */
  lemma SeparatorIsStable(a: seq<Byte>, b: seq<Byte>)
    requires IndexOfSeparator(a) >= 0
    ensures IndexOfSeparator(a + b) == IndexOfSeparator(a)
  {
    var i := IndexOfSeparator(a);
    assert (a + b)[i..i + 4] == a[i..i + 4];
    var j := IndexOfSeparator(a + b);
    assert SeparatorAt(a + b, i);
    if j < i {
      assert (a + b)[j..j + 4] == a[j..j + 4];
      assert SeparatorAt(a, j);
    }
  }

  lemma FrontIsStable<M>(a: seq<Byte>, b: seq<Byte>, parse: seq<Byte> -> Option<M>)
    requires !ReadFront(a, parse).Incomplete?
    ensures ReadFront(a + b, parse) == match ReadFront(a, parse) {
              case Broken(e) => Broken(e)
              case Frame(m, rest) => Frame(m, rest + b)
            }
  {
    FrontStaysPut(a, b, parse, HeaderLength);
  }

  lemma FrontStaysPut<M>(a: seq<Byte>, b: seq<Byte>, parse: seq<Byte> -> Option<M>, lengthOf: HeaderReader)
    requires !FrontOf(a, parse, lengthOf).Incomplete?
    ensures FrontOf(a + b, parse, lengthOf) == match FrontOf(a, parse, lengthOf) {
              case Broken(e) => Broken(e)
              case Frame(m, rest) => Frame(m, rest + b)
            }
  {
    SeparatorIsStable(a, b);
    var end := IndexOfSeparator(a);
    assert (a + b)[..end] == a[..end];
    var length := lengthOf(a[..end]);
    if length.Ok? {
      var e := end + 4 + length.value;
      assert (a + b)[end + 4..e] == a[end + 4..e];
      assert (a + b)[e..] == a[e..] + b;
    }
  }

  /** Reading all the bytes at once is reading the first part, then the rest after what it left. */
  lemma {:induction false} DrainAppend<M>(a: seq<Byte>, b: seq<Byte>, parse: seq<Byte> -> Option<M>)
    ensures var first := Drain(a, parse);
            Drain(a + b, parse) ==
              if first.error.None? then Drain(first.buffer + b, parse).After(first.messages)
              else Outcome(first.messages, first.buffer + b, first.error)
    decreases |a|
  {
    var front := ReadFront(a, parse);
    if front.Incomplete? {
      assert [] + Drain(a + b, parse).messages == Drain(a + b, parse).messages;
    } else {
      FrontIsStable(a, b, parse);
      if front.Frame? {
        DrainAppend(front.rest, b, parse);
        var first := Drain(front.rest, parse);
        AfterTwice(Drain(first.buffer + b, parse), first.messages, [front.message]);
      }
    }
  }

  /** The buffer a drain leaves has nothing more to give. */
  lemma {:induction false} DrainSettles<M>(a: seq<Byte>, parse: seq<Byte> -> Option<M>)
    ensures var o := Drain(a, parse); Drain(o.buffer, parse) == Outcome([], o.buffer, o.error)
    decreases |a|
  {
    var f := ReadFront(a, parse);
    if f.Frame? { DrainSettles(f.rest, parse); }
  }

  /** Successive `Push` calls, stopping at the first one that throws. */
  function PushAll<M>(buffer: seq<Byte>, chunks: seq<seq<Byte>>, parse: seq<Byte> -> Option<M>): Outcome<M>
    decreases chunks
  {
    if chunks == [] then Outcome([], buffer, None)
    else
      var o := Drain(buffer + chunks[0], parse);
      if o.error.Some? then o else PushAll(o.buffer, chunks[1..], parse).After(o.messages)
  }

  function Flatten<T>(parts: seq<seq<T>>): seq<T>
  {
    if parts == [] then [] else parts[0] + Flatten(parts[1..])
  }

  /**
   However a byte stream is cut into chunks, the pushes read the messages that reading it whole
   reads, leave the same bytes, and one of them throws exactly when reading it whole does.
   */
  lemma {:induction false} ChunkingIsIrrelevant<M>(buffer: seq<Byte>, chunks: seq<seq<Byte>>,
                                                   parse: seq<Byte> -> Option<M>)
    requires Drain(buffer, parse) == Outcome([], buffer, None)
    ensures var whole := Drain(buffer + Flatten(chunks), parse);
            var pushed := PushAll(buffer, chunks, parse);
            && pushed.messages == whole.messages
            && pushed.error == whole.error
            && (whole.error.None? ==> pushed.buffer == whole.buffer)
            && pushed.buffer <= whole.buffer
    decreases chunks
  {
    if chunks == [] {
      assert buffer + [] == buffer;
    } else {
      var tail := Flatten(chunks[1..]);
      var first := Drain(buffer + chunks[0], parse);
      assert buffer + Flatten(chunks) == (buffer + chunks[0]) + tail;
      DrainAppend(buffer + chunks[0], tail, parse);
      if first.error.None? {
        DrainSettles(buffer + chunks[0], parse);
        ChunkingIsIrrelevant(first.buffer, chunks[1..], parse);
      }
    }
  }

  /** Once a push has thrown, every later push throws the same error and reads nothing. */
  lemma BadFrameIsPermanent<M>(a: seq<Byte>, later: seq<Byte>, parse: seq<Byte> -> Option<M>)
    requires Drain(a, parse).error.Some?
    ensures var o := Drain(a, parse);
            Drain(o.buffer + later, parse) == Outcome([], o.buffer + later, o.error)
  {
    DrainSettles(a, parse);
    DrainAppend(Drain(a, parse).buffer, later, parse);
  }

  // ----- Parsing undoes encoding -----

  /** The bytes of an ASCII string. */
  function FromAscii(s: string): (b: seq<Byte>)
    requires forall i :: 0 <= i < |s| ==> s[i] as int < 128
    ensures |b| == |s| && Ascii(b) == s
    ensures forall i :: 0 <= i < |s| ==> b[i] == s[i] as int
  {
    seq(|s|, i requires 0 <= i < |s| => s[i] as int as Byte)
  }

  const FIELD: string := "Content-Length"

  function HeaderLine(length: nat): (s: string)
    ensures forall i :: 0 <= i < |s| ==> s[i] as int < 128 && s[i] != '\r'
  {
    FIELD + [':', ' '] + Numeral(length)
  }

  /** `encodeContentLengthMessage` on the JSON text of a message. */
  function Encode(body: seq<Byte>): seq<Byte>
  {
    FromAscii(HeaderLine(|body|)) + SEPARATOR + body
  }

  function Stream(bodies: seq<seq<Byte>>): seq<Byte>
  {
    if bodies == [] then [] else Encode(bodies[0]) + Stream(bodies[1..])
  }

  lemma HeaderText(length: nat, breaks: string)
    requires breaks == "\r\n\r\n"
    ensures HeaderLine(length) + breaks == "Content-Length: " + Numeral(length) + breaks
    ensures |breaks| == 4 && forall i :: 0 <= i < 4 ==> SEPARATOR[i] == breaks[i] as int
  {
    assert FIELD + [':', ' '] == "Content-Length: ";
  }

  /** The bytes of an encoded message: the field with the number of bytes, an empty line, the body. */
  lemma EncodedBytes(body: seq<Byte>, header: string, breaks: string)
    requires breaks == "\r\n\r\n" && header == "Content-Length: " + Numeral(|body|) + breaks
    ensures |Encode(body)| == |header| + |body| && Encode(body)[|header|..] == body
    ensures forall i :: 0 <= i < |header| ==> Encode(body)[i] == header[i] as int
  {
    var line := HeaderLine(|body|);
    HeaderText(|body|, breaks);
    assert header == line + breaks;
    assert Encode(body) == (FromAscii(line) + SEPARATOR) + body;
  }

  lemma {:induction false} LinesOfOneLine(s: string, start: nat, i: nat)
    requires start <= i <= |s| && '\r' !in s
    ensures Lines(s, start, i) == [s[start..]]
    decreases |s| - i
  {
    if |s| - i >= 2 { LinesOfOneLine(s, start, i + 1); }
  }

  lemma TrimLeadingSpace(digits: string)
    requires digits != [] && AllDigits(digits)
    ensures Trim([' '] + digits) == digits
  {
    assert ([' '] + digits)[1..] == digits;
    TrimIsIdentity(digits);
    assert TrimStart([' '] + digits) == TrimStart(digits);
  }

  lemma ColonAfterName(name: string, digits: string)
    requires ':' !in name
    ensures IndexOfChar(name + [':', ' '] + digits, ':') == |name|
  {
    var line := name + [':', ' '] + digits;
    assert line[|name|] == ':';
    assert forall i :: 0 <= i < |name| ==> line[i] == name[i];
  }

  lemma ValueOfDigits(digits: string)
    requires digits != [] && AllDigits(digits)
    ensures FieldValue([' '] + digits) == Ok(NumeralValue(digits))
  {
    TrimLeadingSpace(digits);
  }

  lemma ValueAfterColon(name: string, digits: string, isField: string -> bool, valueOf: string -> Result<nat, FrameError>)
    requires ':' !in name && isField(name)
    ensures LineValue(name + [':', ' '] + digits, isField, valueOf) == Some(valueOf([' '] + digits))
  {
    var line := name + [':', ' '] + digits;
    ColonAfterName(name, digits);
    assert line[..|name|] == name;
    assert line[|name| + 1..] == [' '] + digits;
  }

  lemma FieldLength(name: string, digits: string)
    requires ':' !in name && IsFieldName(name)
    requires digits != [] && AllDigits(digits)
    ensures LineLength(name + [':', ' '] + digits) == Some(Ok(NumeralValue(digits)))
  {
    ValueAfterColon(name, digits, IsFieldName, FieldValue);
    ValueOfDigits(digits);
  }

  lemma LowerCaseName()
    ensures Lower(FIELD) == "content-length"
  {
  }

  lemma NameIsPlain()
    ensures ':' !in FIELD && !IsSpace(FIELD[0]) && !IsSpace(FIELD[|FIELD| - 1])
  {
  }

  lemma FieldName()
    ensures ':' !in FIELD && IsFieldName(FIELD)
  {
    NameIsPlain();
    LowerCaseName();
    TrimmedNameIsField(FIELD);
  }

  lemma TrimmedNameIsField(name: string)
    requires name != [] && !IsSpace(name[0]) && !IsSpace(name[|name| - 1]) && Lower(name) == "content-length"
    ensures IsFieldName(name)
  {
    TrimIsIdentity(name);
  }

  lemma HeaderLineLength(length: nat)
    ensures LinesLength(Lines(HeaderLine(length))) == Ok(length)
  {
    var line := HeaderLine(length);
    LinesOfOneLine(line, 0, 0);
    assert line[0..] == line;
    FieldName();
    FieldLength(FIELD, Numeral(length));
    NumeralRoundTrip(length);
  }

  lemma EncodedFront<M>(body: seq<Byte>, rest: seq<Byte>, parse: seq<Byte> -> Option<M>, m: M)
    requires parse(body) == Some(m)
    ensures ReadFront(Encode(body) + rest, parse) == Frame(m, rest)
  {
    var header := FromAscii(HeaderLine(|body|));
    var buffer := Encode(body) + rest;
    assert buffer[|header|..|header| + 4] == SEPARATOR;
    assert SeparatorAt(buffer, |header|);
    forall i | 0 <= i < |header| ensures !SeparatorAt(buffer, i) {
      assert buffer[i..i + 4][0] == header[i];
    }
    var end := IndexOfSeparator(buffer);
    assert end == |header|;
    assert buffer[..end] == header;
    HeaderLineLength(|body|);
    assert buffer[end + 4..end + 4 + |body|] == body;
    assert buffer[end + 4 + |body|..] == rest;
  }

  lemma {:induction false} DrainStream<M>(bodies: seq<seq<Byte>>, messages: seq<M>, parse: seq<Byte> -> Option<M>)
    requires |bodies| == |messages|
    requires forall i :: 0 <= i < |bodies| ==> parse(bodies[i]) == Some(messages[i])
    ensures Drain(Stream(bodies), parse) == Outcome(messages, [], None)
    decreases bodies
  {
    if bodies != [] {
      EncodedFront(bodies[0], Stream(bodies[1..]), parse, messages[0]);
      DrainStream(bodies[1..], messages[1..], parse);
      assert [messages[0]] + messages[1..] == messages;
    }
  }

  /**
   For every message list, every encoding that `parse` inverts and every split of the encoded
   stream into chunks: the pushes return exactly the messages and the buffer ends empty.
   */
  lemma StreamRoundTrip<M>(messages: seq<M>, encode: M -> seq<Byte>, parse: seq<Byte> -> Option<M>,
                           chunks: seq<seq<Byte>>)
    requires forall m :: m in messages ==> parse(encode(m)) == Some(m)
    requires Flatten(chunks) == Stream(seq(|messages|, i requires 0 <= i < |messages| => encode(messages[i])))
    ensures PushAll([], chunks, parse) == Outcome(messages, [], None)
  {
    var bodies := seq(|messages|, i requires 0 <= i < |messages| => encode(messages[i]));
    DrainStream(bodies, messages, parse);
    ChunkingIsIrrelevant([], chunks, parse);
    assert [] + Flatten(chunks) == Stream(bodies);
  }
}
