/** Content-Length framing over a byte stream: a printer, and an incremental parser over a
    buffer that is fed in arbitrary chunks. */
module Transport {
  import opened Texts
  import opened Options

  datatype Result<+T, +E> = Success(value: T) | Failure(error: E)

  newtype byte = b: int | 0 <= b < 256

  datatype TransportError = MalformedHeader | LengthCount | NotAnInteger | NegativeLength | TooLarge

  const SEPARATOR: seq<byte> := [13, 10, 13, 10]

  // Header text

  /** ASCII decoding with replacement of every other byte. */
  function DecodeAscii(bytes: seq<byte>): (text: string)
    ensures |text| == |bytes|
  {
    seq(|bytes|, i requires 0 <= i < |bytes| => if bytes[i] < 128 then bytes[i] as char else '\U{FFFD}')
  }

  function Ascii(text: string): (bytes: seq<byte>)
    requires forall c | c in text :: c as int < 128
    ensures |bytes| == |text|
  {
    seq(|text|, i requires 0 <= i < |text| => assert text[i] in text; text[i] as int as byte)
  }

  /** Splits at every CR LF pair, scanning from the left. */
  function SplitLines(text: string, i: nat): (lines: seq<string>)
    requires i <= |text|
    ensures |lines| > 0
    decreases |text| - i
  {
    if i + 1 >= |text| then [text]
    else if text[i] == '\r' && text[i+1] == '\n' then [text[..i]] + SplitLines(text[i+2..], 0)
    else SplitLines(text, i + 1)
  }

  function Find(text: string, c: char): (r: Option<nat>)
    ensures r.Some? ==> r.value < |text| && text[r.value] == c && forall j | 0 <= j < r.value :: text[j] != c
    ensures r.None? ==> c !in text
  {
    if text == "" then None
    else if text[0] == c then Some(0)
    else match Find(text[1..], c) case None => None case Some(i) => Some(i + 1)
  }

  predicate IsDigit(c: char) {
    '0' <= c <= '9'
  }

  /** Digits with single underscores between them. */
  function DigitsValue(text: string, acc: nat, afterDigit: bool): Option<nat> {
    if text == "" then if afterDigit then Some(acc) else None
    else if IsDigit(text[0]) then DigitsValue(text[1..], acc * 10 + (text[0] as int - '0' as int), true)
    else if text[0] == '_' && afterDigit then DigitsValue(text[1..], acc, false)
    else None
  }

  function ParseInt(text: string): Option<int> {
    if text == "" then None
    else if text[0] == '-' then
      match DigitsValue(text[1..], 0, false) case None => None case Some(n) => var value: int := n; Some(-value)
    else if text[0] == '+' then DigitsValue(text[1..], 0, false)
    else DigitsValue(text, 0, false)
  }

  /** The values of all Content-Length lines, unless some nonempty line has no colon. */
  function LengthValues(lines: seq<string>): Result<seq<string>, TransportError> {
    if lines == [] then Success([])
    else if lines[0] == "" then LengthValues(lines[1..])
    else match Find(lines[0], ':')
      case None => Failure(MalformedHeader)
      case Some(i) =>
        match LengthValues(lines[1..])
        case Failure(error) => Failure(error)
        case Success(values) =>
          if Lower(lines[0][..i]) == "content-length" then Success([Strip(lines[0][i+1..])] + values)
            else Success(values)
  }

  function Prepend(values: seq<string>, later: Result<seq<string>, TransportError>): Result<seq<string>,
                   TransportError> {
    match later case Failure(error) => Failure(error) case Success(more) => Success(values + more)
  }

  lemma {:induction false} PrependNothing(later: Result<seq<string>, TransportError>)
    ensures Prepend([], later) == later
  {
    match later {
      case Failure(_) =>
      case Success(more) => assert [] + more == more;
    }
  }

  lemma {:induction false} PrependTwice(values: seq<string>, value: string, later: Result<seq<string>, TransportError>)
    ensures Prepend(values, Prepend([value], later)) == Prepend(values + [value], later)
  {
    match later {
      case Failure(_) =>
      case Success(more) => assert values + ([value] + more) == values + [value] + more;
    }
  }

  function CheckLength(values: seq<string>, maxPayloadSize: int): Result<nat, TransportError> {
    if |values| != 1 then Failure(LengthCount)
    else match ParseInt(values[0])
      case None => Failure(NotAnInteger)
      case Some(n) =>
        if n < 0 then Failure(NegativeLength)
        else if n > maxPayloadSize then Failure(TooLarge)
        else Success(n)
  }

  function ContentLength(header: string, maxPayloadSize: int): Result<nat, TransportError> {
    match LengthValues(SplitLines(header, 0))
    case Failure(error) => Failure(error)
    case Success(values) => CheckLength(values, maxPayloadSize)
  }

  // Framing

  predicate SeparatorAt(buffer: seq<byte>, i: nat) {
    i + 4 <= |buffer| && buffer[i..i+4] == SEPARATOR
  }

  function FindSeparator(buffer: seq<byte>, i: nat): (r: Option<nat>)
    requires i <= |buffer|
    ensures r.Some? ==> i <= r.value && SeparatorAt(buffer, r.value) && forall j | i <= j < r.value ::
        !SeparatorAt(buffer, j)
    ensures r.None? ==> forall j | i <= j :: !SeparatorAt(buffer, j)
    decreases |buffer| - i
  {
    if i + 4 > |buffer| then None
    else if SeparatorAt(buffer, i) then Some(i)
    else FindSeparator(buffer, i + 1)
  }

  /** What the front of a buffer holds. */
  datatype Front = NeedMore | Malformed(error: TransportError) | Complete(payloadStart: nat, payloadEnd: nat)

  function NextFrame(buffer: seq<byte>, maxPayloadSize: int): (f: Front)
    ensures f.Complete? ==> 4 <= f.payloadStart <= f.payloadEnd <= |buffer|
  {
    match FindSeparator(buffer, 0)
    case None => NeedMore
    case Some(h) =>
      match ContentLength(DecodeAscii(buffer[..h]), maxPayloadSize)
      case Failure(error) => Malformed(error)
      case Success(n) => if |buffer| < h + 4 + n then NeedMore else Complete(h + 4, h + 4 + n)
  }

  /** All frames at the front of a buffer, their payloads, what is left, and the error that
      stopped the parser, if any. */
  datatype Drained = Drained(messages: seq<seq<byte>>, frames: seq<seq<byte>>, rest: seq<byte>,
    error: Option<TransportError>)

  function Drain(buffer: seq<byte>, maxPayloadSize: int): Drained
    decreases |buffer|
  {
    match NextFrame(buffer, maxPayloadSize)
    case NeedMore => Drained([], [], buffer, None)
    case Malformed(error) => Drained([], [], buffer, Some(error))
    case Complete(from, to) =>
      var d := Drain(buffer[to..], maxPayloadSize);
      d.(messages := [buffer[from..to]] + d.messages, frames := [buffer[..to]] + d.frames)
  }

  lemma {:induction false} DrainUnfolds(buffer: seq<byte>, maxPayloadSize: int)
    ensures var d := Drain(buffer, maxPayloadSize);
            match FindSeparator(buffer, 0)
            case None => d.messages == [] && d.rest == buffer && d.error.None?
            case Some(h) =>
              h + 4 <= |buffer| &&
              match ContentLength(DecodeAscii(buffer[..h]), maxPayloadSize)
              case Failure(error) => d.messages == [] && d.rest == buffer && d.error == Some(error)
              case Success(n) =>
                if |buffer| < h + 4 + n then d.messages == [] && d.rest == buffer && d.error.None?
                else
                  var later := Drain(buffer[h+4+n..], maxPayloadSize);
                  && d.messages == [buffer[h+4..h+4+n]] + later.messages
                  && d.rest == later.rest && d.error == later.error
  {
    hide ContentLength;
  }

  function Concat(chunks: seq<seq<byte>>): seq<byte> {
    if chunks == [] then [] else chunks[0] + Concat(chunks[1..])
  }

  /** A whole session of feed calls; it ends with the first call that raises, and that
      call's messages are lost. */
  datatype Session = Session(delivered: seq<seq<byte>>, rest: seq<byte>, error: Option<TransportError>)

  function FeedAll(buffer: seq<byte>, chunks: seq<seq<byte>>, maxPayloadSize: int): Session
    decreases |chunks|
  {
    if chunks == [] then Session([], buffer, None)
    else
      var d := Drain(buffer + chunks[0], maxPayloadSize);
      if d.error.Some? then Session([], d.rest, d.error)
      else
        var s := FeedAll(d.rest, chunks[1..], maxPayloadSize);
        s.(delivered := d.messages + s.delivered)
  }

  class ContentLengthDecoder {
    var buffer: seq<byte>
    const maxPayloadSize: int

    constructor (maxPayloadSize: int)
      ensures buffer == [] && this.maxPayloadSize == maxPayloadSize
    {
      buffer := [];
      this.maxPayloadSize := maxPayloadSize;
    }

    method Feed(data: seq<byte>) returns (r: Result<seq<seq<byte>>, TransportError>)
      modifies this
      ensures var d := Drain(old(buffer) + data, maxPayloadSize);
              && buffer == d.rest
              && r == if d.error.Some? then Failure(d.error.value) else Success(d.messages)
    {
      hide ContentLength, Drain, NextFrame, FindSeparator;
      buffer := buffer + data;
      ghost var whole := buffer;
      var messages: seq<seq<byte>> := [];
      while true
        invariant Drain(whole, maxPayloadSize).messages == messages + Drain(buffer, maxPayloadSize).messages
        invariant Drain(whole, maxPayloadSize).rest == Drain(buffer, maxPayloadSize).rest
        invariant Drain(whole, maxPayloadSize).error == Drain(buffer, maxPayloadSize).error
        decreases |buffer|
      {
        DrainUnfolds(buffer, maxPayloadSize);
        assert messages + [] == messages;
        var headerEnd := FindSeparator(buffer, 0);
        if headerEnd.None? { return Success(messages); }
        var contentLength := ParseContentLength(DecodeAscii(buffer[..headerEnd.value]));
        if contentLength.Failure? { return Failure(contentLength.error); }
        var payloadStart := headerEnd.value + |SEPARATOR|;
        var payloadEnd := payloadStart + contentLength.value;
        if |buffer| < payloadEnd { return Success(messages); }
        messages := messages + [buffer[payloadStart..payloadEnd]];
        buffer := buffer[payloadEnd..];
      }
    }

    method ParseContentLength(header: string) returns (r: Result<nat, TransportError>)
      ensures r == ContentLength(header, maxPayloadSize)
    {
      var lines := SplitLines(header, 0);
      var lengthValues: seq<string> := [];
      assert lines[0..] == lines;
      PrependNothing(LengthValues(lines));
      var i := 0;
      while i < |lines|
        invariant 0 <= i <= |lines|
        invariant LengthValues(lines) == Prepend(lengthValues, LengthValues(lines[i..]))
      {
        var line := lines[i];
        assert lines[i..][0] == line && lines[i..][1..] == lines[i+1..];
        i := i + 1;
        if line == "" { continue; }
        var colon := Find(line, ':');
        if colon.None? { return Failure(MalformedHeader); }
        if Lower(line[..colon.value]) == "content-length" {
          var value := Strip(line[colon.value+1..]);
          PrependTwice(lengthValues, value, LengthValues(lines[i..]));
          lengthValues := lengthValues + [value];
        }
      }
      assert lengthValues + [] == lengthValues;
      return CheckLength(lengthValues, maxPayloadSize);
    }
  }

  // Chunk independence

  lemma {:induction false} SeparatorStays(a: seq<byte>, b: seq<byte>)
    requires FindSeparator(a, 0).Some?
    ensures FindSeparator(a + b, 0) == FindSeparator(a, 0)
  {
    var h := FindSeparator(a, 0).value;
    assert (a + b)[h..h+4] == a[h..h+4];
    assert h + 4 <= |a|;
    forall j | 0 <= j < h ensures !SeparatorAt(a + b, j) {
      assert !SeparatorAt(a, j);
      assert (a + b)[j..j+4] == a[j..j+4];
    }
    assert SeparatorAt(a + b, h);
  }

  /** A decision taken on a buffer is not changed by bytes that arrive later. */
  lemma {:induction false} NextFrameStays(a: seq<byte>, b: seq<byte>, maxPayloadSize: int)
    requires !NextFrame(a, maxPayloadSize).NeedMore?
    ensures NextFrame(a + b, maxPayloadSize) == NextFrame(a, maxPayloadSize)
  {
    SeparatorStays(a, b);
    var h := FindSeparator(a, 0).value;
    assert (a + b)[..h] == a[..h];
  }

  lemma {:induction false} DrainSplits(a: seq<byte>, b: seq<byte>, maxPayloadSize: int)
    ensures var first := Drain(a, maxPayloadSize);
            var whole := Drain(a + b, maxPayloadSize);
            if first.error.Some? then
              whole.error == first.error && whole.messages == first.messages
            else
              var second := Drain(first.rest + b, maxPayloadSize);
              whole.messages == first.messages + second.messages && whole.rest == second.rest
                && whole.error == second.error
    decreases |a|
  {
    hide NextFrame;
    match NextFrame(a, maxPayloadSize) {
      case NeedMore =>
      case Malformed(error) => NextFrameStays(a, b, maxPayloadSize);
      case Complete(from, to) =>
        NextFrameStays(a, b, maxPayloadSize);
        assert (a + b)[to..] == a[to..] + b;
        assert (a + b)[from..to] == a[from..to];
        DrainSplits(a[to..], b, maxPayloadSize);
    }
  }

  lemma {:induction false} SessionSplits(buffer: seq<byte>, chunks: seq<seq<byte>>, maxPayloadSize: int)
    requires NextFrame(buffer, maxPayloadSize).NeedMore?
    ensures var s := FeedAll(buffer, chunks, maxPayloadSize);
            var whole := Drain(buffer + Concat(chunks), maxPayloadSize);
            && s.error == whole.error
            && s.delivered <= whole.messages
            && (s.error.None? ==> s.delivered == whole.messages && s.rest == whole.rest)
    decreases |chunks|
  {
    if chunks == [] {
      assert buffer + Concat(chunks) == buffer;
    } else {
      var first := Drain(buffer + chunks[0], maxPayloadSize);
      assert buffer + Concat(chunks) == (buffer + chunks[0]) + Concat(chunks[1..]);
      DrainSplits(buffer + chunks[0], Concat(chunks[1..]), maxPayloadSize);
      if first.error.None? {
        RestNeedsMore(buffer + chunks[0], maxPayloadSize);
        SessionSplits(first.rest, chunks[1..], maxPayloadSize);
      }
    }
  }

  lemma {:induction false} RestNeedsMore(buffer: seq<byte>, maxPayloadSize: int)
    requires Drain(buffer, maxPayloadSize).error.None?
    ensures NextFrame(Drain(buffer, maxPayloadSize).rest, maxPayloadSize).NeedMore?
    decreases |buffer|
  {
    var f := NextFrame(buffer, maxPayloadSize);
    if f.Complete? {
      RestNeedsMore(buffer[f.payloadEnd..], maxPayloadSize);
    }
  }

  /** Two ways of cutting the same bytes into feed calls raise the same error or none at all;
      if none, they deliver the same messages and leave the same bytes in the buffer. */
  lemma {:induction false} ChunksDoNotMatter(chunks1: seq<seq<byte>>, chunks2: seq<seq<byte>>, maxPayloadSize: int)
    requires Concat(chunks1) == Concat(chunks2)
    ensures var s1, s2 := FeedAll([], chunks1, maxPayloadSize), FeedAll([], chunks2, maxPayloadSize);
            && s1.error == s2.error
            && (s1.error.None? ==> s1 == s2)
  {
    SessionSplits([], chunks1, maxPayloadSize);
    SessionSplits([], chunks2, maxPayloadSize);
  }

  /** A frame is a header, a separator and the message. */
  predicate Carries(frame: seq<byte>, message: seq<byte>) {
    && |message| + 4 <= |frame|
    && frame[|frame| - |message|..] == message
    && SeparatorAt(frame, |frame| - |message| - 4)
  }

  predicate AllCarry(frames: seq<seq<byte>>, messages: seq<seq<byte>>) {
    |frames| == |messages| && forall i | 0 <= i < |frames| :: Carries(frames[i], messages[i])
  }

  /** No byte is invented or dropped: the consumed frames and the rest are the input, and
      every message is the payload at the end of its frame. */
  lemma {:induction false} BytesAreConserved(buffer: seq<byte>, maxPayloadSize: int)
    ensures var d := Drain(buffer, maxPayloadSize);
            Concat(d.frames) + d.rest == buffer && AllCarry(d.frames, d.messages)
    decreases |buffer|
  {
    hide NextFrame, Carries;
    var f := NextFrame(buffer, maxPayloadSize);
    if f.Complete? {
      BytesAreConserved(buffer[f.payloadEnd..], maxPayloadSize);
      FrameEndsInPayload(buffer, maxPayloadSize);
      var d := Drain(buffer[f.payloadEnd..], maxPayloadSize);
      ConcatCons(buffer[..f.payloadEnd], d.frames, d.rest);
    }
  }

  lemma {:induction false} ConcatCons(frame: seq<byte>, frames: seq<seq<byte>>, rest: seq<byte>)
    ensures Concat([frame] + frames) + rest == frame + (Concat(frames) + rest)
  {
    assert ([frame] + frames)[1..] == frames;
  }

  /** After any session that raises nothing, the fed bytes are the delivered messages' frames
      followed by the buffer. */
  lemma {:induction false} SessionConservesBytes(chunks: seq<seq<byte>>, maxPayloadSize: int)
    requires FeedAll([], chunks, maxPayloadSize).error.None?
    ensures var s := FeedAll([], chunks, maxPayloadSize);
            var frames := Drain(Concat(chunks), maxPayloadSize).frames;
            Concat(chunks) == Concat(frames) + s.rest && AllCarry(frames, s.delivered)
  {
    SessionSplits([], chunks, maxPayloadSize);
    assert [] + Concat(chunks) == Concat(chunks);
    BytesAreConserved(Concat(chunks), maxPayloadSize);
  }

  lemma {:induction false} FrameEndsInPayload(buffer: seq<byte>, maxPayloadSize: int)
    ensures var f := NextFrame(buffer, maxPayloadSize);
            f.Complete? ==>
              Carries(buffer[..f.payloadEnd], buffer[f.payloadStart..f.payloadEnd])
  {
    hide ContentLength;
    var f := NextFrame(buffer, maxPayloadSize);
    if f.Complete? {
      var h := f.payloadStart - 4;
      assert buffer[..f.payloadEnd][h..h+4] == buffer[h..h+4];
    }
  }

  // Round trip

  function Decimal(n: nat): (text: string)
    ensures |text| > 0 && forall c | c in text :: IsDigit(c)
  {
    var digit := [(n % 10 + '0' as int) as char];
    if n < 10 then digit else Decimal(n / 10) + digit
  }

  const LENGTH_NAME := "Content-Length: "

  function HeaderText(n: nat): (text: string)
    ensures forall c | c in text :: c as int < 128 && c != '\r'
  {
    LENGTH_NAME + Decimal(n)
  }

  function EncodeFrame(payload: seq<byte>): seq<byte> {
    Ascii(HeaderText(|payload|)) + SEPARATOR + payload
  }

  function EncodeAll(payloads: seq<seq<byte>>): seq<byte> {
    if payloads == [] then [] else EncodeFrame(payloads[0]) + EncodeAll(payloads[1..])
  }

  lemma {:induction false} DecimalIsParsed(n: nat, tail: string)
    ensures DigitsValue(Decimal(n) + tail, 0, false) == DigitsValue(tail, n, true)
    decreases n
  {
    var digit := [(n % 10 + '0' as int) as char];
    if n < 10 {
      assert (digit + tail)[1..] == tail;
    } else {
      assert Decimal(n) + tail == Decimal(n / 10) + (digit + tail);
      DecimalIsParsed(n / 10, digit + tail);
      assert (digit + tail)[1..] == tail;
    }
  }

  lemma {:induction false} NoBreakNoSplit(text: string, i: nat)
    requires i <= |text| && '\r' !in text
    ensures SplitLines(text, i) == [text]
    decreases |text| - i
  {
    if i + 1 < |text| {
      NoBreakNoSplit(text, i + 1);
    }
  }

  lemma {:induction false} OneLengthLine(text: string, value: string)
    requires text != "" && Find(text, ':') == Some(14)
    requires Lower(text[..14]) == "content-length" && Strip(text[15..]) == value
    ensures LengthValues([text]) == Success([value])
  {
    assert [text][1..] == [];
    assert LengthValues([text][1..]) == Success([]);
    assert [value] + [] == [value];
  }

  lemma {:induction false} HeaderIsParsed(n: nat, maxPayloadSize: int)
    ensures ContentLength(HeaderText(n), maxPayloadSize) == if n > maxPayloadSize then Failure(TooLarge) else Success(n)
  {
    var text := HeaderText(n);
    var digits := Decimal(n);
    NoBreakNoSplit(text, 0);
    assert text[14] == ':' && forall j | 0 <= j < 14 :: text[j] != ':';
    assert Find(text, ':') == Some(14);
    assert Lower(text[..14]) == "content-length" by {
      assert text[..14] == "Content-Length";
    }
    assert text[15..] == " " + digits;
    assert (" " + digits)[1..] == digits;
    assert digits[0] in digits && digits[|digits|-1] in digits;
    assert TrimLeft(text[15..], IsSpace) == TrimLeft(digits, IsSpace) == digits && Strip(text[15..]) == digits;
    assert digits + "" == digits;
    DecimalIsParsed(n, "");
    assert ParseInt(digits) == Some(n);
    OneLengthLine(text, digits);
  }

  lemma {:induction false} AsciiRoundTrip(text: string)
    requires forall c | c in text :: c as int < 128
    ensures DecodeAscii(Ascii(text)) == text
  {
    forall i | 0 <= i < |text| ensures DecodeAscii(Ascii(text))[i] == text[i] {
      assert text[i] in text;
    }
  }

  lemma {:induction false} SeparatorStartsWithReturn(buffer: seq<byte>, i: nat)
    requires i < |buffer|
    ensures SeparatorAt(buffer, i) ==> buffer[i] == 13
  {
    if SeparatorAt(buffer, i) {
      assert buffer[i] == buffer[i..i+4][0];
    }
  }

  /** A printed header holds no carriage return, so the first separator is its own, whatever
      the payload contains. */
  lemma {:induction false} FirstSeparator(n: nat, tail: seq<byte>)
    ensures FindSeparator(Ascii(HeaderText(n)) + SEPARATOR + tail, 0) == Some(|HeaderText(n)|)
  {
    var text := HeaderText(n);
    var buffer := Ascii(text) + SEPARATOR + tail;
    assert buffer[|text|..|text|+4] == SEPARATOR;
    forall j | 0 <= j < |text| ensures !SeparatorAt(buffer, j) {
      assert text[j] in text;
      SeparatorStartsWithReturn(buffer, j);
    }
    assert SeparatorAt(buffer, |text|);
  }

  lemma {:induction false} NextEncoded(payload: seq<byte>, tail: seq<byte>, maxPayloadSize: int)
    ensures NextFrame(EncodeFrame(payload) + tail, maxPayloadSize) ==
            if |payload| > maxPayloadSize then Malformed(TooLarge)
            else Complete(|EncodeFrame(payload)| - |payload|, |EncodeFrame(payload)|)
    ensures (EncodeFrame(payload) + tail)[|EncodeFrame(payload)| - |payload|..|EncodeFrame(payload)|] == payload
    ensures (EncodeFrame(payload) + tail)[|EncodeFrame(payload)|..] == tail
  {
    var text := HeaderText(|payload|);
    var buffer := EncodeFrame(payload) + tail;
    assert buffer == Ascii(text) + SEPARATOR + (payload + tail);
    FirstSeparator(|payload|, payload + tail);
    assert buffer[..|text|] == Ascii(text);
    AsciiRoundTrip(text);
    HeaderIsParsed(|payload|, maxPayloadSize);
  }

  /** A frame that has not arrived completely is waited for, not misread. */
  lemma {:induction false} IncompleteFrameWaits(payload: seq<byte>, n: nat, maxPayloadSize: int)
    requires |payload| <= maxPayloadSize && n < |EncodeFrame(payload)|
    ensures NextFrame(EncodeFrame(payload)[..n], maxPayloadSize).NeedMore?
  {
    var part, rest := EncodeFrame(payload)[..n], EncodeFrame(payload)[n..];
    assert part + rest == EncodeFrame(payload) == EncodeFrame(payload) + [];
    NextEncoded(payload, [], maxPayloadSize);
    if !NextFrame(part, maxPayloadSize).NeedMore? {
      NextFrameStays(part, rest, maxPayloadSize);
    }
  }

  predicate AllWithin(payloads: seq<seq<byte>>, maxPayloadSize: int) {
    forall i | 0 <= i < |payloads| :: |payloads[i]| <= maxPayloadSize
  }

  /** Draining printed frames followed by an incomplete one gives back exactly the complete
      payloads and leaves exactly the incomplete bytes. */
  lemma {:induction false} DrainEncoded(payloads: seq<seq<byte>>, last: seq<byte>, n: nat, maxPayloadSize: int)
    requires AllWithin(payloads, maxPayloadSize) && |last| <= maxPayloadSize && n < |EncodeFrame(last)|
    ensures var d := Drain(EncodeAll(payloads) + EncodeFrame(last)[..n], maxPayloadSize);
            d.messages == payloads && d.rest == EncodeFrame(last)[..n] && d.error.None?
    decreases |payloads|
  {
    hide EncodeFrame, NextFrame;
    var part := EncodeFrame(last)[..n];
    if payloads == [] {
      assert EncodeAll(payloads) + part == part;
      IncompleteFrameWaits(last, n, maxPayloadSize);
    } else {
      var tail := EncodeAll(payloads[1..]) + part;
      assert EncodeAll(payloads) + part == EncodeFrame(payloads[0]) + tail;
      NextEncoded(payloads[0], tail, maxPayloadSize);
      DrainEncoded(payloads[1..], last, n, maxPayloadSize);
    }
  }

  /** Printing payloads and feeding the bytes in any chunks returns the payloads and leaves
      nothing behind, exactly when every payload is within the decoder's limit; otherwise
      the decoder raises the size error. */
  lemma {:induction false} RoundTrip(payloads: seq<seq<byte>>, chunks: seq<seq<byte>>, maxPayloadSize: int)
    requires Concat(chunks) == EncodeAll(payloads)
    ensures var s := FeedAll([], chunks, maxPayloadSize);
            && (AllWithin(payloads, maxPayloadSize) <==> s == Session(payloads, [], None))
            && (!AllWithin(payloads, maxPayloadSize) <==> s.error == Some(TooLarge))
            && (s.error.None? || s.error == Some(TooLarge))
  {
    SessionSplits([], chunks, maxPayloadSize);
    assert [] + Concat(chunks) == EncodeAll(payloads);
    NothingWithinNegativeLimit(payloads, maxPayloadSize);
    if AllWithin(payloads, maxPayloadSize) {
      if maxPayloadSize >= 0 {
        DrainEncoded(payloads, [], 0, maxPayloadSize);
        assert EncodeAll(payloads) + EncodeFrame([])[..0] == EncodeAll(payloads);
      }
    } else {
      OversizeRaises(payloads, maxPayloadSize);
    }
  }

  lemma {:induction false} NothingWithinNegativeLimit(payloads: seq<seq<byte>>, maxPayloadSize: int)
    ensures |payloads| > 0 && maxPayloadSize < 0 ==> !AllWithin(payloads, maxPayloadSize)
  {
    if |payloads| > 0 {
      assert |payloads[0]| >= 0;
    }
  }

  lemma {:induction false} OversizeRaises(payloads: seq<seq<byte>>, maxPayloadSize: int)
    requires !AllWithin(payloads, maxPayloadSize)
    ensures Drain(EncodeAll(payloads), maxPayloadSize).error == Some(TooLarge)
    decreases |payloads|
  {
    NextEncoded(payloads[0], EncodeAll(payloads[1..]), maxPayloadSize);
    if |payloads[0]| <= maxPayloadSize {
      assert !AllWithin(payloads[1..], maxPayloadSize) by {
        var i :| 0 <= i < |payloads| && |payloads[i]| > maxPayloadSize;
        assert payloads[1..][i-1] == payloads[i];
      }
      OversizeRaises(payloads[1..], maxPayloadSize);
    }
  }
}
