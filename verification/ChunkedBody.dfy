/** The chunked-body reader of the TLS proxy (orchestrator/alphaclaw_tls_proxy.py:754-786) and the coding it
    reads (section 7.1 of RFC 9112). */
module ChunkedBody {
  import opened Prelude

  type Byte = x: int | 0 <= x < 256
  type Bytes = seq<Byte>

  const TAB: Byte := 9
  const LF: Byte := 10
  const CR: Byte := 13
  const SPACE: Byte := 32
  const PLUS: Byte := 43
  const MINUS: Byte := 45
  const ZERO: Byte := 48
  const SEMICOLON: Byte := 59
  const UNDERSCORE: Byte := 95

  // ---- what the reader uses of the stream and of Python's byte strings ----

  /** The length of the line at the front, its line feed included when there is one. */
  function LineLength(s: Bytes): (n: nat)
    ensures n <= |s| && (s != [] ==> n > 0)
  {
    if s == [] then 0 else if s[0] == LF then 1 else 1 + LineLength(s[1..])
  }

  function AfterLine(s: Bytes): (rest: Bytes)
    ensures |rest| <= |s|
  {
    s[LineLength(s)..]
  }

  predicate IsSpace(b: Byte) {
    TAB <= b <= CR || b == SPACE
  }

  function TrimStart(s: Bytes): Bytes {
    if s != [] && IsSpace(s[0]) then TrimStart(s[1..]) else s
  }

  function TrimEnd(s: Bytes): Bytes {
    if s != [] && IsSpace(s[|s| - 1]) then TrimEnd(s[..|s| - 1]) else s
  }

  /** Everything before the first semicolon. */
  function BeforeSemicolon(s: Bytes): Bytes {
    if s == [] || s[0] == SEMICOLON then [] else [s[0]] + BeforeSemicolon(s[1..])
  }

  predicate IsHexDigit(b: Byte) {
    48 <= b <= 57 || 65 <= b <= 70 || 97 <= b <= 102
  }

  function DigitValue(b: Byte): nat
    requires IsHexDigit(b)
  {
    if b <= 57 then b - 48 else if b <= 70 then b - 55 else b - 87
  }

  /** The value of hexadecimal digits, underscores ignored. */
  function HexValue(s: Bytes): nat {
    if s == [] then 0
    else
      var high := HexValue(s[..|s| - 1]);
      var last := s[|s| - 1];
      if IsHexDigit(last) then 16 * high + DigitValue(last) else high
  }

  /** How many leading bytes are digits or underscores. */
  function DigitRun(s: Bytes): (n: nat)
    ensures n <= |s|
    ensures forall i :: 0 <= i < n ==> IsHexDigit(s[i]) || s[i] == UNDERSCORE
    ensures n < |s| ==> !IsHexDigit(s[n]) && s[n] != UNDERSCORE
  {
    if s != [] && (IsHexDigit(s[0]) || s[0] == UNDERSCORE) then 1 + DigitRun(s[1..]) else 0
  }

  /** An underscore must stand between two digits. */
  predicate UnderscoresOk(s: Bytes) {
    forall i :: 0 <= i < |s| && s[i] == UNDERSCORE ==> 0 < i < |s| - 1 && s[i - 1] != UNDERSCORE
  }

  function SkipPrefix(s: Bytes): Bytes {
    if |s| >= 2 && s[0] == ZERO && (s[1] == 120 || s[1] == 88) then
      if |s| >= 3 && s[2] == UNDERSCORE then s[3..] else s[2..]
    else s
  }

  /** Python's int(s, 16): white space around, a sign, an 0x prefix and single underscores between
      digits are all accepted. */
  function ParseHex(s: Bytes): Option<int> {
    var t := TrimStart(s);
    var signed := t != [] && (t[0] == PLUS || t[0] == MINUS);
    var digits := SkipPrefix(if signed then t[1..] else t);
    var n := DigitRun(digits);
    if n == 0 || !UnderscoresOk(digits[..n]) || TrimStart(digits[n..]) != [] then None
    else
      var value: int := HexValue(digits[..n]);
      Some(if signed && t[0] == MINUS then -value else value)
  }

  // ---- the reader ----

  datatype FramingError = Truncated | Malformed | TooLarge

  datatype Decoded = Body(data: Bytes, rest: Bytes) | Broken(error: FramingError)

  /** The size on a chunk-size line; None for a blank line or anything that is not a hexadecimal number. */
  function ChunkSize(line: Bytes): Option<int> {
    var stripped := TrimEnd(TrimStart(line));
    if stripped == [] then None else ParseHex(BeforeSemicolon(stripped))
  }

  /** Decode what is left of the stream when `total` bytes of body have been announced so far. */
  function Decode(s: Bytes, total: nat, limit: int): Decoded
    decreases |s|
  {
    if s == [] then Broken(Truncated)
    else
      var n := LineLength(s);
      var size := ChunkSize(s[..n]);
      if size.None? || size.value < 0 then Broken(Malformed)
      else if size.value == 0 then Body([], AfterLine(s[n..]))
      else if total + size.value > limit then Broken(TooLarge)
      else if |s| - n < size.value then Broken(Truncated)
      else
        match Decode(AfterLine(s[n + size.value..]), total + size.value, limit)
        case Body(data, rest) => Body(s[n..n + size.value] + data, rest)
        case Broken(error) => Broken(error)
  }

  function Join(chunks: seq<Bytes>): Bytes {
    if chunks == [] then [] else Join(chunks[..|chunks| - 1]) + chunks[|chunks| - 1]
  }

  /** `rest` read after `front`. */
  function Prepend(front: Bytes, d: Decoded): Decoded {
    match d
    case Body(data, rest) => Body(front + data, rest)
    case Broken(error) => Broken(error)
  }

  lemma JoinOne(chunks: seq<Bytes>, chunk: Bytes)
    ensures Join(chunks + [chunk]) == Join(chunks) + chunk
  {
    assert (chunks + [chunk])[..|chunks|] == chunks;
  }

  lemma PrependTwice(a: Bytes, b: Bytes, d: Decoded)
    ensures Prepend(a, Prepend(b, d)) == Prepend(a + b, d)
  {
    if d.Body? {
      assert a + (b + d.data) == (a + b) + d.data;
    }
  }

  lemma PrependNothing(d: Decoded)
    ensures Prepend([], d) == d
  {
    if d.Body? {
      assert [] + d.data == d.data;
    }
  }

  /** What one turn of the reader amounts to. */
  lemma LastStep(s: Bytes, total: nat, limit: int)
    requires s != [] && ChunkSize(s[..LineLength(s)]) == Some(0)
    ensures Decode(s, total, limit) == Body([], AfterLine(s[LineLength(s)..]))
  {
    hide ChunkSize;
    hide AfterLine;
  }

  lemma BadStep(s: Bytes, total: nat, limit: int)
    requires s != []
    ensures
      var size := ChunkSize(s[..LineLength(s)]);
      && (size.None? || size.value < 0 ==> Decode(s, total, limit) == Broken(Malformed))
      && (size.Some? && size.value > 0 && total + size.value > limit ==> Decode(s, total, limit) == Broken(TooLarge))
      && (size.Some? && size.value > 0 && total + size.value <= limit && |s| - LineLength(s) < size.value ==>
            Decode(s, total, limit) == Broken(Truncated))
  {
    hide ChunkSize;
    hide AfterLine;
  }

  lemma ChunkStep(s: Bytes, total: nat, limit: int, size: nat)
    requires s != [] && ChunkSize(s[..LineLength(s)]) == Some(size) && size > 0 && total + size <= limit
    requires LineLength(s) + size <= |s|
    ensures
      var n := LineLength(s);
      Decode(s, total, limit) == Prepend(s[n..n + size], Decode(AfterLine(s[n + size..]), total + size, limit))
  {
    hide ChunkSize;
    hide AfterLine;
  }

  /** The reader loop. `stream` is what has not been read yet. */
  method ReadChunkedBody(input: Bytes, limit: int) returns (d: Decoded)
    ensures d == Decode(input, 0, limit)
  {
    hide ChunkSize;
    hide Decode;
    hide LineLength;
    hide AfterLine;
    hide Join;
    var chunks: seq<Bytes> := [];
    var total := 0;
    var stream := input;
    JoinNothing();
    PrependNothing(Decode(input, 0, limit));
    while stream != []
      invariant total >= 0
      invariant Decode(input, 0, limit) == Prepend(Join(chunks), Decode(stream, total, limit))
      decreases |stream|
    {
      BadStep(stream, total, limit);
      var n := LineLength(stream);
      var size := ChunkSize(stream[..n]);
      if size.None? || size.value < 0 {
        return Broken(Malformed);
      }
      if size.value == 0 {
        LastStep(stream, total, limit);
        assert Join(chunks) + [] == Join(chunks);
        return Body(Join(chunks), AfterLine(stream[n..]));
      }
      if total + size.value > limit {
        return Broken(TooLarge);
      }
      if |stream| - n < size.value {
        return Broken(Truncated);
      }
      ChunkStep(stream, total, limit, size.value);
      var data := stream[n..n + size.value];
      total := total + size.value;
      stream := AfterLine(stream[n + size.value..]);
      JoinOne(chunks, data);
      PrependTwice(Join(chunks), data, Decode(stream, total, limit));
      chunks := chunks + [data];
    }
    EndOfStream(total, limit);
    return Broken(Truncated);
  }

  lemma JoinNothing()
    ensures Join([]) == []
  {
  }

  lemma EndOfStream(total: nat, limit: int)
    ensures Decode([], total, limit) == Broken(Truncated)
  {
  }

  // ---- any input ----

  ghost predicate IsSuffix(rest: Bytes, s: Bytes) {
    |rest| <= |s| && s[|s| - |rest|..] == rest
  }

  lemma AfterLineIsSuffix(s: Bytes, n: nat)
    requires n <= |s|
    ensures IsSuffix(AfterLine(s[n..]), s)
  {
  }

  lemma SuffixOfSuffix(a: Bytes, b: Bytes, c: Bytes)
    requires IsSuffix(a, b) && IsSuffix(b, c)
    ensures IsSuffix(a, c)
  {
    assert c[|c| - |a|..] == c[|c| - |b|..][|b| - |a|..];
  }

  /** The body stays within the limit, and `d` leaves a suffix of the stream. */
  ghost predicate Bounded(d: Decoded, s: Bytes, total: nat, limit: int) {
    d.Body? ==> (d.data == [] || total + |d.data| <= limit) && IsSuffix(d.rest, s)
  }

  /** Whatever the input, the body is within the limit, and what was not consumed is a suffix of it. */
  lemma {:induction false} DecodeIsBounded(s: Bytes, total: nat, limit: int)
    ensures Bounded(Decode(s, total, limit), s, total, limit)
    decreases |s|
  {
    hide ChunkSize;
    hide IsSuffix;
    hide AfterLine;
    if s != [] {
      var n := LineLength(s);
      var size := ChunkSize(s[..n]);
      if size == Some(0) {
        AfterLineIsSuffix(s, n);
      } else if size.Some? && 0 < size.value <= |s| - n && total + size.value <= limit {
        var more := AfterLine(s[n + size.value..]);
        AfterLineIsSuffix(s, n + size.value);
        DecodeIsBounded(more, total + size.value, limit);
        var d := Decode(more, total + size.value, limit);
        if d.Body? {
          SuffixOfSuffix(d.rest, more, s);
        }
      }
    }
  }

  // ---- the coding ----

  /** One chunk as it may be written: size digits, an extension that starts with a semicolon after
      optional blanks, and the data. */
  datatype Chunk = Chunk(digits: Bytes, ext: Bytes, data: Bytes)

  ghost predicate DigitsOk(digits: Bytes) {
    digits != [] && forall i :: 0 <= i < |digits| ==> IsHexDigit(digits[i])
  }

  predicate IsBlank(b: Byte) {
    b == SPACE || b == TAB
  }

  ghost predicate ExtOk(ext: Bytes) {
    && (forall i :: 0 <= i < |ext| ==> ext[i] != LF)
    && (ext == [] || exists k :: 0 <= k < |ext| && ext[k] == SEMICOLON && forall i :: 0 <= i < k ==> IsBlank(ext[i]))
  }

  ghost predicate ChunkOk(c: Chunk) {
    DigitsOk(c.digits) && ExtOk(c.ext) && HexValue(c.digits) == |c.data| && c.data != []
  }

  function SizeLine(digits: Bytes, ext: Bytes): Bytes {
    digits + ext + [CR, LF]
  }

  /** How the message ends: the zeros and extension of the last chunk, and the trailer fields. */
  datatype Ending = Ending(zeros: Bytes, ext: Bytes, trailers: seq<Bytes>)

  ghost predicate EndingOk(e: Ending) {
    && DigitsOk(e.zeros) && HexValue(e.zeros) == 0 && ExtOk(e.ext)
    && (forall i :: 0 <= i < |e.trailers| ==> LF !in e.trailers[i])
  }

  /** The trailer section with the empty line that closes it. */
  function Section(trailers: seq<Bytes>): (section: Bytes)
    ensures |section| > 0
  {
    if trailers == [] then [CR, LF] else trailers[0] + [CR, LF] + Section(trailers[1..])
  }

  function Encode(chunks: seq<Chunk>, e: Ending): Bytes {
    if chunks == [] then SizeLine(e.zeros, e.ext) + Section(e.trailers)
    else SizeLine(chunks[0].digits, chunks[0].ext) + chunks[0].data + [CR, LF] + Encode(chunks[1..], e)
  }

  /** What the reader, which takes one line after the last chunk, leaves of the trailer section. */
  function Leftover(trailers: seq<Bytes>): Bytes {
    if trailers == [] then [] else Section(trailers[1..])
  }

  function BodyOf(chunks: seq<Chunk>): Bytes {
    if chunks == [] then [] else chunks[0].data + BodyOf(chunks[1..])
  }

  // ---- one size line ----

  lemma {:induction false} LineEnds(line: Bytes, rest: Bytes)
    requires forall i :: 0 <= i < |line| ==> line[i] != LF
    ensures LineLength(line + [LF] + rest) == |line| + 1
  {
    var s := line + [LF] + rest;
    if line == [] {
      assert s[0] == LF;
    } else {
      assert s[0] == line[0] && s[1..] == line[1..] + [LF] + rest;
      LineEnds(line[1..], rest);
    }
  }

  lemma {:induction false} TrimEndTo(s: Bytes, ws: Bytes)
    requires forall i :: 0 <= i < |ws| ==> IsSpace(ws[i])
    ensures TrimEnd(s + ws) == TrimEnd(s)
  {
    if ws == [] {
      assert s + ws == s;
    } else {
      var n := |ws| - 1;
      assert (s + ws)[..|s + ws| - 1] == s + ws[..n];
      TrimEndTo(s, ws[..n]);
    }
  }

  /** Trimming never reaches past a byte that is not white space. */
  lemma {:induction false} TrimEndStops(front: Bytes, back: Bytes) returns (kept: Bytes)
    requires front != [] && !IsSpace(front[|front| - 1])
    ensures TrimEnd(front + back) == front + kept
  {
    if back == [] {
      assert front + back == front;
      kept := [];
      assert front + kept == front;
    } else {
      var n := |back| - 1;
      var s := front + back;
      assert s[..|s| - 1] == front + back[..n];
      if IsSpace(back[n]) {
        kept := TrimEndStops(front, back[..n]);
      } else {
        kept := back;
      }
    }
  }

  lemma {:induction false} AllBlankTrims(ws: Bytes)
    requires forall i :: 0 <= i < |ws| ==> IsSpace(ws[i])
    ensures TrimStart(ws) == []
  {
    if ws != [] {
      AllBlankTrims(ws[1..]);
    }
  }

  lemma {:induction false} CutsAtSemicolon(front: Bytes, back: Bytes)
    requires forall i :: 0 <= i < |front| ==> front[i] != SEMICOLON
    requires back == [] || back[0] == SEMICOLON
    ensures BeforeSemicolon(front + back) == front
  {
    if front == [] {
      assert front + back == back;
    } else {
      assert (front + back)[1..] == front[1..] + back;
      CutsAtSemicolon(front[1..], back);
    }
  }

  lemma {:induction false} RunOfDigits(digits: Bytes, ws: Bytes)
    requires forall i :: 0 <= i < |digits| ==> IsHexDigit(digits[i])
    requires forall i :: 0 <= i < |ws| ==> IsBlank(ws[i])
    ensures DigitRun(digits + ws) == |digits|
  {
    if digits == [] {
      assert digits + ws == ws;
    } else {
      assert (digits + ws)[1..] == digits[1..] + ws;
      RunOfDigits(digits[1..], ws);
    }
  }

  lemma ParsesDigits(digits: Bytes, ws: Bytes)
    requires DigitsOk(digits) && forall i :: 0 <= i < |ws| ==> IsBlank(ws[i])
    ensures ParseHex(digits + ws) == Some(HexValue(digits))
  {
    hide HexValue;
    var s := digits + ws;
    assert s[0] == digits[0] && IsHexDigit(s[0]);
    assert |s| >= 2 ==> s[1] == (if |digits| >= 2 then digits[1] else ws[0]);
    assert TrimStart(s) == s;
    assert SkipPrefix(s) == s;
    RunOfDigits(digits, ws);
    assert s[..|digits|] == digits && s[|digits|..] == ws;
    AllBlankTrims(ws);
  }

  lemma NoSemicolons(digits: Bytes, ws: Bytes)
    requires DigitsOk(digits) && forall i :: 0 <= i < |ws| ==> IsBlank(ws[i])
    ensures forall i :: 0 <= i < |digits + ws| ==> (digits + ws)[i] != SEMICOLON
  {
    forall i | 0 <= i < |digits + ws|
      ensures (digits + ws)[i] != SEMICOLON
    {
      if i < |digits| {
        assert IsHexDigit(digits[i]);
      } else {
        assert IsBlank(ws[i - |digits|]);
      }
    }
  }

  /** The text the size is read from: the digits and at most some blanks. */
  lemma SizeText(digits: Bytes, ext: Bytes) returns (ws: Bytes)
    requires DigitsOk(digits) && ExtOk(ext)
    ensures BeforeSemicolon(TrimEnd(digits + ext)) == digits + ws
    ensures forall i :: 0 <= i < |ws| ==> IsBlank(ws[i])
  {
    hide BeforeSemicolon;
    assert IsHexDigit(digits[|digits| - 1]);
    if ext == [] {
      ws := [];
      assert digits + ext == digits && digits + ws == digits;
      assert TrimEnd(digits) == digits;
      NoSemicolons(digits, []);
      CutsAtSemicolon(digits, []);
      assert digits + [] == digits;
    } else {
      hide TrimEnd;
      var k :| 0 <= k < |ext| && ext[k] == SEMICOLON && forall i :: 0 <= i < k ==> IsBlank(ext[i]);
      ws := ext[..k];
      var front := digits + ws + [SEMICOLON];
      assert digits + ext == front + ext[k + 1..];
      var kept := TrimEndStops(front, ext[k + 1..]);
      assert front + kept == (digits + ws) + ([SEMICOLON] + kept);
      NoSemicolons(digits, ws);
      CutsAtSemicolon(digits + ws, [SEMICOLON] + kept);
    }
  }

  lemma SizeLineTrims(digits: Bytes, ext: Bytes)
    requires DigitsOk(digits)
    ensures TrimStart(SizeLine(digits, ext)) == SizeLine(digits, ext)
    ensures TrimEnd(SizeLine(digits, ext)) == TrimEnd(digits + ext) != []
  {
    var line := SizeLine(digits, ext);
    assert line[0] == digits[0] && IsHexDigit(digits[0]);
    TrimEndTo(digits + ext, [CR, LF]);
    assert IsHexDigit(digits[|digits| - 1]);
    var kept := TrimEndStops(digits, ext);
  }

  /** A size line written per the coding reads back as its digits' value, extension or not. */
  lemma SizeLineReads(digits: Bytes, ext: Bytes)
    requires DigitsOk(digits) && ExtOk(ext)
    ensures ChunkSize(SizeLine(digits, ext)) == Some(HexValue(digits))
  {
    hide ParseHex;
    SizeLineTrims(digits, ext);
    var ws := SizeText(digits, ext);
    ParsesDigits(digits, ws);
  }

  lemma SizeLineIsOneLine(digits: Bytes, ext: Bytes, rest: Bytes)
    requires DigitsOk(digits) && ExtOk(ext)
    ensures LineLength(SizeLine(digits, ext) + rest) == |SizeLine(digits, ext)|
  {
    var line := digits + ext + [CR];
    forall i | 0 <= i < |line|
      ensures line[i] != LF
    {
      assert i < |digits| ==> IsHexDigit(digits[i]);
    }
    LineEnds(line, rest);
    assert SizeLine(digits, ext) + rest == line + [LF] + rest;
  }

  lemma SkipsCrLf(rest: Bytes)
    ensures AfterLine([CR, LF] + rest) == rest
  {
    LineEnds([CR], rest);
    assert [CR] + [LF] + rest == [CR, LF] + rest;
  }

  // ---- hexadecimal numbers ----

  function HexDigit(d: nat, upper: bool): Byte
    requires d < 16
  {
    (if upper then "0123456789ABCDEF" else "0123456789abcdef")[d] as int
  }

  /** The usual ways to write a number. */
  function HexOf(n: nat, upper: bool): Bytes {
    if n < 16 then [HexDigit(n, upper)] else HexOf(n / 16, upper) + [HexDigit(n % 16, upper)]
  }

  lemma HexDigitReads(d: nat, upper: bool)
    requires d < 16
    ensures IsHexDigit(HexDigit(d, upper)) && DigitValue(HexDigit(d, upper)) == d
  {
  }

  /** Reading a number back gives the number, in either case. */
  lemma {:induction false} HexReadsBack(n: nat, upper: bool)
    ensures DigitsOk(HexOf(n, upper)) && HexValue(HexOf(n, upper)) == n
  {
    HexDigitReads(n % 16, upper);
    if n < 16 {
      assert [HexDigit(n, upper)][..0] == [];
    } else {
      HexReadsBack(n / 16, upper);
      assert HexOf(n, upper)[..|HexOf(n, upper)| - 1] == HexOf(n / 16, upper);
    }
  }

  /** Data written as one chunk in the usual way is a chunk of the coding. */
  lemma PlainChunksAreOk(data: Bytes, upper: bool)
    requires data != []
    ensures ChunkOk(Chunk(HexOf(|data|, upper), [], data))
  {
    HexReadsBack(|data|, upper);
  }

  // ---- the round trip ----

  lemma SkipsLine(line: Bytes, rest: Bytes)
    requires LF !in line
    ensures AfterLine(line + [LF] + rest) == rest
  {
    LineEnds(line, rest);
    var s := line + [LF] + rest;
    assert s[|line| + 1..] == rest;
  }

  lemma Regroup(line: Bytes, section: Bytes, tail: Bytes)
    ensures line + [CR, LF] + section + tail == (line + [CR]) + [LF] + (section + tail)
  {
  }

  lemma SkipsOneTrailer(trailers: seq<Bytes>, tail: Bytes)
    requires forall i :: 0 <= i < |trailers| ==> LF !in trailers[i]
    ensures AfterLine(Section(trailers) + tail) == Leftover(trailers) + tail
  {
    hide AfterLine;
    if trailers == [] {
      SkipsCrLf(tail);
      assert [] + tail == tail;
    } else {
      Regroup(trailers[0], Section(trailers[1..]), tail);
      SkipsLine(trailers[0] + [CR], Section(trailers[1..]) + tail);
    }
  }

  lemma LastChunkReads(e: Ending, tail: Bytes, total: nat, limit: int)
    requires EndingOk(e)
    ensures Decode(Encode([], e) + tail, total, limit) == Body([], Leftover(e.trailers) + tail)
  {
    hide ChunkSize;
    hide AfterLine;
    hide Section;
    var line := SizeLine(e.zeros, e.ext);
    var rest := Section(e.trailers) + tail;
    var s := Encode([], e) + tail;
    assert s == line + rest;
    SizeLineIsOneLine(e.zeros, e.ext, rest);
    SizeLineReads(e.zeros, e.ext);
    assert s[..|line|] == line && s[|line|..] == rest;
    SkipsOneTrailer(e.trailers, tail);
  }

  lemma ChunkReads(c: Chunk, more: Bytes, total: nat, limit: int)
    requires ChunkOk(c) && total + |c.data| <= limit
    ensures Decode(SizeLine(c.digits, c.ext) + c.data + [CR, LF] + more, total, limit)
         == Prepend(c.data, Decode(more, total + |c.data|, limit))
  {
    hide ChunkSize;
    hide AfterLine;
    var line := SizeLine(c.digits, c.ext);
    var s := line + c.data + [CR, LF] + more;
    assert s == line + (c.data + [CR, LF] + more);
    SizeLineIsOneLine(c.digits, c.ext, c.data + [CR, LF] + more);
    SizeLineReads(c.digits, c.ext);
    var n := |line|;
    assert s[..n] == line;
    assert s[n..n + |c.data|] == c.data && s[n + |c.data|..] == [CR, LF] + more;
    SkipsCrLf(more);
  }

  /** Decoding inverts encoding: for every body, however it is split into non-empty chunks and however
      their sizes and extensions are written, the reader returns the body. It leaves on the stream what
      follows the message, and of the trailer section everything but its first line. */
  lemma {:induction false} DecodeInvertsEncode(chunks: seq<Chunk>, e: Ending, tail: Bytes, total: nat, limit: int)
    requires forall i :: 0 <= i < |chunks| ==> ChunkOk(chunks[i])
    requires EndingOk(e) && total + |BodyOf(chunks)| <= limit
    ensures Decode(Encode(chunks, e) + tail, total, limit) == Body(BodyOf(chunks), Leftover(e.trailers) + tail)
    decreases |chunks|
  {
    hide Decode;
    if chunks == [] {
      LastChunkReads(e, tail, total, limit);
    } else {
      var c, more := chunks[0], Encode(chunks[1..], e) + tail;
      assert Encode(chunks, e) + tail == SizeLine(c.digits, c.ext) + c.data + [CR, LF] + more;
      ChunkReads(c, more, total, limit);
      DecodeInvertsEncode(chunks[1..], e, tail, total + |c.data|, limit);
    }
  }

  /** The reader consumes exactly the encoded bytes if and only if there are no trailers. */
  lemma ConsumesExactlyWithoutTrailers(chunks: seq<Chunk>, e: Ending, tail: Bytes, limit: int)
    requires forall i :: 0 <= i < |chunks| ==> ChunkOk(chunks[i])
    requires EndingOk(e) && |BodyOf(chunks)| <= limit
    ensures Decode(Encode(chunks, e) + tail, 0, limit) == Body(BodyOf(chunks), tail) <==> e.trailers == []
  {
    DecodeInvertsEncode(chunks, e, tail, 0, limit);
    assert [] + tail == tail;
    assert |Leftover(e.trailers) + tail| == |Leftover(e.trailers)| + |tail|;
  }

  /** A body beyond the limit is refused, at the first chunk that announces too much. */
  lemma {:induction false} OversizeIsRefused(chunks: seq<Chunk>, e: Ending, tail: Bytes, total: nat, limit: int)
    requires forall i :: 0 <= i < |chunks| ==> ChunkOk(chunks[i])
    requires chunks != [] && total <= limit < total + |BodyOf(chunks)|
    ensures Decode(Encode(chunks, e) + tail, total, limit) == Broken(TooLarge)
    decreases |chunks|
  {
    hide Decode;
    hide ChunkOk;
    var c, more := chunks[0], Encode(chunks[1..], e) + tail;
    assert Encode(chunks, e) + tail == SizeLine(c.digits, c.ext) + c.data + [CR, LF] + more;
    if total + |c.data| <= limit {
      ChunkReads(c, more, total, limit);
      OversizeIsRefused(chunks[1..], e, tail, total + |c.data|, limit);
    } else {
      ChunkTooLarge(c, more, total, limit);
    }
  }

  lemma ChunkTooLarge(c: Chunk, more: Bytes, total: nat, limit: int)
    requires ChunkOk(c) && total + |c.data| > limit
    ensures Decode(SizeLine(c.digits, c.ext) + c.data + [CR, LF] + more, total, limit) == Broken(TooLarge)
  {
    hide ChunkSize;
    hide AfterLine;
    var line := SizeLine(c.digits, c.ext);
    var s := line + c.data + [CR, LF] + more;
    assert s == line + (c.data + [CR, LF] + more);
    SizeLineIsOneLine(c.digits, c.ext, c.data + [CR, LF] + more);
    SizeLineReads(c.digits, c.ext);
    assert s[..|line|] == line;
  }

  // ---- broken framing ----

  /** Chunks as they go over the wire, without an end. */
  function Wire(chunks: seq<Chunk>): Bytes {
    if chunks == [] then []
    else SizeLine(chunks[0].digits, chunks[0].ext) + chunks[0].data + [CR, LF] + Wire(chunks[1..])
  }

  lemma {:induction false} WholeChunksRead(chunks: seq<Chunk>, more: Bytes, total: nat, limit: int)
    requires forall i :: 0 <= i < |chunks| ==> ChunkOk(chunks[i])
    requires total + |BodyOf(chunks)| <= limit
    ensures Decode(Wire(chunks) + more, total, limit)
         == Prepend(BodyOf(chunks), Decode(more, total + |BodyOf(chunks)|, limit))
    decreases |chunks|
  {
    hide Decode;
    if chunks == [] {
      assert Wire(chunks) + more == more;
      PrependNothing(Decode(more, total, limit));
    } else {
      var c, rest := chunks[0], Wire(chunks[1..]) + more;
      assert Wire(chunks) + more == SizeLine(c.digits, c.ext) + c.data + [CR, LF] + rest;
      ChunkReads(c, rest, total, limit);
      WholeChunksRead(chunks[1..], more, total + |c.data|, limit);
      PrependTwice(c.data, BodyOf(chunks[1..]), Decode(more, total + |BodyOf(chunks)|, limit));
    }
  }

  lemma PartialChunk(c: Chunk, part: Bytes, total: nat, limit: int)
    requires ChunkOk(c) && total + |c.data| <= limit && |part| < |c.data|
    ensures Decode(SizeLine(c.digits, c.ext) + part, total, limit) == Broken(Truncated)
  {
    hide ChunkSize;
    hide AfterLine;
    var line := SizeLine(c.digits, c.ext);
    SizeLineIsOneLine(c.digits, c.ext, part);
    SizeLineReads(c.digits, c.ext);
    assert (line + part)[..|line|] == line;
  }

  /** A stream that ends where a size line is due, or inside the data of a chunk, is truncated, whatever
      was read before. */
  lemma CutShortIsTruncated(chunks: seq<Chunk>, c: Chunk, part: Bytes, limit: int)
    requires forall i :: 0 <= i < |chunks| ==> ChunkOk(chunks[i])
    requires ChunkOk(c) && |part| < |c.data| && |BodyOf(chunks)| + |c.data| <= limit
    ensures Decode(Wire(chunks), 0, limit) == Broken(Truncated)
    ensures Decode(Wire(chunks) + (SizeLine(c.digits, c.ext) + part), 0, limit) == Broken(Truncated)
  {
    hide Decode;
    assert Wire(chunks) + [] == Wire(chunks);
    WholeChunksRead(chunks, [], 0, limit);
    EndOfStream(|BodyOf(chunks)|, limit);
    WholeChunksRead(chunks, SizeLine(c.digits, c.ext) + part, 0, limit);
    PartialChunk(c, part, |BodyOf(chunks)|, limit);
  }

  /** A size line that says nothing readable: it starts, after any white space, with something that is
      neither a digit nor a sign nor an underscore. */
  ghost predicate Unreadable(line: Bytes) {
    && LF !in line
    && exists k :: 0 <= k < |line| && !IsSpace(line[k]) && !IsHexDigit(line[k]) && line[k] !in [PLUS, MINUS, UNDERSCORE]
         && forall i :: 0 <= i < k ==> IsSpace(line[i])
  }

  lemma {:induction false} TrimStartTo(ws: Bytes, s: Bytes)
    requires forall i :: 0 <= i < |ws| ==> IsSpace(ws[i])
    requires s == [] || !IsSpace(s[0])
    ensures TrimStart(ws + s) == s
  {
    if ws == [] {
      assert ws + s == s;
    } else {
      assert (ws + s)[1..] == ws[1..] + s;
      TrimStartTo(ws[1..], s);
    }
  }

  /** Nothing is parsed from a text that starts with such a byte. */
  lemma NoNumber(s: Bytes)
    requires s == [] || (!IsSpace(s[0]) && !IsHexDigit(s[0]) && s[0] !in [PLUS, MINUS, UNDERSCORE])
    ensures ParseHex(s) == None
  {
  }

  lemma UnreadableSize(line: Bytes)
    requires Unreadable(line)
    ensures ChunkSize(line + [LF]) == None
  {
    var k :| 0 <= k < |line| && !IsSpace(line[k]) && !IsHexDigit(line[k]) && line[k] !in [PLUS, MINUS, UNDERSCORE]
      && forall i :: 0 <= i < k ==> IsSpace(line[i]);
    hide ParseHex;
    hide TrimEnd;
    hide TrimStart;
    var ws, s := line[..k], line[k..] + [LF];
    assert line + [LF] == ws + s;
    TrimStartTo(ws, s);
    assert s == [s[0]] + s[1..];
    var kept := TrimEndStops([s[0]], s[1..]);
    NoNumber(BeforeSemicolon(TrimEnd(s)));
  }

  lemma {:induction false} BlankLineTrims(line: Bytes)
    requires forall i :: 0 <= i < |line| ==> IsSpace(line[i])
    ensures ChunkSize(line + [LF]) == None
  {
    assert forall i :: 0 <= i < |line + [LF]| ==> IsSpace((line + [LF])[i]);
    AllBlankTrims(line + [LF]);
  }

  /** A negative size, written like any other with a minus in front. */
  lemma NegativeSize(digits: Bytes)
    requires DigitsOk(digits)
    ensures ChunkSize([MINUS] + digits + [CR, LF]).Some? && ChunkSize([MINUS] + digits + [CR, LF]).value + HexValue(digits) == 0
  {
    hide HexValue;
    hide DigitRun;
    var s := [MINUS] + digits;
    var line := s + [CR, LF];
    assert line[0] == MINUS && TrimStart(line) == line;
    TrimEndTo(s, [CR, LF]);
    assert IsHexDigit(s[|s| - 1]);
    assert TrimEnd(s) == s;
    assert forall i :: 0 <= i < |s| ==> s[i] != SEMICOLON by {
      assert forall i :: 0 < i < |s| ==> s[i] == digits[i - 1];
      assert forall i :: 0 <= i < |digits| ==> IsHexDigit(digits[i]);
    }
    CutsAtSemicolon(s, []);
    assert s + [] == s;
    assert s[1..] == digits;
    NegativeParses(digits);
  }

  lemma NegativeParses(digits: Bytes)
    requires DigitsOk(digits)
    ensures ParseHex([MINUS] + digits).Some? && ParseHex([MINUS] + digits).value + HexValue(digits) == 0
  {
    hide HexValue;
    var s := [MINUS] + digits;
    assert s[0] == MINUS && s[1..] == digits && TrimStart(s) == s;
    assert IsHexDigit(digits[0]) && (|digits| >= 2 ==> IsHexDigit(digits[1]));
    assert SkipPrefix(digits) == digits;
    RunOfDigits(digits, []);
    assert digits + [] == digits && digits[..|digits|] == digits && digits[|digits|..] == [];
  }

  lemma BadLine(line: Bytes, rest: Bytes, total: nat, limit: int)
    requires LF !in line
    requires ChunkSize(line + [LF]).None? || ChunkSize(line + [LF]).value < 0
    ensures Decode(line + [LF] + rest, total, limit) == Broken(Malformed)
  {
    hide ChunkSize;
    LineEnds(line, rest);
    var s := line + [LF] + rest;
    assert s[..|line| + 1] == line + [LF];
  }

  /** A blank size line, an unreadable one and a negative size are malformed, whatever was read before. */
  lemma BadSizesAreMalformed(chunks: seq<Chunk>, line: Bytes, rest: Bytes, limit: int)
    requires forall i :: 0 <= i < |chunks| ==> ChunkOk(chunks[i])
    requires |BodyOf(chunks)| <= limit && LF !in line
    requires
      || Unreadable(line) || (forall i :: 0 <= i < |line| ==> IsSpace(line[i]))
      || (exists digits :: DigitsOk(digits) && HexValue(digits) > 0 && line == [MINUS] + digits + [CR])
    ensures Decode(Wire(chunks) + (line + [LF] + rest), 0, limit) == Broken(Malformed)
  {
    hide Decode;
    hide ChunkSize;
    if Unreadable(line) {
      UnreadableSize(line);
    } else if forall i :: 0 <= i < |line| ==> IsSpace(line[i]) {
      BlankLineTrims(line);
    } else {
      var digits :| DigitsOk(digits) && HexValue(digits) > 0 && line == [MINUS] + digits + [CR];
      NegativeSize(digits);
      assert line + [LF] == [MINUS] + digits + [CR, LF];
    }
    BadLine(line, rest, |BodyOf(chunks)|, limit);
    WholeChunksRead(chunks, line + [LF] + rest, 0, limit);
  }
}
