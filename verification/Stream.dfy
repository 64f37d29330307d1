/** Reassembly of a streamed response: lines split across chunks are put together again, except
    that Ruby's `split` forgets a newline a chunk ends with. */
module Stream {
  import opened Wrappers
  import opened Text

  // ----- the code's splitting

  /** `s.split("\n", -1)`: every piece between newlines. */
  function Pieces(s: string): (ps: seq<string>)
    ensures ps != []
  {
    if s == [] then [""] else
    var ps := Pieces(s[..|s| - 1]);
    var last := s[|s| - 1];
    if last == '\n' then ps + [""] else ps[..|ps| - 1] + [ps[|ps| - 1] + [last]]
  }

  function DropTrailingEmpty(ps: seq<string>): seq<string> {
    if ps != [] && ps[|ps| - 1] == "" then DropTrailingEmpty(ps[..|ps| - 1]) else ps
  }

  /** `s.split("\n")` */
  function Split(s: string): seq<string> { DropTrailingEmpty(Pieces(s)) }

  /** The lines handed to the parser so far, and the unfinished one. */
  datatype Buffered = Buffered(lines: seq<string>, buffer: string)

  function OnChunk(b: Buffered, chunk: string): Buffered {
    var lines := Split(b.buffer + chunk);
    if lines == [] then b.(buffer := "")
    else Buffered(b.lines + lines[..|lines| - 1], lines[|lines| - 1])
  }

  function OnChunks(chunks: seq<string>): Buffered {
    if chunks == [] then Buffered([], "") else OnChunk(OnChunks(chunks[..|chunks| - 1]), chunks[|chunks| - 1])
  }

  function NonEmpty(ls: seq<string>): seq<string> {
    if ls == [] then [] else NonEmpty(ls[..|ls| - 1]) + if ls[|ls| - 1] == "" then [] else [ls[|ls| - 1]]
  }

  function Rest(line: string): seq<string> { if line == "" then [] else [line] }

  /** The non-empty lines a chunked response is read as. */
  function Reassembled(chunks: seq<string>): seq<string> {
    NonEmpty(OnChunks(chunks).lines) + Rest(OnChunks(chunks).buffer)
  }

  // ----- reference: one scan over the whole body

  datatype Scan = Scan(lines: seq<string>, current: string)

  function ScanChar(s: Scan, c: char): Scan {
    if c == '\n' then Scan(s.lines + Rest(s.current), "") else s.(current := s.current + [c])
  }

  function ScanFrom(s: Scan, text: string): Scan {
    if text == [] then s else ScanChar(ScanFrom(s, text[..|text| - 1]), text[|text| - 1])
  }

  function Finished(s: Scan): seq<string> { s.lines + Rest(s.current) }

  /** The non-empty lines of a text that follows an unfinished line. */
  function LinesAfter(current: string, text: string): seq<string> { Finished(ScanFrom(Scan([], current), text)) }

  /** The non-empty lines of a body. */
  function BodyLines(body: string): seq<string> { LinesAfter("", body) }

  function Concat(chunks: seq<string>): string {
    if chunks == [] then "" else Concat(chunks[..|chunks| - 1]) + chunks[|chunks| - 1]
  }

  // ----- scanning

  lemma {:induction false} ScanConcat(s: Scan, a: string, b: string)
    ensures ScanFrom(s, a + b) == ScanFrom(ScanFrom(s, a), b)
  {
    if b == [] {
      assert a + b == a;
    } else {
      assert (a + b)[..|a + b| - 1] == a + b[..|b| - 1];
      ScanConcat(s, a, b[..|b| - 1]);
    }
  }

  lemma {:induction false} ScanOffset(s: Scan, text: string)
    ensures ScanFrom(s, text).lines == s.lines + ScanFrom(Scan([], s.current), text).lines
    ensures ScanFrom(s, text).current == ScanFrom(Scan([], s.current), text).current
  {
    if text != [] {
      ScanOffset(s, text[..|text| - 1]);
    }
  }

  lemma FinishedOffset(s: Scan, text: string)
    ensures Finished(ScanFrom(s, text)) == s.lines + LinesAfter(s.current, text)
  {
    ScanOffset(s, text);
  }

  lemma {:induction false} ScanPlain(current: string, text: string)
    requires '\n' !in text
    ensures ScanFrom(Scan([], current), text) == Scan([], current + text)
  {
    if text == [] {
      assert current + text == current;
    } else {
      ScanPlain(current, text[..|text| - 1]);
      assert current + text == current + text[..|text| - 1] + [text[|text| - 1]];
    }
  }

  /** The unfinished line is empty exactly at the start of a body and after a newline. */
  lemma CurrentEmptyIff(text: string)
    ensures ScanFrom(Scan([], ""), text).current == "" <==> text == "" || text[|text| - 1] == '\n'
  {
  }

  /** An unfinished line followed by the end or a newline is a line of its own. */
  lemma LineThenNewline(current: string, text: string)
    requires current != "" && (text == "" || text[0] == '\n')
    ensures LinesAfter(current, text) == [current] + LinesAfter("", text)
  {
    if text != "" {
      assert text == ['\n'] + text[1..];
      ScanConcat(Scan([], current), ['\n'], text[1..]);
      ScanConcat(Scan([], ""), ['\n'], text[1..]);
      assert ['\n'][..0] == [];
      assert ScanFrom(Scan([], current), ['\n']) == ScanChar(ScanFrom(Scan([], current), ['\n'][..0]), '\n');
      assert ScanFrom(Scan([], ""), ['\n']) == ScanChar(ScanFrom(Scan([], ""), ['\n'][..0]), '\n');
      assert [] + Rest(current) == [current] && [] + Rest("") == [];
      FinishedOffset(Scan([current], ""), text[1..]);
      FinishedOffset(Scan([], ""), text[1..]);
    } else {
      assert LinesAfter(current, "") == [] + [current];
    }
  }

  /** How many lines follow does not depend on what the unfinished line holds. */
  lemma {:induction false} SameCount(x: string, y: string, text: string)
    requires x != "" && y != ""
    ensures |LinesAfter(x, text)| == |LinesAfter(y, text)|
    ensures ScanFrom(Scan([], x), text).current == "" <==> ScanFrom(Scan([], y), text).current == ""
    ensures |ScanFrom(Scan([], x), text).lines| == |ScanFrom(Scan([], y), text).lines|
  {
    if text != [] {
      SameCount(x, y, text[..|text| - 1]);
    }
  }

  /** An unfinished line followed by other text swallows that text's first line. */
  lemma LineThenText(current: string, text: string)
    requires current != "" && text != "" && text[0] != '\n'
    ensures |LinesAfter(current, text)| == |LinesAfter("", text)|
  {
    var c, rest := [text[0]], text[1..];
    assert text == c + rest;
    ScanConcat(Scan([], current), c, rest);
    ScanConcat(Scan([], ""), c, rest);
    ScanPlain(current, c);
    ScanPlain("", c);
    SameCount(current + c, "" + c, rest);
  }

  // ----- Ruby's split in terms of the scan

  lemma {:induction false} PiecesScanned(s: string)
    ensures
      var ps, scan := Pieces(s), ScanFrom(Scan([], ""), s);
      NonEmpty(ps[..|ps| - 1]) == scan.lines && ps[|ps| - 1] == scan.current
  {
    if s != [] {
      PiecesScanned(s[..|s| - 1]);
      var before := Pieces(s[..|s| - 1]);
      if s[|s| - 1] == '\n' {
        assert Pieces(s)[..|Pieces(s)| - 1] == before;
      } else {
        assert Pieces(s)[..|Pieces(s)| - 1] == before[..|before| - 1];
      }
    }
  }

  lemma {:induction false} SplitKeepsNonEmpty(ps: seq<string>)
    ensures
      var kept := DropTrailingEmpty(ps);
      && NonEmpty(kept) == NonEmpty(ps) && (kept != [] ==> kept[|kept| - 1] != "")
      && (forall p | p in kept :: p in ps)
  {
    if ps != [] && ps[|ps| - 1] == "" {
      SplitKeepsNonEmpty(ps[..|ps| - 1]);
    }
  }

  lemma {:induction false} PiecesPlain(s: string)
    ensures forall p | p in Pieces(s) :: '\n' !in p
  {
    if s != [] {
      PiecesPlain(s[..|s| - 1]);
      var before := Pieces(s[..|s| - 1]);
      assert before[|before| - 1] in before;
      assert forall p | p in before[..|before| - 1] :: p in before;
    }
  }

  lemma {:induction false} NonEmptyConcat(a: seq<string>, b: seq<string>)
    ensures NonEmpty(a + b) == NonEmpty(a) + NonEmpty(b)
  {
    if b == [] {
      assert a + b == a;
    } else {
      assert (a + b)[..|a + b| - 1] == a + b[..|b| - 1];
      NonEmptyConcat(a, b[..|b| - 1]);
    }
  }

  lemma PiecesNonEmpty(buffer: string, chunk: string)
    requires '\n' !in buffer
    ensures NonEmpty(Pieces(buffer + chunk)) == LinesAfter(buffer, chunk)
  {
    var s := buffer + chunk;
    var ps := Pieces(s);
    PiecesScanned(s);
    ScanConcat(Scan([], ""), buffer, chunk);
    ScanPlain("", buffer);
    assert "" + buffer == buffer;
    hide Pieces, ScanFrom;
    assert NonEmpty(ps) == NonEmpty(ps[..|ps| - 1]) + Rest(ps[|ps| - 1]);
  }

  lemma SplitScanned(buffer: string, chunk: string)
    requires '\n' !in buffer
    ensures
      var lines := Split(buffer + chunk);
      && NonEmpty(lines) == LinesAfter(buffer, chunk)
      && (lines != [] ==> lines[|lines| - 1] != "" && '\n' !in lines[|lines| - 1])
  {
    var s := buffer + chunk;
    PiecesNonEmpty(buffer, chunk);
    SplitKeepsNonEmpty(Pieces(s));
    PiecesPlain(s);
    hide Pieces, LinesAfter, DropTrailingEmpty, NonEmpty;
    assert Split(s) != [] ==> Split(s)[|Split(s)| - 1] in Split(s);
  }

  /** One chunk, read through the scan: the lines after the old buffer join the parsed ones, the last
      of them becoming the new buffer. */
  lemma ChunkScanned(b: Buffered, chunk: string)
    requires '\n' !in b.buffer
    ensures
      var after := OnChunk(b, chunk);
      && '\n' !in after.buffer
      && NonEmpty(after.lines) + Rest(after.buffer) == NonEmpty(b.lines) + LinesAfter(b.buffer, chunk)
      && (after.buffer == "" <==> LinesAfter(b.buffer, chunk) == [])
  {
    hide Split, LinesAfter;
    SplitScanned(b.buffer, chunk);
    var lines := Split(b.buffer + chunk);
    if lines != [] {
      NonEmptyConcat(b.lines, lines[..|lines| - 1]);
      assert NonEmpty(lines) == NonEmpty(lines[..|lines| - 1]) + [lines[|lines| - 1]];
    } else {
      assert NonEmpty(b.lines) + [] == NonEmpty(b.lines);
    }
  }

  // ----- when reassembly is exact

  /** A chunk boundary that loses a newline: it falls just after one, some line came before it, and the
      next chunk begins with anything but a newline. */
  predicate LosesNewline(before: string, chunk: string) {
    && before != "" && before[|before| - 1] == '\n' && (exists i | 0 <= i < |before| :: before[i] != '\n')
    && chunk != "" && chunk[0] != '\n'
  }

  function Losses(chunks: seq<string>): nat {
    if chunks == [] then 0 else
    var init := chunks[..|chunks| - 1];
    Losses(init) + if LosesNewline(Concat(init), chunks[|chunks| - 1]) then 1 else 0
  }

  lemma {:induction false} NoLinesIff(text: string)
    ensures Finished(ScanFrom(Scan([], ""), text)) == [] <==> forall i | 0 <= i < |text| :: text[i] == '\n'
  {
    if text != [] {
      var init, last := text[..|text| - 1], text[|text| - 1];
      NoLinesIff(init);
      NoLinesStep(ScanFrom(Scan([], ""), init), last);
      assert ScanFrom(Scan([], ""), text) == ScanChar(ScanFrom(Scan([], ""), init), last);
      hide ScanFrom, ScanChar, Finished;
      assert forall i | 0 <= i < |init| :: init[i] == text[i];
    }
  }

  lemma NoLinesStep(s: Scan, c: char)
    ensures Finished(ScanChar(s, c)) == [] <==> Finished(s) == [] && c == '\n'
  {
  }

  lemma BodyGrows(body: string, chunk: string)
    ensures
      var scan := ScanFrom(Scan([], ""), body);
      BodyLines(body + chunk) == scan.lines + LinesAfter(scan.current, chunk)
  {
    ScanConcat(Scan([], ""), body, chunk);
    FinishedOffset(ScanFrom(Scan([], ""), body), chunk);
  }

  /** Every lost newline costs one line, and with none lost the lines are the body's own. */
  lemma {:induction false} ReassembledCount(chunks: seq<string>)
    ensures
      var b, body := OnChunks(chunks), Concat(chunks);
      && '\n' !in b.buffer
      && |Reassembled(chunks)| + Losses(chunks) == |BodyLines(body)|
      && (b.buffer == "" <==> Reassembled(chunks) == []) && (Reassembled(chunks) == [] <==> BodyLines(body) == [])
      && (Losses(chunks) == 0 ==> Reassembled(chunks) == BodyLines(body))
  {
    if chunks != [] {
      var init, chunk := chunks[..|chunks| - 1], chunks[|chunks| - 1];
      ReassembledCount(init);
      var b, body := OnChunks(init), Concat(init);
      var scan := ScanFrom(Scan([], ""), body);
      ChunkScanned(b, chunk);
      BodyGrows(body, chunk);
      CurrentEmptyIff(body);
      NoLinesIff(body);
      hide ScanFrom, OnChunk;
      StepCount(NonEmpty(b.lines), b.buffer, scan, body, chunk, Losses(init));
    }
  }

  /** One step of the count: lines done and buffer on one side, the scan of the body on the other. */
  lemma StepCount(done: seq<string>, buffer: string, scan: Scan, body: string, chunk: string, losses: nat)
    requires |done + Rest(buffer)| + losses == |Finished(scan)|
    requires (buffer == "" <==> done + Rest(buffer) == []) && (done + Rest(buffer) == [] <==> Finished(scan) == [])
    requires losses == 0 ==> done + Rest(buffer) == Finished(scan)
    requires scan.current == "" <==> body == "" || body[|body| - 1] == '\n'
    requires Finished(scan) == [] <==> forall i | 0 <= i < |body| :: body[i] == '\n'
    ensures
      var after, whole := done + LinesAfter(buffer, chunk), scan.lines + LinesAfter(scan.current, chunk);
      var lost := losses + if LosesNewline(body, chunk) then 1 else 0;
      && |after| + lost == |whole|
      && (LinesAfter(buffer, chunk) == [] <==> after == []) && (after == [] <==> whole == [])
      && (lost == 0 ==> after == whole)
  {
    hide LinesAfter;
    if buffer == "" {
      assert done == [] && scan.lines == [] && scan.current == "";
    } else if scan.current == "" {
      assert Finished(scan) == scan.lines;
      if chunk == "" || chunk[0] == '\n' {
        LineThenNewline(buffer, chunk);
      } else {
        LineThenText(buffer, chunk);
        FirstLineStays(buffer, chunk);
      }
    } else {
      SameCount(buffer, scan.current, chunk);
      FirstLineStays(buffer, chunk);
      FirstLineStays(scan.current, chunk);
      if losses == 0 {
        assert done + [buffer] == scan.lines + [scan.current];
        assert buffer == (done + [buffer])[|done|] == (scan.lines + [scan.current])[|scan.lines|] == scan.current;
        assert done == (done + [buffer])[..|done|] == (scan.lines + [scan.current])[..|scan.lines|] == scan.lines;
      }
    }
  }

  lemma {:induction false} FirstLineStays(current: string, text: string)
    requires current != ""
    ensures LinesAfter(current, text) != []
    ensures ScanFrom(Scan([], current), text).lines != [] || ScanFrom(Scan([], current), text).current != ""
  {
    if text != [] {
      FirstLineStays(current, text[..|text| - 1]);
    }
  }

  predicate LosslessChunks(chunks: seq<string>) {
    forall i | 0 <= i < |chunks| :: !LosesNewline(Concat(chunks[..i]), chunks[i])
  }

  lemma {:induction false} LosslessIff(chunks: seq<string>)
    ensures Losses(chunks) == 0 <==> LosslessChunks(chunks)
  {
    if chunks != [] {
      var init := chunks[..|chunks| - 1];
      LosslessIff(init);
      var last := |chunks| - 1;
      assert Losses(chunks) == Losses(init) + if LosesNewline(Concat(init), chunks[last]) then 1 else 0;
      hide LosesNewline, Concat, Losses;
      assert forall i | 0 <= i < |init| :: init[..i] == chunks[..i] && init[i] == chunks[i];
    }
  }

  /** Reassembly is exact iff no chunk boundary loses a newline. */
  lemma ReassembledExactIff(chunks: seq<string>)
    ensures Reassembled(chunks) == BodyLines(Concat(chunks)) <==> LosslessChunks(chunks)
  {
    ReassembledCount(chunks);
    LosslessIff(chunks);
  }

  /** In particular it is when no inner boundary falls just after a newline. */
  lemma NoBoundaryAfterNewline(chunks: seq<string>)
    requires forall i | 0 < i < |chunks| ::
        Concat(chunks[..i]) == "" || Concat(chunks[..i])[|Concat(chunks[..i])| - 1] != '\n'
    ensures Reassembled(chunks) == BodyLines(Concat(chunks))
  {
    ReassembledExactIff(chunks);
    assert chunks != [] ==> Concat(chunks[..0]) == "";
  }

  /** What is lost: a line ending with its chunk runs into the next one. */
  lemma LinesRunTogether(x: string, y: string)
    requires x != "" && y != "" && '\n' !in x && '\n' !in y
    ensures Reassembled([x + "\n", y]) == [x + y]
    ensures BodyLines(Concat([x + "\n", y])) == [x, y]
  {
    var first, chunks := x + "\n", [x + "\n", y];
    assert chunks[..1] == [first] && [first][..0] == [];
    assert Concat([first]) == "" + first == first && Concat(chunks) == first + y;
    assert OnChunks(chunks) == OnChunk(OnChunks([first]), y);
    FirstChunk(x);
    var one := OnChunks([first]);
    ScannedLine(x);
    PlainLine("", y);
    PlainLine(x, y);
    hide OnChunk, OnChunks, Concat, ScanFrom;
    ChunkScanned(one, y);
    BodyGrows(first, y);
    assert "" + y == y && [x] + [y] == [x, y];
    hide LinesAfter;
    assert NonEmpty(one.lines) + [x + y] == [x + y];
  }

  lemma FirstChunk(x: string)
    requires x != "" && '\n' !in x
    ensures
      var one := OnChunks([x + "\n"]);
      one.buffer == x && NonEmpty(one.lines) == []
  {
    var first, empty := x + "\n", Buffered([], "");
    ScannedLine(x);
    assert LinesAfter("", first) == [x] + [] == [x];
    assert [first][..0] == [];
    ChunkScanned(empty, first);
    var one := OnChunk(empty, first);
    assert OnChunks([first]) == one;
    hide OnChunk, OnChunks, LinesAfter;
    assert [] + [x] == [x];
    assert one.buffer != "" && NonEmpty(one.lines) + [one.buffer] == [x];
    assert (NonEmpty(one.lines) + [one.buffer])[|NonEmpty(one.lines)|] == one.buffer;
  }

  lemma PlainLine(current: string, text: string)
    requires text != "" && '\n' !in text
    ensures LinesAfter(current, text) == [current + text]
  {
    ScanPlain(current, text);
    assert [] + [current + text] == [current + text];
  }

  lemma ScannedLine(x: string)
    requires x != "" && '\n' !in x
    ensures ScanFrom(Scan([], ""), x + "\n") == Scan([x], "")
  {
    ScanPlain("", x);
    assert "" + x == x && (x + "\n")[..|x|] == x && [] + Rest(x) == [x];
  }

  /** The simplest loss: two lines in two chunks, read as one. */
  lemma TwoLinesBecomeOne()
    ensures Reassembled(["a\n", "b"]) == ["ab"] && BodyLines(Concat(["a\n", "b"])) == ["a", "b"]
  {
    hide Reassembled, BodyLines, Concat;
    assert "a" + "\n" == "a\n" && "a" + "b" == "ab";
    LinesRunTogether("a", "b");
  }

  // ----- parsing the lines

  /** A parsed event: not an object, or its `done` flag and the fields that may hold a token, each
      `None` when nil or false. */
  datatype Event =
    | NotObject
    | Object(done: bool, content: Option<string>, delta: Option<string>, text: Option<string>, token: Option<string>)

  function FirstSome(values: seq<Option<string>>): string {
    if values == [] then "" else if values[0].Some? then values[0].value else FirstSome(values[1..])
  }

  function ExtractToken(e: Event): string {
    match e
    case NotObject => ""
    case Object(true, _, delta, text, token) => FirstSome([delta, text, token])
    case Object(false, content, delta, text, token) => FirstSome([content, delta, text, token])
  }

  /** One call of the token callback. */
  datatype Delivery = Delivery(token: Option<string>, event: Event)

  const DATA := "data: "

  /** `parse_stream_line`, given the JSON parser. */
  function ParseLine(json: string -> Option<Event>, line: string): seq<Delivery> {
    var s := Strip(line);
    if Blank(s) || !(DATA <= s) || s[|DATA|..] == "[DONE]" then [] else
    var e := json(s[|DATA|..]);
    if e.None? then [] else [Delivery(Presence(Some(ExtractToken(e.value))), e.value)]
  }

  function ParseLines(json: string -> Option<Event>, lines: seq<string>): seq<Delivery> {
    if lines == [] then [] else ParseLines(json, lines[..|lines| - 1]) + ParseLine(json, lines[|lines| - 1])
  }

  /** The accumulated text: the delivered tokens in order. */
  function FullText(ds: seq<Delivery>): string {
    if ds == [] then "" else
    FullText(ds[..|ds| - 1]) + if ds[|ds| - 1].token.Some? then ds[|ds| - 1].token.value else ""
  }

  lemma {:induction false} ParseConcat(json: string -> Option<Event>, a: seq<string>, b: seq<string>)
    ensures ParseLines(json, a + b) == ParseLines(json, a) + ParseLines(json, b)
  {
    if b == [] {
      assert a + b == a;
    } else {
      assert (a + b)[..|a + b| - 1] == a + b[..|b| - 1];
      ParseConcat(json, a, b[..|b| - 1]);
    }
  }

  /** Empty lines deliver nothing. */
  lemma {:induction false} ParseNonEmpty(json: string -> Option<Event>, lines: seq<string>)
    ensures ParseLines(json, lines) == ParseLines(json, NonEmpty(lines))
  {
    if lines != [] {
      var init, last := lines[..|lines| - 1], lines[|lines| - 1];
      ParseNonEmpty(json, init);
      EmptyIsBlank();
      BlankDeliversNothing(json, "");
      hide ParseLine;
      if last == "" {
        assert ParseLines(json, init) + [] == ParseLines(json, init);
        assert NonEmpty(init) + [] == NonEmpty(init);
      } else {
        assert NonEmpty(lines)[..|NonEmpty(lines)| - 1] == NonEmpty(init);
      }
    }
  }

  class StreamReader {
    const json: string -> Option<Event>
    var buffer: string
    var fullText: string
    var delivered: seq<Delivery>
    ghost var chunks: seq<string>  // the chunks received

    ghost predicate Valid()
      reads this
    {
      && buffer == OnChunks(chunks).buffer
      && delivered == ParseLines(json, OnChunks(chunks).lines) && fullText == FullText(delivered)
    }

    constructor (json: string -> Option<Event>)
      ensures Valid() && this.json == json && chunks == []
    {
      this.json := json;
      buffer, fullText, delivered, chunks := "", "", [], [];
    }

    method ParseStreamLine(line: string)
      requires fullText == FullText(delivered)
      modifies this`fullText, this`delivered
      ensures delivered == old(delivered) + ParseLine(json, line) && fullText == FullText(delivered)
    {
      hide Strip, Blank, ExtractToken;
      var normalized := Strip(line);
      if Blank(normalized) { return; }
      if !(DATA <= normalized) { return; }
      var data := normalized[|DATA|..];
      if data == "[DONE]" { return; }
      var parsed := json(data);
      if parsed.None? { return; }
      var token := ExtractToken(parsed.value);
      if !Blank(token) {
        fullText := fullText + token;
      }
      delivered := delivered + [Delivery(Presence(Some(token)), parsed.value)];
      assert delivered[..|delivered| - 1] == old(delivered);
    }

    method ParseEach(lines: seq<string>)
      requires fullText == FullText(delivered)
      modifies this`fullText, this`delivered
      ensures delivered == old(delivered) + ParseLines(json, lines) && fullText == FullText(delivered)
    {
      hide ParseLine, FullText;
      for i := 0 to |lines|
        invariant delivered == old(delivered) + ParseLines(json, lines[..i]) && fullText == FullText(delivered)
      {
        assert lines[..i + 1][..i] == lines[..i];
        ParseStreamLine(lines[i]);
      }
      assert lines[..|lines|] == lines;
    }

    method OnData(chunk: string)
      requires Valid()
      modifies this
      ensures Valid() && chunks == old(chunks) + [chunk]
    {
      ChunkParsed(json, chunks, chunk);
      hide ParseLines, FullText, Split, OnChunks;
      chunks := chunks + [chunk];
      var lines := Split(buffer + chunk);
      var complete: seq<string>;
      if lines == [] {
        complete, buffer := [], "";
      } else {
        complete, buffer := lines[..|lines| - 1], lines[|lines| - 1];
      }
      ParseEach(complete);
    }

    /** What remains in the buffer is parsed when the response ends. */
    method Finish() returns (text: string)
      requires Valid()
      modifies this`fullText, this`delivered
      ensures delivered == ParseLines(json, Reassembled(chunks)) && text == FullText(delivered)
    {
      ghost var b := OnChunks(chunks);
      RemainderParsed(json, b);
      hide ParseLine, ParseLines, FullText, Blank, OnChunks;
      if !Blank(buffer) {
        ParseStreamLine(buffer);
      }
      text := fullText;
    }
  }

  lemma ChunkParsed(json: string -> Option<Event>, chunks: seq<string>, chunk: string)
    ensures
      var before, after := OnChunks(chunks), OnChunks(chunks + [chunk]);
      var lines := Split(before.buffer + chunk);
      var complete := if lines == [] then [] else lines[..|lines| - 1];
      && after.buffer == (if lines == [] then "" else lines[|lines| - 1])
      && ParseLines(json, after.lines) == ParseLines(json, before.lines) + ParseLines(json, complete)
  {
    assert (chunks + [chunk])[..|chunks|] == chunks;
    var before := OnChunks(chunks);
    assert OnChunks(chunks + [chunk]) == OnChunk(before, chunk);
    hide Split, OnChunks, ParseLine;
    var lines := Split(before.buffer + chunk);
    if lines == [] {
      assert ParseLines(json, before.lines) + ParseLines(json, []) == ParseLines(json, before.lines);
    } else {
      ParseConcat(json, before.lines, lines[..|lines| - 1]);
    }
  }

  lemma RemainderParsed(json: string -> Option<Event>, b: Buffered)
    ensures
      var done := ParseLines(json, b.lines);
      ParseLines(json, NonEmpty(b.lines) + Rest(b.buffer))
      == if Blank(b.buffer) then done else done + ParseLine(json, b.buffer)
  {
    var done, rest := ParseLines(json, b.lines), [b.buffer];
    ParseNonEmpty(json, b.lines);
    ParseConcat(json, NonEmpty(b.lines), Rest(b.buffer));
    EmptyIsBlank();
    if Blank(b.buffer) { BlankDeliversNothing(json, b.buffer); }
    hide ParseLine, Blank, NonEmpty;
    assert rest[..0] == [] && ParseLines(json, rest) == [] + ParseLine(json, b.buffer);
    assert done + [] == done;
  }

  lemma EmptyIsBlank()
    ensures Blank("")
  {
  }

  lemma {:induction false} StripKeepsBlank(s: string)
    requires Blank(s)
    ensures Blank(StripLeft(s)) && Blank(StripRight(s))
    decreases |s|
  {
    if s != [] {
      StripKeepsBlank(s[1..]);
      StripKeepsBlank(s[..|s| - 1]);
    }
  }

  lemma BlankDeliversNothing(json: string -> Option<Event>, line: string)
    requires Blank(line)
    ensures ParseLine(json, line) == []
  {
    StripKeepsBlank(line);
    StripKeepsBlank(StripLeft(line));
  }

  /** For every chunking that loses no newline, the deliveries and the text are those of parsing the
      whole body line by line. */
  lemma StreamingIsParsing(json: string -> Option<Event>, chunks: seq<string>)
    requires LosslessChunks(chunks)
    ensures ParseLines(json, Reassembled(chunks)) == ParseLines(json, Pieces(Concat(chunks)))
    ensures FullText(ParseLines(json, Reassembled(chunks))) == FullText(ParseLines(json, Pieces(Concat(chunks))))
  {
    ReassembledExactIff(chunks);
    var ps := Pieces(Concat(chunks));
    PiecesScanned(Concat(chunks));
    assert ps == ps[..|ps| - 1] + [ps[|ps| - 1]];
    assert NonEmpty(ps) == BodyLines(Concat(chunks));
    ParseNonEmpty(json, ps);
  }
}
