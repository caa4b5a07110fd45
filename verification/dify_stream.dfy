/**
 * The reply stream of the chat client (`src/services/dify.ts`,
 * `streamChatMessage`): decoded text arrives in chunks, is cut into frames at
 * blank lines ("\n\n"), and each frame's `event:` and `data:` lines decide
 * what is handed to the `onMessage` callback. This is a simplified reading of
 * the event-stream format of section 9.2 of the WHATWG HTML Living Standard:
 * data lines are trimmed and concatenated without a newline.
 *
 * `JSON.parse` is the parameter `parse`, `None` standing for a thrown
 * `SyntaxError`.
 */
module DifyStream {
  import opened Common
  import opened Text

  const FRAME_END := "\n\n"
  const LINE_END := "\n"
  const DEFAULT_EVENT := "message"

  /** `String.prototype.trim`. */
  function JsTrim(s: string): string {
    Strip(s, IsJsWhitespace)
  }

  // ------------------------------------------------------------ framing

  /** The complete frames one chunk releases, and the partial frame kept for the next chunk. */
  datatype Fed = Fed(frames: seq<string>, buffer: string)

  /**
   * `buffer += chunk; parts = buffer.split('\n\n'); buffer = parts.pop() || ''`:
   * every piece but the last is a complete frame, and the last is kept.
   */
  function Feed(buffer: string, chunk: string): Fed {
    var parts := Split(buffer + chunk, FRAME_END);
    Fed(parts[..|parts| - 1], Last(parts))
  }

  /**
   * The retained buffer never holds a blank line, no released frame holds
   * one either, and frames and buffer joined back with the separator give the
   * old buffer followed by the chunk.
   */
  lemma FeedSpec(buffer: string, chunk: string)
    ensures var f := Feed(buffer, chunk);
            && !Contains(f.buffer, FRAME_END)
            && (forall i :: 0 <= i < |f.frames| ==> !Contains(f.frames[i], FRAME_END))
            && Join(f.frames + [f.buffer], FRAME_END) == buffer + chunk
  {
    var parts := Split(buffer + chunk, FRAME_END);
    SplitJoin(buffer + chunk, FRAME_END);
    SplitPiecesClean(buffer + chunk, FRAME_END);
    assert parts == parts[..|parts| - 1] + [Last(parts)];
  }

  function Concat(chunks: seq<string>): string {
    if chunks == [] then "" else chunks[0] + Concat(chunks[1..])
  }

  /** The frames released while feeding `chunks` one after another, and the buffer left at the end. */
  function FeedAll(buffer: string, chunks: seq<string>): Fed
    decreases |chunks|
  {
    if chunks == [] then Fed([], buffer)
    else
      var f := Feed(buffer, chunks[0]);
      var rest := FeedAll(f.buffer, chunks[1..]);
      Fed(f.frames + rest.frames, rest.buffer)
  }

  /**
   * Chunk boundaries do not matter: from a buffer holding no blank line,
   * feeding the chunks releases exactly the pieces of the whole text but the
   * last, and keeps the last as the buffer.
   */
  lemma {:induction false} FeedAllSplitsWhole(buffer: string, chunks: seq<string>)
    requires !Contains(buffer, FRAME_END)
    ensures var p := Split(buffer + Concat(chunks), FRAME_END);
            FeedAll(buffer, chunks) == Fed(p[..|p| - 1], Last(p))
    decreases |chunks|
  {
    if chunks == [] {
      assert buffer + Concat(chunks) == buffer;
      SplitWhole(buffer, FRAME_END);
    } else {
      var c, cs := chunks[0], chunks[1..];
      var p1 := Split(buffer + c, FRAME_END);
      SplitPiecesClean(buffer + c, FRAME_END);
      assert !Contains(Last(p1), FRAME_END);
      FeedAllSplitsWhole(Last(p1), cs);
      SplitStep(buffer + c, Concat(cs));
      ConcatCons(buffer, chunks);
    }
  }

  lemma ConcatCons(buffer: string, chunks: seq<string>)
    requires chunks != []
    ensures buffer + Concat(chunks) == (buffer + chunks[0]) + Concat(chunks[1..])
  {
  }

  /** One step of `FeedAllSplitsWhole`: the complete pieces of `s + t` are those of `s` followed by those of its remainder and `t`. */
  lemma SplitStep(s: string, t: string)
    ensures var p1, p := Split(s, FRAME_END), Split(s + t, FRAME_END);
            var q := Split(Last(p1) + t, FRAME_END);
            p[..|p| - 1] == p1[..|p1| - 1] + q[..|q| - 1] && Last(p) == Last(q)
  {
    SplitAppend(s, t, FRAME_END);
    var p1 := Split(s, FRAME_END);
    var q := Split(Last(p1) + t, FRAME_END);
    var whole := p1[..|p1| - 1] + q;
    assert whole[..|whole| - 1] == p1[..|p1| - 1] + q[..|q| - 1];
  }

  // ------------------------------------------------------- a frame's lines

  /** The value of the last `event:` line, trimmed, or "message" when there is none. */
  function EventOf(lines: seq<string>): string {
    if lines == [] then DEFAULT_EVENT
    else if StartsWith(Last(lines), "event:") then JsTrim(Last(lines)[6..])
    else EventOf(lines[..|lines| - 1])
  }

  /** The value of one line if it is a `data:` line, trimmed; nothing otherwise. */
  function DataPart(line: string): string {
    if StartsWith(line, "data:") then JsTrim(line[5..]) else ""
  }

  /** The trimmed values of all `data:` lines, in order, with no separator. */
  function DataOf(lines: seq<string>): string {
    if lines == [] then "" else DataOf(lines[..|lines| - 1]) + DataPart(Last(lines))
  }

  /** Without any `event:` line the event is "message". */
  lemma {:induction false} EventDefault(lines: seq<string>)
    requires forall i :: 0 <= i < |lines| ==> !StartsWith(lines[i], "event:")
    ensures EventOf(lines) == DEFAULT_EVENT
  {
    if lines != [] {
      EventDefault(lines[..|lines| - 1]);
    }
  }

  /** The last `event:` line wins. */
  lemma {:induction false} EventLastWins(lines: seq<string>, i: int)
    requires 0 <= i < |lines| && StartsWith(lines[i], "event:")
    requires forall j :: i < j < |lines| ==> !StartsWith(lines[j], "event:")
    ensures EventOf(lines) == JsTrim(lines[i][6..])
  {
    if i < |lines| - 1 {
      EventLastWins(lines[..|lines| - 1], i);
    }
  }

  /** Data is collected line by line: the data of two runs of lines is the data of the first followed by that of the second. */
  lemma {:induction false} DataOfAppend(a: seq<string>, b: seq<string>)
    ensures DataOf(a + b) == DataOf(a) + DataOf(b)
    decreases |b|
  {
    if b == [] {
      assert a + b == a;
    } else {
      var b' := b[..|b| - 1];
      assert (a + b)[..|a + b| - 1] == a + b';
      assert Last(a + b) == Last(b);
      DataOfAppend(a, b');
      var x, y, z := DataOf(a), DataOf(b'), DataPart(Last(b));
      assert DataOf(b) == y + z;
      ConcatAssoc(x, y, z);
    }
  }

  /** One more line: an `event:` line replaces the event, and its data part is appended. */
  lemma ParseStep(lines: seq<string>, i: int)
    requires 0 <= i < |lines|
    ensures EventOf(lines[..i + 1]) == if StartsWith(lines[i], "event:") then JsTrim(lines[i][6..]) else EventOf(lines[..i])
    ensures DataOf(lines[..i + 1]) == DataOf(lines[..i]) + DataPart(lines[i])
  {
    assert lines[..i + 1][..i] == lines[..i];
  }

  /**
   * The line loop of one frame: `event` starts as "message" and each
   * `event:` line overwrites it; `data` starts empty and each `data:` line
   * appends its trimmed value.
   */
  method ParseLines(lines: seq<string>) returns (event: string, data: string)
    ensures event == EventOf(lines)
    ensures data == DataOf(lines)
  {
    event, data := DEFAULT_EVENT, "";
    var i := 0;
    while i < |lines|
      invariant 0 <= i <= |lines|
      invariant event == EventOf(lines[..i])
      invariant data == DataOf(lines[..i])
    {
      var line := lines[i];
      ParseStep(lines, i);
      event := if StartsWith(line, "event:") then JsTrim(line[6..]) else event;
      data := if StartsWith(line, "data:") then data + JsTrim(line[5..]) else data;
      i := i + 1;
    }
    assert lines[..i] == lines;
  }

  /** One frame: its lines are the pieces between newlines. */
  method ParseFrame(part: string) returns (event: string, data: string)
    ensures event == EventOf(Split(part, LINE_END))
    ensures data == DataOf(Split(part, LINE_END))
  {
    event, data := ParseLines(Split(part, LINE_END));
  }

  // ------------------------------------------------------------ delivery

  /** JavaScript truthiness of a parsed JSON value. */
  predicate Truthy(j: Json) {
    match j
    case JNull => false
    case JBool(b) => b
    case JInt(i) => i != 0
    case JStr(s) => s != ""
    case JArr(_) => true
    case JObj(_) => true
  }

  /** `json[key]`: a missing key, or any value other than an object, gives `undefined` (here `None`). */
  function Member(j: Json, key: string): (r: Option<Json>)
    ensures r.Some? <==> j.JObj? && key in j.fields
    ensures r.Some? ==> r.value == j.fields[key]
  {
    if j.JObj? then Get(j.fields, key) else None
  }

  predicate TruthyMember(j: Json, key: string) {
    Member(j, key).Some? && Truthy(Member(j, key).value)
  }

  /**
   * What `onMessage` receives for a frame, if anything. Only "message" and
   * "answer" frames are considered. When `data` parses, the first truthy
   * of `answer` and `output` is delivered; `null.answer` throws, so a parsed
   * `null` is handled like a parse failure: the raw data is delivered unless
   * it is empty.
   */
  function Delivered(event: string, data: string, parse: string -> Option<Json>): (r: Option<Json>)
    ensures r.Some? ==> (event == "message" || event == "answer") && Truthy(r.value)
    ensures (event == "message" || event == "answer") && (parse(data).None? || parse(data) == Some(JNull)) ==>
              r == (if data == "" then None else Some(JStr(data)))
    ensures (event == "message" || event == "answer") && parse(data).Some? && parse(data).value != JNull ==>
              var j := parse(data).value;
              r == (if TruthyMember(j, "answer") then Some(j.fields["answer"])
                    else if TruthyMember(j, "output") then Some(j.fields["output"])
                    else None)
  {
    if event != "message" && event != "answer" then None
    else match parse(data)
      case None => if data != "" then Some(JStr(data)) else None
      case Some(j) =>
        if j == JNull then (if data != "" then Some(JStr(data)) else None)
        else if TruthyMember(j, "answer") then Member(j, "answer")
        else if TruthyMember(j, "output") then Member(j, "output")
        else None
  }

  /** What one complete frame delivers. */
  function FrameDelivery(part: string, parse: string -> Option<Json>): Option<Json> {
    var lines := Split(part, LINE_END);
    Delivered(EventOf(lines), DataOf(lines), parse)
  }

  function Deliveries(frames: seq<string>, parse: string -> Option<Json>): (r: seq<Json>)
    ensures |r| <= |frames|
    ensures forall i :: 0 <= i < |r| ==> Truthy(r[i])
  {
    if frames == [] then []
    else
      var rest := Deliveries(frames[1..], parse);
      match FrameDelivery(frames[0], parse)
      case None => rest
      case Some(j) => [j] + rest
  }

  lemma {:induction false} DeliveriesAppend(a: seq<string>, b: seq<string>, parse: string -> Option<Json>)
    ensures Deliveries(a + b, parse) == Deliveries(a, parse) + Deliveries(b, parse)
    decreases |a|
  {
    if a == [] {
      assert a + b == b;
    } else {
      assert (a + b)[1..] == a[1..] + b;
      DeliveriesAppend(a[1..], b, parse);
    }
  }

  /**
   * The whole read loop: the buffer starts empty, every chunk releases its
   * complete frames, and what is left in the buffer when the stream ends is
   * never parsed.
   */
  function StreamChat(chunks: seq<string>, parse: string -> Option<Json>): seq<Json> {
    Deliveries(FeedAll("", chunks).frames, parse)
  }

  /**
   * The callback sees the same values however the text was chunked: they are
   * the deliveries of every piece of the whole text but the trailing one.
   */
  lemma StreamChatIgnoresChunking(chunks: seq<string>, parse: string -> Option<Json>)
    ensures var p := Split(Concat(chunks), FRAME_END);
            StreamChat(chunks, parse) == Deliveries(p[..|p| - 1], parse)
  {
    assert !Contains("", FRAME_END);
    FeedAllSplitsWhole("", chunks);
    assert "" + Concat(chunks) == Concat(chunks);
  }

  /** A text that never closes a frame delivers nothing. */
  lemma UnterminatedFrameDiscarded(chunks: seq<string>, parse: string -> Option<Json>)
    requires !Contains(Concat(chunks), FRAME_END)
    ensures StreamChat(chunks, parse) == []
  {
    StreamChatIgnoresChunking(chunks, parse);
    SplitWhole(Concat(chunks), FRAME_END);
  }
}
