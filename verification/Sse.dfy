/** The event stream the gateway prints (server-sent events, section 9.2 of the WHATWG HTML Standard), and the
    adapter that reads such streams line by line. The reader ends lines at more characters than the standard
    does, and the printer leaves some of them as they are. */
module Sse {
  import opened Prelude
  import opened Text
  import opened Gateway
  import opened Failover

  datatype Json =
    | Null
    | Bool(b: bool)
    | Num(n: int)
    | Str(s: string)
    | Arr(items: seq<Json>)
    | Obj(fields: map<string, Json>)

  /** The JSON library, and how Python prints a value that is not a string. */
  datatype Codec = Codec(dumps: Json -> string, loads: string -> Option<Json>, str: Json -> string)

  /** Where the HTTP client's line iterator ends a line: as Python's str.splitlines does. */
  predicate IsBreak(ch: char) {
    '\U{A}' <= ch <= '\U{D}' || '\U{1C}' <= ch <= '\U{1E}' || ch == '\U{85}' || ch == '\U{2028}' || ch == '\U{2029}'
  }

  predicate OneLine(s: string) {
    forall k :: 0 <= k < |s| ==> !IsBreak(s[k])
  }

  /** The line ends that JSON text contains unescaped: control characters are escaped, these are not. */
  predicate IsSeparator(ch: char) {
    ch == '\U{85}' || ch == '\U{2028}' || ch == '\U{2029}'
  }

  predicate PlainText(s: string) {
    forall k :: 0 <= k < |s| ==> !IsSeparator(s[k])
  }

  /** No string of the value contains a separator. */
  ghost predicate Plain(j: Json) {
    match j
    case Str(s) => PlainText(s)
    case Arr(items) => forall i :: 0 <= i < |items| ==> Plain(items[i])
    case Obj(fields) => forall name :: name in fields ==> PlainText(name) && Plain(fields[name])
    case _ => true
  }

  // ----- Printing -----------------------------------------------------------------------------

  /** What the frames of one response share; `created` is the clock, read once per frame. */
  datatype Context = Context(model: string, requestId: string, created: nat -> int, id: nat -> string)

  function ChunkPayload(x: Context, at: nat, from: Candidate, delta: Option<string>, finish: Option<string>): Json {
    var choice := map[
      "index" := Num(0),
      "delta" := Obj(if delta.Some? then map["role" := Str("assistant"), "content" := Str(delta.value)] else map[]),
      "finish_reason" := if finish.Some? then Str(finish.value) else Null];
    var payload := map[
      "id" := Str("chatcmpl-" + x.requestId),
      "object" := Str("chat.completion.chunk"),
      "created" := Num(x.created(at)),
      "model" := Str(x.model),
      "choices" := Arr([Obj(choice)])];
    var served := map[
      "provider_id" := Str(x.id(from.provider)),
      "credential_id" := Str(x.id(from.credential)),
      "request_id" := Str(x.requestId)];
    Obj(if finish.Some? then payload["xerex" := Obj(served)] else payload)
  }

  function ErrorPayload(x: Context, code: string, message: string): Json {
    Obj(map["error" := Obj(map[
      "message" := Str(message), "type" := Str("upstream_error"), "code" := Str(code),
      "request_id" := Str(x.requestId)])])
  }

  function Payload(x: Context, at: nat, f: Frame): Json
    requires !f.Done?
  {
    match f
    case Delta(from, text) => ChunkPayload(x, at, from, Some(text), None)
    case Finish(from) => ChunkPayload(x, at, from, None, Some("stop"))
    case Problem(code, message) => ErrorPayload(x, code, message)
  }

  /** The data of one event. */
  function Data(c: Codec, x: Context, at: nat, f: Frame): string {
    if f.Done? then "[DONE]" else c.dumps(Payload(x, at, f))
  }

  /** The text of the frames, the first of which is the at-th of the response. */
  function Print(c: Codec, x: Context, at: nat, frames: seq<Frame>): string
    decreases |frames|
  {
    if frames == [] then ""
    else "data: " + Data(c, x, at, frames[0]) + "\n\n" + Print(c, x, at + 1, frames[1..])
  }

  // ----- Lines --------------------------------------------------------------------------------

  function LineLength(s: string): (n: nat)
    ensures n <= |s| && OneLine(s[..n]) && (n < |s| ==> IsBreak(s[n]))
  {
    if s == [] || IsBreak(s[0]) then 0 else 1 + LineLength(s[1..])
  }

  /** CR LF ends one line. */
  function Lines(s: string): (lines: seq<string>)
    ensures s != "" ==> lines != []
    decreases |s|
  {
    var n := LineLength(s);
    if s == [] then []
    else if n == |s| then [s]
    else if s[n] == '\r' && n + 1 < |s| && s[n + 1] == '\n' then [s[..n]] + Lines(s[n + 2..])
    else [s[..n]] + Lines(s[n + 1..])
  }

  lemma {:induction false} LineLengthIs(s: string, n: nat)
    requires n <= |s| && OneLine(s[..n]) && (n < |s| ==> IsBreak(s[n]))
    ensures LineLength(s) == n
  {
    if n > 0 {
      assert s[0] == s[..n][0] && s[1..][..n - 1] == s[..n][1..];
      LineLengthIs(s[1..], n - 1);
    }
  }

  /** What is left of the lines after the first n characters, which are the first line. */
  function AfterLine(s: string, n: nat): string
    requires n < |s|
  {
    if s[n] == '\r' && n + 1 < |s| && s[n + 1] == '\n' then s[n + 2..] else s[n + 1..]
  }

  lemma LinesUnfold(s: string, n: nat)
    requires s != "" && n <= |s| && LineLength(s) == n
    ensures Lines(s) == [s[..n]] + if n == |s| then [] else Lines(AfterLine(s, n))
  {
    if n == |s| { assert s[..n] == s; }
  }

  lemma AfterThen(text: string, rest: string, n: nat)
    requires n < |text| && IsBreak(text[n]) && !IsBreak(text[|text| - 1])
    ensures AfterLine(text + "\n" + rest, n) == AfterLine(text, n) + "\n" + rest
    ensures AfterLine(text, n) != "" && !IsBreak(AfterLine(text, n)[|AfterLine(text, n)| - 1])
  {
    var s := text + "\n" + rest;
    assert s[n] == text[n] && s[n + 1] == text[n + 1];
    assert s[n + 1..] == text[n + 1..] + "\n" + rest;
    if text[n + 1] == '\n' { assert s[n + 2..] == text[n + 2..] + "\n" + rest; }
  }

  lemma FirstLineThen(text: string, rest: string)
    requires text != ""
    ensures LineLength(text + "\n" + rest) == LineLength(text)
  {
    var s, n := text + "\n" + rest, LineLength(text);
    assert s[..n] == text[..n] && s[n] == (text + "\n")[n];
    LineLengthIs(s, n);
  }

  lemma OnlyLineThen(text: string, rest: string)
    ensures AfterLine(text + "\n" + rest, |text|) == rest && (text + "\n" + rest)[..|text|] == text
  {
  }

  /** A text that does not end in a line end keeps its lines when more follows on a new line. */
  lemma {:induction false} LinesThen(text: string, rest: string)
    requires text != "" && !IsBreak(text[|text| - 1])
    ensures Lines(text + "\n" + rest) == Lines(text) + Lines(rest)
    decreases |text|
  {
    var s, n := text + "\n" + rest, LineLength(text);
    FirstLineThen(text, rest);
    LinesUnfold(s, n);
    LinesUnfold(text, n);
    if n == |text| {
      OnlyLineThen(text, rest);
    } else {
      AfterThen(text, rest, n);
      LinesThen(AfterLine(text, n), rest);
      assert s[..n] == text[..n];
      Associates([text[..n]], Lines(AfterLine(text, n)), Lines(rest));
    }
  }

  lemma AfterPrefix(prefix: string, text: string, n: nat)
    requires n < |text|
    ensures AfterLine(prefix + text, |prefix| + n) == AfterLine(text, n)
  {
    var s, m := prefix + text, |prefix| + n;
    assert s[m] == text[n];
    if n + 1 < |text| {
      assert s[m + 1] == text[n + 1];
      assert s[m + 2..] == text[n + 2..];
    }
    assert s[m + 1..] == text[n + 1..];
  }

  /** A prefix without line ends belongs to the first line. */
  lemma LinesPrefix(prefix: string, text: string)
    requires text != "" && OneLine(prefix)
    ensures Lines(prefix + text) == [prefix + Lines(text)[0]] + Lines(text)[1..]
  {
    var s, n := prefix + text, LineLength(text);
    assert s[..|prefix| + n] == prefix + text[..n];
    LineLengthIs(s, |prefix| + n);
    LinesUnfold(s, |prefix| + n);
    LinesUnfold(text, n);
    if n < |text| { AfterPrefix(prefix, text, n); }
  }

  lemma LinesOfLine(line: string)
    requires line != "" && OneLine(line)
    ensures Lines(line) == [line]
  {
    LineLengthIs(line, |line|);
  }

  /** An event is the lines of its data, the first of them marked, and an empty one. */
  lemma EventLines(data: string, rest: string)
    requires data != "" && !IsBreak(data[|data| - 1])
    ensures Lines("data: " + data + "\n\n" + rest)
         == ["data: " + Lines(data)[0]] + Lines(data)[1..] + [""] + Lines(rest)
  {
    var line, tail := "data: " + data, "\n" + rest;
    EventText(data, rest);
    assert line[|line| - 1] == data[|data| - 1];
    LinesThen(line, tail);
    LinesPrefix("data: ", data);
    EmptyLine(rest);
  }

  lemma EmptyLine(rest: string)
    ensures Lines("\n" + rest) == [""] + Lines(rest)
  {
    var tail := "\n" + rest;
    LineLengthIs(tail, 0);
    assert tail[..0] == "" && tail[1..] == rest;
  }

  lemma EventText(data: string, rest: string)
    ensures "data: " + data + "\n\n" + rest == ("data: " + data) + "\n" + ("\n" + rest)
  {
  }

  // ----- Parsing ------------------------------------------------------------------------------

  function Get(j: Json, name: string): Json
    requires j.Obj?
  {
    if name in j.fields then j.fields[name] else Null
  }

  predicate Truthy(j: Json) {
    match j
    case Null => false
    case Bool(b) => b
    case Num(n) => n != 0
    case Str(s) => s != ""
    case Arr(items) => items != []
    case Obj(fields) => fields != map[]
  }

  /** The deltas yielded so far, and whether reading then failed on an unexpected shape. */
  datatype Parsed = Parsed(deltas: seq<string>, raised: bool) {
    function After(earlier: seq<string>): Parsed {
      Parsed(earlier + deltas, raised)
    }
  }

  /** The content of one choice; None if `get` is called on something that is not an object. */
  function Content(c: Codec, choice: Json): Option<seq<string>> {
    if !Truthy(choice) then Some([])
    else if !choice.Obj? then None
    else
      var delta := Get(choice, "delta");
      if !Truthy(delta) then Some([])
      else if !delta.Obj? then None
      else
        var content := Get(delta, "content");
        if !Truthy(content) then Some([]) else Some([if content.Str? then content.s else c.str(content)])
  }

  function Contents(c: Codec, choices: seq<Json>): Parsed {
    if choices == [] then Parsed([], false)
    else match Content(c, choices[0])
      case None => Parsed([], true)
      case Some(text) => Contents(c, choices[1..]).After(text)
  }

  function ParseData(c: Codec, j: Json): Parsed {
    if !j.Obj? then Parsed([], true)
    else
      var choices := Get(j, "choices");
      if !Truthy(choices) then Parsed([], false)
      // What is iterated over an object are its names, and an empty one counts as an empty choice.
      else if choices.Obj? then Parsed([], choices.fields.Keys != {""})
      else if !choices.Arr? then Parsed([], true)
      else Contents(c, choices.items)
  }

  function Parse(c: Codec, lines: seq<string>): Parsed {
    if lines == [] then Parsed([], false)
    else if lines[0] == "" || !("data:" <= lines[0]) then Parse(c, lines[1..])
    else
      var chunk := Strip(lines[0][5..]);
      if chunk == "[DONE]" then Parsed([], false)
      else match c.loads(chunk)
        case None => Parse(c, lines[1..])
        case Some(j) =>
          var p := ParseData(c, j);
          if p.raised then p else Parse(c, lines[1..]).After(p.deltas)
  }

  /** The adapter's line loop. */
  method ReadStream(c: Codec, lines: seq<string>) returns (p: Parsed)
    ensures p == Parse(c, lines)
  {
    var deltas: seq<string> := [];
    for i := 0 to |lines|
      invariant Parse(c, lines) == Parse(c, lines[i..]).After(deltas)
    {
      var line := lines[i];
      assert lines[i..][0] == line && lines[i..][1..] == lines[i + 1..];
      if line == "" || !("data:" <= line) {
        continue;
      }
      var chunk := Strip(line[5..]);
      if chunk == "[DONE]" {
        return Parsed(deltas, false);
      }
      var parsed := c.loads(chunk);
      if parsed.None? {
        continue;
      }
      var yielded := ParseData(c, parsed.value);
      deltas := deltas + yielded.deltas;
      if yielded.raised {
        return Parsed(deltas, true);
      }
    }
    p := Parsed(deltas, false);
  }

  // ----- The codec ----------------------------------------------------------------------------

  /** Nothing that this text could load to has choices. */
  ghost predicate NoChoices(c: Codec, text: string) {
    var j := c.loads(Strip(text));
    j.Some? && j.value.Obj? ==> "choices" !in j.value.fields
  }

  /** A line from which the adapter reads no delta. */
  ghost predicate Mute(c: Codec, line: string) {
    "data:" <= line ==> NoChoices(c, line[5..])
  }

  /** The lines that an event's data is cut into. */
  ghost predicate CutIsMute(c: Codec, lines: seq<string>) {
    && lines != [] && NoChoices(c, lines[0])
    && forall i :: 0 < i < |lines| ==> Mute(c, lines[i])
  }

  /** What the JSON library does: parsing undoes printing; the text of a value breaks exactly where its strings
      hold a separator; an object starts and ends with a brace; and no piece of an object's text that is cut
      inside its strings loads to an object with choices. */
  ghost predicate Faithful(c: Codec) {
    && (forall j :: c.loads(c.dumps(j)) == Some(j))
    && (forall j :: OneLine(c.dumps(j)) <==> Plain(j))
    && (forall j: Json :: j.Obj? ==> |c.dumps(j)| >= 2 && c.dumps(j)[0] == '{' && c.dumps(j)[|c.dumps(j)| - 1] == '}')
    && (forall j: Json :: j.Obj? && !Plain(j) ==> CutIsMute(c, Lines(c.dumps(j))))
  }

  // ----- Round trip ---------------------------------------------------------------------------

  /** The texts of the delta frames before the first [DONE], without empty ones. */
  function Texts(frames: seq<Frame>): seq<string> {
    if frames == [] || frames[0].Done? then []
    else (if frames[0].Delta? && frames[0].text != "" then [frames[0].text] else []) + Texts(frames[1..])
  }

  lemma StripSpace(s: string)
    ensures Strip(" " + s) == Strip(s)
  {
    assert (" " + s)[1..] == s;
  }

  lemma StripKeeps(s: string)
    requires |s| > 0 && !IsSpace(s[0]) && !IsSpace(s[|s| - 1])
    ensures Strip(s) == s
  {
  }

  lemma ParseChunk(c: Codec, x: Context, at: nat, from: Candidate, delta: Option<string>, finish: Option<string>)
    ensures ParseData(c, ChunkPayload(x, at, from, delta, finish))
            == Parsed(if delta.Some? && delta.value != "" then [delta.value] else [], false)
  {
    var j := ChunkPayload(x, at, from, delta, finish);
    var choices := Get(j, "choices");
    var choice := choices.items[0];
    assert "index" in choice.fields;
    assert choices.items[1..] == [];
    var d := Get(choice, "delta");
    if delta.Some? {
      assert "role" in d.fields && Get(d, "content") == Str(delta.value);
    }
    var text := if delta.Some? && delta.value != "" then [delta.value] else [];
    assert Content(c, choice) == Some(text) && text + [] == text;
    assert Contents(c, choices.items) == Contents(c, []).After(text);
    assert j.Obj? && choices.Arr? && Truthy(choices);
  }

  lemma ParsePayload(c: Codec, x: Context, at: nat, f: Frame)
    requires !f.Done?
    ensures ParseData(c, Payload(x, at, f)) == Parsed(if f.Delta? && f.text != "" then [f.text] else [], false)
  {
    match f
    case Delta(from, text) => ParseChunk(c, x, at, from, Some(text), None);
    case Finish(from) => ParseChunk(c, x, at, from, None, Some("stop"));
    case Problem(_, _) =>
  }

  /** What an event on one line adds to what the rest of the stream yields. */
  lemma ParseEvent(c: Codec, data: string, rest: seq<string>)
    requires |data| > 0 && !IsSpace(data[0]) && !IsSpace(data[|data| - 1])
    ensures Parse(c, ["data: " + data] + [] + [""] + rest) ==
            if data == "[DONE]" then Parsed([], false)
            else match c.loads(data)
              case None => Parse(c, rest)
              case Some(j) =>
                if ParseData(c, j).raised then ParseData(c, j) else Parse(c, rest).After(ParseData(c, j).deltas)
  {
    var lines := ["data: " + data] + [] + [""] + rest;
    assert lines[0][5..] == " " + data;
    StripSpace(data);
    StripKeeps(data);
    assert lines[1..] == [""] + rest && lines[1..][1..] == rest && lines[1..][0] == "";
  }

  /** Mute lines yield nothing; at worst they stop the adapter or make it fail. */
  lemma {:induction false} ParseMute(c: Codec, mute: seq<string>, rest: seq<string>)
    requires forall line :: line in mute ==> Mute(c, line)
    ensures Parse(c, mute + rest) == Parse(c, rest) || Parse(c, mute + rest).deltas == []
    decreases |mute|
  {
    if mute == [] {
      assert mute + rest == rest;
    } else {
      var lines := mute + rest;
      assert lines[0] == mute[0] && lines[1..] == mute[1..] + rest;
      ParseMute(c, mute[1..], rest);
      ParseMuteLine(c, lines);
    }
  }

  lemma ParseMuteLine(c: Codec, lines: seq<string>)
    requires lines != [] && Mute(c, lines[0])
    ensures Parse(c, lines) == Parse(c, lines[1..]) || Parse(c, lines).deltas == []
  {
    if "data:" <= lines[0] {
      var chunk := Strip(lines[0][5..]);
      if chunk != "[DONE]" && c.loads(chunk).Some? {
        var j := c.loads(chunk).value;
        if j.Obj? {
          assert ParseData(c, j) == Parsed([], false);
          assert [] + Parse(c, lines[1..]).deltas == Parse(c, lines[1..]).deltas;
        }
      }
    }
  }

  /** An event whose data is cut yields nothing. */
  lemma ParseCutEvent(c: Codec, pieces: seq<string>, rest: seq<string>)
    requires CutIsMute(c, pieces)
    ensures var lines := ["data: " + pieces[0]] + pieces[1..] + [""] + rest;
            Parse(c, lines) == Parse(c, rest) || Parse(c, lines).deltas == []
  {
    var first := "data: " + pieces[0];
    var mute := [first] + pieces[1..] + [""];
    assert first[5..] == " " + pieces[0];
    StripSpace(pieces[0]);
    assert forall i :: 0 < i < |pieces| ==> mute[i] == pieces[i];
    ParseMute(c, mute, rest);
    assert mute + rest == [first] + pieces[1..] + [""] + rest;
  }

  lemma DataEnds(c: Codec, x: Context, at: nat, f: Frame)
    requires Faithful(c)
    ensures var data := Data(c, x, at, f);
            && |data| > 0 && !IsSpace(data[0]) && !IsSpace(data[|data| - 1]) && !IsBreak(data[|data| - 1])
            && (data == "[DONE]" <==> f.Done?) && (!f.Done? ==> c.loads(data) == Some(Payload(x, at, f)))
  {
  }

  /** The frame arrives in one piece. */
  ghost predicate Whole(x: Context, at: nat, f: Frame) {
    f.Done? || Plain(Payload(x, at, f))
  }

  lemma WholeIsOneLine(c: Codec, x: Context, at: nat, f: Frame)
    requires Faithful(c) && Whole(x, at, f)
    ensures OneLine(Data(c, x, at, f))
  {
  }

  /** Reading a whole frame adds its text, if it has one; after [DONE] nothing is read. */
  lemma ParseWhole(c: Codec, x: Context, at: nat, f: Frame, rest: string)
    requires Faithful(c) && Whole(x, at, f)
    ensures Parse(c, Lines("data: " + Data(c, x, at, f) + "\n\n" + rest)) ==
            if f.Done? then Parsed([], false)
            else Parse(c, Lines(rest)).After(if f.Delta? && f.text != "" then [f.text] else [])
  {
    var data := Data(c, x, at, f);
    DataEnds(c, x, at, f);
    WholeIsOneLine(c, x, at, f);
    EventLines(data, rest);
    LinesOfLine(data);
    ParseEvent(c, data, Lines(rest));
    if !f.Done? { ParsePayload(c, x, at, f); }
  }

  /** A frame that is cut adds nothing. */
  lemma ParseCut(c: Codec, x: Context, at: nat, f: Frame, rest: string)
    requires Faithful(c) && !Whole(x, at, f)
    ensures var p := Parse(c, Lines("data: " + Data(c, x, at, f) + "\n\n" + rest));
            p == Parse(c, Lines(rest)) || p.deltas == []
  {
    var data := Data(c, x, at, f);
    DataEnds(c, x, at, f);
    EventLines(data, rest);
    ParseCutEvent(c, Lines(data), Lines(rest));
  }

  ghost predicate AllWhole(x: Context, at: nat, frames: seq<Frame>) {
    forall k :: 0 <= k < |frames| ==> Whole(x, at + k, frames[k])
  }

  lemma PrintOne(c: Codec, x: Context, at: nat, frames: seq<Frame>)
    requires frames != []
    ensures Print(c, x, at, frames) == "data: " + Data(c, x, at, frames[0]) + "\n\n" + Print(c, x, at + 1, frames[1..])
  {
  }

  /** What the adapter reads from printed frames. */
  ghost function Read(c: Codec, x: Context, at: nat, frames: seq<Frame>): Parsed {
    Parse(c, Lines(Print(c, x, at, frames)))
  }

  lemma ReadWhole(c: Codec, x: Context, at: nat, frames: seq<Frame>)
    requires Faithful(c) && frames != [] && Whole(x, at, frames[0]) && !frames[0].Done?
    ensures Read(c, x, at, frames)
         == Read(c, x, at + 1, frames[1..]).After(
              if frames[0].Delta? && frames[0].text != "" then [frames[0].text] else [])
  {
    PrintOne(c, x, at, frames);
    ParseWhole(c, x, at, frames[0], Print(c, x, at + 1, frames[1..]));
  }

  /** Whole frames are read back exactly: the non-empty texts before the first [DONE], in order. */
  lemma {:induction false} ParsePrinted(c: Codec, x: Context, at: nat, frames: seq<Frame>)
    requires Faithful(c) && AllWhole(x, at, frames)
    ensures Read(c, x, at, frames) == Parsed(Texts(frames), false)
    decreases |frames|
  {
    if frames != [] {
      assert Whole(x, at + 0, frames[0]);
      forall k | 0 <= k < |frames| - 1 ensures Whole(x, at + 1 + k, frames[1..][k]) {
        assert Whole(x, at + (k + 1), frames[k + 1]);
      }
      PrintOne(c, x, at, frames);
      ParseWhole(c, x, at, frames[0], Print(c, x, at + 1, frames[1..]));
      ParsePrinted(c, x, at + 1, frames[1..]);
    }
  }

  /** The frames that bring a text to the client's reader. */
  ghost function Arriving(x: Context, at: nat, frames: seq<Frame>): nat
    decreases |frames|
  {
    if frames == [] then 0
    else (if frames[0].Delta? && frames[0].text != "" && Whole(x, at, frames[0]) then 1 else 0)
         + Arriving(x, at + 1, frames[1..])
  }

  /** No other frame yields anything. */
  lemma {:induction false} ParseAtMost(c: Codec, x: Context, at: nat, frames: seq<Frame>)
    requires Faithful(c)
    ensures |Read(c, x, at, frames).deltas| <= Arriving(x, at, frames)
    decreases |frames|
  {
    if frames != [] {
      var rest := Print(c, x, at + 1, frames[1..]);
      PrintOne(c, x, at, frames);
      ParseAtMost(c, x, at + 1, frames[1..]);
      if Whole(x, at, frames[0]) {
        ParseWhole(c, x, at, frames[0], rest);
      } else {
        ParseCut(c, x, at, frames[0], rest);
      }
    }
  }

  // ----- Streams of the gateway ---------------------------------------------------------------

  /** The strings that every delta frame carries. */
  predicate PlainContext(x: Context) {
    PlainText(x.model) && PlainText(x.requestId)
  }

  lemma PlainConcat(a: string, b: string)
    ensures PlainText(a + b) <==> PlainText(a) && PlainText(b)
  {
    assert forall k :: 0 <= k < |a| ==> a[k] == (a + b)[k];
    assert forall k :: 0 <= k < |b| ==> b[k] == (a + b)[|a| + k];
  }

  lemma ChoicePlain(delta: string)
    ensures Plain(Obj(map["index" := Num(0),
                          "delta" := Obj(map["role" := Str("assistant"), "content" := Str(delta)]),
                          "finish_reason" := Null]))
       <==> PlainText(delta)
  {
    var inner := map["role" := Str("assistant"), "content" := Str(delta)];
    var choice := map["index" := Num(0), "delta" := Obj(inner), "finish_reason" := Null];
    assert Plain(Obj(inner)) <==> PlainText(delta) by {
      assert "content" in inner && inner["content"] == Str(delta);
    }
    assert "delta" in choice && choice["delta"] == Obj(inner);
  }

  lemma FieldsPlain(payload: map<string, Json>)
    requires payload.Keys == {"id", "object", "created", "model", "choices"}
    requires payload["object"] == Str("chat.completion.chunk") && payload["created"].Num?
    ensures Plain(Obj(payload)) <==> Plain(payload["id"]) && Plain(payload["model"]) && Plain(payload["choices"])
  {
    if Plain(payload["id"]) && Plain(payload["model"]) && Plain(payload["choices"]) {
      forall name | name in payload ensures PlainText(name) && Plain(payload[name]) {
        FieldNamesPlain(name);
      }
    }
  }

  lemma FieldNamesPlain(name: string)
    requires name in {"id", "object", "created", "model", "choices"}
    ensures PlainText(name)
  {
  }

  lemma ChunkPlain(x: Context, at: nat, from: Candidate, text: string)
    ensures var payload := ChunkPayload(x, at, from, Some(text), None).fields;
            Plain(Obj(payload)) <==>
            PlainText("chatcmpl-" + x.requestId) && PlainText(x.model) && Plain(payload["choices"])
  {
    FieldsPlain(ChunkPayload(x, at, from, Some(text), None).fields);
  }

  /** A delta frame is whole exactly if the delta, the model name and the request id hold no separator. */
  lemma DeltaWhole(x: Context, at: nat, from: Candidate, text: string)
    ensures Whole(x, at, Delta(from, text)) <==> PlainContext(x) && PlainText(text)
  {
    var choices := ChunkPayload(x, at, from, Some(text), None).fields["choices"];
    ChunkPlain(x, at, from, text);
    ChoicePlain(text);
    PlainConcat("chatcmpl-", x.requestId);
    assert PlainText("chatcmpl-");
    assert Plain(choices) <==> Plain(choices.items[0]);
  }

  /** The delta reaches the client. */
  predicate Survives(x: Context, text: string) {
    PlainContext(x) && text != "" && PlainText(text)
  }

  ghost predicate AllSurvive(x: Context, texts: seq<string>) {
    forall text :: text in texts ==> Survives(x, text)
  }

  lemma SurviveCons(x: Context, texts: seq<string>)
    requires texts != []
    ensures AllSurvive(x, texts) <==> Survives(x, texts[0]) && AllSurvive(x, texts[1..])
  {
    assert texts == [texts[0]] + texts[1..];
  }

  function DeltaFrames(from: Candidate, texts: seq<string>): (frames: seq<Frame>)
    ensures |frames| == |texts| && forall k :: 0 <= k < |texts| ==> frames[k] == Delta(from, texts[k])
  {
    if texts == [] then [] else [Delta(from, texts[0])] + DeltaFrames(from, texts[1..])
  }

  lemma NextFrames(from: Candidate, texts: seq<string>, tail: seq<Frame>)
    requires texts != []
    ensures (DeltaFrames(from, texts) + tail)[1..] == DeltaFrames(from, texts[1..]) + tail
  {
  }

  ghost predicate NoDeltas(frames: seq<Frame>) {
    forall f :: f in frames ==> !f.Delta?
  }

  lemma {:induction false} ArrivingDeltas(x: Context, at: nat, from: Candidate, texts: seq<string>, tail: seq<Frame>)
    requires NoDeltas(tail)
    ensures Arriving(x, at, DeltaFrames(from, texts) + tail) <= |texts|
    ensures Arriving(x, at, DeltaFrames(from, texts) + tail) == |texts| <==> AllSurvive(x, texts)
    decreases |texts|
  {
    var frames := DeltaFrames(from, texts) + tail;
    if texts == [] {
      assert frames == tail;
      NoneArriving(x, at, tail);
    } else {
      ArrivingDeltas(x, at + 1, from, texts[1..], tail);
      NextFrames(from, texts, tail);
      DeltaWhole(x, at, from, texts[0]);
      SurviveCons(x, texts);
    }
  }

  lemma {:induction false} NoneArriving(x: Context, at: nat, frames: seq<Frame>)
    requires NoDeltas(frames)
    ensures Arriving(x, at, frames) == 0
    decreases |frames|
  {
    if frames != [] { NoneArriving(x, at + 1, frames[1..]); }
  }

  lemma AfterBoth(p: Parsed, q: Parsed, last: Parsed, texts: seq<string>)
    requires texts != [] && p == q.After([texts[0]]) && q == last.After(texts[1..])
    ensures p == last.After(texts)
  {
    assert texts == [texts[0]] + texts[1..];
    assert [texts[0]] + (texts[1..] + last.deltas) == texts + last.deltas;
  }

  lemma ReadDelta(c: Codec, x: Context, at: nat, from: Candidate, texts: seq<string>, tail: seq<Frame>)
    requires Faithful(c) && texts != [] && Survives(x, texts[0])
    ensures Read(c, x, at, DeltaFrames(from, texts) + tail)
         == Read(c, x, at + 1, DeltaFrames(from, texts[1..]) + tail).After([texts[0]])
  {
    var frames := DeltaFrames(from, texts) + tail;
    DeltaWhole(x, at, from, texts[0]);
    NextFrames(from, texts, tail);
    assert frames[0] == Delta(from, texts[0]);
    ReadWhole(c, x, at, frames);
  }

  /** Surviving deltas are read back exactly, whatever follows them. */
  lemma {:induction false} SurvivingDeltas(c: Codec, x: Context, at: nat, end: nat, from: Candidate,
                                           texts: seq<string>, tail: seq<Frame>)
    requires Faithful(c) && AllSurvive(x, texts) && end == at + |texts|
    ensures Read(c, x, at, DeltaFrames(from, texts) + tail) == Read(c, x, end, tail).After(texts)
    decreases |texts|
  {
    var last := Read(c, x, end, tail);
    if texts == [] {
      assert DeltaFrames(from, texts) + tail == tail && [] + last.deltas == last.deltas;
    } else {
      var rest := texts[1..];
      var read := Read(c, x, at + 1, DeltaFrames(from, rest) + tail);
      SurviveCons(x, texts);
      ReadDelta(c, x, at, from, texts, tail);
      SurvivingDeltas(c, x, at + 1, end, from, rest, tail);
      AfterBoth(Read(c, x, at, DeltaFrames(from, texts) + tail), read, last, texts);
    }
  }

  lemma SentTail(t: Try) returns (tail: seq<Frame>)
    ensures Sent(t) == DeltaFrames(t.candidate, t.reply.deltas) + tail && NoDeltas(tail)
  {
    tail := Sent(t)[|t.reply.deltas|..];
    assert DeltaFrames(t.candidate, t.reply.deltas) == Deltas(t);
  }

  /** What the adapter reads from one candidate's frames. */
  lemma SentRoundTrip(c: Codec, x: Context, t: Try)
    requires Faithful(c)
    ensures Read(c, x, 0, Sent(t)).deltas == t.reply.deltas <==> AllSurvive(x, t.reply.deltas)
    ensures |Read(c, x, 0, Sent(t)).deltas| <= Arriving(x, 0, Sent(t)) <= |t.reply.deltas|
  {
    var deltas := t.reply.deltas;
    var tail := SentTail(t);
    ParseAtMost(c, x, 0, Sent(t));
    ArrivingDeltas(x, 0, t.candidate, deltas, tail);
    if AllSurvive(x, deltas) {
      SurvivingDeltas(c, x, 0, |deltas|, t.candidate, deltas, tail);
      ParseAtMost(c, x, |deltas|, tail);
      NoneArriving(x, |deltas|, tail);
      assert deltas + [] == deltas;
    }
  }

  /** Reading a gateway stream with the gateway's own adapter gives back the deltas of the candidate that served
      it, whole or cut short, if and only if every one of them survives: none is empty, and neither they nor the
      model name nor the request id hold U+0085, U+2028 or U+2029. */
  lemma StreamRoundTrip(c: Codec, x: Context, call: Call)
    requires Faithful(c) && call.kind.Stream? && LastCall(call, 0).Some?
    ensures var deltas := call.tries[LastCall(call, 0).value].reply.deltas;
            var p := Read(c, x, 0, FramesFrom(call, 0, None));
            p.deltas == deltas <==> AllSurvive(x, deltas)
    ensures AllWhole(x, 0, FramesFrom(call, 0, None)) ==>
            !Read(c, x, 0, FramesFrom(call, 0, None)).raised
  {
    StreamHasOneSource(call, 0, None);
    SentRoundTrip(c, x, call.tries[LastCall(call, 0).value]);
    if AllWhole(x, 0, FramesFrom(call, 0, None)) { ParsePrinted(c, x, 0, FramesFrom(call, 0, None)); }
  }

  /** A delta that an upstream can send and that is lost. */
  lemma SeparatorLosesDelta(c: Codec, x: Context, call: Call)
    requires Faithful(c) && call.kind.Stream? && LastCall(call, 0).Some?
    requires call.tries[LastCall(call, 0).value].reply.deltas == ["a\U{2028}b"]
    ensures Read(c, x, 0, FramesFrom(call, 0, None)).deltas == []
  {
    var t := call.tries[LastCall(call, 0).value];
    var tail := SentTail(t);
    assert IsSeparator("a\U{2028}b"[1]);
    StreamHasOneSource(call, 0, None);
    SentRoundTrip(c, x, t);
    ArrivingDeltas(x, 0, t.candidate, t.reply.deltas, tail);
    assert "a\U{2028}b" in t.reply.deltas && !Survives(x, "a\U{2028}b");
  }

  /** The adapter itself never yields an empty delta unless a non-string prints as one. */
  lemma {:induction false} ParsedDeltasAreNonEmpty(c: Codec, lines: seq<string>)
    requires forall j :: c.str(j) != ""
    ensures "" !in Parse(c, lines).deltas
  {
    if lines != [] {
      ParsedDeltasAreNonEmpty(c, lines[1..]);
      var parsed := c.loads(Strip(if |lines[0]| >= 5 then lines[0][5..] else ""));
      if parsed.Some? && parsed.value.Obj? && Get(parsed.value, "choices").Arr? {
        ContentsAreNonEmpty(c, Get(parsed.value, "choices").items);
      }
    }
  }

  lemma {:induction false} ContentsAreNonEmpty(c: Codec, choices: seq<Json>)
    requires forall j :: c.str(j) != ""
    ensures "" !in Contents(c, choices).deltas
  {
    if choices != [] { ContentsAreNonEmpty(c, choices[1..]); }
  }
}
