/** The frames on the wire and what the adapter makes of any data, field by field. */
module SseRules {
  import opened Prelude
  import opened Text
  import opened Gateway
  import opened Sse

  const BREAKS := "\U{A}\U{B}\U{C}\U{D}\U{1C}\U{1D}\U{1E}\U{85}\U{2028}\U{2029}"

  /** Lines end at ten characters, three of which JSON text holds unescaped. */
  lemma BreaksTell(ch: char)
    ensures IsBreak(ch) <==> ch in BREAKS
    ensures IsSeparator(ch) <==> ch in BREAKS && ch >= '\U{80}'
  {
    assert BREAKS[0] == '\U{A}' && BREAKS[7] == '\U{85}' && BREAKS[8] == '\U{2028}' && BREAKS[9] == '\U{2029}';
  }

  /** A chunk names the request, the model and what it is, and has one choice with the delta or why it finished. */
  lemma ChunkTells(x: Context, at: nat, from: Candidate, delta: Option<string>, finish: Option<string>)
    ensures var j := ChunkPayload(x, at, from, delta, finish);
            && j.Obj? && Get(j, "id") == Str("chatcmpl-" + x.requestId)
            && Get(j, "object") == Str("chat.completion.chunk") && Get(j, "created") == Num(x.created(at))
            && Get(j, "model") == Str(x.model)
            && Get(j, "choices").Arr? && |Get(j, "choices").items| == 1
            && var choice := Get(j, "choices").items[0];
               && choice.Obj? && Get(choice, "index") == Num(0)
               && Get(choice, "finish_reason") == (match finish case None => Null case Some(why) => Str(why))
               && Get(choice, "delta")
                  == Obj(match delta case None => map[]
                                     case Some(text) => map["role" := Str("assistant"), "content" := Str(text)])
    ensures var j := ChunkPayload(x, at, from, delta, finish);
            if finish.None? then j.Obj? && "xerex" !in j.fields
            else j.Obj? && Get(j, "xerex") == Obj(map["provider_id" := Str(x.id(from.provider)),
                                                      "credential_id" := Str(x.id(from.credential)),
                                                      "request_id" := Str(x.requestId)])
  {
  }

  /** A failure is sent with its code and its message. */
  lemma ErrorTells(x: Context, at: nat, code: string, message: string)
    ensures var j := Payload(x, at, Problem(code, message));
            && j.Obj? && Get(j, "error").Obj? && Get(Get(j, "error"), "code") == Str(code)
            && Get(Get(j, "error"), "message") == Str(message)
            && Get(Get(j, "error"), "type") == Str("upstream_error")
            && Get(Get(j, "error"), "request_id") == Str(x.requestId)
  {
  }

  /** A delta is sent as a chunk with its text, the end of an answer as a chunk without one that says why it stopped. */
  lemma FrameTells(x: Context, at: nat, from: Candidate, text: string)
    ensures Payload(x, at, Frame.Delta(from, text)) == ChunkPayload(x, at, from, Some(text), None)
    ensures Payload(x, at, Finish(from)) == ChunkPayload(x, at, from, None, Some("stop"))
  {
  }

  /** An event is marked, holds its data and ends with an empty line. */
  lemma PrintTells(c: Codec, x: Context, at: nat, f: Frame)
    ensures Print(c, x, at, [f]) == "data: " + (if f == Done then "[DONE]" else c.dumps(Payload(x, at, f))) + "\n\n"
  {
    assert [f][1..] == [];
    assert Print(c, x, at + 1, [f][1..]) == "";
  }

  // ----- Data of any shape --------------------------------------------------------------------

  /** Missing, null and empty choices yield nothing; data and choices of another shape make the adapter fail. */
  lemma DataTells(c: Codec, j: Json)
    ensures !j.Obj? ==> ParseData(c, j) == Parsed([], true)
    ensures j.Obj? && Get(j, "choices") in {Null, Bool(false), Num(0), Str(""), Arr([]), Obj(map[])} ==>
      ParseData(c, j) == Parsed([], false)
    ensures j.Obj? && Get(j, "choices").Num? && Get(j, "choices").n != 0 ==> ParseData(c, j) == Parsed([], true)
    ensures j.Obj? && Get(j, "choices").Str? && Get(j, "choices").s != "" ==> ParseData(c, j) == Parsed([], true)
    ensures j.Obj? && Get(j, "choices") == Bool(true) ==> ParseData(c, j) == Parsed([], true)
    ensures j.Obj? && Get(j, "choices").Obj? ==>
      ParseData(c, j) == Parsed([], exists name :: name in Get(j, "choices").fields && name != "")
  {
  }

  /** Of a choice counts the content of its delta, printed if it is no string; an empty part yields nothing, a part
      of another shape makes the adapter fail. */
  lemma ChoiceTells(c: Codec, choice: Json)
    ensures choice == Null || choice == Obj(map[]) ==> Content(c, choice) == Some([])
    ensures choice.Num? && choice.n != 0 ==> Content(c, choice) == None
    ensures choice.Obj? && "delta" !in choice.fields ==> Content(c, choice) == Some([])
    ensures choice.Obj? && "delta" in choice.fields ==>
      match choice.fields["delta"] {
        case Null => Content(c, choice) == Some([])
        case Bool(b) => Content(c, choice) == if b then None else Some([])
        case Num(n) => Content(c, choice) == if n == 0 then Some([]) else None
        case Str(s) => Content(c, choice) == if s == "" then Some([]) else None
        case Arr(items) => Content(c, choice) == if items == [] then Some([]) else None
        case Obj(delta) =>
          if "content" !in delta then Content(c, choice) == Some([])
          else match delta["content"] {
            case Str(text) => Content(c, choice) == if text == "" then Some([]) else Some([text])
            case Null => Content(c, choice) == Some([])
            case other =>
              Content(c, choice) == if other in {Bool(false), Num(0), Arr([]), Obj(map[])} then Some([])
                                    else Some([c.str(other)])
          }
      }
  {
  }

  /** Several choices are read in order, up to the first that makes the adapter fail. */
  lemma {:induction false} ChoicesTell(c: Codec, choices: seq<Json>, more: seq<Json>)
    ensures Contents(c, choices + more) ==
            if Contents(c, choices).raised then Contents(c, choices)
            else Contents(c, more).After(Contents(c, choices).deltas)
  {
    if choices == [] {
      assert choices + more == more;
      assert [] + Contents(c, more).deltas == Contents(c, more).deltas;
    } else {
      assert (choices + more)[0] == choices[0] && (choices + more)[1..] == choices[1..] + more;
      ChoicesTell(c, choices[1..], more);
      match Content(c, choices[0])
      case None =>
      case Some(text) => Associates(text, Contents(c, choices[1..]).deltas, Contents(c, more).deltas);
    }
  }

  // ----- Lines --------------------------------------------------------------------------------

  /** The adapter skips what is not marked as data and what is no JSON, and stops at [DONE]. */
  lemma LineTells(c: Codec, line: string, rest: seq<string>)
    ensures (|line| < 5 || line[..5] != "data:") ==> Parse(c, [line] + rest) == Parse(c, rest)
    ensures |line| >= 5 && line[..5] == "data:" ==>
      var chunk := Strip(line[5..]);
      if chunk == "[DONE]" then Parse(c, [line] + rest) == Parsed([], false)
      else match c.loads(chunk)
        case None => Parse(c, [line] + rest) == Parse(c, rest)
        case Some(j) =>
          Parse(c, [line] + rest) == if ParseData(c, j).raised then ParseData(c, j)
                                     else Parse(c, rest).After(ParseData(c, j).deltas)
  {
    assert ([line] + rest)[1..] == rest;
  }
}
