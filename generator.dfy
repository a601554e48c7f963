/** `ToolGeneratorAgent.generate_tool_code`: obtain a reply (from a file, or from the
    language model and then saved to a file), decode every marker of it in a loop, and
    project the result onto the tool record; any exception becomes a failure record. The
    language model and the file system are parameters: `read`, `generate` and `write`. */
module Generator {
  import opened Wrappers
  import opened Text
  import opened Markers

  /** A call on the world outside, in the order it is made. */
  datatype Call = ReadFile(name: string) | Backend(prompt: string) | WriteFile(name: string, text: string)

  /** The prompt sent to the model for a tool `description` in `language`. */
  function Prompt(description: string, language: string): string {
    PromptOpening + language + PromptLead + description + PromptClosing
  }

  const PromptOpening := "Please generate "
  const PromptLead := " code for a tool with the following description:\n"
  const PromptClosing := "\n\nThe code should be production-ready, well-documented, and include error handling.\n"

  /** `if load_file_name:` — a name that is present and not empty. */
  predicate Truthy(name: Option<string>) {
    name.Some? && name.value != ""
  }

  /** What `open(None, "w")` raises. */
  const NoneNameError := "expected str, bytes or os.PathLike object, not NoneType"

  /** The reply the decoder sees, or the text of the exception raised while obtaining it. */
  function ReplyText(prompt: string, saveFileName: Option<string>, loadFileName: Option<string>,
                     read: string -> Result<string>, generate: string -> Result<string>,
                     write: (string, string) -> Outcome): Result<string>
  {
    if Truthy(loadFileName) then read(loadFileName.value)
    else
      match generate(prompt)
      case Err(e) => Err(e)
      case Ok(text) =>
        if saveFileName.None? then Err(NoneNameError)
        else
          match write(saveFileName.value, text)
          case Fail(e) => Err(e)
          case Pass => Ok(text)
  }

  /** The calls made while obtaining the reply, in order. */
  function CallsMade(prompt: string, saveFileName: Option<string>, loadFileName: Option<string>,
                     generate: string -> Result<string>): seq<Call>
  {
    if Truthy(loadFileName) then [ReadFile(loadFileName.value)]
    else
      var reply := generate(prompt);
      if reply.Ok? && saveFileName.Some? then [Backend(prompt), WriteFile(saveFileName.value, reply.value)]
      else [Backend(prompt)]
  }

  /** `code_content` after the loop has visited the markers `ms`: each marker's name maps to
      what it decodes to. */
  function Fill(ms: seq<Marker>, text: string): map<string, string>
  {
    if |ms| == 0 then map[]
    else Fill(ms[..|ms| - 1], text)[Value(ms[|ms| - 1]) := ParseMarkedBlocks(ms[|ms| - 1], text)]
  }

  /** Python's `d.get(key, "")`. */
  function Get(d: map<string, string>, key: string): string {
    if key in d then d[key] else ""
  }

  /** The dictionary `generate_tool_code` returns: `success` is `"True"` with the five code
      fields, or `"False"` with `error`. */
  datatype ToolCode =
    | Generated(implementation: string, dependencies: string, arguments: string,
                argumentTypes: string, envVariables: string)
    | GenerationFailed(error: string)

  const SuccessKeys: set<string> :=
    {"success", "implementation", "dependencies", "arguments", "argument_types", "env_variables"}

  /** The success record, a projection of `code_content`. */
  function ToolRecord(content: map<string, string>): ToolCode {
    Generated(Get(content, Value(Implementation)), Get(content, Value(Dependencies)),
              Get(content, Value(Arguments)), Get(content, Value(ArgumentTypes)),
              Get(content, Value(EnvVariables)))
  }

  const ErrorPrefix := "Failed to generate tool code: "

  /** The record as the dictionary the caller receives; `success` is `str(True)` or
      `str(False)`. */
  function AsDict(r: ToolCode): map<string, string> {
    match r
    case Generated(impl, deps, args, types, env) =>
      map["success" := "True", "implementation" := impl, "dependencies" := deps,
          "arguments" := args, "argument_types" := types, "env_variables" := env]
    case GenerationFailed(error) =>
      map["success" := "False", "error" := error]
  }

  /** Each code field decoded from its own marker. */
  function Decode(text: string): ToolCode {
    Generated(ParseMarkedBlocks(Implementation, text), ParseMarkedBlocks(Dependencies, text),
              ParseMarkedBlocks(Arguments, text), ParseMarkedBlocks(ArgumentTypes, text),
              ParseMarkedBlocks(EnvVariables, text))
  }

  /** What `generate_tool_code` returns for a prompt: the decoded reply, or the failure
      record carrying the text of the exception raised while obtaining it. */
  function CodeFor(prompt: string, saveFileName: Option<string>, loadFileName: Option<string>,
                   read: string -> Result<string>, generate: string -> Result<string>,
                   write: (string, string) -> Outcome): ToolCode
  {
    Recorded(ReplyText(prompt, saveFileName, loadFileName, read, generate, write))
  }

  /** The record for a reply, or for the exception raised while obtaining it. */
  function Recorded(reply: Result<string>): ToolCode {
    match reply
    case Ok(text) => Decode(text)
    case Err(e) => GenerationFailed(ErrorPrefix + e)
  }

  /** The `try` block up to the loop: read the reply from a file, or ask the model and
      save its reply; the calls made, in order. */
  method ObtainReply(prompt: string, saveFileName: Option<string>, loadFileName: Option<string>,
                     read: string -> Result<string>, generate: string -> Result<string>,
                     write: (string, string) -> Outcome)
    returns (reply: Result<string>, calls: seq<Call>)
    ensures reply == ReplyText(prompt, saveFileName, loadFileName, read, generate, write)
    ensures calls == CallsMade(prompt, saveFileName, loadFileName, generate)
  {
    if Truthy(loadFileName) {
      calls := [ReadFile(loadFileName.value)];
      reply := read(loadFileName.value);
    } else {
      calls := [Backend(prompt)];
      reply := generate(prompt);
      if reply.Ok? {
        if saveFileName.None? {
          reply := Err(NoneNameError);
        } else {
          calls := calls + [WriteFile(saveFileName.value, reply.value)];
          var w := write(saveFileName.value, reply.value);
          if w.Fail? {
            reply := Err(w.error);
          }
        }
      }
    }
  }

  /** The loop `for marker in Marker: code_content[marker.name] = parse_marked_blocks(...)`. */
  method CollectCodeContent(text: string) returns (codeContent: map<string, string>)
    ensures codeContent == Fill(AllMarkers, text)
  {
    codeContent := map[];
    for k := 0 to |AllMarkers|
      invariant codeContent == Fill(AllMarkers[..k], text)
    {
      var m := AllMarkers[k];
      assert AllMarkers[..k + 1][..k] == AllMarkers[..k];
      codeContent := codeContent[Value(m) := ParseMarkedBlocks(m, text)];
    }
    assert AllMarkers[..|AllMarkers|] == AllMarkers;
  }

  /** `generate_tool_code`: any exception while obtaining the reply becomes the failure
      record; otherwise the record is the projection of `code_content`. */
  method GenerateToolCode(description: string, language: string,
                          saveFileName: Option<string>, loadFileName: Option<string>,
                          read: string -> Result<string>, generate: string -> Result<string>,
                          write: (string, string) -> Outcome)
    returns (record: ToolCode, calls: seq<Call>)
    ensures record == CodeFor(Prompt(description, language), saveFileName, loadFileName, read, generate, write)
    ensures calls == CallsMade(Prompt(description, language), saveFileName, loadFileName, generate)
  {
    var reply;
    reply, calls := ObtainReply(Prompt(description, language), saveFileName, loadFileName, read, generate, write);
    record := RecordReply(reply);
  }

  /** The `except` clause turns the exception into the failure record; otherwise the
      record is the projection of `code_content`. */
  method RecordReply(reply: Result<string>) returns (record: ToolCode)
    ensures record == Recorded(reply)
  {
    if reply.Err? {
      return GenerationFailed(ErrorPrefix + reply.error);
    }
    var codeContent := CollectCodeContent(reply.value);
    DecodedRecord(reply.value);
    record := ToolRecord(codeContent);
  }

  /** Member names are the enum values, and no two members share one. */
  lemma ValueInjective(a: Marker, b: Marker)
    requires Value(a) == Value(b)
    ensures a == b
  {
    ValuesPrefixFree(a, b);
  }

  /** After the loop over `ms`, `code_content` maps the name of every marker of `ms` to what
      that marker decodes to ... */
  lemma {:induction false} FillContents(ms: seq<Marker>, text: string)
    ensures forall m | m in ms :: Value(m) in Fill(ms, text) && Fill(ms, text)[Value(m)] == ParseMarkedBlocks(m, text)
  {
    if |ms| > 0 {
      var init, last := ms[..|ms| - 1], ms[|ms| - 1];
      FillContents(init, text);
      assert ms == init + [last];
      forall m | m in ms ensures Value(m) in Fill(ms, text) && Fill(ms, text)[Value(m)] == ParseMarkedBlocks(m, text) {
        if Value(m) == Value(last) {
          ValueInjective(m, last);
        } else {
          assert m in init;
        }
      }
    }
  }

  /** Every marker is visited. */
  lemma FillAt(text: string, m: Marker)
    ensures Value(m) in Fill(AllMarkers, text) && Fill(AllMarkers, text)[Value(m)] == ParseMarkedBlocks(m, text)
  {
    FillContents(AllMarkers, text);
    AllMarkersEnumerates();
    assert m in AllMarkers;
  }

  /** The loop visits every marker, so no `.get(..., "")` default is used: each field of a
      success record is the decoding of its marker. */
  lemma DecodedRecord(text: string)
    ensures ToolRecord(Fill(AllMarkers, text)) == Decode(text)
  {
    FillAt(text, Implementation);
    FillAt(text, Dependencies);
    FillAt(text, Arguments);
    FillAt(text, ArgumentTypes);
    FillAt(text, EnvVariables);
  }

  /** The dictionary has exactly the success keys or exactly `success` and `error`, never a
      `command`; both `success` strings are non-empty, so a truthiness test on it cannot tell
      them apart. */
  lemma DictShape(r: ToolCode)
    ensures r.Generated? ==> AsDict(r).Keys == SuccessKeys && AsDict(r)["success"] == "True"
    ensures r.GenerationFailed? ==> AsDict(r).Keys == {"success", "error"} && AsDict(r)["success"] == "False"
    ensures "command" !in AsDict(r) && AsDict(r)["success"] != ""
  {
  }

  /** A failure's `error` is the fixed prefix followed by the exception's text. */
  lemma FailureMessage(msg: string)
    ensures var d := AsDict(GenerationFailed(ErrorPrefix + msg));
            |d["error"]| == |ErrorPrefix| + |msg| && d["error"][..|ErrorPrefix|] == ErrorPrefix
            && d["error"][|ErrorPrefix|..] == msg
  {
  }

  /** With a file to load, the model is not asked and nothing is written: the reply is the
      file's text. */
  lemma LoadSkipsBackend(prompt: string, saveFileName: Option<string>, name: string,
                         read: string -> Result<string>, generate: string -> Result<string>,
                         write: (string, string) -> Outcome)
    requires name != ""
    ensures ReplyText(prompt, saveFileName, Some(name), read, generate, write) == read(name)
    ensures CallsMade(prompt, saveFileName, Some(name), generate) == [ReadFile(name)]
  {
  }

  /** Without one (`None` or `""`), the model is asked first, and a reply that is decoded has
      been saved, unchanged, under `save_file_name` before decoding. */
  lemma GeneratedReplySaved(prompt: string, saveFileName: Option<string>, loadFileName: Option<string>,
                            read: string -> Result<string>, generate: string -> Result<string>,
                            write: (string, string) -> Outcome)
    requires !Truthy(loadFileName)
    ensures var calls := CallsMade(prompt, saveFileName, loadFileName, generate);
            |calls| >= 1 && calls[0] == Backend(prompt)
    ensures var reply := ReplyText(prompt, saveFileName, loadFileName, read, generate, write);
            reply.Ok? ==> saveFileName.Some? && reply == generate(prompt)
                          && write(saveFileName.value, reply.value) == Pass
                          && CallsMade(prompt, saveFileName, loadFileName, generate)
                             == [Backend(prompt), WriteFile(saveFileName.value, reply.value)]
  {
  }

  /** A section of a reply, as the system prompt asks for it. */
  datatype Section = Section(marker: Marker, content: string)

  function WrapSection(x: Section): string {
    Wrap(Start(x.marker), End(x.marker), x.content)
  }

  function Wraps(xs: seq<Section>): (r: seq<string>)
    ensures |r| == |xs| && forall i | 0 <= i < |xs| :: r[i] == WrapSection(xs[i])
  {
    seq(|xs|, i requires 0 <= i < |xs| => WrapSection(xs[i]))
  }

  /** A reply in the prompted format: sections separated by a blank line. */
  function Layout(xs: seq<Section>): string {
    Join("\n\n", Wraps(xs))
  }

  /** A section content that contains no sentinel of any marker. */
  predicate Clean(c: string) {
    forall m: Marker :: !Contains(c, Start(m)) && !Contains(c, End(m))
  }

  predicate DistinctMarkers(xs: seq<Section>) {
    forall i, j | 0 <= i < j < |xs| :: xs[i].marker != xs[j].marker
  }

  /** A sentinel, having no line break, cannot straddle a line break. */
  lemma NoStraddle(x: string, y: string, s: string)
    requires SentinelShaped(s) && !Contains(x, s) && !Contains(y, s)
    requires |y| > 0 && y[0] == '\n'
    ensures !Contains(x + y, s)
  {
    forall j | 0 <= j ensures !OccursAt(x + y, s, j) {
      NotAcross(x, y, s, j);
    }
  }

  lemma NotAcross(x: string, y: string, s: string, j: nat)
    requires SentinelShaped(s) && !Contains(x, s) && !Contains(y, s)
    requires |y| > 0 && y[0] == '\n'
    ensures !OccursAt(x + y, s, j)
  {
    var t := x + y;
    if j + |s| <= |t| {
      if j + |s| <= |x| {
        assert t[j..j + |s|] == x[j..j + |s|];
        assert !OccursAt(x, s, j);
      } else if j < |x| {
        assert t[j..j + |s|][|x| - j] == y[0];
        assert s[|x| - j] != '\n';
      } else {
        assert t[j..j + |s|] == y[j - |x|..j - |x| + |s|];
        assert !OccursAt(y, s, j - |x|);
      }
    }
  }

  /** A line break cannot begin a sentinel. */
  lemma AfterBreak(z: string, s: string)
    requires SentinelShaped(s) && !Contains(z, s)
    ensures !Contains("\n" + z, s)
  {
    forall j: nat ensures !OccursAt("\n" + z, s, j) {
      if j > 0 && j + |s| <= |z| + 1 {
        assert ("\n" + z)[j..j + |s|] == z[j - 1..j - 1 + |s|];
        assert !OccursAt(z, s, j - 1);
      }
    }
  }

  /** Nor can a blank line. */
  lemma BlankThen(z: string, s: string)
    requires SentinelShaped(s) && !Contains(z, s)
    ensures !Contains("\n\n" + z, s)
  {
    AfterBreak(z, s);
    AfterBreak("\n" + z, s);
    assert "\n\n" + z == "\n" + ("\n" + z);
  }

  /** Another marker's section holds no start sentinel of `m`. */
  lemma WrapFree(x: Section, m: Marker)
    requires x.marker != m && Clean(x.content)
    ensures !Contains(WrapSection(x), Start(m))
  {
    var s, s', e', c := Start(m), Start(x.marker), End(x.marker), x.content;
    SentinelsShaped(m);
    SentinelsShaped(x.marker);
    if Contains(s', s) { SentinelsDisjoint(m, x.marker, s, s'); }
    if Contains(e', s) { SentinelsDisjoint(m, x.marker, s, e'); }
    AfterBreak(e', s);
    NoStraddle(c, "\n" + e', s);
    AfterBreak(c + ("\n" + e'), s);
    NoStraddle(s', "\n" + (c + ("\n" + e')), s);
    assert WrapSection(x) == s' + ("\n" + (c + ("\n" + e')));
  }

  /** Pieces free of a sentinel, joined by blank lines, stay free of it. */
  lemma {:induction false} JoinFree(ws: seq<string>, s: string)
    requires SentinelShaped(s)
    requires forall i | 0 <= i < |ws| :: !Contains(ws[i], s)
    ensures !Contains(Join("\n\n", ws), s)
    decreases |ws|
  {
    if |ws| == 0 {
      NoneInEmpty(s);
    } else if |ws| > 1 {
      var rest := Join("\n\n", ws[1..]);
      JoinFree(ws[1..], s);
      BlankThen(rest, s);
      NoStraddle(ws[0], "\n\n" + rest, s);
      assert Join("\n\n", ws) == ws[0] + ("\n\n" + rest);
    }
  }

  /** Sections whose markers differ from `m` lay out a reply without `m`'s start sentinel. */
  lemma LayoutFree(xs: seq<Section>, m: Marker)
    requires forall i | 0 <= i < |xs| :: xs[i].marker != m && Clean(xs[i].content)
    ensures !Contains(Layout(xs), Start(m))
  {
    SentinelsShaped(m);
    var ws := Wraps(xs);
    forall i | 0 <= i < |ws| ensures !Contains(ws[i], Start(m)) {
      WrapFree(xs[i], m);
    }
    JoinFree(ws, Start(m));
  }

  /** A section's marker occurs in no other section of a layout, so the text before that
      section has no start sentinel of its marker ... */
  lemma BeforeFree(xs: seq<Section>, k: nat)
    requires k < |xs| && DistinctMarkers(xs)
    requires forall i | 0 <= i < |xs| :: Clean(xs[i].content)
    ensures !Contains(JoinBefore("\n\n", Wraps(xs), k), Start(xs[k].marker))
  {
    var m := xs[k].marker;
    var s := Start(m);
    SentinelsShaped(m);
    if k == 0 {
      NoneInEmpty(s);
    } else {
      var front := xs[..k];
      var ws := Wraps(xs);
      WrapsTake(xs, k);
      forall i | 0 <= i < |front| ensures front[i].marker != m && Clean(front[i].content) {
        assert front[i] == xs[i];
      }
      LayoutFree(front, m);
      NotInBreaks(s);
      NoStraddle(Join("\n\n", ws[..k]), "\n\n", s);
    }
  }

  /** ... nor has the text after it. */
  lemma AfterFree(xs: seq<Section>, k: nat)
    requires k < |xs| && DistinctMarkers(xs)
    requires forall i | 0 <= i < |xs| :: Clean(xs[i].content)
    ensures !Contains(JoinAfter("\n\n", Wraps(xs), k), Start(xs[k].marker))
  {
    var m := xs[k].marker;
    var s := Start(m);
    SentinelsShaped(m);
    if k == |xs| - 1 {
      NoneInEmpty(s);
    } else {
      var back := xs[k + 1..];
      var ws := Wraps(xs);
      WrapsDrop(xs, k + 1);
      forall i | 0 <= i < |back| ensures back[i].marker != m && Clean(back[i].content) {
        assert back[i] == xs[k + 1 + i];
      }
      LayoutFree(back, m);
      BlankThen(Join("\n\n", ws[k + 1..]), s);
    }
  }

  lemma WrapsTake(xs: seq<Section>, a: nat)
    requires a <= |xs|
    ensures Wraps(xs[..a]) == Wraps(xs)[..a]
  {
  }

  lemma WrapsDrop(xs: seq<Section>, a: nat)
    requires a <= |xs|
    ensures Wraps(xs[a..]) == Wraps(xs)[a..]
  {
  }

  /** No sentinel occurs in a blank line. */
  lemma NotInBreaks(s: string)
    requires SentinelShaped(s)
    ensures !Contains("\n\n", s)
  {
    assert !OccursAt("\n\n", s, 0) && !OccursAt("\n\n", s, 1) by {
      assert s[0] == '#';
    }
  }

  /** One section amid text free of its start sentinel decodes to the section, stripped. */
  lemma SectionAmid(m: Marker, before: string, c: string, after: string)
    requires !Contains(before, Start(m)) && !Contains(after, Start(m)) && !Contains(c, End(m))
    ensures ParseMarkedBlocks(m, before + Wrap(Start(m), End(m), c) + after) == Strip(c)
  {
    SentinelsShaped(m);
    var s, e := Start(m), End(m);
    assert [before, after][1..] == [after] && [c][1..] == [];
    assert Document(s, e, [before, after], [c]) == before + Wrap(s, e, c) + after;
    DecodeDocument(s, e, [before, after], [c]);
    assert StripAll([c]) == [Strip(c)];
  }

  /** Round trip of the prompted format: every section of a reply laid out as the system
      prompt asks decodes to its content, stripped, whatever the other sections hold. */
  lemma LayoutRoundTrip(xs: seq<Section>, k: nat)
    requires k < |xs| && DistinctMarkers(xs)
    requires forall i | 0 <= i < |xs| :: Clean(xs[i].content)
    ensures ParseMarkedBlocks(xs[k].marker, Layout(xs)) == Strip(xs[k].content)
  {
    var ws := Wraps(xs);
    JoinAt("\n\n", ws, k);
    BeforeFree(xs, k);
    AfterFree(xs, k);
    SectionAmid(xs[k].marker, JoinBefore("\n\n", ws, k), xs[k].content, JoinAfter("\n\n", ws, k));
  }

  /** A marker the reply has no section for decodes to the empty string. */
  lemma LayoutMissing(xs: seq<Section>, m: Marker)
    requires forall i | 0 <= i < |xs| :: xs[i].marker != m && Clean(xs[i].content)
    ensures ParseMarkedBlocks(m, Layout(xs)) == ""
  {
    LayoutFree(xs, m);
  }

  /** The sections the system prompt asks for, in its order. */
  function PromptedSections(impl: string, deps: string, args: string, types: string, env: string): seq<Section> {
    [Section(Implementation, impl), Section(Dependencies, deps), Section(Arguments, args),
     Section(ArgumentTypes, types), Section(EnvVariables, env)]
  }

  lemma PromptedSectionsFit(impl: string, deps: string, args: string, types: string, env: string)
    requires Clean(impl) && Clean(deps) && Clean(args) && Clean(types) && Clean(env)
    ensures var xs := PromptedSections(impl, deps, args, types, env);
            DistinctMarkers(xs) && forall i | 0 <= i < |xs| :: Clean(xs[i].content)
  {
  }

  /** A reply in the prompted format yields the record of its stripped sections. */
  lemma PromptedRecord(impl: string, deps: string, args: string, types: string, env: string)
    requires Clean(impl) && Clean(deps) && Clean(args) && Clean(types) && Clean(env)
    ensures Decode(Layout(PromptedSections(impl, deps, args, types, env)))
            == Generated(Strip(impl), Strip(deps), Strip(args), Strip(types), Strip(env))
  {
    var xs := PromptedSections(impl, deps, args, types, env);
    var text := Layout(xs);
    PromptedSectionsFit(impl, deps, args, types, env);
    LayoutRoundTrip(xs, 0);
    LayoutRoundTrip(xs, 1);
    LayoutRoundTrip(xs, 2);
    LayoutRoundTrip(xs, 3);
    LayoutRoundTrip(xs, 4);
  }
}
