/** `RequirementResolverAgent`: ask the language model which libraries a task needs, pull the
    JSON text out of its reply, and render the parsed libraries as the lines of a
    `requirements.txt`, essential libraries first. The model and `json.loads` are parameters. */
module RequirementResolver {
  import opened Wrappers
  import opened Text

  const JsonFence := "```json"
  const Fence := "```"

  /** The JSON text of a reply: the part after the first fence that opens JSON, up to the next
      fence; else the part after the first fence, up to the next one; else the whole reply. */
  function ExtractJson(text: string): string {
    if Contains(text, JsonFence) then
      var blocks := Split(text, JsonFence);
      if |blocks| > 1 then Strip(Split(blocks[1], Fence)[0]) else text
    else if Contains(text, Fence) then
      var blocks := Split(text, Fence);
      if |blocks| > 1 then Strip(blocks[1]) else text
    else text
  }

  /** The text after the first `fence` of `text`. */
  function After(text: string, fence: string): string
    requires Contains(text, fence)
  {
    text[IndexOf(text, fence).value + |fence|..]
  }

  /** A fence that opens JSON is also a plain fence. */
  lemma JsonFenceIsFence(text: string)
    requires Contains(text, JsonFence)
    ensures Contains(text, Fence)
  {
    var i := IndexOf(text, JsonFence).value;
    assert text[i..i + 3] == text[i..i + 7][..3];
    assert OccursAt(text, Fence, i);
  }

  /** A reply without a fence is taken whole. With one, the JSON text is a stripped prefix of
      what follows the first fence that opens JSON (or, if none does, the first plain fence):
      a prefix without a fence in it that ends at a fence or at the end of the reply. */
  lemma ExtractJsonSpec(text: string)
    ensures !Contains(text, Fence) ==> ExtractJson(text) == text
    ensures Contains(text, Fence) ==>
      var rest := if Contains(text, JsonFence) then After(text, JsonFence) else After(text, Fence);
      exists n | 0 <= n <= |rest| ::
        && ExtractJson(text) == Strip(rest[..n])
        && !Contains(rest[..n], Fence)
        && (n == |rest| || OccursAt(rest, Fence, n))
  {
    if Contains(text, JsonFence) {
      JsonFenceIsFence(text);
      var n := JsonPiece(text);
    } else if Contains(text, Fence) {
      var n := PlainPiece(text);
    }
  }

  /** The case of a fence that opens JSON: the piece ends at the next fence of either kind. */
  lemma JsonPiece(text: string) returns (n: nat)
    requires Contains(text, JsonFence)
    ensures var rest := After(text, JsonFence);
      && n <= |rest|
      && ExtractJson(text) == Strip(rest[..n])
      && !Contains(rest[..n], Fence)
      && (n == |rest| || OccursAt(rest, Fence, n))
  {
    var i := IndexOf(text, JsonFence).value;
    var rest := After(text, JsonFence);
    SplitAt(text, JsonFence, i);
    n := FirstPiece(rest);
  }

  /** `rest.split("```json")[0].split("```")[0]` is a prefix of `rest` free of fences that
      ends at a fence or at the end. */
  lemma FirstPiece(rest: string) returns (n: nat)
    ensures n <= |rest| && Split(Split(rest, JsonFence)[0], Fence)[0] == rest[..n]
    ensures !Contains(rest[..n], Fence)
    ensures n == |rest| || OccursAt(rest, Fence, n)
  {
    var segment := Split(rest, JsonFence)[0];
    SplitFirst(rest, JsonFence);
    var piece := Split(segment, Fence)[0];
    SplitFirst(segment, Fence);
    SplitPiecesFree(segment, Fence);
    n := |piece|;
    if n < |rest| {
      if n == |segment| {
        assert rest[n..n + 3] == rest[n..n + 7][..3];
      } else {
        assert rest[n..n + 3] == segment[n..n + 3];
      }
      assert OccursAt(rest, Fence, n);
    }
  }

  /** The case of plain fences only: the piece is what lies between the first two. */
  lemma PlainPiece(text: string) returns (n: nat)
    requires !Contains(text, JsonFence) && Contains(text, Fence)
    ensures var rest := After(text, Fence);
      && n <= |rest|
      && ExtractJson(text) == Strip(rest[..n])
      && !Contains(rest[..n], Fence)
      && (n == |rest| || OccursAt(rest, Fence, n))
  {
    var i := IndexOf(text, Fence).value;
    var rest := After(text, Fence);
    SplitAt(text, Fence, i);
    SplitFirst(rest, Fence);
    SplitPiecesFree(rest, Fence);
    n := |Split(rest, Fence)[0]|;
    assert rest[..n] == Split(rest, Fence)[0];
  }

  /** A library as the parsed JSON describes it. `name` is `None` when the key is missing;
      `version` is `None` when it is missing or null; `essential` is the truth value of
      `lib.get("essential", True)`. */
  datatype Library = Library(name: Option<string>, version: Option<string>, essential: bool)

  /** The parsed JSON: `requirements.get("libraries", [])`. */
  datatype Requirements = Requirements(libraries: seq<Library>)

  /** The dictionary `resolve_requirements` returns. */
  datatype Resolution =
    | Resolved(taskDescription: string, requirements: Requirements)
    | Unresolved(taskDescription: string, error: string)

  const PromptLead := "Please analyze the following task and determine the necessary Python libraries needed:\n\n"

  /** `resolve_requirements`: ask the model, extract and parse the JSON; any exception becomes
      the failure record. */
  function Resolve(task: string, generate: string -> Result<string>, parse: string -> Result<Requirements>): Resolution {
    match generate(PromptLead + task)
    case Err(e) => Unresolved(task, e)
    case Ok(reply) =>
      match parse(ExtractJson(reply))
      case Err(e) => Unresolved(task, e)
      case Ok(requirements) => Resolved(task, requirements)
  }

  /** Both records echo the task; success means the model answered and its JSON text parsed,
      and then the requirements are what the parser made of it. */
  lemma ResolveSpec(task: string, generate: string -> Result<string>, parse: string -> Result<Requirements>)
    ensures Resolve(task, generate, parse).taskDescription == task
    ensures Resolve(task, generate, parse).Resolved? <==>
      generate(PromptLead + task).Ok? && parse(ExtractJson(generate(PromptLead + task).value)).Ok?
    ensures Resolve(task, generate, parse).Resolved? ==>
      Ok(Resolve(task, generate, parse).requirements) == parse(ExtractJson(generate(PromptLead + task).value))
    ensures generate(PromptLead + task).Err? ==> Resolve(task, generate, parse) == Unresolved(task, generate(PromptLead + task).error)
  {
  }

  /** The libraries of `libs` whose essential flag is `flag`, in their order. */
  function Select(libs: seq<Library>, flag: bool): seq<Library> {
    if |libs| == 0 then []
    else (if libs[0].essential == flag then [libs[0]] else []) + Select(libs[1..], flag)
  }

  /** Selection distributes over concatenation, so it keeps the input order. */
  lemma {:induction false} SelectAppend(a: seq<Library>, b: seq<Library>, flag: bool)
    ensures Select(a + b, flag) == Select(a, flag) + Select(b, flag)
    decreases |a|
  {
    if |a| > 0 {
      assert (a + b)[1..] == a[1..] + b;
      SelectAppend(a[1..], b, flag);
    } else {
      assert a + b == b;
    }
  }

  /** The two selections partition the libraries: every library lands in exactly one. */
  lemma {:induction false} SelectPartition(libs: seq<Library>)
    ensures multiset(Select(libs, true)) + multiset(Select(libs, false)) == multiset(libs)
    decreases |libs|
  {
    if |libs| > 0 {
      var head, tail := libs[0], libs[1..];
      SelectPartition(tail);
      assert libs == [head] + tail;
      var kept, dropped := Select(libs, head.essential), Select(libs, !head.essential);
      assert kept == [head] + Select(tail, head.essential);
      assert dropped == Select(tail, !head.essential);
      assert multiset(kept) == multiset{head} + multiset(Select(tail, head.essential));
    }
  }

  /** Each library lands in the selection its flag names. */
  lemma {:induction false} SelectFlag(libs: seq<Library>, flag: bool)
    ensures forall i | 0 <= i < |Select(libs, flag)| :: Select(libs, flag)[i].essential == flag
    decreases |libs|
  {
    if |libs| > 0 {
      SelectFlag(libs[1..], flag);
    }
  }

  /** A library is in the selection its flag names, and a selected library is one of the
      libraries. */
  lemma SelectMembers(libs: seq<Library>, x: Library, flag: bool)
    ensures x in Select(libs, x.essential) <==> x in libs
    ensures x in Select(libs, flag) ==> x in libs
  {
    SelectPartition(libs);
    SelectFlag(libs, !x.essential);
    assert multiset(libs)[x] == multiset(Select(libs, true))[x] + multiset(Select(libs, false))[x];
  }

  /** `f"=={lib['version']}"` when the version is truthy and not `latest`, else nothing. */
  function VersionSpec(lib: Library): string {
    if lib.version.Some? && lib.version.value != "" && lib.version.value != "latest" then "==" + lib.version.value
    else ""
  }

  const OptionalMark := "  # Optional"

  predicate Named(libs: seq<Library>) {
    forall i | 0 <= i < |libs| :: libs[i].name.Some?
  }

  /** The line of a named library; `mark` follows the version. */
  function Entry(lib: Library, mark: string): string
    requires lib.name.Some?
  {
    lib.name.value + VersionSpec(lib) + mark
  }

  function Entries(libs: seq<Library>, mark: string): (r: seq<string>)
    requires Named(libs)
    ensures |r| == |libs| && forall i | 0 <= i < |libs| :: r[i] == Entry(libs[i], mark)
  {
    seq(|libs|, i requires 0 <= i < |libs| => Entry(libs[i], mark))
  }

  const TaskLead := "# Requirements for: "
  const GeneratedBy := "# Generated automatically " + "by RequirementResolverAgent"
  const EssentialHeading := "# Essential libraries"
  const OptionalHeading := "# Optional libraries"
  const FailedResolution := "Cannot generate requirements.txt from failed resolution: "
  /** `str(KeyError('name'))`. */
  const MissingName := "'name'"

  function Header(task: string): seq<string> {
    [TaskLead + task, GeneratedBy, ""]
  }

  /** The essential section: heading, one line per library, blank line; absent when empty. */
  function EssentialSection(essential: seq<Library>): seq<string>
    requires Named(essential)
  {
    if |essential| == 0 then [] else [EssentialHeading] + Entries(essential, "") + [""]
  }

  /** The optional section: heading and one marked line per library; absent when empty. */
  function OptionalSection(optional: seq<Library>): seq<string>
    requires Named(optional)
  {
    if |optional| == 0 then [] else [OptionalHeading] + Entries(optional, OptionalMark)
  }

  /** The lines of the file, or the exception that stops building them. */
  function Lines(res: Resolution): Result<seq<string>> {
    match res
    case Unresolved(_, error) => Err(FailedResolution + error)
    case Resolved(task, requirements) =>
      var essential := Select(requirements.libraries, true);
      var optional := Select(requirements.libraries, false);
      if !Named(essential) || !Named(optional) then Err(MissingName)
      else Ok(Header(task) + EssentialSection(essential) + OptionalSection(optional))
  }

  /** The content: the lines joined with line breaks. */
  function RequirementsTxt(res: Resolution): Result<string> {
    match Lines(res)
    case Err(e) => Err(e)
    case Ok(lines) => Ok(Join("\n", lines))
  }

  /** `generate_requirements_txt` without the file write: the header, then the essential
      libraries, then the optional ones, each line appended in turn. */
  method GenerateRequirementsTxt(res: Resolution) returns (r: Result<string>)
    ensures r == RequirementsTxt(res)
  {
    if res.Unresolved? {
      return Err(FailedResolution + res.error);
    }
    var lines := Header(res.taskDescription);
    var essential := Select(res.requirements.libraries, true);
    var optional := Select(res.requirements.libraries, false);
    if |essential| > 0 {
      var grown := AppendEntries(lines + [EssentialHeading], essential, "");
      if grown.Err? {
        return Err(grown.error);
      }
      lines := grown.value + [""];
    }
    assert lines == Header(res.taskDescription) + EssentialSection(essential);
    if |optional| > 0 {
      var grown := AppendEntries(lines + [OptionalHeading], optional, OptionalMark);
      if grown.Err? {
        return Err(grown.error);
      }
      lines := grown.value;
    }
    assert lines == Header(res.taskDescription) + EssentialSection(essential) + OptionalSection(optional);
    r := Ok(Join("\n", lines));
  }

  /** One `for lib in libs: lines.append(...)` loop; a library without a name raises. */
  method AppendEntries(start: seq<string>, libs: seq<Library>, mark: string) returns (r: Result<seq<string>>)
    ensures Named(libs) ==> r == Ok(start + Entries(libs, mark))
    ensures !Named(libs) ==> r == Err(MissingName)
  {
    var lines := start;
    for k := 0 to |libs|
      invariant Named(libs[..k])
      invariant lines == start + Entries(libs[..k], mark)
    {
      var lib := libs[k];
      if lib.name.None? {
        return Err(MissingName);
      }
      lines := lines + [lib.name.value + VersionSpec(lib) + mark];
      assert libs[..k + 1] == libs[..k] + [lib];
    }
    assert libs[..|libs|] == libs;
    r := Ok(lines);
  }

  /** Every library needs a name: the file is built exactly when each library, essential or
      optional, has one. */
  lemma NamesRequired(res: Resolution)
    requires res.Resolved?
    ensures Lines(res).Ok? <==> Named(res.requirements.libraries)
    ensures !Named(res.requirements.libraries) ==> Lines(res) == Err(MissingName)
  {
    var libs := res.requirements.libraries;
    if !Named(libs) {
      var i :| 0 <= i < |libs| && libs[i].name.None?;
      var x := libs[i];
      SelectMembers(libs, x, x.essential);
      var sel := Select(libs, x.essential);
      var j :| 0 <= j < |sel| && sel[j] == x;
    } else {
      forall flag: bool, j | 0 <= j < |Select(libs, flag)| ensures Select(libs, flag)[j].name.Some? {
        SelectMembers(libs, Select(libs, flag)[j], flag);
      }
    }
  }

  /** No fixed line of the file holds a line break. */
  lemma FixedLinesFlat()
    ensures '\n' !in TaskLead && '\n' !in GeneratedBy && '\n' !in EssentialHeading
    ensures '\n' !in OptionalHeading && '\n' !in OptionalMark && '\n' !in "=="
  {
    TaskLeadFlat();
    GeneratedByFlat();
    HeadingsFlat();
  }

  lemma TaskLeadFlat()
    ensures '\n' !in TaskLead
  {
  }

  lemma GeneratedByFlat()
    ensures '\n' !in GeneratedBy
  {
  }

  lemma HeadingsFlat()
    ensures '\n' !in EssentialHeading && '\n' !in OptionalHeading && '\n' !in OptionalMark
  {
  }

  /** A library with a name, whose name and version hold no line break. */
  predicate FlatLibrary(lib: Library) {
    lib.name.Some? && '\n' !in lib.name.value && (lib.version.Some? ==> '\n' !in lib.version.value)
  }

  /** The lines of flat libraries hold no line break. */
  lemma EntriesFlat(libs: seq<Library>, mark: string)
    requires forall i | 0 <= i < |libs| :: FlatLibrary(libs[i])
    requires '\n' !in mark
    ensures Named(libs) && forall i | 0 <= i < |libs| :: '\n' !in Entries(libs, mark)[i]
  {
    FixedLinesFlat();
  }

  /** A selection of flat libraries is flat. */
  lemma {:induction false} SelectFlat(libs: seq<Library>, flag: bool)
    requires forall i | 0 <= i < |libs| :: FlatLibrary(libs[i])
    ensures forall i | 0 <= i < |Select(libs, flag)| :: FlatLibrary(Select(libs, flag)[i])
    decreases |libs|
  {
    if |libs| > 0 {
      SelectFlat(libs[1..], flag);
    }
  }

  /** The content of a file built from a task and library names and versions without line
      breaks splits back, line by line, into the lines that were joined. */
  lemma ContentLines(res: Resolution)
    requires res.Resolved? && '\n' !in res.taskDescription
    requires forall i | 0 <= i < |res.requirements.libraries| :: FlatLibrary(res.requirements.libraries[i])
    ensures Lines(res).Ok? && RequirementsTxt(res).Ok?
    ensures Split(RequirementsTxt(res).value, "\n") == Lines(res).value
  {
    var libs := res.requirements.libraries;
    var essential, optional := Select(libs, true), Select(libs, false);
    SelectFlat(libs, true);
    SelectFlat(libs, false);
    FixedLinesFlat();
    EntriesFlat(essential, "");
    EntriesFlat(optional, OptionalMark);
    var lines := Lines(res).value;
    assert lines == Header(res.taskDescription) + EssentialSection(essential) + OptionalSection(optional);
    JoinSplit(lines, '\n');
  }
}
