/** `ToolAgentServer.handle_tool_request`: summarise the task, reuse the nearest stored tool
    when the matcher accepts it, otherwise generate, format and store a new one, then attach the
    invocation command and turn the comma lists into lists. The language-model agents, the
    nearest-neighbour search and `uuid4` are parameters. */
module Server {
  import opened Wrappers
  import opened Text
  import opened Markers
  import opened Generator
  import opened Postgres
  import opened DbHelper

  /** The agents and services the request uses, as functions. `format` is
      `generate_main_function`, whose save-file write can raise. */
  datatype Agents = Agents(
    summarize: string -> string,
    nearest: (map<string, string>, string) -> Option<string>,
    matchTool: (string, Option<string>, Option<string>) -> string,
    format: string -> Result<string>,
    invoke: (Option<string>, string, Option<string>, Option<string>, string, Option<string>) -> string,
    read: string -> Result<string>,
    generate: string -> Result<string>,
    write: (string, string) -> Outcome)

  /** The search returns an id the index holds, if any. */
  ghost predicate NearestInIndex(a: Agents) {
    forall m: map<string, string>, q: string :: a.nearest(m, q).Some? ==> a.nearest(m, q).value in m
  }

  const NotSubscriptable := "'NoneType' object is not subscriptable"
  const NoSplit := "'NoneType' object has no attribute 'split'"

  /** `list(map(str.strip, field.split(","))) if field != "NONE" else []`. */
  function ParseList(field: string): seq<string> {
    if field == "NONE" then [] else StripAll(Split(field, ","))
  }

  /** The same conversion on a stored column, which may be NULL: `None.split` raises. */
  function ParseField(field: Option<string>): (r: Result<seq<string>>)
    ensures field.None? <==> r == Err(NoSplit)
    ensures field.Some? ==> r == Ok(ParseList(field.value))
  {
    match field
    case None => Err(NoSplit)
    case Some(f) => Ok(ParseList(f))
  }

  /** Only the exact text `NONE` gives the empty list; anything else, the empty text
      included, gives one entry per comma plus one, each the stripped text between commas. */
  lemma ParseListSpec(field: string)
    ensures ParseList(field) == [] <==> field == "NONE"
    ensures field != "NONE" ==>
      |ParseList(field)| == Count(field, ',') + 1 &&
      Join(",", Split(field, ",")) == field &&
      forall i | 0 <= i < |ParseList(field)| :: ParseList(field)[i] == Strip(Split(field, ",")[i])
  {
    if field != "NONE" {
      SplitCount(field, ',');
      SplitJoin(field, ",");
    }
  }

  /** The retrieval over what the two stores hold, once both exist: the nearest indexed
      description's tool, kept when the matcher answers exactly `TRUE`; an indexed id with no
      row makes `tool["description"]` raise. */
  function Retrieve(rows: map<string, Row>, index: map<string, string>, summary: string, a: Agents): Result<Option<Tool>>
    requires WellKeyed(rows)
  {
    match a.nearest(index, summary)
    case None => Ok(None)
    case Some(id) =>
      if id !in rows then Err(NotSubscriptable)
      else
        var tool := ToolOf(rows[id]);
        if a.matchTool(summary, tool.description, tool.implementation) == "TRUE" then Ok(Some(tool)) else Ok(None)
  }

  /** `try_retrieve_tool`: only the first id the query returns is looked at; the stored tool
      is reused when the matcher answers exactly `TRUE`, and a missing row raises. */
  function TryRetrieveTool(db: DBAdapter, summary: string, a: Agents): (r: Result<Option<Tool>>)
    reads db, db.postgres
    requires db.Valid() && NearestInIndex(a)
    ensures db.Query(summary, a.nearest).Err? ==> r == Err(db.Query(summary, a.nearest).error)
    ensures r.Ok? && r.value.Some? <==>
      db.Query(summary, a.nearest).Ok? && |db.Query(summary, a.nearest).value| > 0 &&
      db.GetTool(db.Query(summary, a.nearest).value[0]).Ok? &&
      db.GetTool(db.Query(summary, a.nearest).value[0]).value.Some? &&
      a.matchTool(summary, db.GetTool(db.Query(summary, a.nearest).value[0]).value.value.description,
                  db.GetTool(db.Query(summary, a.nearest).value[0]).value.value.implementation) == "TRUE"
    ensures r.Ok? && r.value.Some? ==>
      r.value == db.GetTool(db.Query(summary, a.nearest).value[0]).value
    ensures
      && db.Query(summary, a.nearest).Ok? && |db.Query(summary, a.nearest).value| > 0
      && db.GetTool(db.Query(summary, a.nearest).value[0]) == Ok(None)
      ==> r == Err(NotSubscriptable)
    ensures db.postgres.present && db.indexPresent ==> r == Retrieve(db.postgres.rows, db.index, summary, a)
  {
    match db.Query(summary, a.nearest)
    case Err(e) => Err(e)
    case Ok(ids) =>
      if |ids| == 0 then Ok(None)
      else
        match db.GetTool(ids[0])
        case Err(e) => Err(e)
        case Ok(None) => Err(NotSubscriptable)
        case Ok(Some(tool)) =>
          if a.matchTool(summary, tool.description, tool.implementation) == "TRUE" then Ok(Some(tool))
          else Ok(None)
  }

  /** What `generate_tool_code` returns for the summary, saving to `save_runs/generate_<id>.py`. */
  function GeneratedCode(summary: string, id: string, a: Agents): ToolCode {
    CodeFor(Prompt(summary, "python"), Some("save_runs/generate_" + id + ".py"), None, a.read, a.generate, a.write)
  }

  /** The tool `generate_new_tool` hands to `add_tool`: the summary is the description, there
      is no command, and the implementation is the formatter's output unless the formatter
      raised. A failed generation has none of the code fields, so each `.get` is `None`. */
  function Candidate(summary: string, id: string, code: ToolCode, a: Agents): Tool {
    match code
    case Generated(impl, deps, args, types, env) =>
      var formatted := match a.format(impl) case Ok(f) => f case Err(_) => impl;
      Tool(Some(id), Some(summary), Some(args), Some(types), Some(env), None, Some(formatted), Some(deps))
    case GenerationFailed(_) =>
      Tool(Some(id), Some(summary), None, None, None, None, None, None)
  }

  /** A failed generation is never stored: its `implementation` is NULL. */
  lemma FailedGenerationRejected(summary: string, id: string, error: string, a: Agents)
    ensures var row := RowOf(Candidate(summary, id, GenerationFailed(error), a));
      !Admissible(row) && FirstNull(row) == Some(Column.Implementation)
  {
  }

  /** A successful generation is always admissible; the formatter's failure keeps the
      generated implementation, and its success replaces it. */
  lemma GeneratedCandidate(summary: string, id: string, impl: string, deps: string, args: string,
                           types: string, env: string, a: Agents)
    ensures var t := Candidate(summary, id, Generated(impl, deps, args, types, env), a);
      Admissible(RowOf(t)) && t.id == Some(id) && t.description == Some(summary) && t.command.None? &&
      t.implementation == Some(if a.format(impl).Ok? then a.format(impl).value else impl) &&
      t.dependencies == Some(deps) && t.envVariables == Some(env)
  {
  }

  /** The first half of `generate_new_tool`: generate the code, then format it. */
  method DraftTool(summary: string, id: string, a: Agents) returns (tool: Tool)
    ensures tool == Candidate(summary, id, GeneratedCode(summary, id, a), a)
  {
    var code, _ := GenerateToolCode(summary, "python", Some("save_runs/generate_" + id + ".py"), None,
                                    a.read, a.generate, a.write);
    tool := FormatTool(summary, id, code, a);
  }

  /** Let the formatter rewrite the implementation, keeping the original if it raises, and
      build the tool from the code record. */
  method FormatTool(summary: string, id: string, code: ToolCode, a: Agents) returns (tool: Tool)
    ensures tool == Candidate(summary, id, code, a)
  {
    var final := code;
    if code.Generated? {
      var formatted := a.format(code.implementation);
      if formatted.Ok? {
        final := code.(implementation := formatted.value);
      }
    }
    match final {
      case Generated(impl, deps, args, types, env) =>
        tool := Tool(Some(id), Some(summary), Some(args), Some(types), Some(env), None, Some(impl), Some(deps));
      case GenerationFailed(_) =>
        tool := Tool(Some(id), Some(summary), None, None, None, None, None, None);
    }
  }

  /** `generate_new_tool`: draft the tool, store it through the adapter, read it back. */
  method GenerateNewTool(db: DBAdapter, summary: string, id: string, a: Agents) returns (r: Result<Tool>)
    requires db.Valid()
    modifies db, db.postgres
    ensures db.Valid() && db.postgres == old(db.postgres)
    ensures db.postgres.present == old(db.postgres.present) && db.indexPresent == old(db.indexPresent)
    ensures var t := Candidate(summary, id, GeneratedCode(summary, id, a), a);
      && (r.Ok? <==> old(db.postgres.present) && old(db.indexPresent) && Admissible(RowOf(t)) &&
                     id !in old(db.postgres.rows))
      && (r.Ok? ==> r.value == t && db.postgres.rows == old(db.postgres.rows)[id := RowOf(t)] &&
                    db.index == old(db.index)[id := summary])
    ensures var t := Candidate(summary, id, GeneratedCode(summary, id, a), a);
      !(old(db.postgres.present) && Admissible(RowOf(t)) && id !in old(db.postgres.rows)) ==>
        r.Err? && db.postgres.rows == old(db.postgres.rows) && db.index == old(db.index)
    ensures var t := Candidate(summary, id, GeneratedCode(summary, id, a), a);
      old(db.postgres.present) && Admissible(RowOf(t)) && id !in old(db.postgres.rows) && !old(db.indexPresent) ==>
        r == Err(MissingCollection) && db.postgres.rows == old(db.postgres.rows)[id := RowOf(t)] && db.index == old(db.index)
    ensures old(db.Consistent()) && r.Ok? ==> db.Consistent()
  {
    var tool := DraftTool(summary, id, a);
    r := StoreTool(db, tool);
  }

  /** The second half: `add_tool`, then `get_tool` on the same id, which finds the row just
      stored. */
  method StoreTool(db: DBAdapter, tool: Tool) returns (r: Result<Tool>)
    requires db.Valid() && tool.id.Some?
    modifies db, db.postgres
    ensures db.Valid() && db.postgres == old(db.postgres)
    ensures db.postgres.present == old(db.postgres.present) && db.indexPresent == old(db.indexPresent)
    ensures r.Ok? <==> old(db.postgres.present) && old(db.indexPresent) && Admissible(RowOf(tool)) &&
                       tool.id.value !in old(db.postgres.rows)
    ensures r.Ok? ==> r.value == tool && db.postgres.rows == old(db.postgres.rows)[tool.id.value := RowOf(tool)] &&
                      db.index == old(db.index)[tool.id.value := tool.description.value]
    ensures !(old(db.postgres.present) && Admissible(RowOf(tool)) && tool.id.value !in old(db.postgres.rows)) ==>
      r.Err? && db.postgres.rows == old(db.postgres.rows) && db.index == old(db.index)
    ensures old(db.postgres.present) && Admissible(RowOf(tool)) && tool.id.value !in old(db.postgres.rows) &&
            !old(db.indexPresent) ==>
      r == Err(MissingCollection) && db.postgres.rows == old(db.postgres.rows)[tool.id.value := RowOf(tool)] &&
      db.index == old(db.index)
    ensures old(db.Consistent()) && r.Ok? ==> db.Consistent()
  {
    var added := db.AddTool(tool);
    if added.Fail? {
      return Err(added.error);
    }
    var stored := db.GetTool(tool.id.value);
    if stored.Err? || stored.value.None? {
      assert false;
    }
    r := Ok(stored.value.value);
  }

  /** The response: the tool record with `command` set and the two comma lists split. */
  datatype Response = Response(id: Option<string>, description: Option<string>,
                               arguments: Option<string>, argumentTypes: Option<string>,
                               envVariables: seq<string>, command: string,
                               implementation: Option<string>, dependencies: seq<string>)

  /** The rest of the request once the tool is chosen. */
  function Respond(tool: Tool, task: string, summary: string, a: Agents): (r: Result<Response>)
    ensures tool.envVariables.None? || tool.dependencies.None? <==> r == Err(NoSplit)
    ensures tool.envVariables.Some? && tool.dependencies.Some? ==>
      && r.Ok?
      && r.value.description == tool.description && r.value.arguments == tool.arguments
      && r.value.argumentTypes == tool.argumentTypes
      && r.value.command == a.invoke(tool.id, task, tool.arguments, tool.argumentTypes, summary, tool.implementation)
      && r.value.envVariables == ParseList(tool.envVariables.value)
      && r.value.dependencies == ParseList(tool.dependencies.value)
      && r.value.id == tool.id && r.value.implementation == tool.implementation
  {
    var command := a.invoke(tool.id, task, tool.arguments, tool.argumentTypes, summary, tool.implementation);
    match ParseField(tool.envVariables)
    case Err(e) => Err(e)
    case Ok(env) =>
      match ParseField(tool.dependencies)
      case Err(e) => Err(e)
      case Ok(deps) =>
        Ok(Response(tool.id, tool.description, tool.arguments, tool.argumentTypes, env, command,
                    tool.implementation, deps))
  }

  /** `handle_tool_request`. `db` stands for the two stores, which outlive the request: the
      request opens its own `DBAdapter()` over them, which brings back a dropped table or
      collection, empty. `id` is the `uuid4` the request would draw. An error is the text of
      the exception that ends the request (the HTTP layer answers it with status 500). */
  method HandleToolRequest(db: DBAdapter, task: string, id: string, a: Agents)
    returns (r: Result<Response>, reused: bool)
    requires db.Valid() && NearestInIndex(a)
    modifies db, db.postgres
    ensures db.Valid() && db.postgres == old(db.postgres) && db.postgres.present && db.indexPresent
    ensures var summary := a.summarize(task);
      var found := Retrieve(old(db.postgres.rows), old(db.index), summary, a);
      && (found.Err? ==> r == Err(found.error) && !reused)
      && (reused <==> found.Ok? && found.value.Some?)
      && (reused ==> r == Respond(found.value.value, task, summary, a))
      && (found != Ok(None) ==> db.postgres.rows == old(db.postgres.rows) && db.index == old(db.index))
    ensures var summary := a.summarize(task);
      var t := Candidate(summary, id, GeneratedCode(summary, id, a), a);
      var stored := Admissible(RowOf(t)) && id !in old(db.postgres.rows);
      Retrieve(old(db.postgres.rows), old(db.index), summary, a) == Ok(None) ==>
        && (r.Ok? <==> stored && Respond(t, task, summary, a).Ok?)
        && (stored ==> db.postgres.rows == old(db.postgres.rows)[id := RowOf(t)] &&
                       db.index == old(db.index)[id := summary] && r == Respond(t, task, summary, a))
        && (!stored ==> r.Err? && db.postgres.rows == old(db.postgres.rows) && db.index == old(db.index))
    ensures old(db.Consistent()) ==> db.Consistent()
  {
    db.Reopen();
    var summary := a.summarize(task);
    var found := TryRetrieveTool(db, summary, a);
    reused := false;
    if found.Err? {
      return Err(found.error), false;
    }
    var tool;
    if found.value.Some? {
      tool := found.value.value;
      reused := true;
    } else {
      var made := GenerateNewTool(db, summary, id, a);
      if made.Err? {
        return Err(made.error), false;
      }
      tool := made.value;
    }
    r := Respond(tool, task, summary, a);
  }
}
