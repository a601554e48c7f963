# bot-the-builder, modelled in Dafny

bot-the-builder is a tool-building agent. A client sends a task. The server sums the task up
and looks for a stored tool whose description is closest to that summary. It reuses that tool
when a matcher model accepts it. Otherwise it asks a language model to write a new tool,
formats the tool and stores it. Either way it attaches a command that invokes the tool and
sends the tool back. The client then installs the tool's dependencies, writes its
implementation to a file, runs the command and reports what the command printed.

This project models the parts of that pipeline whose behaviour is fixed by the code rather
than by a language model:

- `Markers` (`marker.dfy`) is the marker enum and its start/end sentinel table. It also holds
  `parse_marked_blocks`, the regular-expression decoder that every model reply goes through,
  modelled as a scanner.
- `Generator` (`generator.dfy`) is `generate_tool_code`. It reads a reply from a file, or
  asks the model and saves the reply. It then decodes every marker and builds the success or
  failure dictionary.
- `Postgres` (`postgres.dfy`) is the `tools` table as a class (`PostgresDB`) over a map of
  rows. It enforces the table's NOT NULL and primary-key constraints. It also models the
  `UPDATE` statement that `update_tool` builds, both as written and corrected.
- `DbHelper` (`db_helper.dfy`) is `DBAdapter`, which writes the table and the vector index one
  after the other. It proves what each method leaves behind, and that the two stores stay in
  agreement.
- `Server` (`server.dfy`) is `handle_tool_request`: the retrieval, the generate-and-store path
  and the response with its comma lists split.
- `Client` (`client.dfy`) is `run_command` and `give_task`. Every call on the outside world is
  recorded in an effect trace.
- `RequirementResolver` (`requirement_resolver.dfy`) is `resolve_requirements` (the fenced
  JSON extraction) and `generate_requirements_txt`.
- `Text` (`text.dfy`) holds the string operations the code uses: `strip`, `in`, `find`,
  `split`, `join` and counting. Each comes with the facts about it that the other modules
  need. `Wrappers` (`wrappers.dfy`) holds `Option`, `Result` and `Outcome`.

Language models, the embedding search, UTF-8 decoding, `eval`, the shell, the package
installer and the file system are all function-valued parameters. An exception is modelled as
an `Err` carrying its message, in the same place where the Python code would raise it.

## Model

| member | source | states |
|---|---|---|
| Markers.AllMarkersEnumerates | btb/server/agents/helpers/marker.py:6-16 | Iterating over the enum visits each of the ten members exactly once, in declaration order. |
| Markers.ValueAlphabet | btb/server/agents/helpers/marker.py:6-16 | Every enum value is non-empty and is made only of upper-case letters and `_`. |
| Markers.ValuesPrefixFree | btb/server/agents/helpers/marker.py:6-16 | No member's value is a prefix of another member's value. |
| Markers.SentinelsShaped | btb/server/agents/helpers/marker.py:18 | Every start and end sentinel begins with `#` and has neither `#` nor a line break after it. |
| Markers.SentinelsDisjoint | btb/server/agents/helpers/marker.py:18 | A sentinel occurs inside another sentinel of the table only when the two are the same sentinel of the same marker. |
| Markers.KindsDiffer | btb/server/agents/helpers/marker.py:18 | A start sentinel is never a prefix of an end sentinel, nor the other way round. |
| Markers.WordRun | btb/server/agents/helpers/marker.py:24 | The result is the length of the longest run of `\w` characters that the text starts with. |
| Markers.TagLength | btb/server/agents/helpers/marker.py:24 | The optional group `(?:\w+\s+)?` consumes nothing, or a prefix that starts with a word character. |
| Markers.DropTag | btb/server/agents/helpers/marker.py:24 | The captured text is a suffix of the text between the sentinels, and a proper suffix only when a tag was there. |
| Markers.NextMatch | btb/server/agents/helpers/marker.py:24-26 | After a match, the scan resumes on strictly shorter text, so `findall` terminates. |
| Markers.ParseBetween | btb/server/agents/helpers/marker.py:26-27 | Text without the start sentinel decodes to the empty string. |
| Markers.ParseMarkedBlocks | btb/server/agents/helpers/marker.py:21-27 | Text without the marker's start sentinel decodes to the empty string. |
| Markers.NoEndAfterStart | btb/server/agents/helpers/marker.py:24-27 | A start sentinel with no end sentinel after it also decodes to the empty string. |
| Markers.RoundTrip | btb/server/agents/helpers/marker.py:21-27 | `start + "\n" + c + "\n" + end` decodes to `c.strip()` whenever `c` holds no end sentinel. |
| Markers.DecodeDocument | btb/server/agents/helpers/marker.py:24-27 | Sections wrapped in sentinels, with gaps that hold no start sentinel, decode to every section, stripped and in order, joined by line breaks. |
| Markers.SectionsNotMerged | btb/server/agents/helpers/marker.py:24-27 | Because the match is non-greedy, two sections of one marker come out as two lines and are never merged into one block. |
| Markers.TagDropped | btb/server/agents/helpers/marker.py:24 | A tag such as `python` plus whitespace, right after the start sentinel, is not part of the decoded section. |
| Generator.ObtainReply | btb/server/agents/generator.py:80-88 | A load file name that is not empty is read and the model is not asked. Otherwise the model is asked, and its reply is saved before it is used. A missing save name or a failed write becomes an error. The calls made are listed in order. |
| Generator.CollectCodeContent | btb/server/agents/generator.py:89-92 | The loop maps every marker's name to that marker's decoding of the reply. |
| Generator.GenerateToolCode | btb/server/agents/generator.py:60-107 | The record is the decoding of the reply, or the failure record for any exception raised while obtaining it. The calls made are the ones `ObtainReply` lists. |
| Generator.RecordReply | btb/server/agents/generator.py:89-107 | An error becomes `Failed to generate tool code: ` plus its message. A reply becomes the success record built from the collected map. |
| Generator.ValueInjective | btb/server/agents/helpers/marker.py:6-16 | No two markers share a name, so the map keys of the loop never collide. |
| Generator.FillContents | btb/server/agents/generator.py:89-92 | After the loop over any list of markers, each visited marker's key holds its decoding. |
| Generator.FillAt | btb/server/agents/generator.py:91-92 | After the full loop, every marker's key is present and holds its decoding. |
| Generator.DecodedRecord | btb/server/agents/generator.py:94-101 | The `.get(..., "")` defaults are never used: each success field is its marker's decoding. |
| Generator.DictShape | btb/server/agents/generator.py:94-107 | A success has exactly the six success keys and a failure has exactly `success` and `error`. Neither has `command`. `success` is the non-empty text `True` or `False`. |
| Generator.FailureMessage | btb/server/agents/generator.py:103-107 | A failure's `error` is the fixed prefix followed by the exception's own message. |
| Generator.LoadSkipsBackend | btb/server/agents/generator.py:82-84 | With a file to load, the reply is the file's text, and reading that file is the only call made. |
| Generator.GeneratedReplySaved | btb/server/agents/generator.py:85-88 | Without a file to load, the model is asked first. A reply that is decoded was first written, unchanged, under the save name. |
| Generator.LayoutRoundTrip | btb/server/agents/generator.py:89-92 | In a reply laid out as sections of distinct markers, each section decodes to its own content, stripped, whatever the other sections hold. |
| Generator.LayoutMissing | btb/server/agents/generator.py:89-92 | A marker that has no section in the reply decodes to the empty string. |
| Generator.PromptedRecord | btb/server/agents/generator.py:89-101 | A reply in the prompted format yields the success record of its stripped sections. |
| Postgres.Position | btb/server/agents/helpers/postgres.py:14-24 | Every column sits at a position below eight in `SELECT *` order. |
| Postgres.FirstNull | btb/server/agents/helpers/postgres.py:14-24 | Finds the first NOT NULL column, in column order, that the row leaves NULL. The result is none exactly when the table's constraints admit the row. |
| Postgres.ToolOfPositions | btb/server/agents/helpers/postgres.py:99-109 | `get_tool` puts `result[i]` under the key of the column at position `i`. |
| Postgres.ValuesAligned | btb/server/agents/helpers/postgres.py:72-87 | The parameter list holds one value per given column, in argument order, and the `i`-th value belongs to the `i`-th given column. |
| Postgres.PlaceholderFragments | btb/server/agents/helpers/postgres.py:53-61 | After the first four arguments, the statement is the head followed by one `%s` fragment per given argument. |
| Postgres.InlineFragments | btb/server/agents/helpers/postgres.py:62-67 | The last three arguments add their values quoted into the statement. |
| Postgres.UpdateParams | btb/server/agents/helpers/postgres.py:72-87 | The parameters are every given value in argument order, then `id`. |
| Postgres.UpdateStatementAsWritten | btb/server/agents/helpers/postgres.py:52-88 | The statement and parameters exactly as `update_tool` builds them. |
| Postgres.GivenNone | btb/server/agents/helpers/postgres.py:54-67 | No column is given exactly when every argument visited is `None`. |
| Postgres.Untouched | btb/server/agents/helpers/postgres.py:53-67 | While every argument is `None`, the statement is still `UPDATE tools SET` and the parameter list is still empty. |
| Postgres.NothingGiven | btb/server/agents/helpers/postgres.py:52-67 | No column is given exactly when the call leaves all seven optional arguments at `None`. |
| Postgres.EmptyUpdateAsWritten | btb/server/agents/helpers/postgres.py:53-70 | As written, a call with no arguments builds `UPDATE tools SETWHERE id = %s;` with `[id]`. |
| Postgres.TrailingCommaAsWritten | btb/server/agents/helpers/postgres.py:53-70 | As written, any update puts `, ` directly before `WHERE`. |
| Postgres.PlaceholderCount | btb/server/agents/helpers/postgres.py:54-61 | Each of the first four fragments holds exactly one `%`. |
| Postgres.QuotedCount | btb/server/agents/helpers/postgres.py:62-67 | A quoted fragment holds no `%` when its value holds none. |
| Postgres.PlaceholderPrefix | btb/server/agents/helpers/postgres.py:53-61 | The statement has one placeholder per given argument among the first four. |
| Postgres.QuotedPrefix | btb/server/agents/helpers/postgres.py:62-67 | The last three arguments add no placeholder. |
| Postgres.PlaceholderMismatchAsWritten | btb/server/agents/helpers/postgres.py:52-88 | As written, the placeholders match the parameters exactly when `command`, `implementation` and `dependencies` are all `None`. |
| Postgres.CommandOnlyAsWritten | btb/server/agents/helpers/postgres.py:52-88 | Updating only `command="ls"` builds a statement with one placeholder and two parameters. |
| Postgres.ClausesAligned | btb/server/agents/helpers/postgres.py:54-67 | In the corrected statement, the `i`-th assignment names the `i`-th given column. |
| Postgres.PlaceholderClauses | btb/server/agents/helpers/postgres.py:54-61 | The corrected statement has one assignment for each given argument among the first four. |
| Postgres.BoundClauses | btb/server/agents/helpers/postgres.py:62-67 | The corrected statement also binds the last three given arguments. |
| Postgres.UpdateStatement | btb/server/agents/helpers/postgres.py:52-88 | Corrected: there is no statement exactly when nothing is given. Otherwise the assignments are comma-separated before `WHERE`, and the parameters are the values then `id`. |
| Postgres.CorrectedBindsAll | btb/server/agents/helpers/postgres.py:52-88 | Corrected, the statement holds exactly one placeholder per parameter. |
| Postgres.RowOf | btb/server/agents/helpers/postgres.py:36-41 | The inserted row, read back by `get_tool`, is the record that was inserted. |
| Postgres.Patched | btb/server/agents/helpers/postgres.py:52-88 | Each given column takes its new value, every other column keeps its old one, and `id` never changes. |
| Postgres.PatchedAdmissible | btb/server/agents/helpers/postgres.py:52-88 | An update never makes an admissible row inadmissible. |
| Postgres.PostgresDB.constructor | btb/server/agents/helpers/postgres.py:8-27 | `CREATE TABLE IF NOT EXISTS` keeps the rows of an existing table or starts an empty one. |
| Postgres.PostgresDB.CreateTable | btb/server/agents/helpers/postgres.py:13-27 | On a new connection, `CREATE TABLE IF NOT EXISTS` keeps the rows of an existing table, and a dropped table comes back empty. |
| Postgres.PostgresDB.GetTool | btb/server/agents/helpers/postgres.py:92-111 | Returns the record for `id` exactly when a row has `id`, and that record is the row. Returns `None` otherwise. Fails only when the table is gone. |
| Postgres.PostgresDB.DeleteTable | btb/server/agents/helpers/postgres.py:29-34 | Dropping always succeeds and leaves no table and no rows. |
| Postgres.PostgresDB.AddTool | btb/server/agents/helpers/postgres.py:36-42 | Fails, in this order, on a missing table, the first NULL in a NOT NULL column, or a duplicate id. Succeeds exactly otherwise, and then stores the row so that it reads back as the inserted record. A failure changes nothing. |
| Postgres.PostgresDB.RemoveTool | btb/server/agents/helpers/postgres.py:44-49 | Fails only on a missing table. Removing an absent id succeeds, and every other row is untouched. |
| Postgres.PostgresDB.UpdateTool | btb/server/agents/helpers/postgres.py:52-89 | With the corrected statement: patches the row for `id` if there is one, fails only on a missing table, and does nothing when no argument is given. |
| DbHelper.AddAgree | btb/server/agents/helpers/db_helper.py:11-15 | Storing a tool and indexing its description keeps the two stores in agreement. |
| DbHelper.RemoveAgree | btb/server/agents/helpers/db_helper.py:24-27 | Removing an id from both stores keeps them in agreement. |
| DbHelper.UpdateAgree | btb/server/agents/helpers/db_helper.py:29-33 | Patching a row and re-indexing any new description keeps the stores in agreement. |
| DbHelper.DBAdapter.constructor | btb/server/agents/helpers/db_helper.py:6-8 | Both stores reopen what they already hold, or start empty. |
| DbHelper.DBAdapter.Reopen | btb/server/agents/helpers/db_helper.py:6-8 | A new adapter over stores that outlive it: afterwards the table and the collection both exist, and each store holds what it held before. |
| DbHelper.DBAdapter.AddTool | btb/server/agents/helpers/db_helper.py:11-15 | Succeeds exactly when both stores accept the tool. A store failure reports the table's own error (missing table, first NULL column, duplicate id) and changes nothing. An index failure leaves the row stored but not indexed. Neither store is created or dropped. Success preserves agreement. |
| DbHelper.DBAdapter.RemoveTool | btb/server/agents/helpers/db_helper.py:24-27 | The index goes first: its failure changes nothing. A store failure after it leaves the id unindexed but still stored. Success removes the id from both and preserves agreement. Neither store is created or dropped. |
| DbHelper.DBAdapter.UpdateTool | btb/server/agents/helpers/db_helper.py:29-33 | Patches the row for `id` when a column is given and the table holds `id`. Leaves every row alone otherwise, and never touches `dependencies`, which it does not forward. Fails exactly on a missing table (changing nothing) or, with a description, a missing collection (the row is already patched, the index unchanged). A new description is re-indexed only for an id the index holds. Success preserves agreement. |
| DbHelper.DBAdapter.GetTool | btb/server/agents/helpers/db_helper.py:20-22 | Reads the table only. |
| DbHelper.DBAdapter.Query | btb/server/agents/helpers/db_helper.py:17-18 | Returns at most one id, and any id returned is one the index holds. An empty index gives no id, and a deleted collection gives an error. |
| DbHelper.DBAdapter.ClearDb | btb/server/agents/helpers/db_helper.py:35-37 | Leaves no table and no collection, so the stores trivially agree. Succeeds exactly when the collection still existed. |
| Server.ParseField | btb/server/server.py:81-82 | A NULL column raises on `.split`. Any other value is converted to a list. |
| Server.ParseListSpec | btb/server/server.py:81-82 | Only the exact text `NONE` gives the empty list. Any other text gives one stripped entry per comma plus one, each the strip of the text between two commas. Those unstripped pieces re-join to the original text. |
| Server.TryRetrieveTool | btb/server/server.py:54-66 | Only the first id returned is considered. Its tool is reused exactly when the stored row exists and the matcher answers exactly `TRUE`. A missing row raises a subscript error. With both stores present, the result is `Retrieve` over their contents. |
| Server.FailedGenerationRejected | btb/server/server.py:35-50 | The candidate from a failed generation has a NULL implementation, so the store refuses it. |
| Server.GeneratedCandidate | btb/server/server.py:35-50 | A generated candidate is always admissible and carries no command. Its implementation is the formatter's output, or the generated code when the formatter raised. |
| Server.DraftTool | btb/server/server.py:29-50 | The tool handed to `add_tool` is the candidate built from the generated code. |
| Server.FormatTool | btb/server/server.py:35-50 | The formatter's failure keeps the implementation, and a generation failure yields only id and description. |
| Server.GenerateNewTool | btb/server/server.py:29-52 | Succeeds exactly when both stores accept the candidate, which is then stored and indexed under its summary and returned. A refused candidate changes neither store. A missing collection leaves the row stored but not indexed. Success preserves agreement. |
| Server.StoreTool | btb/server/server.py:41-52 | `get_tool` after a successful `add_tool` returns exactly the tool that was added. A refusal by the table changes neither store, and a missing collection leaves the row stored but not indexed. |
| Server.Respond | btb/server/server.py:72-86 | The response carries the invocation command and the two split lists, with every other field of the tool unchanged. It raises exactly when `env_variables` or `dependencies` is NULL. |
| Server.HandleToolRequest | btb/server/server.py:20-86 | The request's own adapter brings back a dropped table or collection. A retrieval error or a reused tool leaves both stores' contents as they were. On a miss the request succeeds exactly when the new candidate is admissible and its id is new; it is then stored under that id, indexed under the summary and answered. A refused candidate changes nothing. Agreement of the stores is always preserved. |
| Client.RunCommand | btb/client/client.py:8-54 | The loop stops at the first missing variable. The result and the ordered effects are those of the `Run` and `Effects` specifications. |
| Client.MissingVariableFirst | btb/client/client.py:9-13 | The result is `None` exactly when some variable is unset, and then nothing has been done. |
| Client.InstallOnce | btb/client/client.py:15-17 | Installing is a single call with all dependencies, made first, and only when there are dependencies. |
| Client.WrittenBeforeSpawn | btb/client/client.py:19-36 | The command runs only right after the implementation is written to `<id>.py`, as the last call. Every evaluated result comes from a run. |
| Client.PairShape | btb/client/client.py:48-54 | Each half of the pair is `None` exactly when its stream is empty. Otherwise it is the `eval` of the decoded stream. |
| Client.DecodeBytesSpec | btb/client/client.py:48-51 | Bytes are decoded as UTF-8, and text is passed through. |
| Client.GiveTask | btb/client/client.py:65-77 | A failed request ends with no effect. Otherwise the status record is computed from exactly the run of the returned tool. |
| Client.StatusSpec | btb/client/client.py:66-77 | `ERROR` with `err` exactly when `err` is truthy, otherwise `SUCCESS` with `out`. A `None` from the run raises on unpacking. |
| RequirementResolver.JsonFenceIsFence | btb/server/agents/requirement_resolver.py:82-86 | Text holding a `json` fence also holds a plain fence. |
| RequirementResolver.ExtractJsonSpec | btb/server/agents/requirement_resolver.py:80-89 | Text without a fence is parsed whole. Otherwise the text parsed is the stripped piece after the first fence, up to the next fence or the end, and holds no fence. |
| RequirementResolver.JsonPiece | btb/server/agents/requirement_resolver.py:82-85 | With a `json` fence, the piece runs from after the first `json` fence to the next fence or the end. |
| RequirementResolver.FirstPiece | btb/server/agents/requirement_resolver.py:85 | Splitting twice keeps the prefix up to the first fence. |
| RequirementResolver.PlainPiece | btb/server/agents/requirement_resolver.py:86-89 | With only plain fences, the piece runs from after the first fence to the next fence or the end. |
| RequirementResolver.ResolveSpec | btb/server/agents/requirement_resolver.py:75-108 | The task description is always kept. Resolution succeeds exactly when generation and parsing both succeed, and then carries the parsed requirements. A generation error is reported unchanged. |
| RequirementResolver.SelectAppend | btb/server/agents/requirement_resolver.py:135 | Filtering distributes over concatenation. |
| RequirementResolver.SelectPartition | btb/server/agents/requirement_resolver.py:135-144 | The essential and optional lists together are a permutation of the libraries. |
| RequirementResolver.SelectFlag | btb/server/agents/requirement_resolver.py:135-144 | Every selected library has the requested flag. |
| RequirementResolver.SelectMembers | btb/server/agents/requirement_resolver.py:135-144 | A library is in its own section exactly when it is listed, and nothing else is selected. |
| RequirementResolver.Entries | btb/server/agents/requirement_resolver.py:138-149 | There is one line per library, each being the library's entry. |
| RequirementResolver.GenerateRequirementsTxt | btb/server/agents/requirement_resolver.py:121-157 | A failed resolution raises `ValueError` with its error. A library without a name raises. Otherwise the result is the content specified by `RequirementsTxt`. |
| RequirementResolver.AppendEntries | btb/server/agents/requirement_resolver.py:138-149 | The loop appends every library's entry, or raises `KeyError('name')` when some library has no name. |
| RequirementResolver.NamesRequired | btb/server/agents/requirement_resolver.py:135-149 | For a successful resolution, the content exists exactly when every library has a name. |
| RequirementResolver.ContentLines | btb/server/agents/requirement_resolver.py:128-152 | When no field holds a line break, splitting the content on line breaks gives back exactly the lines built. |
| Text.IndexOf | btb/server/agents/requirement_resolver.py:82 | The result is the first occurrence, or none when the text does not occur. |
| Text.SplitJoin | btb/server/agents/requirement_resolver.py:83 | Joining the pieces of a split with its separator gives back the text. |
| Text.JoinSplit | btb/server/agents/requirement_resolver.py:152 | Splitting the join of separator-free pieces on that separator gives back the pieces. |
| Text.StripPadded | btb/server/agents/helpers/marker.py:27 | Whitespace padding around text does not change its strip. |
| Text.SplitCount | btb/server/server.py:81 | Splitting on a character gives one more piece than the character occurs. |

## Left out

- Language models (generator, formatter, invoker, matcher, summariser and resolver backends)
  are function parameters. Their prompts are modelled only where the code builds them.
- The vector database (`vector_db.py`) is a map from id to description. The embedding search
  is a parameter that returns an id the index holds. `chromadb`'s own error text for a deleted
  collection is approximated by one fixed message.
- The table's error texts (`MissingTable`, `DuplicateKey`, `NullViolation` in `Postgres`) hold
  only the first line of `str(e)` for `psycopg2`'s errors. The `LINE ...` and `DETAIL: ...` lines that follow
  it, which a 500 reply would carry, are left out.
- Server.HandleToolRequest: each request's `DBAdapter()` is modelled as reopening one adapter
  over the persisted stores (`DBAdapter.Reopen`). Connections and clients themselves are not
  modelled.
- `psycopg2`, connections and transactions are left out. In particular, a failed statement
  leaves the connection's transaction aborted, so the next statement on it would fail too;
  the model does not capture that.
- Logging (`print`), `weave` tracing, Flask routing and `argparse` are left out. The HTTP
  layer appears only as the error text that a 500 reply would carry.
- `eval`, the shell, `uv pip install`, UTF-8 decoding and the process environment are
  parameters or maps. The client's `request_tool` is a parameter that yields the reply's
  fields. A reply without them is one error.
- The file writes `generate_requirements_txt` makes, and the formatter's and invoker's
  `save_runs` files, are left out. The generator's save before decoding is modelled.
- Nothing is concurrent: no two requests interleave, and there are no locks or timeouts.
- Text.IsWordChar: `\w` is ASCII-only here, while Python's `re` is Unicode-aware
  on `str`.
- Postgres.PostgresDB.UpdateTool and DbHelper.DBAdapter.UpdateTool: both use the corrected
  statement (see Findings), because the statement as written is malformed SQL for every call.
- Server.TryRetrieveTool: a retrieved id with no row raises. That is what the code does,
  although a missing tool could have meant "generate a new one".
- Client.RunCommand: an `eval` failure is an error, as in the code, rather than a failed
  status.
- RequirementResolver.ResolveSpec: `json.loads` and the shape of its result are a parameter.
  A library's `version` and `essential` fields are assumed to be text and a boolean, and an
  absent `essential` counts as true.

## Findings

| source | as written | input that shows it | evidently intended | confidence | as-written member | corrected member |
|---|---|---|---|---|---|---|
| btb/server/agents/helpers/postgres.py:52-89 | Every SET fragment ends in `", "`, so the statement reads `..., WHERE`. With no argument it reads `SETWHERE`. `command`, `implementation` and `dependencies` are quoted into the SQL, yet their values are also appended to the parameters. | `update_tool(id, command="ls")` builds `UPDATE tools SET command = 'ls', WHERE id = %s;` with one placeholder and the parameters `["ls", id]`. | Join the assignments with commas, bind every given value through a placeholder, and skip the statement when nothing is given. | not executed | Postgres.CommandOnlyAsWritten | Postgres.CorrectedBindsAll |
| btb/server/agents/helpers/postgres.py:53-70 | With no optional argument, the statement runs `SET` into `WHERE`. | `update_tool(id)` builds `UPDATE tools SETWHERE id = %s;`. | Update nothing. | not executed | Postgres.EmptyUpdateAsWritten | Postgres.UpdateStatement |
