/** `PostgresDB`: the `tools` table keyed by `id`, and the `UPDATE` statement that
    `update_tool` assembles field by field. The connection is left out: the table is a map
    from id to an eight-column row, and a statement that fails is an `Outcome.Fail`. */
module Postgres {
  import opened Wrappers
  import opened Text

  /** A row of `tools`, one entry per column in declaration order; `None` is SQL NULL. */
  type Row = seq<Option<string>>

  datatype Column =
    | Id | Description | Arguments | ArgumentTypes | EnvVariables | Command | Implementation | Dependencies

  /** Position of a column in `SELECT *`. */
  function Position(c: Column): (n: nat)
    ensures n < 8
  {
    match c
    case Id => 0
    case Description => 1
    case Arguments => 2
    case ArgumentTypes => 3
    case EnvVariables => 4
    case Command => 5
    case Implementation => 6
    case Dependencies => 7
  }

  function Name(c: Column): string {
    match c
    case Id => "id"
    case Description => "description"
    case Arguments => "arguments"
    case ArgumentTypes => "argument_types"
    case EnvVariables => "env_variables"
    case Command => "command"
    case Implementation => "implementation"
    case Dependencies => "dependencies"
  }

  /** `id` is the primary key; `description`, `implementation` and `dependencies` are
      declared NOT NULL. */
  predicate NotNull(c: Column) {
    c.Id? || c.Description? || c.Implementation? || c.Dependencies?
  }

  /** A row the table's constraints admit. */
  predicate Admissible(row: Row) {
    |row| == 8 && row[0].Some? && row[1].Some? && row[6].Some? && row[7].Some?
  }

  /** Every stored row is admissible and sits under its own id. */
  predicate WellKeyed(rows: map<string, Row>) {
    forall k | k in rows :: Admissible(rows[k]) && rows[k][0] == Some(k)
  }

  const MissingTable := "relation \"tools\" does not exist"
  const DuplicateKey := "duplicate key value violates unique constraint \"tools_pkey\""

  function NullViolation(c: Column): string {
    "null value in column \"" + Name(c) + "\" of relation \"tools\" violates not-null constraint"
  }

  /** The first NOT NULL column, in column order, that `row` leaves NULL. */
  function FirstNull(row: Row): (r: Option<Column>)
    requires |row| == 8
    ensures r.None? <==> Admissible(row)
    ensures r.Some? ==> NotNull(r.value) && row[Position(r.value)].None?
  {
    if row[0].None? then Some(Id)
    else if row[1].None? then Some(Description)
    else if row[6].None? then Some(Implementation)
    else if row[7].None? then Some(Dependencies)
    else None
  }

  /** The record `get_tool` returns for a row. */
  datatype Tool = Tool(id: Option<string>, description: Option<string>, arguments: Option<string>,
                       argumentTypes: Option<string>, envVariables: Option<string>,
                       command: Option<string>, implementation: Option<string>,
                       dependencies: Option<string>)

  /** The record's field for a column (its dictionary key is `Name(c)`). */
  function Field(t: Tool, c: Column): Option<string> {
    match c
    case Id => t.id
    case Description => t.description
    case Arguments => t.arguments
    case ArgumentTypes => t.argumentTypes
    case EnvVariables => t.envVariables
    case Command => t.command
    case Implementation => t.implementation
    case Dependencies => t.dependencies
  }

  function ToolOf(row: Row): Tool
    requires |row| == 8
  {
    Tool(row[0], row[1], row[2], row[3], row[4], row[5], row[6], row[7])
  }

  /** `get_tool` puts `result[i]` under the key of the column at position `i`. */
  lemma ToolOfPositions(row: Row)
    requires |row| == 8
    ensures forall c: Column :: Field(ToolOf(row), c) == row[Position(c)]
  {
    forall c: Column ensures Field(ToolOf(row), c) == row[Position(c)] {
      match c
      case Id =>
      case Description =>
      case Arguments =>
      case ArgumentTypes =>
      case EnvVariables =>
      case Command =>
      case Implementation =>
      case Dependencies =>
    }
  }

  /** The optional arguments of `update_tool`; `None` leaves the column alone. */
  datatype Patch = Patch(description: Option<string>, arguments: Option<string>,
                         argumentTypes: Option<string>, envVariables: Option<string>,
                         command: Option<string>, implementation: Option<string>,
                         dependencies: Option<string>)

  function PatchValue(p: Patch, c: Column): Option<string> {
    match c
    case Id => None
    case Description => p.description
    case Arguments => p.arguments
    case ArgumentTypes => p.argumentTypes
    case EnvVariables => p.envVariables
    case Command => p.command
    case Implementation => p.implementation
    case Dependencies => p.dependencies
  }

  /** The order in which `update_tool` visits its arguments. */
  const Updatable: seq<Column> :=
    [Description, Arguments, ArgumentTypes, EnvVariables, Command, Implementation, Dependencies]

  /** The column's value as a list of at most one element. */
  function ValueList(p: Patch, c: Column): seq<string> {
    match PatchValue(p, c)
    case None => []
    case Some(v) => [v]
  }

  function ColumnList(p: Patch, c: Column): seq<Column> {
    if PatchValue(p, c).Some? then [c] else []
  }

  /** The given (non-`None`) columns among the first `k` of `Updatable`, in order ... */
  function Given(p: Patch, k: nat): seq<Column>
    requires k <= |Updatable|
  {
    if k == 0 then [] else Given(p, k - 1) + ColumnList(p, Updatable[k - 1])
  }

  /** ... and their values, in the same order. */
  function Values(p: Patch, k: nat): seq<string>
    requires k <= |Updatable|
  {
    if k == 0 then [] else Values(p, k - 1) + ValueList(p, Updatable[k - 1])
  }

  /** Values and columns line up: the `i`-th value is the `i`-th given column's. */
  lemma {:induction false} ValuesAligned(p: Patch, k: nat)
    requires k <= |Updatable|
    ensures |Values(p, k)| == |Given(p, k)|
    ensures forall i | 0 <= i < |Given(p, k)| :: PatchValue(p, Given(p, k)[i]) == Some(Values(p, k)[i])
  {
    if k > 0 {
      ValuesAligned(p, k - 1);
    }
  }

  /** `update_tool` binds `command`, `implementation` and `dependencies` by quoting them into
      the statement; the other columns get a `%s` placeholder. */
  predicate Inline(c: Column) {
    c.Command? || c.Implementation? || c.Dependencies?
  }

  /** The SET fragment `update_tool` appends for a given column. */
  function Fragment(c: Column, v: string): string {
    match c
    case Id => ""
    case Description => " description = %s, "
    case Arguments => " arguments = %s, "
    case ArgumentTypes => " argument_types = %s, "
    case EnvVariables => " env_variables = %s, "
    case Command => " command = '" + v + "', "
    case Implementation => " implementation = '" + v + "', "
    case Dependencies => " dependencies = '" + v + "', "
  }

  function FragmentOf(p: Patch, c: Column): string {
    match PatchValue(p, c)
    case None => ""
    case Some(v) => Fragment(c, v)
  }

  const UpdateHead := "UPDATE tools SET"
  const UpdateTail := "WHERE id = %s;"

  /** `prefix` after `update_tool` has visited the first `k` of its arguments. */
  function Prefix(p: Patch, k: nat): string
    requires k <= |Updatable|
  {
    if k == 0 then UpdateHead else Prefix(p, k - 1) + FragmentOf(p, Updatable[k - 1])
  }

  /** A statement and the parameters `cursor.execute` substitutes into it. */
  datatype Statement = Statement(sql: string, params: seq<string>)

  /** The first part of `update_tool`'s statement: the columns bound by a `%s` placeholder. */
  method PlaceholderFragments(p: Patch) returns (prefix: string)
    ensures prefix == Prefix(p, 4)
  {
    prefix := UpdateHead;
    if p.description.Some? {
      prefix := prefix + " description = %s, ";
    }
    assert prefix == Prefix(p, 1);
    if p.arguments.Some? {
      prefix := prefix + " arguments = %s, ";
    }
    assert prefix == Prefix(p, 2);
    if p.argumentTypes.Some? {
      prefix := prefix + " argument_types = %s, ";
    }
    assert prefix == Prefix(p, 3);
    if p.envVariables.Some? {
      prefix := prefix + " env_variables = %s, ";
    }
  }

  /** The rest of the statement: the columns whose value is quoted into it. */
  method InlineFragments(p: Patch, start: string) returns (prefix: string)
    requires start == Prefix(p, 4)
    ensures prefix == Prefix(p, 7)
  {
    prefix := start;
    if p.command.Some? {
      prefix := prefix + " command = '" + p.command.value + "', ";
    }
    assert prefix == Prefix(p, 5);
    if p.implementation.Some? {
      prefix := prefix + " implementation = '" + p.implementation.value + "', ";
    }
    assert prefix == Prefix(p, 6);
    if p.dependencies.Some? {
      prefix := prefix + " dependencies = '" + p.dependencies.value + "', ";
    }
  }

  /** The parameter list: every given value in argument order, then `id`. */
  method UpdateParams(id: string, p: Patch) returns (params: seq<string>)
    ensures params == Values(p, |Updatable|) + [id]
  {
    params := [];
    if p.description.Some? {
      params := params + [p.description.value];
    }
    assert params == Values(p, 1);
    if p.arguments.Some? {
      params := params + [p.arguments.value];
    }
    assert params == Values(p, 2);
    if p.argumentTypes.Some? {
      params := params + [p.argumentTypes.value];
    }
    assert params == Values(p, 3);
    if p.envVariables.Some? {
      params := params + [p.envVariables.value];
    }
    assert params == Values(p, 4);
    if p.command.Some? {
      params := params + [p.command.value];
    }
    assert params == Values(p, 5);
    if p.implementation.Some? {
      params := params + [p.implementation.value];
    }
    assert params == Values(p, 6);
    if p.dependencies.Some? {
      params := params + [p.dependencies.value];
    }
    assert params == Values(p, 7);
    params := params + [id];
  }

  /** `update_tool` as written: the statement grows by one fragment per given argument, then
      the `WHERE` clause; the parameters are the given values, then `id`. */
  method UpdateStatementAsWritten(id: string, p: Patch) returns (st: Statement)
    ensures st.sql == Prefix(p, |Updatable|) + UpdateTail
    ensures st.params == Values(p, |Updatable|) + [id]
  {
    var prefix := PlaceholderFragments(p);
    prefix := InlineFragments(p, prefix);
    var suffix := UpdateTail;
    prefix := prefix + suffix;
    var params := UpdateParams(id, p);
    st := Statement(prefix, params);
  }

  /** The call with every optional argument left at `None`. */
  const NoPatch := Patch(None, None, None, None, None, None, None)

  /** The first `k` arguments are all `None` exactly when none of them is given ... */
  lemma {:induction false} GivenNone(p: Patch, k: nat)
    requires k <= |Updatable|
    ensures Given(p, k) == [] <==> forall i | 0 <= i < k :: PatchValue(p, Updatable[i]).None?
  {
    if k > 0 {
      GivenNone(p, k - 1);
    }
  }

  /** ... and then the statement and the parameters are still as they began. */
  lemma {:induction false} Untouched(p: Patch, k: nat)
    requires k <= |Updatable|
    requires forall i | 0 <= i < k :: PatchValue(p, Updatable[i]).None?
    ensures Prefix(p, k) == UpdateHead && Values(p, k) == []
  {
    if k > 0 {
      Untouched(p, k - 1);
    }
  }

  /** No argument given means no column among the seven. */
  lemma NothingGiven(p: Patch)
    ensures Given(p, |Updatable|) == [] <==> p == NoPatch
  {
    GivenNone(p, |Updatable|);
    if Given(p, |Updatable|) == [] {
      assert PatchValue(p, Updatable[0]).None? && PatchValue(p, Updatable[1]).None?;
      assert PatchValue(p, Updatable[2]).None? && PatchValue(p, Updatable[3]).None?;
      assert PatchValue(p, Updatable[4]).None? && PatchValue(p, Updatable[5]).None?;
      assert PatchValue(p, Updatable[6]).None?;
    }
  }

  /** With no argument given, the statement as written runs `SET` into `WHERE`. */
  lemma EmptyUpdateAsWritten(id: string)
    ensures Prefix(NoPatch, |Updatable|) + UpdateTail == "UPDATE tools SETWHERE id = %s;"
    ensures Values(NoPatch, |Updatable|) + [id] == [id]
  {
    Untouched(NoPatch, |Updatable|);
  }

  /** Every SET fragment ends in `", "`. */
  lemma FragmentComma(c: Column, v: string)
    requires c in Updatable
    ensures var f := Fragment(c, v); |f| >= 2 && f[|f| - 2..] == ", "
  {
  }

  lemma {:induction false} PrefixComma(p: Patch, k: nat)
    requires k <= |Updatable|
    requires Given(p, k) != []
    ensures var s := Prefix(p, k); |s| >= 2 && s[|s| - 2..] == ", "
  {
    var c := Updatable[k - 1];
    match PatchValue(p, c)
    case Some(v) =>
      FragmentComma(c, v);
    case None =>
      PrefixComma(p, k - 1);
  }

  /** As written, any update puts `", "` right before `WHERE`. */
  lemma TrailingCommaAsWritten(p: Patch)
    requires p != NoPatch
    ensures var sql := Prefix(p, |Updatable|) + UpdateTail;
      |sql| >= 16 && sql[|sql| - 16..] == ", WHERE id = %s;"
  {
    NothingGiven(p);
    PrefixComma(p, |Updatable|);
    CommaTail(Prefix(p, |Updatable|));
  }

  lemma CommaTail(s: string)
    requires |s| >= 2 && s[|s| - 2..] == ", "
    ensures var sql := s + UpdateTail; |sql| >= 16 && sql[|sql| - 16..] == ", WHERE id = %s;"
  {
    assert (s + UpdateTail)[|s| - 2..] == s[|s| - 2..] + UpdateTail;
  }

  /** The values quoted into the statement hold no `%` of their own. */
  predicate QuotedFree(p: Patch) {
    (p.command.Some? ==> '%' !in p.command.value) &&
    (p.implementation.Some? ==> '%' !in p.implementation.value) &&
    (p.dependencies.Some? ==> '%' !in p.dependencies.value)
  }

  /** A placeholder fragment holds one `%` ... */
  lemma PlaceholderCount(c: Column, v: string)
    requires c in Updatable[..4]
    ensures Count(Fragment(c, v), '%') == 1
  {
    assert Updatable[..4] == [Description, Arguments, ArgumentTypes, EnvVariables];
    match c
    case Description =>
      assert Fragment(c, v) == " description = " + "%" + "s, ";
      CountOnce(" description = ", "s, ", '%');
    case Arguments =>
      assert Fragment(c, v) == " arguments = " + "%" + "s, ";
      CountOnce(" arguments = ", "s, ", '%');
    case ArgumentTypes =>
      assert Fragment(c, v) == " argument_types = " + "%" + "s, ";
      CountOnce(" argument_types = ", "s, ", '%');
    case EnvVariables =>
      assert Fragment(c, v) == " env_variables = " + "%" + "s, ";
      CountOnce(" env_variables = ", "s, ", '%');
  }

  /** ... and a quoted one holds only the value's. */
  lemma QuotedCount(c: Column, v: string)
    requires c in Updatable[4..] && '%' !in v
    ensures Count(Fragment(c, v), '%') == 0
  {
    assert Updatable[4..] == [Command, Implementation, Dependencies];
    match c
    case Command =>
      assert '%' !in " command = '" + v + "', ";
      CountAbsent(" command = '" + v + "', ", '%');
    case Implementation =>
      assert '%' !in " implementation = '" + v + "', ";
      CountAbsent(" implementation = '" + v + "', ", '%');
    case Dependencies =>
      assert '%' !in " dependencies = '" + v + "', ";
      CountAbsent(" dependencies = '" + v + "', ", '%');
  }

  /** The `%` placeholders come from the first four arguments, one per given argument ... */
  lemma {:induction false} PlaceholderPrefix(p: Patch, k: nat)
    requires k <= 4
    ensures Count(Prefix(p, k), '%') == |Given(p, k)|
  {
    if k == 0 {
      CountAbsent(UpdateHead, '%');
    } else {
      PlaceholderPrefix(p, k - 1);
      var c := Updatable[k - 1];
      assert Updatable[..4][k - 1] == c;
      CountAppend(Prefix(p, k - 1), FragmentOf(p, c), '%');
      if PatchValue(p, c).Some? {
        PlaceholderCount(c, PatchValue(p, c).value);
      }
    }
  }

  /** ... and the last three add none when their values hold none. */
  lemma {:induction false} QuotedPrefix(p: Patch, k: nat)
    requires 4 <= k <= |Updatable| && QuotedFree(p)
    ensures Count(Prefix(p, k), '%') == |Given(p, 4)|
  {
    if k == 4 {
      PlaceholderPrefix(p, 4);
    } else {
      QuotedPrefix(p, k - 1);
      var c := Updatable[k - 1];
      assert Updatable[4..][k - 5] == c;
      CountAppend(Prefix(p, k - 1), FragmentOf(p, c), '%');
      if PatchValue(p, c).Some? {
        QuotedCount(c, PatchValue(p, c).value);
      }
    }
  }

  /** As written, the statement's placeholders match its parameters exactly when `command`,
      `implementation` and `dependencies` are all `None`: those three are quoted into the
      statement and also passed as parameters. */
  lemma PlaceholderMismatchAsWritten(id: string, p: Patch)
    requires QuotedFree(p)
    ensures Count(Prefix(p, |Updatable|) + UpdateTail, '%') == |Given(p, 4)| + 1
    ensures |Values(p, |Updatable|) + [id]| == |Given(p, |Updatable|)| + 1
    ensures Count(Prefix(p, |Updatable|) + UpdateTail, '%') == |Values(p, |Updatable|) + [id]|
      <==> p.command.None? && p.implementation.None? && p.dependencies.None?
  {
    QuotedPrefix(p, |Updatable|);
    assert UpdateTail == "WHERE id = " + "%" + "s;";
    CountOnce("WHERE id = ", "s;", '%');
    CountAppend(Prefix(p, |Updatable|), UpdateTail, '%');
    ValuesAligned(p, |Updatable|);
    assert Given(p, 5) == Given(p, 4) + ColumnList(p, Command);
    assert Given(p, 6) == Given(p, 5) + ColumnList(p, Implementation);
    assert Given(p, 7) == Given(p, 6) + ColumnList(p, Dependencies);
  }

  /** The smallest case: updating only `command` yields a statement with one placeholder and
      two parameters, and a comma before `WHERE`. */
  lemma CommandOnlyAsWritten(id: string)
    ensures var p := Patch(None, None, None, None, Some("ls"), None, None);
      Prefix(p, |Updatable|) + UpdateTail == "UPDATE tools SET command = 'ls', WHERE id = %s;" &&
      Values(p, |Updatable|) + [id] == ["ls", id]
  {
    var p := Patch(None, None, None, None, Some("ls"), None, None);
    Untouched(p, 4);
    assert Updatable[4] == Command;
    assert Prefix(p, 5) == UpdateHead + Fragment(Command, "ls");
    assert Values(p, 5) == ["ls"];
    assert Updatable[5] == Implementation && Updatable[6] == Dependencies;
    assert Prefix(p, 7) == Prefix(p, 5) && Values(p, 7) == Values(p, 5);
    CommandOnlyText();
  }

  lemma CommandOnlyText()
    ensures UpdateHead + Fragment(Command, "ls") + UpdateTail == "UPDATE tools SET command = 'ls', WHERE id = %s;"
  {
  }

  /** The statement `update_tool` evidently means to build binds every given value through a
      placeholder `name = %s`, separates the assignments with `", "` and runs nothing when no
      argument is given. */
  function Assignment(c: Column): string {
    Name(c) + " = %s"
  }

  /** The assignments for the given columns among the first `k` of `Updatable`. */
  function Clauses(p: Patch, k: nat): seq<string>
    requires k <= |Updatable|
  {
    if k == 0 then []
    else Clauses(p, k - 1) + (if PatchValue(p, Updatable[k - 1]).Some? then [Assignment(Updatable[k - 1])] else [])
  }

  /** The `i`-th assignment names the `i`-th given column. */
  lemma {:induction false} ClausesAligned(p: Patch, k: nat)
    requires k <= |Updatable|
    ensures |Clauses(p, k)| == |Given(p, k)|
    ensures forall i | 0 <= i < |Given(p, k)| :: Clauses(p, k)[i] == Assignment(Given(p, k)[i])
  {
    if k > 0 {
      ClausesAligned(p, k - 1);
    }
  }

  const CorrectedHead := "UPDATE tools SET "
  const CorrectedTail := " WHERE id = %s;"

  /** The assignments among the first four arguments. */
  method PlaceholderClauses(p: Patch) returns (sets: seq<string>)
    ensures sets == Clauses(p, 4)
  {
    sets := [];
    if p.description.Some? {
      sets := sets + [Assignment(Description)];
    }
    assert sets == Clauses(p, 1);
    if p.arguments.Some? {
      sets := sets + [Assignment(Arguments)];
    }
    assert sets == Clauses(p, 2);
    if p.argumentTypes.Some? {
      sets := sets + [Assignment(ArgumentTypes)];
    }
    assert sets == Clauses(p, 3);
    if p.envVariables.Some? {
      sets := sets + [Assignment(EnvVariables)];
    }
  }

  /** The assignments among the last three, which the corrected statement binds as well. */
  method BoundClauses(p: Patch, start: seq<string>) returns (sets: seq<string>)
    requires start == Clauses(p, 4)
    ensures sets == Clauses(p, |Updatable|)
  {
    sets := start;
    if p.command.Some? {
      sets := sets + [Assignment(Command)];
    }
    assert sets == Clauses(p, 5);
    if p.implementation.Some? {
      sets := sets + [Assignment(Implementation)];
    }
    assert sets == Clauses(p, 6);
    if p.dependencies.Some? {
      sets := sets + [Assignment(Dependencies)];
    }
  }

  /** The corrected `update_tool` statement: `None` when there is nothing to update. The
      parameters are those of the statement as written. */
  method UpdateStatement(id: string, p: Patch) returns (st: Option<Statement>)
    ensures st.None? <==> p == NoPatch
    ensures st.Some? ==> st.value.sql == CorrectedHead + Join(", ", Clauses(p, |Updatable|)) + CorrectedTail
    ensures st.Some? ==> st.value.params == Values(p, |Updatable|) + [id]
  {
    var sets := PlaceholderClauses(p);
    sets := BoundClauses(p, sets);
    ClausesAligned(p, |Updatable|);
    NothingGiven(p);
    if |sets| == 0 {
      st := None;
    } else {
      var params := UpdateParams(id, p);
      st := Some(Statement(CorrectedHead + Join(", ", sets) + CorrectedTail, params));
    }
  }

  lemma NameFree(c: Column)
    ensures '%' !in Name(c)
  {
  }

  lemma AssignmentCount(c: Column)
    ensures Count(Assignment(c), '%') == 1
  {
    NameFree(c);
    assert Assignment(c) == Name(c) + " = " + "%" + "s";
    CountOnce(Name(c) + " = ", "s", '%');
  }

  /** Between a head without `%` and a tail with one, assignments holding one `%` each give a
      statement with one `%` per assignment, and one more. */
  lemma StatementCount(head: string, cs: seq<string>, tail: string)
    requires Count(head, '%') == 0 && Count(tail, '%') == 1
    requires forall i | 0 <= i < |cs| :: Count(cs[i], '%') == 1
    ensures Count(head + Join(", ", cs) + tail, '%') == |cs| + 1
  {
    SeparatorCount();
    JoinCount(", ", cs, '%');
    var body := Join(", ", cs);
    CountAppend(head, body, '%');
    CountAppend(head + body, tail, '%');
  }

  lemma SeparatorCount()
    ensures Count(", ", '%') == 0
  {
    CountAbsent(", ", '%');
  }

  lemma HeadCount()
    ensures Count(CorrectedHead, '%') == 0
  {
    CountAbsent(CorrectedHead, '%');
  }

  lemma TailCount()
    ensures Count(CorrectedTail, '%') == 1
  {
    assert CorrectedTail == " WHERE id = " + "%" + "s;";
    CountOnce(" WHERE id = ", "s;", '%');
  }

  /** Corrected, every parameter has its placeholder: the statement holds one `%` per
      parameter (with `ClausesAligned` and `ValuesAligned`, the `i`-th placeholder is the one
      for the column whose value is the `i`-th parameter). */
  lemma CorrectedBindsAll(id: string, p: Patch)
    ensures var sql := CorrectedHead + Join(", ", Clauses(p, |Updatable|)) + CorrectedTail;
      Count(sql, '%') == |Values(p, |Updatable|) + [id]|
  {
    var cs := Clauses(p, |Updatable|);
    ClausesAligned(p, |Updatable|);
    ValuesAligned(p, |Updatable|);
    forall i | 0 <= i < |cs| ensures Count(cs[i], '%') == 1 {
      AssignmentCount(Given(p, |Updatable|)[i]);
    }
    HeadCount();
    TailCount();
    StatementCount(CorrectedHead, cs, CorrectedTail);
  }

  /** The row `add_tool` inserts: its arguments in column order. */
  function RowOf(t: Tool): (row: Row)
    ensures |row| == 8 && ToolOf(row) == t
  {
    [t.id, t.description, t.arguments, t.argumentTypes, t.envVariables, t.command, t.implementation, t.dependencies]
  }

  /** The row after an update: each given column takes its new value, the others keep theirs. */
  function Patched(row: Row, p: Patch): (r: Row)
    requires |row| == 8
    ensures |r| == 8 && r[0] == row[0]
    ensures r[1] == (if p.description.Some? then p.description else row[1])
    ensures r[7] == (if p.dependencies.Some? then p.dependencies else row[7])
    ensures forall c: Column ::
      Field(ToolOf(r), c) == (if PatchValue(p, c).Some? then PatchValue(p, c) else Field(ToolOf(row), c))
  {
    var v := (c: Column) => if PatchValue(p, c).Some? then PatchValue(p, c) else row[Position(c)];
    [row[0], v(Description), v(Arguments), v(ArgumentTypes), v(EnvVariables), v(Command), v(Implementation), v(Dependencies)]
  }

  /** An update never makes a row inadmissible: it only ever writes values. */
  lemma PatchedAdmissible(row: Row, p: Patch)
    requires Admissible(row)
    ensures Admissible(Patched(row, p))
  {
    var r := Patched(row, p);
    assert Field(ToolOf(r), Description).Some? && Field(ToolOf(r), Implementation).Some?;
    assert Field(ToolOf(r), Dependencies).Some?;
  }

  /** The `tools` table behind one connection. */
  class PostgresDB {
    /** Whether the table exists (`DROP TABLE` removes it). */
    var present: bool
    /** Its rows, by `id`. */
    var rows: map<string, Row>

    ghost predicate Valid()
      reads this
    {
      WellKeyed(rows) && (!present ==> rows == map[])
    }

    /** `__init__`: `CREATE TABLE IF NOT EXISTS` keeps the rows of a table that is already
        there (`existing`), and otherwise creates an empty one. */
    constructor(existing: Option<map<string, Row>>)
      requires existing.Some? ==> WellKeyed(existing.value)
      ensures Valid() && present
      ensures rows == if existing.Some? then existing.value else map[]
    {
      present := true;
      rows := if existing.Some? then existing.value else map[];
    }

    /** `_create_table` on a new connection to a database that outlives it: `CREATE TABLE IF
        NOT EXISTS` keeps the rows of a table that is there, and a dropped table comes back
        empty. */
    method CreateTable()
      requires Valid()
      modifies this
      ensures Valid() && present && rows == old(rows)
    {
      present := true;
    }

    /** `get_tool`: the record for `id`, or `None` when no row has it. */
    function GetTool(id: string): (r: Result<Option<Tool>>)
      reads this
      requires Valid()
      ensures !present <==> r == Err(MissingTable)
      ensures r.Ok? ==> (r.value.Some? <==> id in rows)
      ensures r.Ok? && r.value.Some? ==> r.value.value.id == Some(id) && RowOf(r.value.value) == rows[id]
    {
      if !present then Err(MissingTable)
      else if id in rows then Ok(Some(ToolOf(rows[id])))
      else Ok(None)
    }

    /** `delete_table`: `DROP TABLE IF EXISTS` succeeds whether or not the table is there. */
    method DeleteTable()
      modifies this
      ensures Valid() && !present && rows == map[]
    {
      present := false;
      rows := map[];
    }

    /** `add_tool`: the insert fails on a missing table, then on the first NOT NULL column
        left `None`, then on an id already present; otherwise the row is stored. */
    method AddTool(t: Tool) returns (r: Outcome)
      requires Valid()
      modifies this
      ensures Valid() && present == old(present)
      ensures !old(present) ==> r == Fail(MissingTable)
      ensures old(present) && FirstNull(RowOf(t)).Some? ==> r == Fail(NullViolation(FirstNull(RowOf(t)).value))
      ensures old(present) && FirstNull(RowOf(t)).None? && t.id.value in old(rows) ==> r == Fail(DuplicateKey)
      ensures r.Pass? <==> old(present) && Admissible(RowOf(t)) && t.id.value !in old(rows)
      ensures r.Pass? ==> rows == old(rows)[t.id.value := RowOf(t)] && GetTool(t.id.value) == Ok(Some(t))
      ensures r.Fail? ==> rows == old(rows)
    {
      var row := RowOf(t);
      if !present {
        return Fail(MissingTable);
      }
      var missing := FirstNull(row);
      if missing.Some? {
        return Fail(NullViolation(missing.value));
      }
      var id := t.id.value;
      if id in rows {
        return Fail(DuplicateKey);
      }
      rows := rows[id := row];
      r := Pass;
    }

    /** `remove_tool`: deleting an id that no row has is not an error. */
    method RemoveTool(id: string) returns (r: Outcome)
      requires Valid()
      modifies this
      ensures Valid() && present == old(present)
      ensures r.Pass? <==> old(present)
      ensures r.Fail? ==> r == Fail(MissingTable) && rows == old(rows)
      ensures r.Pass? ==> rows == old(rows) - {id} && GetTool(id) == Ok(None)
      ensures forall k | k != id && k in old(rows) :: k in rows && rows[k] == old(rows)[k]
    {
      if !present {
        return Fail(MissingTable);
      }
      rows := rows - {id};
      r := Pass;
    }

    /** `update_tool`, with the statement it evidently intends (`UpdateStatement`): nothing
        runs when no argument is given; otherwise the row with that id, if any, takes the
        given values, and an id that no row has changes nothing. */
    method UpdateTool(id: string, p: Patch) returns (r: Outcome)
      requires Valid()
      modifies this
      ensures Valid() && present == old(present)
      ensures r.Fail? <==> p != NoPatch && !old(present)
      ensures r.Fail? ==> r == Fail(MissingTable) && rows == old(rows)
      ensures r.Pass? && p != NoPatch && id in old(rows) ==> rows == old(rows)[id := Patched(old(rows)[id], p)]
      ensures p == NoPatch || id !in old(rows) ==> rows == old(rows)
    {
      var st := UpdateStatement(id, p);
      if st.None? {
        return Pass;
      }
      if !present {
        return Fail(MissingTable);
      }
      if id in rows {
        PatchedAdmissible(rows[id], p);
        rows := rows[id := Patched(rows[id], p)];
      }
      r := Pass;
    }
  }
}
