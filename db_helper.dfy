/** `DBAdapter`: one repository of tools kept in two stores, the `tools` table (`PostgresDB`)
    and a vector index from id to description. Each method writes the two stores one after the
    other; a step that fails ends the method there, so what a failure leaves behind shows the
    order of the writes. */
module DbHelper {
  import opened Wrappers
  import opened Postgres

  /** What the vector index reports once its collection has been deleted. */
  const MissingCollection := "Collection tool_descriptions does not exist."

  /** The two stores agree: they hold the same ids, and the index holds each tool's stored
      description. */
  ghost predicate Agree(rows: map<string, Row>, index: map<string, string>)
    requires WellKeyed(rows)
  {
    rows.Keys == index.Keys && forall id | id in index :: rows[id][1] == Some(index[id])
  }

  /** Storing a new tool and indexing its description keeps the stores in agreement. */
  lemma AddAgree(rows: map<string, Row>, index: map<string, string>, t: Tool)
    requires WellKeyed(rows) && Agree(rows, index) && Admissible(RowOf(t))
    requires WellKeyed(rows[t.id.value := RowOf(t)])
    ensures Agree(rows[t.id.value := RowOf(t)], index[t.id.value := t.description.value])
  {
  }

  /** So does removing an id from both. */
  lemma RemoveAgree(rows: map<string, Row>, index: map<string, string>, id: string)
    requires WellKeyed(rows) && Agree(rows, index)
    ensures WellKeyed(rows - {id}) && Agree(rows - {id}, index - {id})
  {
  }

  /** So does patching a row and re-indexing the description when one is given; a
      re-index of an id the index lacks changes nothing. */
  lemma UpdateAgree(rows: map<string, Row>, index: map<string, string>, id: string, p: Patch)
    requires WellKeyed(rows) && Agree(rows, index) && id in rows
    requires WellKeyed(rows[id := Patched(rows[id], p)])
    ensures Agree(rows[id := Patched(rows[id], p)],
                  if p.description.Some? then index[id := p.description.value] else index)
  {
  }

  class DBAdapter {
    var postgres: PostgresDB
    /** Whether the index's collection exists (`clear_collection` deletes it). */
    var indexPresent: bool
    /** The index: the description embedded for each id. */
    var index: map<string, string>

    ghost predicate Valid()
      reads this, postgres
    {
      postgres.Valid() && (!indexPresent ==> index == map[])
    }

    /** The two stores agree: they hold the same ids, and the index holds each tool's
        stored description. */
    ghost predicate Consistent()
      reads this, postgres
      requires Valid()
    {
      Agree(postgres.rows, index)
    }

    /** `__init__`: both stores reopen what they already hold (`get_or_create_collection`,
        `CREATE TABLE IF NOT EXISTS`) or start empty. */
    constructor(rows: Option<map<string, Row>>, docs: Option<map<string, string>>)
      requires rows.Some? ==> WellKeyed(rows.value)
      ensures Valid() && fresh(postgres) && postgres.present && indexPresent
      ensures postgres.rows == (if rows.Some? then rows.value else map[])
      ensures index == (if docs.Some? then docs.value else map[])
    {
      postgres := new PostgresDB(rows);
      indexPresent := true;
      index := if docs.Some? then docs.value else map[];
    }

    /** `DBAdapter()` over stores that outlive the adapter: `PostgresDB()` creates the table
        when it is missing and `get_or_create_collection` the collection; what either store
        holds is kept. */
    method Reopen()
      requires Valid()
      modifies this, postgres
      ensures Valid() && postgres == old(postgres) && postgres.present && indexPresent
      ensures postgres.rows == old(postgres.rows) && index == old(index)
    {
      postgres.CreateTable();
      indexPresent := true;
    }

    /** `add_tool`: the store first, the index second. A store failure changes nothing; an
        index failure leaves the row stored but not indexed. */
    method AddTool(t: Tool) returns (r: Outcome)
      requires Valid()
      modifies this, postgres
      ensures Valid() && postgres == old(postgres) && postgres.present == old(postgres.present)
      ensures indexPresent == old(indexPresent)
      ensures r.Pass? <==>
        old(postgres.present) && Admissible(RowOf(t)) && t.id.value !in old(postgres.rows) && old(indexPresent)
      ensures r.Pass? ==>
        postgres.rows == old(postgres.rows)[t.id.value := RowOf(t)] &&
        index == old(index)[t.id.value := t.description.value]
      ensures !old(postgres.present) ==> r == Fail(MissingTable)
      ensures old(postgres.present) && FirstNull(RowOf(t)).Some? ==> r == Fail(NullViolation(FirstNull(RowOf(t)).value))
      ensures old(postgres.present) && FirstNull(RowOf(t)).None? && t.id.value in old(postgres.rows) ==> r == Fail(DuplicateKey)
      ensures !(old(postgres.present) && Admissible(RowOf(t)) && t.id.value !in old(postgres.rows)) ==>
        postgres.rows == old(postgres.rows) && index == old(index)
      ensures old(postgres.present) && Admissible(RowOf(t)) && t.id.value !in old(postgres.rows) && !old(indexPresent) ==>
        r == Fail(MissingCollection) && postgres.rows == old(postgres.rows)[t.id.value := RowOf(t)] && index == old(index)
      ensures old(Consistent()) && r.Pass? ==> Consistent()
    {
      r := postgres.AddTool(t);
      if r.Fail? {
        return;
      }
      if !indexPresent {
        return Fail(MissingCollection);
      }
      if old(Consistent()) {
        AddAgree(old(postgres.rows), index, t);
      }
      index := index[t.id.value := t.description.value];
    }

    /** `remove_tool`: the index first, the store second. An index failure changes nothing; a
        store failure leaves the id unindexed but stored. Removing an absent id is no error. */
    method RemoveTool(id: string) returns (r: Outcome)
      requires Valid()
      modifies this, postgres
      ensures Valid() && postgres == old(postgres) && postgres.present == old(postgres.present)
      ensures indexPresent == old(indexPresent)
      ensures r.Pass? <==> old(indexPresent) && old(postgres.present)
      ensures !old(indexPresent) ==>
        r == Fail(MissingCollection) && postgres.rows == old(postgres.rows) && index == old(index)
      ensures old(indexPresent) ==> index == old(index) - {id}
      ensures r.Pass? ==> postgres.rows == old(postgres.rows) - {id}
      ensures old(indexPresent) && !old(postgres.present) ==>
        r == Fail(MissingTable) && postgres.rows == old(postgres.rows)
      ensures old(Consistent()) && r.Pass? ==> Consistent()
    {
      if !indexPresent {
        return Fail(MissingCollection);
      }
      if Consistent() {
        RemoveAgree(postgres.rows, index, id);
      }
      index := index - {id};
      r := postgres.RemoveTool(id);
    }

    /** `update_tool`: patches the store (never `dependencies`, which it does not forward),
        then re-indexes the description when one is given; the index only updates an id it
        already holds. */
    method UpdateTool(id: string, description: Option<string>, arguments: Option<string>,
                      argumentTypes: Option<string>, envVariables: Option<string>,
                      command: Option<string>, implementation: Option<string>)
      returns (r: Outcome)
      requires Valid()
      modifies this, postgres
      ensures Valid() && postgres == old(postgres) && postgres.present == old(postgres.present)
      ensures indexPresent == old(indexPresent)
      ensures postgres.rows.Keys == old(postgres.rows.Keys)
      ensures id in postgres.rows ==> postgres.rows[id][7] == old(postgres.rows)[id][7]
      ensures var p := Patch(description, arguments, argumentTypes, envVariables, command, implementation, None);
        p != NoPatch && old(postgres.present) && id in old(postgres.rows) ==>
          postgres.rows == old(postgres.rows)[id := Patched(old(postgres.rows)[id], p)]
      ensures var p := Patch(description, arguments, argumentTypes, envVariables, command, implementation, None);
        p == NoPatch || id !in old(postgres.rows) ==> postgres.rows == old(postgres.rows)
      ensures var p := Patch(description, arguments, argumentTypes, envVariables, command, implementation, None);
        r.Fail? <==> (p != NoPatch && !old(postgres.present)) || (description.Some? && !old(indexPresent))
      ensures var p := Patch(description, arguments, argumentTypes, envVariables, command, implementation, None);
        p != NoPatch && !old(postgres.present) ==> r == Fail(MissingTable) && index == old(index)
      ensures old(postgres.present) && description.Some? && !old(indexPresent) ==>
        r == Fail(MissingCollection) && index == old(index)
      ensures description.None? ==> index == old(index)
      ensures r.Pass? && description.Some? ==>
        index == if id in old(index) then old(index)[id := description.value] else old(index)
      ensures old(Consistent()) && r.Pass? ==> Consistent()
    {
      var p := Patch(description, arguments, argumentTypes, envVariables, command, implementation, None);
      ghost var before := postgres.rows;
      r := postgres.UpdateTool(id, p);
      if old(Consistent()) && r.Pass? && p != NoPatch && id in before {
        UpdateAgree(before, index, id, p);
      }

      if r.Fail? {
        return;
      }
      if description.Some? {
        if !indexPresent {
          return Fail(MissingCollection);
        }
        if id in index {
          index := index[id := description.value];
        }
      }
    }

    /** `get_tool` reads the store only. */
    function GetTool(id: string): (r: Result<Option<Tool>>)
      reads this, postgres
      requires Valid()
      ensures r.Ok? ==> (r.value.Some? <==> id in postgres.rows)
      ensures r.Err? <==> !postgres.present
    {
      postgres.GetTool(id)
    }

    /** `query` reads the index only: the nearest description's id, if the index holds any.
        `nearest` stands for the embedding search (`n_results=1`), which returns an id that the
        index holds. */
    function Query(q: string, nearest: (map<string, string>, string) -> Option<string>): (r: Result<seq<string>>)
      reads this, postgres
      requires Valid()
      requires nearest(index, q).Some? ==> nearest(index, q).value in index
      ensures r.Err? <==> !indexPresent
      ensures r.Ok? ==> |r.value| <= 1 && forall i | 0 <= i < |r.value| :: r.value[i] in index
      ensures r.Ok? && index == map[] ==> r.value == []
    {
      if !indexPresent then Err(MissingCollection)
      else match nearest(index, q)
        case None => Ok([])
        case Some(id) => Ok([id])
    }

    /** `clear_db`: drops the table, then deletes the collection; deleting a collection that
        is already gone fails. */
    method ClearDb() returns (r: Outcome)
      requires Valid()
      modifies this, postgres
      ensures Valid() && postgres == old(postgres)
      ensures !postgres.present && postgres.rows == map[] && !indexPresent && index == map[]
      ensures r.Pass? <==> old(indexPresent)
      ensures Consistent()
    {
      postgres.DeleteTable();
      if !indexPresent {
        return Fail(MissingCollection);
      }
      indexPresent := false;
      index := map[];
      r := Pass;
    }
  }
}
