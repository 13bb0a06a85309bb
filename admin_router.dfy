/**
 * The system-prompt endpoints of the brain admin router: listing, creating
 * and activating prompts, either in the `system_prompts` table or, when that
 * table is not reachable, in a JSON file of prompts.
 */
module AdminRouter {
  import opened Wrappers
  import opened Text
  import opened Collections

  // ---------------------------------------------------------------------------
  // Prompts
  // ---------------------------------------------------------------------------

  /** The `created_at` of a stored prompt: absent from the record, `null`, or a timestamp text. */
  datatype CreatedAt = NoDate | NullDate | Date(text: string)

  /** A stored prompt. */
  datatype Prompt = Prompt(id: string, content: string, isActive: bool, promptLabel: Option<string>, createdAt: CreatedAt)

  /** The body of `POST /prompts`. */
  datatype PromptRequest = PromptRequest(content: string, isActive: bool, promptLabel: Option<string>)

  /** An `HTTPException` (or an unhandled error, answered with status 500). */
  datatype HttpError = HttpError(status: nat, detail: string)

  const InternalError := HttpError(500, "Internal Server Error")

  /** The invariant the endpoints are meant to keep: no two prompts are active. */
  predicate AtMostOneActive(ps: seq<Prompt>) {
    forall i, j :: 0 <= i < |ps| && 0 <= j < |ps| && ps[i].isActive && ps[j].isActive ==> i == j
  }

  predicate DistinctIds(ps: seq<Prompt>) {
    forall i, j :: 0 <= i < j < |ps| ==> ps[i].id != ps[j].id
  }

  predicate HasId(ps: seq<Prompt>, id: string) {
    exists i :: 0 <= i < |ps| && ps[i].id == id
  }

  /** `p['id'] == prompt_id`. */
  function WithId(id: string): Prompt -> bool {
    (p: Prompt) => p.id == id
  }

  /** Every prompt with `is_active` cleared, nothing else changed. */
  function Deactivated(ps: seq<Prompt>): (qs: seq<Prompt>)
    ensures |qs| == |ps|
    ensures forall k :: 0 <= k < |ps| ==> qs[k] == ps[k].(isActive := false)
  {
    seq(|ps|, k requires 0 <= k < |ps| => ps[k].(isActive := false))
  }

  /** Every prompt active exactly when it has the id, nothing else changed. */
  function ActivatedOnly(ps: seq<Prompt>, id: string): (qs: seq<Prompt>)
    ensures |qs| == |ps|
    ensures forall k :: 0 <= k < |ps| ==> qs[k] == ps[k].(isActive := ps[k].id == id)
  {
    seq(|ps|, k requires 0 <= k < |ps| => ps[k].(isActive := ps[k].id == id))
  }

  /** The record `create_prompt` appends to the file. */
  function NewRecord(req: PromptRequest, id: string, now: string): Prompt {
    Prompt(id, req.content, req.isActive, req.promptLabel, Date(now))
  }

  /** The list after creating a prompt: an active one first deactivates every other, then it is appended. */
  function Created(ps: seq<Prompt>, req: PromptRequest, id: string, now: string): seq<Prompt> {
    (if req.isActive then Deactivated(ps) else ps) + [NewRecord(req, id, now)]
  }

  // ---------------------------------------------------------------------------
  // Properties of creation and activation
  // ---------------------------------------------------------------------------

  /** Creating a prompt keeps at most one prompt active, and an active new prompt is then the only active one. */
  lemma CreatedKeepsOneActive(ps: seq<Prompt>, req: PromptRequest, id: string, now: string)
    requires AtMostOneActive(ps)
    ensures AtMostOneActive(Created(ps, req, id, now))
    ensures var qs := Created(ps, req, id, now);
      req.isActive ==> forall k :: 0 <= k < |qs| ==> (qs[k].isActive <==> k == |ps|)
  {
    var qs := Created(ps, req, id, now);
    forall i, j | 0 <= i < |qs| && 0 <= j < |qs| && qs[i].isActive && qs[j].isActive
      ensures i == j
    {
      if i < |ps| && j < |ps| {
        assert qs[i].isActive == ps[i].isActive && qs[j].isActive == ps[j].isActive;
      }
    }
  }

  /**
   * Creating a prompt changes no existing prompt except for clearing its
   * `is_active` when the new one is active, and with an id not used before
   * the ids stay distinct.
   */
  lemma CreatedKeepsOthers(ps: seq<Prompt>, req: PromptRequest, id: string, now: string)
    ensures var qs := Created(ps, req, id, now);
      |qs| == |ps| + 1 && qs[|ps|] == NewRecord(req, id, now) &&
      forall k :: 0 <= k < |ps| ==> qs[k].(isActive := ps[k].isActive) == ps[k] && (!req.isActive ==> qs[k] == ps[k])
    ensures DistinctIds(ps) && !HasId(ps, id) ==> DistinctIds(Created(ps, req, id, now))
  {
    var qs := Created(ps, req, id, now);
    if DistinctIds(ps) && !HasId(ps, id) {
      forall i, j | 0 <= i < j < |qs|
        ensures qs[i].id != qs[j].id
      {
        assert qs[i].id == ps[i].id;
        if j == |ps| {
          assert ps[i].id != id;
        } else {
          assert qs[j].id == ps[j].id;
        }
      }
    }
  }

  /**
   * After activation, a prompt is active exactly when it has the id; with
   * distinct ids that is at most one prompt, exactly one when the id is
   * present, and none when it is not.
   */
  lemma ActivatedOnlyOne(ps: seq<Prompt>, id: string)
    requires DistinctIds(ps)
    ensures AtMostOneActive(ActivatedOnly(ps, id))
    ensures HasId(ps, id) <==> exists k :: 0 <= k < |ps| && ActivatedOnly(ps, id)[k].isActive
    ensures |Filter(ActivatedOnly(ps, id), WithId(id))| <= 1
    ensures HasId(ps, id) <==> |Filter(ActivatedOnly(ps, id), WithId(id))| == 1
  {
    var qs := ActivatedOnly(ps, id);
    assert forall k :: 0 <= k < |qs| ==> qs[k].id == ps[k].id;
    if HasId(ps, id) {
      var k :| 0 <= k < |ps| && ps[k].id == id;
      assert qs[k].isActive;
      OneWithId(qs, id, k);
    } else {
      FilterNone(qs, WithId(id));
    }
  }

  /** With distinct ids, the prompt with a given id is the only one kept by `WithId`. */
  lemma OneWithId(ps: seq<Prompt>, id: string, k: nat)
    requires DistinctIds(ps) && k < |ps| && ps[k].id == id
    ensures Filter(ps, WithId(id)) == [ps[k]]
  {
    assert ps == ps[..k] + [ps[k]] + ps[k + 1..];
    FilterNone(ps[..k], WithId(id));
    FilterNone(ps[k + 1..], WithId(id));
    FilterAppend(ps[..k] + [ps[k]], ps[k + 1..], WithId(id));
    FilterAppend(ps[..k], [ps[k]], WithId(id));
    FilterSingleton(ps[k], WithId(id));
  }

  // ---------------------------------------------------------------------------
  // get_prompts, file fallback
  // ---------------------------------------------------------------------------

  /** The prompts file: missing, not a readable JSON list of prompts, or the stored list. */
  datatype FileState = Absent | Corrupt | Stored(prompts: seq<Prompt>)

  /** `x.get('created_at', '')`: `None` for a `null` timestamp. */
  function SortKey(p: Prompt): Option<string> {
    match p.createdAt
    case NoDate => Some("")
    case NullDate => None
    case Date(t) => Some(t)
  }

  /** `reverse=True` on the timestamp: a newer (greater) prompt may come first. */
  predicate NewerFirst(a: Prompt, b: Prompt) {
    LexLe(SortKey(b).GetOr(""), SortKey(a).GetOr(""))
  }

  /** True when sorting must compare a `None` key, which raises; a single prompt is never compared. */
  predicate ComparesNull(ps: seq<Prompt>) {
    |ps| >= 2 && exists k :: 0 <= k < |ps| && SortKey(ps[k]).None?
  }

  /**
   * The file fallback of `get_prompts`: `[]` when the file is missing or any
   * step raises, otherwise the stored prompts newest first.
   */
  function FilePrompts(file: FileState): (r: seq<Prompt>)
    ensures !file.Stored? || ComparesNull(file.prompts) ==> r == []
    ensures file.Stored? && !ComparesNull(file.prompts) ==> multiset(r) == multiset(file.prompts)
  {
    if file.Stored? && !ComparesNull(file.prompts) then Sort(file.prompts, NewerFirst) else []
  }

  lemma NewerFirstPreorder()
    ensures TotalPreorder(NewerFirst)
  {
    forall a, b
      ensures NewerFirst(a, b) || NewerFirst(b, a)
    {
      LexLeTotal(SortKey(a).GetOr(""), SortKey(b).GetOr(""));
    }
    forall a, b, c | NewerFirst(a, b) && NewerFirst(b, c)
      ensures NewerFirst(a, c)
    {
      LexLeTransitive(SortKey(c).GetOr(""), SortKey(b).GetOr(""), SortKey(a).GetOr(""));
    }
  }

  /** The listed prompts are newest first, a missing timestamp counting as the empty text. */
  lemma FilePromptsNewestFirst(file: FileState)
    ensures var r := FilePrompts(file);
      forall i, j :: 0 <= i < j < |r| ==> LexLe(SortKey(r[j]).GetOr(""), SortKey(r[i]).GetOr(""))
  {
    if file.Stored? && !ComparesNull(file.prompts) {
      NewerFirstPreorder();
      SortSorted(file.prompts, NewerFirst);
    }
  }

  /** `created_at` equal to `t`. */
  function CreatedOn(t: string): Prompt -> bool {
    (p: Prompt) => SortKey(p) == Some(t)
  }

  /** The sort is stable: prompts with the same timestamp keep their order in the file. */
  lemma FilePromptsStable(ps: seq<Prompt>, t: string)
    requires !ComparesNull(ps)
    ensures Filter(FilePrompts(Stored(ps)), CreatedOn(t)) == Filter(ps, CreatedOn(t))
  {
    NewerFirstPreorder();
    forall a, b | CreatedOn(t)(a) && CreatedOn(t)(b)
      ensures NewerFirst(a, b)
    {
      LexLeTotal(t, t);
    }
    SortStable(ps, NewerFirst, CreatedOn(t));
  }

  // ---------------------------------------------------------------------------
  // create_prompt and activate_prompt, file fallback
  // ---------------------------------------------------------------------------

  /** The JSON file of prompts, `system_prompts.json`. */
  class PromptsFile {
    var state: FileState

    constructor(state: FileState)
      ensures this.state == state
    {
      this.state := state;
    }

    /**
     * The file fallback of `create_prompt`: the stored list (or `[]` when the
     * file is missing), every prompt deactivated when the new one is active,
     * the new record appended with its id and timestamp, the list written.
     * A file that cannot be read as JSON makes the call fail with nothing
     * written.
     */
    method Create(req: PromptRequest, newId: string, now: string) returns (r: Result<Prompt, HttpError>)
      modifies this
      ensures old(state).Corrupt? ==> r == Err(InternalError) && state == old(state)
      ensures !old(state).Corrupt? ==>
        var before := if old(state).Stored? then old(state).prompts else [];
        r == Ok(NewRecord(req, newId, now)) && state == Stored(Created(before, req, newId, now))
    {
      if state.Corrupt? {
        return Err(InternalError);
      }
      var prompts := if state.Stored? then state.prompts else [];
      ghost var before := prompts;
      if req.isActive {
        var i := 0;
        while i < |prompts|
          invariant 0 <= i <= |prompts| == |before|
          invariant forall k :: 0 <= k < i ==> prompts[k] == before[k].(isActive := false)
          invariant forall k :: i <= k < |prompts| ==> prompts[k] == before[k]
        {
          prompts := prompts[i := prompts[i].(isActive := false)];
          i := i + 1;
        }
        assert prompts == Deactivated(before);
      }
      var newPrompt := NewRecord(req, newId, now);
      prompts := prompts + [newPrompt];
      state := Stored(prompts);
      r := Ok(newPrompt);
    }

    /**
     * The file fallback of `activate_prompt`: 404 when the file is missing;
     * otherwise every prompt is made active exactly when it has the id, the
     * list is written, and the prompts with the id are returned.
     */
    method Activate(promptId: string) returns (r: Result<seq<Prompt>, HttpError>)
      modifies this
      ensures old(state).Absent? ==> r == Err(HttpError(404, "No prompts found")) && state == old(state)
      ensures old(state).Corrupt? ==> r == Err(InternalError) && state == old(state)
      ensures old(state).Stored? ==>
        state == Stored(ActivatedOnly(old(state).prompts, promptId)) &&
        r == Ok(Filter(state.prompts, WithId(promptId)))
    {
      if state.Absent? {
        return Err(HttpError(404, "No prompts found"));
      }
      if state.Corrupt? {
        return Err(InternalError);
      }
      var prompts := state.prompts;
      ghost var before := prompts;
      var i := 0;
      while i < |prompts|
        invariant 0 <= i <= |prompts| == |before|
        invariant forall k :: 0 <= k < i ==> prompts[k] == before[k].(isActive := before[k].id == promptId)
        invariant forall k :: i <= k < |prompts| ==> prompts[k] == before[k]
      {
        prompts := prompts[i := prompts[i].(isActive := prompts[i].id == promptId)];
        i := i + 1;
      }
      assert prompts == ActivatedOnly(before, promptId);
      state := Stored(prompts);
      r := Ok(Filter(prompts, WithId(promptId)));
    }
  }

  // ---------------------------------------------------------------------------
  // create_prompt and activate_prompt, database path
  // ---------------------------------------------------------------------------

  /** The ids of the active rows, in table order: `select("id").eq("is_active", True)`. */
  function ActiveIds(rows: seq<Prompt>): (ids: seq<string>)
    ensures forall k :: 0 <= k < |rows| && rows[k].isActive ==> rows[k].id in ids
    ensures forall id :: id in ids ==> exists k :: 0 <= k < |rows| && rows[k].isActive && rows[k].id == id
  {
    if rows == [] then []
    else
      var init := rows[..|rows| - 1];
      var last := rows[|rows| - 1];
      assert forall k :: 0 <= k < |init| ==> init[k] == rows[k];
      ActiveIds(init) + (if last.isActive then [last.id] else [])
  }

  /** Each row with `is_active` cleared when its id is among `ids`. */
  function ClearedFor(rows: seq<Prompt>, ids: seq<string>): (qs: seq<Prompt>)
    ensures |qs| == |rows|
    ensures forall k :: 0 <= k < |rows| ==> qs[k] == rows[k].(isActive := rows[k].isActive && rows[k].id !in ids)
  {
    seq(|rows|, k requires 0 <= k < |rows| => rows[k].(isActive := rows[k].isActive && rows[k].id !in ids))
  }

  /** The `system_prompts` table. */
  class PromptTable {
    var rows: seq<Prompt>

    constructor(rows: seq<Prompt>)
      ensures this.rows == rows
    {
      this.rows := rows;
    }

    /** `update({"is_active": active}).eq("id", id)`: the rows with the id, as updated, are the answer. */
    method SetActive(id: string, active: bool) returns (updated: seq<Prompt>)
      modifies this
      ensures |rows| == |old(rows)|
      ensures forall k :: 0 <= k < |rows| ==>
        rows[k] == if old(rows)[k].id == id then old(rows)[k].(isActive := active) else old(rows)[k]
      ensures updated == Filter(rows, WithId(id))
    {
      var i := 0;
      ghost var before := rows;
      while i < |rows|
        invariant 0 <= i <= |rows| == |before|
        invariant forall k :: 0 <= k < i ==> rows[k] == if before[k].id == id then before[k].(isActive := active) else before[k]
        invariant forall k :: i <= k < |rows| ==> rows[k] == before[k]
      {
        if rows[i].id == id {
          rows := rows[i := rows[i].(isActive := active)];
        }
        i := i + 1;
      }
      updated := Filter(rows, WithId(id));
    }

    /** The loop over the active rows selected beforehand, clearing `is_active` for each of their ids. */
    method DeactivateAll()
      modifies this
      ensures rows == Deactivated(old(rows))
    {
      var ids := ActiveIds(rows);
      ghost var before := rows;
      var i := 0;
      while i < |ids|
        invariant 0 <= i <= |ids|
        invariant rows == ClearedFor(before, ids[..i])
      {
        var _ := SetActive(ids[i], false);
        assert ids[..i + 1] == ids[..i] + [ids[i]];
        i := i + 1;
      }
      assert ids[..|ids|] == ids;
    }

    /**
     * The database path of `create_prompt`: the active rows are deactivated
     * first when the new prompt is active, then the row is inserted; the
     * database assigns `newId` and `now`.  An insert that returns no row
     * fails with 500 after the deactivation has happened.
     */
    method Create(req: PromptRequest, newId: string, now: string, inserted: bool) returns (r: Result<Prompt, HttpError>)
      modifies this
      ensures inserted ==> r == Ok(NewRecord(req, newId, now)) && rows == Created(old(rows), req, newId, now)
      ensures !inserted ==>
        r == Err(HttpError(500, "Failed to insert prompt")) && rows == if req.isActive then Deactivated(old(rows)) else old(rows)
    {
      if req.isActive {
        DeactivateAll();
      }
      if !inserted {
        return Err(HttpError(500, "Failed to insert prompt"));
      }
      var row := NewRecord(req, newId, now);
      rows := rows + [row];
      r := Ok(row);
    }

    /**
     * The database path of `activate_prompt`: every active row is
     * deactivated, then the rows with the id are activated and returned.
     */
    method Activate(promptId: string) returns (r: seq<Prompt>)
      modifies this
      ensures rows == ActivatedOnly(old(rows), promptId)
      ensures r == Filter(rows, WithId(promptId))
    {
      ghost var before := rows;
      DeactivateAll();
      r := SetActive(promptId, true);
      assert rows == ActivatedOnly(before, promptId);
    }
  }

  // ---------------------------------------------------------------------------
  // The endpoints
  // ---------------------------------------------------------------------------

  /**
   * `create_prompt`: the table when `check_table_exists` answers true,
   * the file otherwise; the other storage is left alone.
   */
  method CreatePrompt(tableExists: bool, table: PromptTable, file: PromptsFile, req: PromptRequest,
                      newId: string, now: string, inserted: bool) returns (r: Result<Prompt, HttpError>)
    requires table as object != file
    modifies table, file
    ensures tableExists ==> file.state == old(file.state)
    ensures tableExists && inserted ==>
      r == Ok(NewRecord(req, newId, now)) && table.rows == Created(old(table.rows), req, newId, now)
    ensures tableExists && !inserted ==>
      r == Err(HttpError(500, "Failed to insert prompt")) &&
      table.rows == if req.isActive then Deactivated(old(table.rows)) else old(table.rows)
    ensures !tableExists && old(file.state).Corrupt? ==>
      table.rows == old(table.rows) && r == Err(InternalError) && file.state == old(file.state)
    ensures !tableExists && !old(file.state).Corrupt? ==>
      var before := if old(file.state).Stored? then old(file.state).prompts else [];
      table.rows == old(table.rows) && r == Ok(NewRecord(req, newId, now)) && file.state == Stored(Created(before, req, newId, now))
    ensures r.Ok? ==> r.value == NewRecord(req, newId, now)
  {
    if tableExists {
      r := table.Create(req, newId, now, inserted);
    } else {
      r := file.Create(req, newId, now);
    }
  }

  /** `activate_prompt`: the table when `check_table_exists` answers true, the file otherwise. */
  method ActivatePrompt(tableExists: bool, table: PromptTable, file: PromptsFile, promptId: string)
    returns (r: Result<seq<Prompt>, HttpError>)
    requires table as object != file
    modifies table, file
    ensures tableExists ==>
      file.state == old(file.state) && table.rows == ActivatedOnly(old(table.rows), promptId) &&
      r == Ok(Filter(table.rows, WithId(promptId)))
    ensures !tableExists ==> table.rows == old(table.rows)
    ensures !tableExists && old(file.state).Absent? ==>
      r == Err(HttpError(404, "No prompts found")) && file.state == old(file.state)
    ensures !tableExists && old(file.state).Corrupt? ==> r == Err(InternalError) && file.state == old(file.state)
    ensures !tableExists && old(file.state).Stored? ==>
      file.state == Stored(ActivatedOnly(old(file.state).prompts, promptId)) &&
      r == Ok(Filter(file.state.prompts, WithId(promptId)))
  {
    if tableExists {
      var rows := table.Activate(promptId);
      r := Ok(rows);
    } else {
      r := file.Activate(promptId);
    }
  }
}
