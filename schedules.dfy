/** The per-user rotation state `schedules/<username>.json`, shared by
    scripts/send_daily.py and scripts/lib/plans.py, which define the same
    `load_sched` and `save_sched`. */
module Schedules {
  import opened Prelude
  import opened PyStr
  import opened Json
  import opened Files

  /** What `load_sched` returns for a user without a file. */
  const DefaultSched: Dict<Json> :=
    [("current_index", Num(0)), ("last_action_date", Null), ("last_action", Str("NONE"))]

  /** `start % m`, then one step round the cycle of length m unless the
      index is frozen. */
  function NextIndex(start: int, m: nat, freeze: bool): (r: nat)
    requires m >= 1
    ensures r < m
  {
    if freeze then start % m else (start % m + 1) % m
  }

  /** An index already inside the cycle is kept as it is by `% m`. */
  lemma NextIndexInRange(i: int, m: nat, freeze: bool)
    requires 0 <= i < m
    ensures NextIndex(i, m, freeze) == if freeze then i else (i + 1) % m
  {
    ModOfSmall(i, m);
  }

  /** `int(x)` on a JSON value: integers as they are, booleans as 0 and 1,
      strings parsed as decimal; None, lists and dicts raise TypeError. */
  function IntOf(j: Json): (r: Result<int>)
    ensures j.Num? ==> r == Ok(j.n)
    ensures r.Err? <==> (j.Null? || j.Arr? || j.Obj? || (j.Str? && ParseInt(j.s).None?))
  {
    match j
    case Num(n) => Ok(n)
    case Bool(b) => Ok(if b then 1 else 0)
    case Str(s) => if ParseInt(s).Some? then Ok(ParseInt(s).value) else Err(BadInt(s))
    case _ => Err(TypeMismatch)
  }

  /** `sched.update({"current_index": idx, "last_action": action,
      "last_action_date": date})`: existing keys keep their place, missing
      ones are appended in that order. */
  function Update(sched: Dict<Json>, idx: int, action: Json, date: string): Dict<Json>
  {
    Put(Put(Put(sched, "current_index", Num(idx)), "last_action", action), "last_action_date", Str(date))
  }

  /** After the update the three fields hold the new values and every other
      key is untouched. */
  lemma UpdateGet(sched: Dict<Json>, idx: int, action: Json, date: string, k: string)
    ensures Get(Update(sched, idx, action, date), k) ==
      if k == "last_action_date" then Some(Str(date))
      else if k == "last_action" then Some(action)
      else if k == "current_index" then Some(Num(idx))
      else Get(sched, k)
  {
    var s1 := Put(sched, "current_index", Num(idx));
    var s2 := Put(s1, "last_action", action);
    PutGet(sched, "current_index", Num(idx), k);
    PutGet(s1, "last_action", action, k);
    PutGet(s2, "last_action_date", Str(date), k);
  }

  /** Writing back the values a document already holds changes nothing. */
  lemma UpdateSame(sched: Dict<Json>, idx: int, action: Json, date: string)
    requires Get(sched, "current_index") == Some(Num(idx))
    requires Get(sched, "last_action") == Some(action)
    requires Get(sched, "last_action_date") == Some(Str(date))
    ensures Update(sched, idx, action, date) == sched
  {
    PutSame(sched, "current_index", Num(idx));
    PutSame(sched, "last_action", action);
    PutSame(sched, "last_action_date", Str(date));
  }

  /** The schedule files after one rotation step: the new document is
      saved when the step succeeds, nothing changes when it raises. */
  function DocsAfter(docs: map<string, Doc>, username: string, step: Result<(nat, Dict<Json>)>): map<string, Doc>
  {
    if step.Ok? then docs[username := Parsed(Obj(step.value.1))] else docs
  }

  /** The schedule files, keyed by username. */
  class ScheduleStore {
    var docs: map<string, Doc>

    constructor(docs0: map<string, Doc>)
      ensures docs == docs0
    {
      docs := docs0;
    }

    /** `load_sched(username)`. */
    function Load(username: string): (r: Result<Json>)
      reads this
      ensures username !in docs ==> r == Ok(Obj(DefaultSched))
      ensures username in docs && docs[username].Parsed? ==> r == Ok(docs[username].value)
      ensures username in docs && docs[username].Unparseable? ==> r.Err?
    {
      if username !in docs then Ok(Obj(DefaultSched))
      else match docs[username]
        case Parsed(j) => Ok(j)
        case Unparseable => Err(JsonDecodeError("schedules/" + username + ".json"))
    }

    /** `save_sched(username, sched)`: `json.dumps` of a dict reads back as
        the same dict. */
    method Save(username: string, sched: Dict<Json>)
      modifies this
      ensures docs == old(docs)[username := Parsed(Obj(sched))]
    {
      docs := docs[username := Parsed(Obj(sched))];
    }
  }
}
