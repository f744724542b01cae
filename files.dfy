/** The directories the scripts read (`splits/`, `config/`, `state/`,
    `User History/`, `workout_splits/`) as one map from a path relative to
    the repository root to what the file holds. A path that is not a key
    does not exist. */
module Files {
  import opened Prelude
  import opened Json

  /** A file's content after `json.loads`, or text it rejects. */
  datatype Doc = Parsed(value: Json) | Unparseable

  type Store = map<string, Doc>

  /** Every parsed document is a value `json.loads` can return. */
  predicate LoadedStore(store: Store)
  {
    forall p :: p in store && store[p].Parsed? ==> Loaded(store[p].value)
  }

  /** `json.loads(p.read_text())`: FileNotFoundError for a missing path,
      JSONDecodeError for text that is not JSON. */
  function ReadJson(store: Store, path: string): (r: Result<Json>)
    ensures r.Ok? <==> path in store && store[path].Parsed?
    ensures r.Ok? ==> r.value == store[path].value
    ensures path !in store ==> r == Err(FileNotFound(path))
  {
    if path !in store then Err(FileNotFound(path))
    else match store[path]
      case Parsed(j) => Ok(j)
      case Unparseable => Err(JsonDecodeError(path))
  }

  /** The last component of a path and `Path.stem`: the name without its
      final suffix, where a suffix starts at the last `.` that is neither
      the first nor the last character of the name. */
  function Stem(path: string): (r: string)
    ensures '/' !in r
    ensures var name := Basename(path);
      && r <= name
      && (r != name ==>
            0 < |r| < |name| - 1 && name[|r|] == '.' && '.' !in name[|r| + 1..])
      && (r == name ==>
            forall i :: 0 < i < |name| - 1 && name[i] == '.' ==> '.' in name[i + 1..])
  {
    var name := Basename(path);
    var i := LastDot(name);
    if 0 < i < |name| - 1 then name[..i] else name
  }

  /** The text after the last `/`: all of the path when it has none. */
  function Basename(path: string): (r: string)
    ensures |r| <= |path| && r == path[|path| - |r|..]
    ensures '/' !in r
    ensures |r| < |path| ==> path[|path| - |r| - 1] == '/'
    decreases |path|
  {
    if path == [] then []
    else if path[|path| - 1] == '/' then []
    else Basename(path[..|path| - 1]) + [path[|path| - 1]]
  }

  /** Index of the last `.` in s, or -1. */
  function LastDot(s: string): (i: int)
    ensures -1 <= i < |s|
    ensures i >= 0 ==> s[i] == '.'
    ensures forall j :: i < j < |s| ==> s[j] != '.'
    decreases |s|
  {
    if s == [] then -1
    else if s[|s| - 1] == '.' then |s| - 1
    else LastDot(s[..|s| - 1])
  }
}
