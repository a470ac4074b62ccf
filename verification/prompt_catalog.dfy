/** `PromptManager::CreatePromptDetails`
    (src/prompt_manager/prompt_manager.cpp): validating the shape of the
    prompt-details struct and resolving a named prompt against the stored
    prompt tables.

    The SQL query over the two prompt tables becomes a lookup in two
    in-memory tables. The query is a `UNION ALL` of the
    `flockmtl_storage` table and then the `flockmtl_config` table, so the
    model reads their rows in that order.
 */
module PromptCatalog {
  import opened Results
  import opened Json
  import opened Strings

  /** A row of `FLOCKMTL_PROMPT_INTERNAL_TABLE`. */
  datatype PromptRow = PromptRow(name: string, prompt: string, version: int)

  /** The two prompt tables the query unions. */
  datatype PromptTables = PromptTables(storage: seq<PromptRow>, config: seq<PromptRow>) {
    /** The rows of the `UNION ALL`, in query order. */
    function Rows(): seq<PromptRow> {
      storage + config
    }
  }

  /** The resolved prompt. `version` is set only when the caller gave one. */
  datatype PromptDetails = PromptDetails(promptName: string, prompt: string, version: Option<int>)

  const ShapeError :=
    "The prompt details struct should contain a single key value pair of prompt or prompt_name with prompt version"

  function NotFoundError(name: string, version: Option<int>): string {
    match version
    case Some(v) => "The provided `" + name + "` prompt with version " + IntToString(v) + " not found"
    case None => "The provided `" + name + "` prompt not found"
  }

  /** The first row stored under `name` with exactly `version`. */
  function FindVersion(rows: seq<PromptRow>, name: string, version: int): (r: Option<PromptRow>)
    ensures r.Some? ==> r.value in rows && r.value.name == name && r.value.version == version
    ensures r.None? ==> forall row :: row in rows ==> !(row.name == name && row.version == version)
  {
    if rows == [] then None
    else if rows[0].name == name && rows[0].version == version then Some(rows[0])
    else FindVersion(rows[1..], name, version)
  }

  /** The first row stored under `name` with the highest version
      (`ORDER BY version DESC LIMIT 1`). */
  function FindLatest(rows: seq<PromptRow>, name: string): (r: Option<PromptRow>)
    ensures r.Some? ==> r.value in rows && r.value.name == name
    ensures r.Some? ==> forall row :: row in rows && row.name == name ==> row.version <= r.value.version
    ensures r.None? ==> forall row :: row in rows ==> row.name != name
  {
    if rows == [] then None
    else
      var later := FindLatest(rows[1..], name);
      if rows[0].name != name then later
      else if later.Some? && later.value.version > rows[0].version then later
      else Some(rows[0])
  }

  /** The shape rules checked before anything is looked up: with
      `prompt_name`, the only other key allowed is `version`; without it,
      `prompt` must be present (any other keys are then ignored). */
  predicate WellShaped(details: map<string, Json>) {
    if "prompt_name" in details then
      if "version" in details then |details| <= 2 else |details| <= 1
    else "prompt" in details
  }

  /** Resolves a named prompt: the exact version when one is given, the
      newest stored version otherwise. */
  function ResolveNamed(tables: PromptTables, name: string, version: Option<int>): (r: Result<PromptDetails>)
    ensures r.Ok? ==> r.value.promptName == name && r.value.version == version
    ensures r.Ok? ==> exists row :: row in tables.Rows() && row.name == name && row.prompt == r.value.prompt
                                   && (version.Some? ==> row.version == version.value)
                                   && (version.None? ==> forall other :: other in tables.Rows() && other.name == name ==> other.version <= row.version)
    ensures r.Err? <==> (version.Some? && FindVersion(tables.Rows(), name, version.value).None?)
                        || (version.None? && FindLatest(tables.Rows(), name).None?)
    ensures r.Err? ==> r.error == NotFoundError(name, version)
  {
    var found := match version
      case Some(v) => FindVersion(tables.Rows(), name, v)
      case None => FindLatest(tables.Rows(), name);
    match found
    case None => Err(NotFoundError(name, version))
    case Some(row) => Ok(PromptDetails(name, row.prompt, version))
  }

  /** `CreatePromptDetails`: shape validation first, then either the literal
      `prompt` or a lookup of `prompt_name` (and `version`, read with
      `stoi`). */
  function CreatePromptDetails(details: map<string, Json>, tables: PromptTables): (r: Result<PromptDetails>)
    ensures !WellShaped(details) ==> r == Err(ShapeError)
    ensures "prompt_name" !in details && "prompt" in details ==>
              r == (match GetString(details["prompt"])
                    case Ok(p) => Ok(PromptDetails("", p, None))
                    case Err(e) => Err(e))
    ensures r.Ok? && "prompt_name" in details ==>
              details["prompt_name"] == JString(r.value.promptName)
              && ("version" in details <==> r.value.version.Some?)
              && exists row :: row in tables.Rows() && row.name == r.value.promptName && row.prompt == r.value.prompt
    ensures WellShaped(details) && "prompt_name" in details && !details["prompt_name"].JString? ==>
              r == Err(StringTypeError(details["prompt_name"]))
    ensures WellShaped(details) && "prompt_name" in details && details["prompt_name"].JString? ==>
              var name := details["prompt_name"].s;
              && ("version" !in details ==> r == ResolveNamed(tables, name, None))
              && ("version" in details && !details["version"].JString? ==>
                    r == Err(StringTypeError(details["version"])))
              && ("version" in details && details["version"].JString? ==>
                    r == (match Stoi(details["version"].s)
                          case Ok(v) => ResolveNamed(tables, name, Some(v))
                          case Err(e) => Err(e)))
  {
    if "prompt_name" in details then
      if "version" !in details && |details| > 1 then Err(ShapeError)
      else if "version" in details && |details| > 2 then Err(ShapeError)
      else
        var name :- GetString(details["prompt_name"]);
        if "version" in details then
          var text :- GetString(details["version"]);
          var version :- Stoi(text);
          ResolveNamed(tables, name, Some(version))
        else
          ResolveNamed(tables, name, None)
    else if "prompt" in details then
      var prompt :- GetString(details["prompt"]);
      Ok(PromptDetails("", prompt, None))
    else
      Err(ShapeError)
  }

  // ---------------------------------------------------------------------
  // Properties

  /** A literal prompt is returned as given, with no lookup: the tables
      play no part. */
  lemma LiteralPromptNeedsNoLookup(text: string, tables: PromptTables)
    ensures CreatePromptDetails(map["prompt" := JString(text)], tables) == Ok(PromptDetails("", text, None))
  {
  }

  /** A `prompt_name` and a `version` string that `stoi` reads as `v`:
      the struct is well shaped and resolves to that exact version. */
  lemma NamedVersionResolves(name: string, text: string, v: int, tables: PromptTables)
    requires Stoi(text) == Ok(v)
    ensures CreatePromptDetails(map["prompt_name" := JString(name), "version" := JString(text)], tables)
         == ResolveNamed(tables, name, Some(v))
  {
    var details := map["prompt_name" := JString(name), "version" := JString(text)];
    assert |details| == 2 by {
      assert details.Keys == {"prompt_name", "version"};
    }
    assert GetString(details["prompt_name"]) == Ok(name);
    assert GetString(details["version"]) == Ok(text);
  }

  /** Asking for a version that is not stored fails with an error naming
      both the prompt and the version, whatever other versions exist. */
  lemma MissingVersionIsReported(name: string, v: int, tables: PromptTables)
    requires IntMin <= v <= IntMax
    requires forall row :: row in tables.Rows() && row.name == name ==> row.version != v
    ensures CreatePromptDetails(map["prompt_name" := JString(name), "version" := JString(IntToString(v))], tables)
         == Err("The provided `" + name + "` prompt with version " + IntToString(v) + " not found")
  {
    StoiOfIntToString(v);
    NamedVersionResolves(name, IntToString(v), v, tables);
    assert FindVersion(tables.Rows(), name, v).None?;
  }

  /** Without a version the newest stored version wins, across both
      tables. */
  lemma LatestVersionWins(name: string, tables: PromptTables, row: PromptRow)
    requires row in tables.Rows() && row.name == name
    requires forall other :: other in tables.Rows() && other.name == name && other != row ==> other.version < row.version
    ensures CreatePromptDetails(map["prompt_name" := JString(name)], tables) == Ok(PromptDetails(name, row.prompt, None))
  {
    var found := FindLatest(tables.Rows(), name);
    assert found.Some?;
    assert found.value == row;
  }

  /** `prompt_name` together with `prompt` is rejected, with or without a
      version. */
  lemma NameAndLiteralTogetherRejected(details: map<string, Json>, tables: PromptTables)
    requires "prompt_name" in details && "prompt" in details
    ensures CreatePromptDetails(details, tables) == Err(ShapeError)
  {
    if "version" in details {
      assert {"prompt_name", "prompt", "version"} <= details.Keys;
      assert |{"prompt_name", "prompt", "version"}| == 3;
      SubsetSize({"prompt_name", "prompt", "version"}, details.Keys);
    } else {
      assert {"prompt_name", "prompt"} <= details.Keys;
      SubsetSize({"prompt_name", "prompt"}, details.Keys);
    }
  }

  lemma SubsetSize<T>(a: set<T>, b: set<T>)
    requires a <= b
    ensures |a| <= |b|
  {
    assert b == a + (b - a);
  }
}
