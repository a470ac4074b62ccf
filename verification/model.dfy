/** Resolving a model's details and choosing its provider
    (src/model_manager/model.cpp).

    The three SQL queries become lookups in in-memory tables: the
    user-defined and the default model tables, and the secret table.
    `GetProviderType`, which maps a provider name to a provider kind, is not
    part of this model and is passed in as `providerType`.
 */
module ModelManager {
  import opened Results
  import opened Json

  /** A row of a model table: the stored model, its provider, and the two
      integers of its `model_args`. */
  datatype ModelRow = ModelRow(modelName: string, model: string, providerName: string,
                               contextWindow: int, maxOutputTokens: int)

  /** A row of `FLOCKMTL_SECRET_INTERNAL_TABLE`. */
  datatype SecretRow = SecretRow(provider: string, secret: string)

  datatype ModelTables = ModelTables(userDefined: seq<ModelRow>, defaults: seq<ModelRow>, secrets: seq<SecretRow>)

  /** What `GetQueriedModel` returns: model, provider, context window and
      maximum output tokens. */
  datatype StoredModel = StoredModel(model: string, providerName: string, contextWindow: int, maxOutputTokens: int)

  datatype ModelDetails = ModelDetails(modelName: string, model: string, providerName: string, secret: string,
                                       contextWindow: int, maxOutputTokens: int, temperature: real)

  /** The provider kinds `GetProviderType` distinguishes; `OtherProvider`
      stands for every value the dispatch has no case for. */
  datatype ProviderType = OpenAIType | AzureType | OllamaType | OtherProvider

  datatype Provider =
    | OpenAIProvider(details: ModelDetails)
    | AzureProvider(details: ModelDetails)
    | OllamaProvider(details: ModelDetails)

  /** A constructed `Model`: either left empty (empty model JSON) or holding
      resolved details and a provider. */
  datatype Model = EmptyModel | LoadedModel(details: ModelDetails, provider: Provider)

  const ModelNameRequired := "`model_name` is required in model settings"
  const ModelNotFound := "Model not found"
  const DefaultTemperature: real := 0.5

  function UnsupportedProvider(name: string): string {
    "Unsupported provider: " + name
  }

  /** The first row of a model table registered under `name`. */
  function FirstModelRow(rows: seq<ModelRow>, name: string): (r: Option<ModelRow>)
    ensures r.Some? ==> r.value in rows && r.value.modelName == name
    ensures r.Some? ==> exists i :: 0 <= i < |rows| && rows[i] == r.value
                                    && forall j :: 0 <= j < i ==> rows[j].modelName != name
    ensures r.None? <==> forall row :: row in rows ==> row.modelName != name
  {
    if rows == [] then None
    else if rows[0].modelName == name then Some(rows[0])
    else
      var later := FirstModelRow(rows[1..], name);
      assert later.Some? ==> exists i :: 1 <= i < |rows| && rows[i] == later.value
                                         && forall j :: 0 <= j < i ==> rows[j].modelName != name by {
        if later.Some? {
          var i :| 0 <= i < |rows[1..]| && rows[1..][i] == later.value
                   && forall j :: 0 <= j < i ==> rows[1..][j].modelName != name;
          assert rows[i + 1] == later.value;
        }
      }
      later
  }

  function StoredOf(row: ModelRow): StoredModel {
    StoredModel(row.model, row.providerName, row.contextWindow, row.maxOutputTokens)
  }

  /** `GetQueriedModel`: the user-defined table first; the default table
      only when the user-defined table has no row; otherwise not found. */
  function GetQueriedModel(tables: ModelTables, name: string): (r: Result<StoredModel>)
    ensures FirstModelRow(tables.userDefined, name).Some? ==>
              r == Ok(StoredOf(FirstModelRow(tables.userDefined, name).value))
    ensures FirstModelRow(tables.userDefined, name).None? && FirstModelRow(tables.defaults, name).Some? ==>
              r == Ok(StoredOf(FirstModelRow(tables.defaults, name).value))
    ensures r.Err? <==> (forall row :: row in tables.userDefined + tables.defaults ==> row.modelName != name)
    ensures r.Err? ==> r.error == ModelNotFound
  {
    match FirstModelRow(tables.userDefined, name)
    case Some(row) => Ok(StoredOf(row))
    case None =>
      match FirstModelRow(tables.defaults, name)
      case Some(row) => Ok(StoredOf(row))
      case None => Err(ModelNotFound)
  }

  /** `LoadSecret`: the secret stored for the provider, or `""` when the
      secret table has no row for it. */
  function LoadSecret(tables: ModelTables, provider: string): (secret: string)
    ensures (forall row :: row in tables.secrets ==> row.provider != provider) ==> secret == ""
    ensures (exists row :: row in tables.secrets && row.provider == provider) ==>
              exists row :: row in tables.secrets && row.provider == provider && row.secret == secret
  {
    FindSecret(tables.secrets, provider)
  }

  function FindSecret(rows: seq<SecretRow>, provider: string): (secret: string)
    ensures (forall row :: row in rows ==> row.provider != provider) ==> secret == ""
    ensures (exists row :: row in rows && row.provider == provider) ==>
              exists row :: row in rows && row.provider == provider && row.secret == secret
  {
    if rows == [] then ""
    else if rows[0].provider == provider then rows[0].secret
    else
      assert forall row :: row in rows[1..] ==> row in rows;
      assert (exists row :: row in rows && row.provider == provider) ==>
               exists row :: row in rows[1..] && row.provider == provider;
      FindSecret(rows[1..], provider)
  }

  /** A string field of the model JSON, or `fallback` when absent. */
  function StringOr(json: map<string, Json>, key: string, fallback: string): (r: Result<string>)
    ensures key !in json ==> r == Ok(fallback)
    ensures key in json ==> r == GetString(json[key])
  {
    if key in json then GetString(json[key]) else Ok(fallback)
  }

  /** An integer field of the model JSON, or `fallback` when absent. */
  function IntOr(json: map<string, Json>, key: string, fallback: int): (r: Result<int>)
    ensures key !in json ==> r == Ok(fallback)
    ensures key in json ==> r == GetInt(json[key])
  {
    if key in json then GetInt(json[key]) else Ok(fallback)
  }

  /** Field `key` is absent or holds a string (`get<std::string>()`). */
  predicate StringField(json: map<string, Json>, key: string) {
    key in json ==> json[key].JString?
  }

  /** Field `key` is absent or converts with `get<int>()`. */
  predicate IntField(json: map<string, Json>, key: string) {
    key in json ==> GetInt(json[key]).Ok?
  }

  /** Field `key` is absent or converts with `get<float>()`. */
  predicate FloatField(json: map<string, Json>, key: string) {
    key in json ==> GetFloat(json[key]).Ok?
  }

  /** Every optional field the JSON holds has a type its `get<T>()`
      converts: strings for `model` and `provider`, numbers or booleans for
      `context_window`, `max_output_tokens` and `temperature`. */
  predicate FieldsConvert(json: map<string, Json>) {
    && StringField(json, "model")
    && StringField(json, "provider")
    && IntField(json, "context_window")
    && IntField(json, "max_output_tokens")
    && FloatField(json, "temperature")
  }

  /** `model_name` is a non-empty string naming a model the lookup finds. */
  predicate Registered(json: map<string, Json>, tables: ModelTables) {
    && "model_name" in json && json["model_name"].JString? && json["model_name"].s != ""
    && GetQueriedModel(tables, json["model_name"].s).Ok?
  }

  /** `LoadModelDetails`: `model_name` is required and is always looked up;
      each of `model`, `provider`, `context_window` and `max_output_tokens`
      comes from the JSON when present and from the stored row otherwise;
      the secret belongs to the resolved provider. Errors surface in the
      order the source reads the fields. */
  function LoadModelDetails(json: map<string, Json>, tables: ModelTables): (r: Result<ModelDetails>)
    ensures ("model_name" !in json || json["model_name"] == JString("")) ==> r == Err(ModelNameRequired)
    ensures r.Ok? ==> "model_name" in json && json["model_name"] == JString(r.value.modelName) && r.value.modelName != ""
    ensures r.Ok? ==> GetQueriedModel(tables, r.value.modelName).Ok?
    ensures r.Ok? ==>
              var stored := GetQueriedModel(tables, r.value.modelName).value;
              && (if "model" in json then json["model"] == JString(r.value.model)
                  else r.value.model == stored.model)
              && (if "provider" in json then json["provider"] == JString(r.value.providerName)
                  else r.value.providerName == stored.providerName)
              && (if "context_window" in json then GetInt(json["context_window"]) == Ok(r.value.contextWindow)
                  else r.value.contextWindow == stored.contextWindow)
              && (if "max_output_tokens" in json then GetInt(json["max_output_tokens"]) == Ok(r.value.maxOutputTokens)
                  else r.value.maxOutputTokens == stored.maxOutputTokens)
              && r.value.secret == LoadSecret(tables, r.value.providerName)
    ensures "temperature" !in json && r.Ok? ==> r.value.temperature == DefaultTemperature
    ensures "temperature" in json && r.Ok? ==> GetFloat(json["temperature"]) == Ok(r.value.temperature)
    ensures "model_name" in json && !json["model_name"].JString? ==> r == Err(StringTypeError(json["model_name"]))
    ensures "model_name" in json && json["model_name"].JString? && json["model_name"].s != "" ==>
              var name := json["model_name"].s;
              && (GetQueriedModel(tables, name).Err? ==> r == Err(ModelNotFound))
              && (GetQueriedModel(tables, name).Ok? ==> (r.Ok? <==> FieldsConvert(json)))
    // For a registered name, the first wrongly typed field, in read order,
    // decides the error.
    ensures Registered(json, tables) && !StringField(json, "model") ==>
              r == Err(StringTypeError(json["model"]))
    ensures Registered(json, tables) && StringField(json, "model") && !StringField(json, "provider") ==>
              r == Err(StringTypeError(json["provider"]))
    ensures Registered(json, tables) && StringField(json, "model") && StringField(json, "provider")
            && !IntField(json, "context_window") ==>
              r == Err(NumberTypeError(json["context_window"]))
    ensures Registered(json, tables) && StringField(json, "model") && StringField(json, "provider")
            && IntField(json, "context_window") && !IntField(json, "max_output_tokens") ==>
              r == Err(NumberTypeError(json["max_output_tokens"]))
    ensures Registered(json, tables) && StringField(json, "model") && StringField(json, "provider")
            && IntField(json, "context_window") && IntField(json, "max_output_tokens")
            && !FloatField(json, "temperature") ==>
              r == Err(NumberTypeError(json["temperature"]))
  {
    var modelName :- StringOr(json, "model_name", "");
    if modelName == "" then Err(ModelNameRequired)
    else
      var stored :- GetQueriedModel(tables, modelName);
      ReadFields(json, tables, modelName, stored)
  }

  /** The part of `LoadModelDetails` after the lookup: each optional field
      is read from the JSON, in source order, or taken from the stored row;
      the first field whose `get<T>()` throws decides the error. */
  function ReadFields(json: map<string, Json>, tables: ModelTables, modelName: string, stored: StoredModel): (r: Result<ModelDetails>)
    ensures r.Ok? <==> FieldsConvert(json)
    ensures r.Ok? ==>
              && r.value.modelName == modelName
              && (if "model" in json then json["model"] == JString(r.value.model)
                  else r.value.model == stored.model)
              && (if "provider" in json then json["provider"] == JString(r.value.providerName)
                  else r.value.providerName == stored.providerName)
              && (if "context_window" in json then GetInt(json["context_window"]) == Ok(r.value.contextWindow)
                  else r.value.contextWindow == stored.contextWindow)
              && (if "max_output_tokens" in json then GetInt(json["max_output_tokens"]) == Ok(r.value.maxOutputTokens)
                  else r.value.maxOutputTokens == stored.maxOutputTokens)
              && (if "temperature" in json then GetFloat(json["temperature"]) == Ok(r.value.temperature)
                  else r.value.temperature == DefaultTemperature)
              && r.value.secret == LoadSecret(tables, r.value.providerName)
    ensures !StringField(json, "model") ==> r == Err(StringTypeError(json["model"]))
    ensures StringField(json, "model") && !StringField(json, "provider") ==>
              r == Err(StringTypeError(json["provider"]))
    ensures StringField(json, "model") && StringField(json, "provider") && !IntField(json, "context_window") ==>
              r == Err(NumberTypeError(json["context_window"]))
    ensures StringField(json, "model") && StringField(json, "provider") && IntField(json, "context_window")
            && !IntField(json, "max_output_tokens") ==>
              r == Err(NumberTypeError(json["max_output_tokens"]))
    ensures StringField(json, "model") && StringField(json, "provider") && IntField(json, "context_window")
            && IntField(json, "max_output_tokens") && !FloatField(json, "temperature") ==>
              r == Err(NumberTypeError(json["temperature"]))
  {
    var model :- StringOr(json, "model", stored.model);
    var providerName :- StringOr(json, "provider", stored.providerName);
    var secret := LoadSecret(tables, providerName);
    ReadNumbers(json, stored, ModelDetails(modelName, model, providerName, secret, 0, 0, DefaultTemperature))
  }

  /** The numeric fields, read after the strings: `context_window`,
      `max_output_tokens`, then `temperature`, each from the JSON or the
      stored row (the default temperature); the names and secret come from
      `named`. */
  function ReadNumbers(json: map<string, Json>, stored: StoredModel, named: ModelDetails): (r: Result<ModelDetails>)
    ensures r.Ok? <==> IntField(json, "context_window") && IntField(json, "max_output_tokens") && FloatField(json, "temperature")
    ensures r.Ok? ==>
              && r.value.modelName == named.modelName && r.value.model == named.model
              && r.value.providerName == named.providerName && r.value.secret == named.secret
              && (if "context_window" in json then GetInt(json["context_window"]) == Ok(r.value.contextWindow)
                  else r.value.contextWindow == stored.contextWindow)
              && (if "max_output_tokens" in json then GetInt(json["max_output_tokens"]) == Ok(r.value.maxOutputTokens)
                  else r.value.maxOutputTokens == stored.maxOutputTokens)
              && (if "temperature" in json then GetFloat(json["temperature"]) == Ok(r.value.temperature)
                  else r.value.temperature == DefaultTemperature)
    ensures !IntField(json, "context_window") ==> r == Err(NumberTypeError(json["context_window"]))
    ensures IntField(json, "context_window") && !IntField(json, "max_output_tokens") ==>
              r == Err(NumberTypeError(json["max_output_tokens"]))
    ensures IntField(json, "context_window") && IntField(json, "max_output_tokens") && !FloatField(json, "temperature") ==>
              r == Err(NumberTypeError(json["temperature"]))
  {
    var contextWindow :- IntOr(json, "context_window", stored.contextWindow);
    var maxOutputTokens :- IntOr(json, "max_output_tokens", stored.maxOutputTokens);
    var temperature :- if "temperature" in json then GetFloat(json["temperature"]) else Ok(DefaultTemperature);
    Ok(named.(contextWindow := contextWindow, maxOutputTokens := maxOutputTokens, temperature := temperature))
  }

  /** `ConstructProvider`: the closed dispatch over provider kinds. */
  function ConstructProvider(details: ModelDetails, providerType: string -> ProviderType): (r: Result<Provider>)
    ensures r.Ok? <==> providerType(details.providerName) != OtherProvider
    ensures r.Ok? ==> r.value.details == details
    ensures providerType(details.providerName) == OpenAIType ==> r == Ok(OpenAIProvider(details))
    ensures providerType(details.providerName) == AzureType ==> r == Ok(AzureProvider(details))
    ensures providerType(details.providerName) == OllamaType ==> r == Ok(OllamaProvider(details))
    ensures r.Err? ==> r.error == UnsupportedProvider(details.providerName)
  {
    match providerType(details.providerName)
    case OpenAIType => Ok(OpenAIProvider(details))
    case AzureType => Ok(AzureProvider(details))
    case OllamaType => Ok(OllamaProvider(details))
    case OtherProvider => Err(UnsupportedProvider(details.providerName))
  }

  /** The `Model` constructor: an empty JSON leaves the model empty without
      any lookup; otherwise details are loaded and then the provider built. */
  function NewModel(json: map<string, Json>, tables: ModelTables, providerType: string -> ProviderType): (r: Result<Model>)
    ensures |json| == 0 ==> r == Ok(EmptyModel)
    ensures |json| > 0 && r.Ok? ==>
              r.value.LoadedModel? && LoadModelDetails(json, tables) == Ok(r.value.details)
              && r.value.provider.details == r.value.details
    ensures |json| > 0 && LoadModelDetails(json, tables).Err? ==> r == Err(LoadModelDetails(json, tables).error)
    ensures |json| > 0 && LoadModelDetails(json, tables).Ok? ==>
              var details := LoadModelDetails(json, tables).value;
              r == (match ConstructProvider(details, providerType)
                    case Ok(p) => Ok(LoadedModel(details, p))
                    case Err(e) => Err(e))
  {
    if |json| == 0 then Ok(EmptyModel)
    else
      var details :- LoadModelDetails(json, tables);
      var provider :- ConstructProvider(details, providerType);
      Ok(LoadedModel(details, provider))
  }

  // ---------------------------------------------------------------------
  // Properties

  /** The stored-model lookup always runs: a name registered in neither
      table fails even when every other field is given explicitly. */
  lemma UnregisteredModelFails(json: map<string, Json>, tables: ModelTables, name: string)
    requires "model_name" in json && json["model_name"] == JString(name) && name != ""
    requires forall row :: row in tables.userDefined + tables.defaults ==> row.modelName != name
    ensures LoadModelDetails(json, tables) == Err(ModelNotFound)
  {
  }

  /** When the JSON gives all four overridable fields, the stored row only
      decides whether the name is registered: two table sets that both
      register the name and hold the same secrets yield the same details. */
  lemma ExplicitFieldsWin(json: map<string, Json>, t1: ModelTables, t2: ModelTables)
    requires "model_name" in json && json["model_name"].JString?
    requires GetQueriedModel(t1, json["model_name"].s).Ok? && GetQueriedModel(t2, json["model_name"].s).Ok?
    requires "model" in json && "provider" in json && "context_window" in json && "max_output_tokens" in json
    requires t1.secrets == t2.secrets
    ensures LoadModelDetails(json, t1) == LoadModelDetails(json, t2)
  {
    var name := json["model_name"].s;
    var s1 := GetQueriedModel(t1, name).value;
    var s2 := GetQueriedModel(t2, name).value;
    assert StringOr(json, "model", s1.model) == StringOr(json, "model", s2.model);
    assert StringOr(json, "provider", s1.providerName) == StringOr(json, "provider", s2.providerName);
    assert IntOr(json, "context_window", s1.contextWindow) == IntOr(json, "context_window", s2.contextWindow);
    assert IntOr(json, "max_output_tokens", s1.maxOutputTokens) == IntOr(json, "max_output_tokens", s2.maxOutputTokens);
  }

  /** The user-defined table shadows the default table: the first
      user-defined row under a name is used, whatever the default table
      holds under it. */
  lemma UserDefinedShadowsDefault(tables: ModelTables, row: ModelRow, defaults: seq<ModelRow>)
    requires FirstModelRow(tables.userDefined, row.modelName) == Some(row)
    ensures GetQueriedModel(tables, row.modelName) == Ok(StoredOf(row))
    ensures GetQueriedModel(tables.(defaults := defaults), row.modelName) == GetQueriedModel(tables, row.modelName)
  {
  }
}
