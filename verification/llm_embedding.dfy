/** The `llm_embedding` scalar function
    (src/core/functions/scalar/llm_embedding.cpp): one embedding call per
    input row, on the row's field values joined into one string, with the
    result list of row `i` written to result slot `i`.

    Not part of this model, and so passed in as parameters: the argument
    parser the function calls first (`parser`), the model lookup
    `ModelManager::GetQueriedModel` (`getQueriedModel`), the embedding call
    `ModelManager::CallEmbedding` (`callEmbedding`) and the cast of an
    embedding component to a double (`toDouble`).
 */
module LlmEmbedding {
  import opened Results
  import opened Json
  import opened ScalarParsers

  /** The function's data chunk: the column types, the input structs of
      column 0 as JSON objects (one per row), the model names of column 1
      (one per row), and the settings struct of row 0 of column 2. */
  datatype EmbeddingArgs = EmbeddingArgs(
    columns: seq<LogicalType>,
    inputs: seq<Object>,
    modelNames: seq<string>,
    settings: map<string, Json>)

  /** The settings are read only when there are 3 columns; a missing
      `provider` key means the empty provider name. */
  function ProviderName(args: EmbeddingArgs): (r: Result<string>)
    ensures |args.columns| != 3 ==> r == Ok("")
    ensures |args.columns| == 3 && "provider" !in args.settings ==> r == Ok("")
    ensures |args.columns| == 3 && "provider" in args.settings ==> r == GetString(args.settings["provider"])
  {
    if |args.columns| == 3 && "provider" in args.settings then GetString(args.settings["provider"])
    else Ok("")
  }

  /** The text embedded for a row: every field value, in iteration order,
      followed by one space. A value that is not a string is a type error. */
  function RowText(row: Object): (r: Result<string>)
    ensures row == [] ==> r == Ok("")
    ensures r.Ok? <==> forall i :: 0 <= i < |row| ==> row[i].1.JString?
  {
    if row == [] then Ok("")
    else
      var head :- GetString(row[0].1);
      var tail :- RowText(row[1..]);
      Ok(head + " " + tail)
  }

  /** The joined text of a row is the joined texts of its parts: each
      field contributes its value and one space, independently of the
      others. */
  lemma {:induction false} RowTextAppend(a: Object, b: Object)
    requires RowText(a).Ok? && RowText(b).Ok?
    ensures RowText(a + b) == Ok(RowText(a).value + RowText(b).value)
    decreases |a|
  {
    if a == [] {
      assert a + b == b;
      assert RowText(a).value + RowText(b).value == RowText(b).value;
    } else {
      assert (a + b)[1..] == a[1..] + b;
      RowTextAppend(a[1..], b);
      assert (a + b)[0] == a[0];
      var head := a[0].1.s;
      var ta, tb := RowText(a[1..]).value, RowText(b).value;
      assert RowText(a).value == head + " " + ta;
      assert RowText(a + b).value == head + " " + (ta + tb);
      assert head + " " + (ta + tb) == (head + " " + ta) + tb;
    }
  }

  /** A row's text ends in a space unless the row has no fields, and its
      length is that of its values plus one space per field. */
  lemma {:induction false} RowTextShape(row: Object)
    requires RowText(row).Ok?
    ensures row != [] ==> RowText(row).value[|RowText(row).value| - 1] == ' '
    ensures |RowText(row).value| == ValuesLength(row) + |row|
    decreases |row|
  {
    if row != [] {
      RowTextShape(row[1..]);
    }
  }

  /** Total length of a row's string values. */
  function ValuesLength(row: Object): nat {
    if row == [] then 0
    else (if row[0].1.JString? then |row[0].1.s| else 0) + ValuesLength(row[1..])
  }

  /** What one row's embedding call returns. */
  function RowEmbedding<M, F>(row: Object, model: M, provider: string,
                              callEmbedding: (string, M, string) -> Result<seq<F>>): Result<seq<F>>
  {
    match RowText(row)
    case Ok(text) => callEmbedding(text, model, provider)
    case Err(e) => Err(e)
  }

  /** Result slot `slot` holds the embedding's components, cast, in order. */
  ghost predicate SlotHolds<F, D>(slot: seq<D>, embedding: seq<F>, toDouble: F -> D) {
    |slot| == |embedding| && forall j :: 0 <= j < |slot| ==> slot[j] == toDouble(embedding[j])
  }

  /** Row `k` is the first row whose text or embedding call fails. */
  predicate FirstFailingRow<M, F>(inputs: seq<Object>, model: M, provider: string,
                                  callEmbedding: (string, M, string) -> Result<seq<F>>, k: int)
  {
    && 0 <= k < |inputs|
    && RowEmbedding(inputs[k], model, provider, callEmbedding).Err?
    && forall j :: 0 <= j < k ==> RowEmbedding(inputs[j], model, provider, callEmbedding).Ok?
  }

  /** `LlmEmbeddingScalarFunction`. Row 0's model name is used for every
      row. The first failing row aborts the whole call. */
  method LlmEmbeddingScalarFunction<M, F, D>(
    args: EmbeddingArgs,
    parser: seq<LogicalType> -> Outcome,
    getQueriedModel: (string, string) -> Result<M>,
    callEmbedding: (string, M, string) -> Result<seq<F>>,
    toDouble: F -> D)
    returns (r: Result<seq<seq<D>>>)
    requires |args.modelNames| > 0
    ensures parser(args.columns).Fail? ==> r == Err(parser(args.columns).error)
    ensures r.Ok? ==> parser(args.columns) == Pass && ProviderName(args).Ok?
                      && getQueriedModel(args.modelNames[0], ProviderName(args).value).Ok?
    ensures r.Ok? ==>
              var model := getQueriedModel(args.modelNames[0], ProviderName(args).value).value;
              && |r.value| == |args.inputs|
              && forall i :: 0 <= i < |args.inputs| ==>
                   && RowEmbedding(args.inputs[i], model, ProviderName(args).value, callEmbedding).Ok?
                   && SlotHolds(r.value[i], RowEmbedding(args.inputs[i], model, ProviderName(args).value, callEmbedding).value, toDouble)
    ensures parser(args.columns) == Pass && ProviderName(args).Ok?
            && getQueriedModel(args.modelNames[0], ProviderName(args).value).Ok?
            && (forall i :: 0 <= i < |args.inputs| ==>
                  RowEmbedding(args.inputs[i], getQueriedModel(args.modelNames[0], ProviderName(args).value).value,
                               ProviderName(args).value, callEmbedding).Ok?)
            ==> r.Ok?
    ensures parser(args.columns).Pass? && ProviderName(args).Err? ==> r == Err(ProviderName(args).error)
    ensures parser(args.columns).Pass? && ProviderName(args).Ok?
            && getQueriedModel(args.modelNames[0], ProviderName(args).value).Err? ==>
              r == Err(getQueriedModel(args.modelNames[0], ProviderName(args).value).error)
    ensures parser(args.columns).Pass? && ProviderName(args).Ok?
            && getQueriedModel(args.modelNames[0], ProviderName(args).value).Ok? ==>
              var provider := ProviderName(args).value;
              var model := getQueriedModel(args.modelNames[0], provider).value;
              forall k :: FirstFailingRow(args.inputs, model, provider, callEmbedding, k) ==>
                r == Err(RowEmbedding(args.inputs[k], model, provider, callEmbedding).error)
  {
    var checked := parser(args.columns);
    if checked.Fail? {
      return Err(checked.error);
    }
    var providerName :- ProviderName(args);
    var modelName := args.modelNames[0];
    var model :- getQueriedModel(modelName, providerName);

    var embeddings: seq<seq<F>> := [];
    var i := 0;
    while i < |args.inputs|
      invariant 0 <= i <= |args.inputs|
      invariant |embeddings| == i
      invariant forall k :: 0 <= k < i ==> RowEmbedding(args.inputs[k], model, providerName, callEmbedding) == Ok(embeddings[k])
    {
      var text := RowText(args.inputs[i]);
      if text.Err? {
        return Err(text.error);
      }
      var element := callEmbedding(text.value, model, providerName);
      if element.Err? {
        return Err(element.error);
      }
      embeddings := embeddings + [element.value];
      i := i + 1;
    }

    var slots: seq<seq<D>> := [];
    var index := 0;
    while index < |embeddings|
      invariant 0 <= index <= |embeddings|
      invariant |slots| == index
      invariant forall k :: 0 <= k < index ==> SlotHolds(slots[k], embeddings[k], toDouble)
    {
      var embedding: seq<D> := [];
      var j := 0;
      while j < |embeddings[index]|
        invariant 0 <= j <= |embeddings[index]|
        invariant SlotHolds(embedding, embeddings[index][..j], toDouble)
      {
        embedding := embedding + [toDouble(embeddings[index][j])];
        j := j + 1;
      }
      assert embeddings[index][..j] == embeddings[index];
      slots := slots + [embedding];
      index := index + 1;
    }
    return Ok(slots);
  }
}
