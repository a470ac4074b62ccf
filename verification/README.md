# A Dafny model of the flockmtl core

flockmtl is a DuckDB extension that lets SQL call large language models. This
project models the logic around those calls:

- the token-budgeted reduce loop of the `llm_reduce` aggregate (`LlmReduce`);
- prompt rendering (`PromptManager`), with a reader for the tuple
  serialization as its inverse (`PromptReader`);
- resolution of prompt details against the stored prompt tables
  (`PromptCatalog`);
- resolution of model details, secrets and the provider (`ModelManager`);
- the argument checks of the scalar functions (`ScalarParsers`);
- the `llm_embedding` scalar function (`LlmEmbedding`).

Support modules: `Results` defines `Option`, `Result` and `Outcome`. `Json`
defines scalar JSON values and the `get<...>` conversions. `Strings` defines
`std::string::find`, `std::stoi` and fmt's decimal rendering of an `int`.

The model calls, the tokenizer, JSON `dump()` and the markdown serializers
are not part of this model. Each appears as a function-typed parameter. A
property that does not mention them holds whatever they compute; a property
about the reduce loop is stated in terms of what they return, and the loop's
end-to-end result is stated for the runs that end. The SQL queries against
the configuration tables become lookups in in-memory sequences of rows, read
in the order the queries return them.

Behaviour of the code that the model makes explicit:

- **Oversized tuples.** The inner loop never admits a tuple whose block
  alone exceeds the budget, so the cursor never passes it and `ReduceLoop`
  never returns (`LlmReduce.OversizedTupleNeverConsumed`).
- **Stalled rounds.** A round whose first tuple does not fit admits nothing,
  sends only the carried batch to the model, and leaves the cursor where it
  was (`LlmReduce.StalledRoundRepeats`). The next round starts again at that
  tuple with the new response carried in, so a run can stall and still end (`LlmReduce.StallThenEnd`).
- **Zero budget.** `GetAvailableTokens` fails only when the fixed prompt
  exceeds the context window, so a budget of exactly zero is accepted, and
  then no round admits anything (`LlmReduce.GetAvailableTokens`,
  `LlmReduce.ZeroBudgetNeverAdmits`).
- **Carried batch.** Every round charges the carried batch's JSON text,
  `[]` in the first round, plus the markdown header of the next tuple,
  before any tuple block (`LlmReduce.OpeningCount`, `LlmReduce.RoundOfSound`).
- **Extra keys in prompt details.** With `prompt_name`, the only other key
  accepted is `version`. Without `prompt_name`, a `prompt` key is accepted
  next to any other keys, `version` included, and the others are ignored
  (`PromptCatalog.WellShaped`, `PromptCatalog.CreatePromptDetails`).

## Model

| member | source | states |
|---|---|---|
| LlmReduce.GetAvailableTokens | src/functions/aggregate/llm_reduce/implementation.cpp:5-18 | fails with "Fixed tokens exceed model context size" exactly when tokens(user query) + tokens(reduce template) exceed the context window; a window filled exactly is allowed; otherwise the budget plus the fixed tokens equals the window, so the budget is never negative |
| LlmReduce.Fill | src/functions/aggregate/llm_reduce/implementation.cpp:37-45 | the inner loop's cursor never moves back and never passes the end of the input |
| LlmReduce.FillAdmitted | src/functions/aggregate/llm_reduce/implementation.cpp:37-45 | every tuple the inner loop passes was admitted: the count before it was below the budget, and adding its block stayed within the budget; the tuple it stops at, if any, was not admissible |
| LlmReduce.FillWithinBudget | src/functions/aggregate/llm_reduce/implementation.cpp:37-45 | after a round admits anything, the opening count plus the admitted blocks is at most the budget |
| LlmReduce.Step | src/functions/aggregate/llm_reduce/implementation.cpp:33-50 | a round never moves the cursor back or past the end, and leaves exactly one item in the batch: `reduceBatch`'s answer to the carried batch followed by the tuples it admitted |
| LlmReduce.Iterate | src/functions/aggregate/llm_reduce/implementation.cpp:33-50 | running any number of rounds never moves the cursor back or past the end |
| LlmReduce.Rounds | src/functions/aggregate/llm_reduce/implementation.cpp:33-50 | the trace of a run cut off after `fuel` rounds holds at most `fuel` rounds; what each round is and how rounds connect is stated by `LlmReduce.RoundsAt`, `LlmReduce.RoundsSound` and `LlmReduce.RoundsLinked` |
| LlmReduce.RoundOfSound | src/functions/aggregate/llm_reduce/implementation.cpp:33-49 | one round starts at the cursor with the carried batch, admits the tuples that follow in input order, fits the budget when it admits any (opening count plus their blocks), stops only at a tuple that does not fit or at the end, answers with the model's response to the carried batch followed by the admitted tuples, and leaves that response alone in the batch with the cursor past the admitted tuples |
| LlmReduce.RoundsAt | src/functions/aggregate/llm_reduce/implementation.cpp:33-50 | the k-th round of the trace is the round the loop runs from the state it reaches after k rounds |
| LlmReduce.RoundsSound | src/functions/aggregate/llm_reduce/implementation.cpp:33-49 | every round of any run, stalled rounds included, has the single-round guarantees: admitted tuples are consecutive input, fit the budget when non-empty, the response answers the carried batch plus them, and the stop is greedy |
| LlmReduce.RoundsLinked | src/functions/aggregate/llm_reduce/implementation.cpp:33-50 | the first round starts at the cursor with the initial batch; each later round starts right after the previous round's tuples and carries in exactly its response |
| LlmReduce.RoundsConserve | src/functions/aggregate/llm_reduce/implementation.cpp:37-50 | in a run that ends, the tuples admitted by all rounds, in round order, are exactly the unconsumed input, in order, each once |
| LlmReduce.RoundsFuelIrrelevant | src/functions/aggregate/llm_reduce/implementation.cpp:33-50 | a run that ends within some number of rounds has the same final state and the same rounds with any larger bound |
| LlmReduce.LastRoundCarriesOut | src/functions/aggregate/llm_reduce/implementation.cpp:46-52 | a run that starts with tuples left and ends has at least one round, and its final batch is the last round's response alone |
| LlmReduce.ReduceRound | src/functions/aggregate/llm_reduce/implementation.cpp:34-48 | the imperative body of one round (count the carried batch and the next header, admit while tuples fit, call the model) computes the round's next state |
| LlmReduce.RunRounds | src/functions/aggregate/llm_reduce/implementation.cpp:29-52 | for a run that ends, the imperative outer loop returns the response of the last round of the trace |
| LlmReduce.ReduceLoop | src/functions/aggregate/llm_reduce/implementation.cpp:27-53 | the budget error is returned when the fixed prompt exceeds the context window; otherwise, for a run that ends, the result is the last round's response |
| LlmReduce.StalledRoundRepeats | src/functions/aggregate/llm_reduce/implementation.cpp:33-50 | a round whose first tuple does not fit keeps the cursor where it was and sends only the carried batch to the model |
| LlmReduce.StallThenEnd | src/functions/aggregate/llm_reduce/implementation.cpp:33-50 | on a concrete input (two tuples, a budget of 2, a model whose first answer fills the budget), the second round admits nothing and the run still ends after the third round |
| LlmReduce.ZeroBudgetNeverAdmits | src/functions/aggregate/llm_reduce/implementation.cpp:12-17 | with a budget of zero, no round moves the cursor |
| LlmReduce.OversizedTupleNeverConsumed | src/functions/aggregate/llm_reduce/implementation.cpp:37-50 | a tuple whose block alone exceeds the budget is never passed, however many rounds run, so no number of rounds ends the run |
| PromptManager.Marker | src/prompt_manager/prompt_manager.cpp:6-18 | every section's marker is a non-empty name enclosed in `{{` and `}}` |
| PromptManager.MarkerInjective | src/prompt_manager/prompt_manager.cpp:6-18 | the four sections have four distinct markers |
| PromptManager.ReplaceAllLength | src/prompt_manager/prompt_manager.cpp:27-38 | replacing by content as long as the marker keeps the template's length, and by longer content never shortens it |
| PromptManager.ReplaceAllWithoutMarker | src/prompt_manager/prompt_manager.cpp:27-38 | a template without the marker is returned unchanged |
| PromptManager.ReplaceAllAtFirst | src/prompt_manager/prompt_manager.cpp:31-36 | replacement splits at the first occurrence: the text before it is kept, the occurrence becomes the content, and the rest is replaced on its own |
| PromptManager.ReplaceAllBySelf | src/prompt_manager/prompt_manager.cpp:33-36 | replacing the marker by itself changes nothing, because inserted content is never scanned again |
| PromptManager.MarkerOnlyTemplate | src/prompt_manager/prompt_manager.cpp:33-36 | a template that is only the marker becomes exactly the content, even when the content holds the marker |
| PromptManager.ReplaceSectionText | src/prompt_manager/prompt_manager.cpp:27-39 | the find-and-replace loop ends and returns the left-to-right, non-overlapping replacement of every occurrence of the marker in the original template |
| PromptManager.ReplaceSection | src/prompt_manager/prompt_manager.cpp:21-25 | the section overload equals the text overload applied to the section's marker |
| PromptManager.InputTuplesHeader | src/prompt_manager/prompt_manager.cpp:41-48 | the header is enclosed in `<header>` and `</header>` plus a newline; a tuple without fields gives the bare tags |
| PromptManager.SingleInputTuple | src/prompt_manager/prompt_manager.cpp:50-57 | a tuple block is enclosed in `<tuple>` and `</tuple>` plus a newline; a tuple without fields gives the bare tags |
| PromptManager.TupleBlocks | src/prompt_manager/prompt_manager.cpp:62-64 | no tuples give the empty text, and each tuple adds at least its pair of tags |
| PromptManager.TupleBlocksAppend | src/prompt_manager/prompt_manager.cpp:62-64 | the blocks of two runs of tuples joined are the two runs' blocks joined: each tuple is rendered on its own |
| PromptManager.InputTuples | src/prompt_manager/prompt_manager.cpp:59-66 | the rendered text opens with the first tuple's header followed by the first tuple's block |
| PromptManager.InputTuplesAppend | src/prompt_manager/prompt_manager.cpp:59-66 | appending a tuple adds its block at the end and changes nothing before it; the header stays the first tuple's |
| PromptManager.DumpValues | src/prompt_manager/prompt_manager.cpp:50-57 | a tuple's cells are its values, dumped, one per field, in field order |
| PromptReader.ReadCellsOfCells | src/prompt_manager/prompt_manager.cpp:44 | a run of `<col>` cells reads back as the strings written, in order |
| PromptReader.HeaderRoundTrip | src/prompt_manager/prompt_manager.cpp:41-48 | the header reads back as the tuple's keys, in iteration order |
| PromptReader.TupleRoundTrip | src/prompt_manager/prompt_manager.cpp:50-57 | a tuple block reads back as the tuple's dumped values, in the order of the header's keys |
| PromptReader.HeaderAndTupleSameWidth | src/prompt_manager/prompt_manager.cpp:41-57 | a tuple's header and its block have one column per field each |
| PromptReader.TupleBlocksRoundTrip | src/prompt_manager/prompt_manager.cpp:62-64 | the tuple blocks read back as every tuple's dumped values, one row per tuple, in input order |
| PromptReader.InputTuplesRoundTrip | src/prompt_manager/prompt_manager.cpp:59-66 | the rendered tuples read back as the keys of the first tuple only, then every tuple's values in input order |
| PromptReader.DumpAll | src/prompt_manager/prompt_manager.cpp:62-64 | one row of dumped values per tuple, at the tuple's own index |
| PromptCatalog.FindVersion | src/prompt_manager/prompt_manager.cpp:83-86 | a row found for a name and version is stored under exactly that name and version; none is found only when no row has both |
| PromptCatalog.FindLatest | src/prompt_manager/prompt_manager.cpp:87-102 | the row found carries the highest version stored under the name, across both tables; none is found only when the name is not stored |
| PromptCatalog.ResolveNamed | src/prompt_manager/prompt_manager.cpp:83-109 | the prompt is the text of a stored row with the name and, when given, the version; without a version it is the newest row; the "not found" error, naming the prompt and any version, arises exactly when no such row exists |
| PromptCatalog.CreatePromptDetails | src/prompt_manager/prompt_manager.cpp:68-117 | badly shaped details fail with the shape error; without `prompt_name`, a `prompt` string is returned as given; a non-string `prompt_name` or `version` fails with the string type error; with a string name and no version the result is the newest stored row's resolution, and with a string version the resolution of the version `stoi` reads, or the `stoi` error |
| PromptCatalog.LiteralPromptNeedsNoLookup | src/prompt_manager/prompt_manager.cpp:110-111 | a literal prompt is returned as given, whatever the tables hold |
| PromptCatalog.NamedVersionResolves | src/prompt_manager/prompt_manager.cpp:71-86 | a struct with `prompt_name` and a `version` string passes the shape check and resolves to the version `stoi` reads |
| PromptCatalog.MissingVersionIsReported | src/prompt_manager/prompt_manager.cpp:83-108 | asking for a version that is not stored fails with an error naming the prompt and the version |
| PromptCatalog.LatestVersionWins | src/prompt_manager/prompt_manager.cpp:87-109 | without a version, the newest stored version is returned |
| PromptCatalog.NameAndLiteralTogetherRejected | src/prompt_manager/prompt_manager.cpp:71-78 | `prompt_name` together with `prompt` is rejected, with or without a version |
| Strings.Find | src/prompt_manager/prompt_manager.cpp:31-35 | `find` returns the first occurrence at or after the start position, or none when there is none |
| Strings.Stoi | src/prompt_manager/prompt_manager.cpp:84 | `stoi` returns only values in the 32-bit range; text without any digit throws; a plain run of digits within range reads as its decimal value |
| Strings.StoiOfIntToString | src/prompt_manager/prompt_manager.cpp:84-86 | `stoi` reads back every 32-bit integer that fmt's decimal rendering writes (the version is rendered with `duckdb_fmt::format("{}", …)`) |
| Json.GetString | src/model_manager/model.cpp:15-23 | `get<std::string>` succeeds exactly on strings and yields the string itself; otherwise the message names the kind found, as nlohmann's type error does |
| Json.GetInt | src/model_manager/model.cpp:25-29 | `get<int>` succeeds exactly on booleans and numbers, yields a 32-bit value, and keeps an integer in range; otherwise the message names the kind found |
| Json.GetFloat | src/model_manager/model.cpp:30 | `get<float>` succeeds exactly on booleans and numbers and keeps a float; otherwise the message names the kind found |
| ModelManager.FirstModelRow | src/model_manager/model.cpp:67-68 | the row used is the first one registered under the name; none only when no row has the name |
| ModelManager.GetQueriedModel | src/model_manager/model.cpp:48-72 | the user-defined table is consulted first, the default table only when it has no row, and "Model not found" arises exactly when neither table has the name |
| ModelManager.LoadSecret | src/model_manager/model.cpp:33-46 | the secret is one stored for the provider, and `""` when none is stored |
| ModelManager.LoadModelDetails | src/model_manager/model.cpp:14-31 | a missing or empty `model_name` fails first, a non-string one with the string type error; a non-empty name in neither table fails with "Model not found"; for a registered name the call succeeds exactly when every present field has a convertible type, and otherwise fails with the `get<T>()` type error of the first bad field in read order (`model`, `provider`, `context_window`, `max_output_tokens`, `temperature`); `model`, `provider`, `context_window`, `max_output_tokens` and `temperature` come from the JSON when present and from the stored row (or 0.5) otherwise; the secret belongs to the resolved provider |
| ModelManager.ReadFields | src/model_manager/model.cpp:20-30 | after the lookup, each optional field comes from the JSON or the stored row; the call succeeds exactly when every present field converts, and otherwise returns the type error of the first field, in source order, whose `get<T>()` throws |
| ModelManager.ReadNumbers | src/model_manager/model.cpp:25-30 | `context_window`, `max_output_tokens` and `temperature`, read in that order, each from the JSON when present (the stored value or 0.5 otherwise); the first that does not convert gives nlohmann's number type error, and the names and secret are left as read |
| ModelManager.ConstructProvider | src/model_manager/model.cpp:74-90 | OpenAI, Azure and Ollama each give the matching provider holding the details; any other kind fails with "Unsupported provider: " and the name |
| ModelManager.NewModel | src/model_manager/model.cpp:5-12 | an empty model JSON gives an empty model without any lookup; otherwise loading errors propagate, and loaded details give the model holding them with the provider built from them, or the provider error |
| ModelManager.UnregisteredModelFails | src/model_manager/model.cpp:15-19 | a name in neither table fails even when every other field is given |
| ModelManager.ExplicitFieldsWin | src/model_manager/model.cpp:19-29 | when all four overridable fields are given, the stored row decides nothing beyond the name being registered |
| ModelManager.UserDefinedShadowsDefault | src/model_manager/model.cpp:54-65 | when the user-defined table has a row under a name, the first such row is used and the default table, whatever it holds, plays no part |
| ScalarParsers.LlmCompleteScalarParser | src/core/parser/scalar/llm_complete.cpp:9-32 | each error message arises exactly when its check is the first to fail, in source order; the input passes exactly when every applicable check holds |
| ScalarParsers.CompleteIgnoresThirdOfFour | src/core/parser/scalar/llm_complete.cpp:22-31 | with four columns, the third column's type does not affect the verdict |
| ScalarParsers.CompleteArityFirst | src/core/parser/scalar/llm_complete.cpp:10-12 | a wrong column count is reported whatever the column types are |
| ScalarParsers.AliasedVarcharRejected | src/core/parser/scalar/llm_complete.cpp:15-17 | a VARCHAR carrying an alias is not accepted where a string is required |
| ScalarParsers.LfEmbeddingScalarParser | src/core/parser/scalar/lf_embedding.cpp:9-24 | each error message arises exactly when its check is the first to fail, in source order; the input passes exactly when every applicable check holds |
| LlmEmbedding.ProviderName | src/core/functions/scalar/llm_embedding.cpp:18-23 | settings are read only with three columns; a missing `provider` gives `""` |
| LlmEmbedding.RowText | src/core/functions/scalar/llm_embedding.cpp:31-34 | a row with no fields gives `""`; the text exists exactly when every field value is a string |
| LlmEmbedding.RowTextAppend | src/core/functions/scalar/llm_embedding.cpp:32-34 | the text of two runs of fields joined is the two texts joined: each field contributes on its own |
| LlmEmbedding.RowTextShape | src/core/functions/scalar/llm_embedding.cpp:31-34 | a non-empty row's text ends in a space, and its length is the values' lengths plus one per field |
| LlmEmbedding.LlmEmbeddingScalarFunction | src/core/functions/scalar/llm_embedding.cpp:14-47 | the first failure, in source order, is the one returned: the parser's error, then the `provider` setting's type error, then the model lookup's error, then the error of the first row whose text or embedding call fails; on success, row 0's model serves every row, there is one result slot per input row, and slot i holds row i's embedding, component by component, in order; when every step succeeds the call succeeds |

## Left out

- `LlmReduce::Finalize` (the DuckDB vector and aggregate-state plumbing around `ReduceLoop`) is not modelled.
- `ReduceBatch` is modelled as an arbitrary function from batch to response, the `reduceBatch` field. Prompt rendering inside it and failures of the model call are not modelled.
- The tokenizer, JSON `dump()`, `ConstructMarkdownHeader` and `ConstructMarkdownSingleTuple` are arbitrary functions. The reduce-loop properties are stated in terms of the counts and texts they return; how they count or render is not modelled.
- LlmReduce.ReduceLoop: describes only the runs that end. Its ghost parameter `fuel` must be a number of rounds within which the run ends (`LlmReduce.Ends`). Every run of the source that returns has such a number; a run that never returns has none (`LlmReduce.OversizedTupleNeverConsumed`) and no result to describe. The rounds of any run, ended or not, are still described by `LlmReduce.RoundsSound` and `LlmReduce.RoundsLinked`, which hold for every bound.
- LlmReduce.ReduceLoop: the token counts are unbounded naturals. The source's 32-bit `int` budget and unsigned running count could wrap for sums past 2^31, which the model does not represent.
- PromptManager.ReplaceAll: the reference replacement is a definition without a contract of its own. Its properties are `PromptManager.ReplaceAllLength`, `PromptManager.ReplaceAllWithoutMarker`, `PromptManager.ReplaceAllAtFirst`, `PromptManager.ReplaceAllBySelf` and `PromptManager.MarkerOnlyTemplate`, and `PromptManager.ReplaceSectionText` proves the source loop equal to it.
- PromptManager.ReplaceSectionText: requires a non-empty marker. With an empty marker, `find` matches at the scan position every time and the source never ends. Every section marker is non-empty.
- PromptReader round trips hold only for keys and dumped values containing no `<`. The serializers do no escaping, so other texts are ambiguous.
- The header/tuple functions take a tuple as a sequence of key/value pairs in nlohmann's iteration order. The order in which nlohmann sorts keys is not modelled.
- The SQL text, its quoting of names, and the database connections are replaced by in-memory tables. Rows come back in the order a `UNION ALL` of the storage table and then the config table lists them.
- The `model_args` JSON of a model row is taken as already parsed into two integers. Malformed `model_args` is not modelled.
- A model JSON that is not an object is not modelled: the model JSON is a map from keys to scalar values.
- Floating point: the temperature is a `real`, and `get<float>` rounding is not modelled. The embedding's casts to `double` are a parameter (`toDouble`).
- `LlmEmbeddingScalarParser` is not part of this model. `LlmEmbeddingScalarFunction` takes it as a parameter. `LfEmbeddingScalarParser`, which performs the same kind of checks, is modelled.
- `GetProviderType`, `ModelManager::GetQueriedModel` (the overload used by the embedding function) and `ModelManager::CallEmbedding` are parameters.
- azure.hpp (the HTTP client) and llm_complete_json.cpp (a wrapper whose work happens in functions not shown) are not part of this model.
