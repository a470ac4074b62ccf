/** Argument validation of the scalar functions
    (src/core/parser/scalar/llm_complete.cpp and
    src/core/parser/scalar/lf_embedding.cpp).

    A column's type is the engine's logical type: a type id plus extra type
    information (a struct's children, an alias such as `JSON`). The
    string checks compare the whole type with plain `VARCHAR`, so an aliased
    VARCHAR fails them; the struct checks compare only the id, so every
    struct passes them.
 */
module ScalarParsers {
  import opened Results

  datatype TypeId = Varchar | Struct | OtherId

  /** A logical type: its id and its extra type information, `""` when it
      has none. */
  datatype LogicalType = LogicalType(id: TypeId, info: string)

  /** `GetType() == LogicalType::VARCHAR`: the whole type must match. */
  predicate IsVarchar(t: LogicalType) {
    t == LogicalType(Varchar, "")
  }

  /** `GetType().id() == LogicalTypeId::STRUCT`: only the id is compared. */
  predicate IsStruct(t: LogicalType) {
    t.id == Struct
  }

  const CompleteArity := "LlmCompleteScalarParser: Invalid number of arguments."
  const CompleteTemplate := "LlmCompleteScalarParser: Template must be a string."
  const CompleteModel := "LlmCompleteScalarParser: Model details must be a struct."
  const CompleteInputs := "LlmCompleteScalarParser: Inputs must be a struct."
  const CompleteSettings := "LlmCompleteJsonScalarParser: Settings value must be a struct."

  /** `LlmCompleteScalarParser`: 2 to 4 columns; the template a string, the
      model details a struct; with exactly 3 columns the third a struct,
      with exactly 4 columns the fourth a struct. Checks run in that order
      and the first failure is the error. */
  function LlmCompleteScalarParser(columns: seq<LogicalType>): (r: Outcome)
    ensures r == Fail(CompleteArity) <==> !(2 <= |columns| <= 4)
    ensures r == Fail(CompleteTemplate) <==> 2 <= |columns| <= 4 && !IsVarchar(columns[0])
    ensures r == Fail(CompleteModel) <==>
              2 <= |columns| <= 4 && IsVarchar(columns[0]) && !IsStruct(columns[1])
    ensures r == Fail(CompleteInputs) <==>
              |columns| == 3 && IsVarchar(columns[0]) && IsStruct(columns[1]) && !IsStruct(columns[2])
    ensures r == Fail(CompleteSettings) <==>
              |columns| == 4 && IsVarchar(columns[0]) && IsStruct(columns[1]) && !IsStruct(columns[3])
    ensures r == Pass <==>
              && 2 <= |columns| <= 4
              && IsVarchar(columns[0]) && IsStruct(columns[1])
              && (|columns| == 3 ==> IsStruct(columns[2]))
              && (|columns| == 4 ==> IsStruct(columns[3]))
  {
    if |columns| < 2 || |columns| > 4 then Fail(CompleteArity)
    else if !IsVarchar(columns[0]) then Fail(CompleteTemplate)
    else if !IsStruct(columns[1]) then Fail(CompleteModel)
    else if |columns| == 3 && !IsStruct(columns[2]) then Fail(CompleteInputs)
    else if |columns| == 4 && !IsStruct(columns[3]) then Fail(CompleteSettings)
    else Pass
  }

  /** With four columns the third column is never inspected: replacing its
      type does not change the verdict. */
  lemma CompleteIgnoresThirdOfFour(columns: seq<LogicalType>, t: LogicalType)
    requires |columns| == 4
    ensures LlmCompleteScalarParser(columns[2 := t]) == LlmCompleteScalarParser(columns)
  {
  }

  /** The arity check comes first: a wrong column count is reported
      whatever the column types are. */
  lemma CompleteArityFirst(columns: seq<LogicalType>, other: seq<LogicalType>)
    requires |columns| == |other|
    requires !(2 <= |columns| <= 4)
    ensures LlmCompleteScalarParser(columns) == LlmCompleteScalarParser(other) == Fail(CompleteArity)
  {
  }

  const EmbedArity := "LfEmbedScalarParser: Invalid number of arguments."
  const EmbedInputs := "LfEmbedScalarParser: Inputs must be a struct."
  const EmbedModel := "LfEmbedScalarParser: Model must be a string."
  const EmbedSettings := "LfEmbedScalarParser: Settings value must be a struct."

  /** `LfEmbeddingScalarParser`: 2 or 3 columns; the inputs a struct, the
      model a string, and with 3 columns the settings a struct. */
  function LfEmbeddingScalarParser(columns: seq<LogicalType>): (r: Outcome)
    ensures r == Fail(EmbedArity) <==> !(2 <= |columns| <= 3)
    ensures r == Fail(EmbedInputs) <==> 2 <= |columns| <= 3 && !IsStruct(columns[0])
    ensures r == Fail(EmbedModel) <==>
              2 <= |columns| <= 3 && IsStruct(columns[0]) && !IsVarchar(columns[1])
    ensures r == Fail(EmbedSettings) <==>
              |columns| == 3 && IsStruct(columns[0]) && IsVarchar(columns[1]) && !IsStruct(columns[2])
    ensures r == Pass <==>
              && 2 <= |columns| <= 3
              && IsStruct(columns[0]) && IsVarchar(columns[1])
              && (|columns| == 3 ==> IsStruct(columns[2]))
  {
    if |columns| < 2 || |columns| > 3 then Fail(EmbedArity)
    else if !IsStruct(columns[0]) then Fail(EmbedInputs)
    else if columns[1] != LogicalType(Varchar, "") then Fail(EmbedModel)
    else if |columns| == 3 && !IsStruct(columns[2]) then Fail(EmbedSettings)
    else Pass
  }

  /** An aliased string type such as `JSON` is not accepted where the
      parsers ask for a string, although it is a VARCHAR underneath. */
  lemma AliasedVarcharRejected(alias: string, model: LogicalType)
    requires alias != ""
    requires IsStruct(model)
    ensures LlmCompleteScalarParser([LogicalType(Varchar, alias), model]) == Fail(CompleteTemplate)
    ensures LfEmbeddingScalarParser([model, LogicalType(Varchar, alias)]) == Fail(EmbedModel)
  {
  }
}
