// The request handling at the start of `generate`: the model table, the
// defaulting of the model name and the temperature, and the two error
// responses, which are sent without leaving the handler.

module Normalizer {
  import opened Text

  datatype Option<T> = None | Some(value: T)

  /** A temperature: the default (0.8) or the float64 the caller sent, kept as
      its IEEE-754 bit pattern and never interpreted. */
  datatype Temperature = DefaultTemperature | Given(bits: bv64)

  /** The decoded request body. `model` and `temperature` are pointers in
      Go, absent when the field was missing. */
  datatype RequestBody = RequestBody(prompt: seq<byte>, model: Option<string>,
                                     temperature: Option<bv64>, stop: seq<seq<byte>>)

  /** The source's Model record: the path of an inference binary (never set
      by the table) and the path of a model file. Names and paths are kept
      as strings because they are only passed on, never inspected. */
  datatype ModelEntry = ModelEntry(binary: string, model: string)

  /** The error responses `generate` can send, with their HTTP status. */
  datatype HttpError = BadRequest | UnknownModel | InternalServerError
  {
    function Status(): (code: int)
      ensures 400 <= code < 600
      ensures (code < 500) <==> !InternalServerError?
    {
      match this
      case BadRequest => 400
      case UnknownModel => 404
      case InternalServerError => 500
    }
  }

  const DEFAULT_MODEL: string := "llama"

  /** The model table, from the three model-file paths the environment
      supplies (an unset variable reads as ""). */
  function ModelsTable(llamaModel: string, llama2Model: string, codellamaModel: string)
    : (t: map<string, ModelEntry>)
    ensures forall name :: name in t <==> name == "llama" || name == "llama2" || name == "codellama"
    ensures forall name :: name in t ==> t[name].binary == ""
    ensures "llama" in t && t["llama"].model == llamaModel
    ensures "llama2" in t && t["llama2"].model == llama2Model
    ensures "codellama" in t && t["codellama"].model == codellamaModel
  {
    map["llama" := ModelEntry("", llamaModel),
        "llama2" := ModelEntry("", llama2Model),
        "codellama" := ModelEntry("", codellamaModel)]
  }

  /** What the handler settles on before launching: the model name, the
      table entry (the zero entry when the lookup failed), whether the
      lookup succeeded, the temperature, and the error responses sent. */
  datatype Normalized = Normalized(model: string, options: ModelEntry, found: bool,
                                   temperature: Temperature, errors: seq<HttpError>)

  /** The defaulting rules: an absent model selects "llama", an absent
      temperature the default, a present value is used unchanged; the
      lookup fails exactly for names outside the table and then yields the
      zero entry; a failed decode answers 400 and a failed lookup 404, and
      neither stops the handler. */
  predicate NormalizedFrom(decoded: bool, input: RequestBody, table: map<string, ModelEntry>, n: Normalized)
  {
    && n.model == (if input.model.Some? then input.model.value else DEFAULT_MODEL)
    && (n.found <==> n.model in table)
    && n.options == (if n.found then table[n.model] else ModelEntry("", ""))
    && n.temperature == (if input.temperature.Some? then Given(input.temperature.value) else DefaultTemperature)
    && n.errors == (if decoded then [] else [BadRequest]) + (if n.found then [] else [UnknownModel])
  }

  /** `generate` up to the construction of the command. `decoded` is false
      when the JSON decoder reported an error; `input` is whatever it left. */
  method Normalize(decoded: bool, input: RequestBody, table: map<string, ModelEntry>)
    returns (n: Normalized)
    ensures NormalizedFrom(decoded, input, table, n)
  {
    var errors: seq<HttpError> := [];
    if !decoded {
      errors := errors + [BadRequest];
    }
    var model := DEFAULT_MODEL;
    if input.model.Some? {
      model := input.model.value;
    }
    var found := model in table;
    var options := if found then table[model] else ModelEntry("", "");
    if !found {
      errors := errors + [UnknownModel];
    }
    var temp := DefaultTemperature;
    if input.temperature.Some? {
      temp := Given(input.temperature.value);
    }
    n := Normalized(model, options, found, temp, errors);
  }

  /** With the configured table, the lookup succeeds exactly for the three
      table keys, and a request without a model gets the "llama" entry. */
  lemma LookupWithConfiguredTable(decoded: bool, input: RequestBody, n: Normalized,
                                  llamaModel: string, llama2Model: string, codellamaModel: string)
    requires NormalizedFrom(decoded, input, ModelsTable(llamaModel, llama2Model, codellamaModel), n)
    ensures n.found <==> n.model == "llama" || n.model == "llama2" || n.model == "codellama"
    ensures input.model.None? ==> n.found && n.options == ModelEntry("", llamaModel)
    ensures n.found ==> UnknownModel !in n.errors
  {
    var t := ModelsTable(llamaModel, llama2Model, codellamaModel);
    if n.found {
      assert n.errors == (if decoded then [] else [BadRequest]);
    }
  }

  /** An unknown model is answered with 404 but not rejected: the handler
      carries on with the zero entry, so the model file path is empty. */
  lemma UnknownModelFallsThrough(decoded: bool, input: RequestBody, table: map<string, ModelEntry>, n: Normalized)
    requires NormalizedFrom(decoded, input, table, n)
    requires input.model.Some? && input.model.value !in table
    ensures !n.found && n.options.model == "" && n.options.binary == ""
    ensures n.errors[|n.errors| - 1] == UnknownModel
    ensures decoded ==> n.errors == [UnknownModel]
    ensures !decoded ==> n.errors == [BadRequest, UnknownModel]
  {
  }
}
