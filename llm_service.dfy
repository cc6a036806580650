/** The summary generator around the LLM call: the credential check, the
    required-field validation, the `technologies` normalisation, and how
    failures inside the `try` block are re-raised. The LLM call and
    `json.loads` are replaced by one abstract function from the context to
    the decoded reply. */
module LlmService {
  import opened Outcomes
  import opened Text

  /** A decoded JSON value. */
  datatype Json =
    | JNull
    | JBool(b: bool)
    | JNumber(literal: string)
    | JString(s: string)
    | JArray(items: seq<Json>)
    | JObject(members: map<string, Json>)

  /** What `json.loads(response.content)` gives: an object, or a decode error. */
  datatype Decoded = Decoded(members: map<string, Json>) | DecodeFailed(reason: string)

  /** The LLM call: a reply whose content was decoded, or a failure of the call itself. */
  datatype LlmReply = Replied(content: Decoded) | CallFailed(reason: string)

  const SummaryField := "summary"
  const TechnologiesField := "technologies"
  const StructureField := "structure"
  const RequiredFields: seq<string> := [SummaryField, TechnologiesField, StructureField]

  const MissingKeyMessage := "OPENAI_API_KEY environment variable is not set"
  const MissingFieldPrefix := "Missing required field in LLM response: "
  const JsonErrorPrefix := "Failed to parse LLM response as JSON: "
  const CallFailedPrefix := "LLM API call failed: "

  /** `OPENAI_API_KEY` is set and non-empty (Python truthiness of the variable). */
  predicate HasCredential(apiKey: Option<string>) {
    apiKey.Some? && apiKey.value != ""
  }

  predicate HasRequiredFields(obj: map<string, Json>) {
    forall i | 0 <= i < |RequiredFields| :: RequiredFields[i] in obj
  }

  /** `field` is the first required field, in the order summary, technologies,
      structure, that the object lacks. */
  predicate IsFirstMissing(obj: map<string, Json>, field: string) {
    exists i | 0 <= i < |RequiredFields| ::
      && RequiredFields[i] == field
      && field !in obj
      && forall j | 0 <= j < i :: RequiredFields[j] in obj
  }

  /** The validation loop over the required fields, stopping at the first missing one. */
  method FindMissingField(obj: map<string, Json>) returns (missing: Option<string>)
    ensures missing.None? <==> HasRequiredFields(obj)
    ensures missing.Some? ==> IsFirstMissing(obj, missing.value)
  {
    for i := 0 to |RequiredFields|
      invariant forall j | 0 <= j < i :: RequiredFields[j] in obj
    {
      if RequiredFields[i] !in obj {
        return Some(RequiredFields[i]);
      }
    }
    return None;
  }

  /** At most one field is the first missing one. */
  lemma FirstMissingIsUnique(obj: map<string, Json>, f: string, g: string)
    requires IsFirstMissing(obj, f) && IsFirstMissing(obj, g)
    ensures f == g
  {
  }

  /** The object after the `technologies` rewrite: a list stays as it is, any
      other value becomes a one-element list; every other field is unchanged. */
  function Normalized(obj: map<string, Json>): (r: map<string, Json>)
    requires TechnologiesField in obj
    ensures r.Keys == obj.Keys
    ensures r[TechnologiesField].JArray?
    ensures obj[TechnologiesField].JArray? ==> r == obj
    ensures !obj[TechnologiesField].JArray? ==> r[TechnologiesField] == JArray([obj[TechnologiesField]])
    ensures forall k | k in obj && k != TechnologiesField :: r[k] == obj[k]
  {
    if obj[TechnologiesField].JArray? then obj
    else obj[TechnologiesField := JArray([obj[TechnologiesField]])]
  }

  /** Normalising twice is normalising once. */
  lemma NormalizedIdempotent(obj: map<string, Json>)
    requires TechnologiesField in obj
    ensures Normalized(Normalized(obj)) == Normalized(obj)
  {
  }

  /** What the body of the `try` block raised. */
  datatype TryFailure =
    | JsonDecodeError(reason: string)
    | MissingField(field: string)
    | CallError(reason: string)

  /** The two `except` clauses: a JSON decode error first, then every other exception. */
  function Rewrap(raised: TryFailure): (r: PyError)
    ensures r.Exception?
    ensures raised.JsonDecodeError? ==>
      StartsWith(r.message, JsonErrorPrefix) && EndsWith(r.message, raised.reason)
    ensures raised.MissingField? ==>
      StartsWith(r.message, CallFailedPrefix + MissingFieldPrefix) && EndsWith(r.message, raised.field)
    ensures raised.CallError? ==>
      StartsWith(r.message, CallFailedPrefix) && EndsWith(r.message, raised.reason)
  {
    match raised
    case JsonDecodeError(reason) => Exception(JsonErrorPrefix + reason)
    case MissingField(field) => Exception(CallFailedPrefix + MissingFieldPrefix + field)
    case CallError(reason) => Exception(CallFailedPrefix + reason)
  }

  /** `generate_summary`. `llmInputs` lists the contexts handed to the LLM. */
  method GenerateSummary(apiKey: Option<string>, context: string, llm: string -> LlmReply)
    returns (result: Result<map<string, Json>, PyError>, llmInputs: seq<string>)
    // a missing key is a ValueError raised before any LLM call
    ensures !HasCredential(apiKey) ==>
      result == Failure(ValueError(MissingKeyMessage)) && llmInputs == []
    ensures HasCredential(apiKey) ==> llmInputs == [context]
    // a returned summary carries every required field, with `technologies` a list
    ensures result.Success? ==>
      HasRequiredFields(result.value) && TechnologiesField in result.value
      && result.value[TechnologiesField].JArray?
    // the only ValueError that escapes is the missing key
    ensures result.Failure? && result.error.ValueError? <==> !HasCredential(apiKey)
    ensures HasCredential(apiKey) ==>
      match llm(context)
      case CallFailed(reason) =>
        result == Failure(Exception(CallFailedPrefix + reason))
      case Replied(DecodeFailed(reason)) =>
        result == Failure(Exception(JsonErrorPrefix + reason))
      case Replied(Decoded(obj)) =>
        if HasRequiredFields(obj) then
          RequiredFields[1] in obj && result == Success(Normalized(obj))
        else
          exists field | IsFirstMissing(obj, field) ::
            result == Failure(Exception(CallFailedPrefix + MissingFieldPrefix + field))
  {
    if !HasCredential(apiKey) {
      return Failure(ValueError(MissingKeyMessage)), [];
    }
    llmInputs := [context];
    var raised: Option<TryFailure> := None;
    var obj: map<string, Json> := map[];
    match llm(context) {
      case CallFailed(reason) =>
        raised := Some(CallError(reason));
      case Replied(DecodeFailed(reason)) =>
        raised := Some(JsonDecodeError(reason));
      case Replied(Decoded(members)) =>
        obj := members;
        var missing := FindMissingField(obj);
        if missing.Some? {
          raised := Some(MissingField(missing.value));
        } else {
          assert RequiredFields[1] in obj;
          if !obj[TechnologiesField].JArray? {
            obj := obj[TechnologiesField := JArray([obj[TechnologiesField]])];
          }
        }
    }
    if raised.Some? {
      result := Failure(Rewrap(raised.value));
    } else {
      result := Success(obj);
    }
  }
}
