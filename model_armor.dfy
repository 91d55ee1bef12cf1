/**
  The moderation verdict of ModelArmorPlugin.call_model_armor_api
  (module/model_armor_plugin.py). The Model Armor client is a parameter: a
  function from the sanitize request to what the call produced, a response or
  a raised exception.
*/
module ModelArmor {

  /** A SanitizeModelResponseRequest: the template name and the text to check. */
  datatype SanitizeRequest = SanitizeRequest(name: string, modelResponseText: string)

  /** What one sanitize_model_response call produced. `invocationResult` is the
      value of `sanitization_result.invocation_result` as Python compares it:
      the source tests it against `True`, which Python equates with 1. */
  datatype SanitizeOutcome =
    | Sanitized(invocationResult: int)
    | Raised

  /** Python's `True` as an integer. */
  const PythonTrue: int := 1

  /** The plugin's calls to the client during one call_model_armor_api, and its answer. */
  datatype ArmorCall = ArmorCall(requests: seq<SanitizeRequest>, allowed: bool)

  /** The request built from the configured template and the text. */
  function BuildRequest(templateName: string, text: string): (r: SanitizeRequest)
    ensures r.name == templateName && r.modelResponseText == text
  {
    SanitizeRequest(templateName, text)
  }

  /** The verdict: fail closed on an exception and on any result other than `True`. */
  function Verdict(outcome: SanitizeOutcome): (allowed: bool)
    ensures allowed <==> outcome.Sanitized? && outcome.invocationResult == PythonTrue
  {
    match outcome
    case Raised => false
    case Sanitized(result) => if result != PythonTrue then false else true
  }

  /** call_model_armor_api(text) against a client that answers `sanitize`. */
  function CallModelArmorApi(templateName: string, text: string,
                             sanitize: SanitizeRequest -> SanitizeOutcome): (c: ArmorCall)
    ensures |c.requests| == 1
    ensures c.requests[0].name == templateName && c.requests[0].modelResponseText == text
    ensures c.allowed <==> (sanitize(c.requests[0]).Sanitized? && sanitize(c.requests[0]).invocationResult == PythonTrue)
  {
    var request := BuildRequest(templateName, text);
    ArmorCall([request], Verdict(sanitize(request)))
  }

  /** The text passes exactly when the one sanitize call returned without an
      exception and its invocation result equals `True`. */
  lemma AllowedIff(templateName: string, text: string, sanitize: SanitizeRequest -> SanitizeOutcome)
    ensures var outcome := sanitize(SanitizeRequest(templateName, text));
      (CallModelArmorApi(templateName, text, sanitize).allowed
       <==> outcome.Sanitized? && outcome.invocationResult == PythonTrue)
  {
  }

  /** Fail-closed: an exception from the client always blocks. */
  lemma ExceptionBlocks(templateName: string, text: string, sanitize: SanitizeRequest -> SanitizeOutcome)
    requires sanitize(SanitizeRequest(templateName, text)).Raised?
    ensures !CallModelArmorApi(templateName, text, sanitize).allowed
  {
  }

  /** Any invocation result other than `True` blocks. */
  lemma NonTrueResultBlocks(templateName: string, text: string, sanitize: SanitizeRequest -> SanitizeOutcome)
    requires sanitize(SanitizeRequest(templateName, text)).Sanitized?
    requires sanitize(SanitizeRequest(templateName, text)).invocationResult != PythonTrue
    ensures !CallModelArmorApi(templateName, text, sanitize).allowed
  {
  }
}
