/** What the route handlers exchange with their callers and collaborators: the
    response envelope, one call to the chat-completion service and what comes
    back from it, and what the GraphQL indexer returns. The network calls
    themselves are not modelled; their outcomes are inputs. */
module Http {
  import opened Wrappers
  import opened Text

  /** The `error` text of a failure response: either a fixed message, or the
      message of an exception caught by the handler's `catch` block
      (`e?.message || 'Unexpected error'`), which the model leaves abstract. */
  datatype Message = Fixed(text: string) | Thrown

  /** `NextResponse.json(body)` (status 200) or `NextResponse.json({error}, {status})`. */
  datatype Response<T> = Ok(body: T) | Failure(status: nat, message: Message)

  /** One request to the chat-completion service: the model name, the system
      instruction, the user prompt (or the data it serialises) and the
      temperature. */
  datatype InferenceCall<P> = InferenceCall(model: string, system: string, prompt: P, temperature: real)

  /** How that request ended:
      - `Content`: a 2xx status; the first choice's message content;
      - `NotOk`: any other status, with the response text ("" when reading it failed);
      - `Broken`: the request, or decoding its body, threw. */
  datatype Upstream = Content(text: string) | NotOk(status: nat, body: string) | Broken

  /** A handler's outcome together with the call it made to the service, if any. */
  datatype Handled<T, P> = Handled(response: Response<T>, call: Option<InferenceCall<P>>)

  /** The reply of one GraphQL query: `NoData` when the helper returned `null`
      (no endpoint, a non-OK status, GraphQL errors or a thrown fetch), otherwise
      the `agents` field, absent or `null` as `None`. */
  datatype IndexerData<T> = NoData | Data(agents: Option<seq<T>>)

  /** `process.env.OPENAI_API_KEY` is set to a non-empty string. */
  predicate Configured(apiKey: Option<string>) {
    apiKey.Some? && apiKey.value != ""
  }

  /** `process.env.OPENAI_MODEL || 'gpt-4o-mini'`. */
  function ModelName(env: Option<string>): (name: string)
    ensures name != ""
    ensures Configured(env) ==> name == env.value
    ensures !Configured(env) ==> name == "gpt-4o-mini"
  {
    if Configured(env) then env.value else "gpt-4o-mini"
  }

  /** The 500 response for a non-OK reply of the service. */
  function UpstreamFailure<T>(status: nat, body: string): (r: Response<T>)
    ensures r.Failure? && r.status == 500
    ensures r.message == Fixed("OpenAI error: " + NatToDecimal(status) + " " + body)
  {
    Failure(500, Fixed("OpenAI error: " + NatToDecimal(status) + " " + body))
  }

  /** The status code can be read back from the error text of that response. */
  lemma UpstreamStatusRecoverable(status: nat, body: string)
    ensures var text := UpstreamFailure<int>(status, body).message.text;
            ParseIntDecimal(text[|"OpenAI error: "|..]) == Finite(status)
  {
    var text := UpstreamFailure<int>(status, body).message.text;
    assert text[|"OpenAI error: "|..] == NatToDecimal(status) + (" " + body);
    ParseDecimalPrefix(status, " " + body);
  }
}
