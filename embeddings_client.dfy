/** Turning texts into embeddings with a model endpoint that may fail:
    input truncation, the retry policy for throttling, and the batch loop. */
module EmbeddingsClient {
  import opened Wrappers

  /** How many times a throttled invocation is retried. */
  const MaxRetries: nat := 5

  /** Longest input sent to the model, in characters. */
  const EmbeddingInputLimitChars: nat := 30000

  /** The error codes that mean "slow down" and are worth a retry. */
  const ThrottlingCodes: set<string> := {"ThrottlingException", "TooManyRequestsException"}

  /** An embedding vector; its numbers are never inspected here. */
  type Embedding = seq<real>

  /** The text actually sent: the first 30,000 characters of a longer
      text, a shorter one unchanged. */
  function TruncateInput(text: string): (r: string)
    ensures |r| <= EmbeddingInputLimitChars && |r| <= |text|
    ensures r == text[..|r|]
    ensures |text| <= EmbeddingInputLimitChars ==> r == text
    ensures |text| > EmbeddingInputLimitChars ==> |r| == EmbeddingInputLimitChars
  {
    if |text| > EmbeddingInputLimitChars then text[..EmbeddingInputLimitChars] else text
  }

  /** A failed invocation on attempt `attempt` (counted from 0) is retried
      exactly when its code is a throttling code and retries remain. */
  predicate Retryable(code: string, attempt: nat) {
    code in ThrottlingCodes && attempt < MaxRetries
  }

  /** How many invocations the retry loop makes from attempt `attempt` on,
      its next invocation being call number `call`: it stops at the first
      success, at an error it does not retry, or after the last attempt. */
  function Attempts(errors: map<nat, string>, call: nat, attempt: nat): (n: nat)
    requires attempt <= MaxRetries
    ensures 1 <= n <= MaxRetries + 1 - attempt
    decreases MaxRetries - attempt
  {
    if call in errors && Retryable(errors[call], attempt) then 1 + Attempts(errors, call + 1, attempt + 1)
    else 1
  }

  /** One step of the retry loop: a retried failure adds one invocation
      to those still to come; any other outcome is the last. */
  lemma AttemptsStep(errors: map<nat, string>, call: nat, attempt: nat)
    requires attempt <= MaxRetries
    ensures call in errors && Retryable(errors[call], attempt) ==>
              Attempts(errors, call, attempt) == 1 + Attempts(errors, call + 1, attempt + 1)
    ensures !(call in errors && Retryable(errors[call], attempt)) ==> Attempts(errors, call, attempt) == 1
  {
  }

  /** Every invocation but the last failed with a throttling code; the
      last one is a success, an error of another kind, or the final
      attempt. */
  lemma {:induction false} AttemptsRetryOnlyThrottling(errors: map<nat, string>, call: nat, attempt: nat)
    requires attempt <= MaxRetries
    ensures var n := Attempts(errors, call, attempt);
            && (forall c :: call <= c < call + n - 1 ==> c in errors && errors[c] in ThrottlingCodes)
            && (call + n - 1 in errors ==> errors[call + n - 1] !in ThrottlingCodes || attempt + n == MaxRetries + 1)
    decreases MaxRetries - attempt
  {
    if call in errors && Retryable(errors[call], attempt) {
      AttemptsRetryOnlyThrottling(errors, call + 1, attempt + 1);
    }
  }

  /** The number of the last invocation made for one text whose first
      invocation is call `call`. */
  function LastCall(errors: map<nat, string>, call: nat): (c: nat)
    ensures call <= c <= call + MaxRetries
  {
    call + Attempts(errors, call, 0) - 1
  }

  /** The first invocation succeeds: it is the only one. */
  lemma FirstSuccessEnds(errors: map<nat, string>, call: nat)
    requires call !in errors
    ensures Attempts(errors, call, 0) == 1 && LastCall(errors, call) == call
  {
  }

  /** An error that is not throttling is never retried. */
  lemma OtherErrorNotRetried(errors: map<nat, string>, call: nat)
    requires call in errors && errors[call] !in ThrottlingCodes
    ensures Attempts(errors, call, 0) == 1
  {
  }

  /** When every one of six invocations is throttled, the loop gives up
      after the sixth and fails with its code. */
  lemma {:induction false} AllThrottled(errors: map<nat, string>, call: nat, attempt: nat)
    requires attempt <= MaxRetries
    requires forall c :: call <= c <= call + MaxRetries - attempt ==> c in errors && errors[c] in ThrottlingCodes
    ensures Attempts(errors, call, attempt) == MaxRetries + 1 - attempt
    decreases MaxRetries - attempt
  {
    if attempt < MaxRetries {
      AllThrottled(errors, call + 1, attempt + 1);
    }
  }

  /** The model endpoint. A successful invocation on `input` returns
      `model(input)`; invocations are numbered from 0 and `errors` gives
      the error code of each one that fails. */
  class EmbeddingModel {
    const model: string -> Embedding
    const errors: map<nat, string>
    var calls: nat

    constructor (model: string -> Embedding, errors: map<nat, string>)
      ensures this.model == model && this.errors == errors && calls == 0
    {
      this.model := model;
      this.errors := errors;
      calls := 0;
    }

    /** What invocation number `call` on `input` returns. */
    function Outcome(call: nat, input: string): (r: Result<Embedding, string>)
      ensures r.Failure? <==> call in errors
    {
      if call in errors then Failure(errors[call]) else Success(model(input))
    }

    /** `invoke_model` on one input. */
    method InvokeModel(input: string) returns (r: Result<Embedding, string>)
      modifies this
      ensures r == Outcome(old(calls), input)
      ensures calls == old(calls) + 1
    {
      r := Outcome(calls, input);
      calls := calls + 1;
    }
  }

  /** `generate_embedding_vector`: truncates the text, then invokes the
      model until an invocation succeeds, fails with an error it does not
      retry, or the sixth attempt fails. The result is the embedding of
      the truncated text, or the error of the last invocation. */
  method GenerateEmbeddingVector(endpoint: EmbeddingModel, text: string) returns (r: Result<Embedding, string>)
    modifies endpoint
    ensures endpoint.calls == old(endpoint.calls) + Attempts(endpoint.errors, old(endpoint.calls), 0)
    ensures r == if LastCall(endpoint.errors, old(endpoint.calls)) in endpoint.errors
                 then Failure(endpoint.errors[LastCall(endpoint.errors, old(endpoint.calls))])
                 else Success(endpoint.model(TruncateInput(text)))
  {
    var input := text;
    if |text| > EmbeddingInputLimitChars {
      input := text[..EmbeddingInputLimitChars];
    }
    assert input == TruncateInput(text);
    ghost var call0 := endpoint.calls;
    ghost var errors := endpoint.errors;
    var attempt := 0;
    var outcome := endpoint.InvokeModel(input);
    while outcome.Failure? && outcome.error in ThrottlingCodes && attempt < MaxRetries
      invariant attempt <= MaxRetries
      invariant endpoint.calls == call0 + attempt + 1
      invariant RetriesLeft(errors, call0, attempt)
      invariant outcome == endpoint.Outcome(call0 + attempt, input)
      decreases MaxRetries - attempt
    {
      RetriesLeftStep(errors, call0, attempt);
      attempt := attempt + 1;
      outcome := endpoint.InvokeModel(input);
    }
    RetriesLeftStep(errors, call0, attempt);
    r := outcome;
  }

  /** After `attempt` retries of a text whose first invocation was call
      `call0`, the invocations still to come complete its total. */
  ghost predicate RetriesLeft(errors: map<nat, string>, call0: nat, attempt: nat)
    requires attempt <= MaxRetries
  {
    Attempts(errors, call0, 0) == attempt + Attempts(errors, call0 + attempt, attempt)
  }

  lemma RetriesLeftStep(errors: map<nat, string>, call0: nat, attempt: nat)
    requires attempt <= MaxRetries && RetriesLeft(errors, call0, attempt)
    ensures call0 + attempt in errors && Retryable(errors[call0 + attempt], attempt) ==>
              RetriesLeft(errors, call0, attempt + 1)
    ensures !(call0 + attempt in errors && Retryable(errors[call0 + attempt], attempt)) ==>
              Attempts(errors, call0, 0) == attempt + 1
  {
    AttemptsStep(errors, call0 + attempt, attempt);
  }

  /** The calls and the outcome of embedding a list of texts one after the
      other, the first invocation being call `call`: the number of
      invocations made, and the error that stopped the batch, if any. */
  datatype BatchRun = BatchRun(calls: nat, error: Option<string>)

  function EmbedAll(errors: map<nat, string>, call: nat, texts: seq<string>): (run: BatchRun)
    ensures texts != [] ==> run.calls >= 1
    ensures run.calls <= (MaxRetries + 1) * |texts|
    decreases |texts|
  {
    if texts == [] then BatchRun(0, None)
    else
      var n := Attempts(errors, call, 0);
      var last := call + n - 1;
      if last in errors then BatchRun(n, Some(errors[last]))
      else
        var rest := EmbedAll(errors, call + n, texts[1..]);
        BatchRun(n + rest.calls, rest.error)
  }

  /** One text of the batch: its invocations, then the rest of the batch
      unless it failed. */
  lemma EmbedAllStep(errors: map<nat, string>, call: nat, texts: seq<string>)
    requires texts != []
    ensures LastCall(errors, call) in errors ==>
              EmbedAll(errors, call, texts) == BatchRun(Attempts(errors, call, 0), Some(errors[LastCall(errors, call)]))
    ensures LastCall(errors, call) !in errors ==>
              var rest := EmbedAll(errors, call + Attempts(errors, call, 0), texts[1..]);
              EmbedAll(errors, call, texts) == BatchRun(Attempts(errors, call, 0) + rest.calls, rest.error)
  {
  }

  /** Partway through a batch, the texts left account for the rest of
      the whole run. */
  ghost predicate Remaining(errors: map<nat, string>, call0: nat, call: nat, texts: seq<string>, whole: BatchRun) {
    var rest := EmbedAll(errors, call, texts);
    && call0 <= call
    && call - call0 + rest.calls == whole.calls
    && rest.error == whole.error
  }

  /** With no failing invocation, every text is embedded with a single
      invocation each. */
  lemma {:induction false} EmbedAllNoErrors(errors: map<nat, string>, call: nat, texts: seq<string>)
    requires forall c :: c >= call ==> c !in errors
    ensures EmbedAll(errors, call, texts) == BatchRun(|texts|, None)
    decreases |texts|
  {
    if texts != [] {
      FirstSuccessEnds(errors, call);
      EmbedAllNoErrors(errors, call + 1, texts[1..]);
    }
  }

  /** `generate_embeddings_batch`: embeds the texts in order; the first
      failure propagates, so either every text gets its embedding, element
      `i` being that of text `i`, or there is no list at all. */
  method GenerateEmbeddingsBatch(endpoint: EmbeddingModel, texts: seq<string>) returns (r: Result<seq<Embedding>, string>)
    modifies endpoint
    ensures endpoint.calls == old(endpoint.calls) + EmbedAll(endpoint.errors, old(endpoint.calls), texts).calls
    ensures r.Failure? <==> EmbedAll(endpoint.errors, old(endpoint.calls), texts).error.Some?
    ensures r.Failure? ==> r.error == EmbedAll(endpoint.errors, old(endpoint.calls), texts).error.value
    ensures r.Success? ==> |r.value| == |texts|
    ensures r.Success? ==> forall i :: 0 <= i < |texts| ==> r.value[i] == endpoint.model(TruncateInput(texts[i]))
  {
    ghost var call0 := endpoint.calls;
    ghost var whole := EmbedAll(endpoint.errors, call0, texts);
    var embeddings: seq<Embedding> := [];
    var i := 0;
    while i < |texts|
      invariant i <= |texts| && |embeddings| == i
      invariant forall j :: 0 <= j < i ==> embeddings[j] == endpoint.model(TruncateInput(texts[j]))
      invariant Remaining(endpoint.errors, call0, endpoint.calls, texts[i..], whole)
    {
      EmbedAllStep(endpoint.errors, endpoint.calls, texts[i..]);
      assert texts[i..][1..] == texts[i + 1..];
      var embedding := GenerateEmbeddingVector(endpoint, texts[i]);
      if embedding.Failure? {
        return Failure(embedding.error);
      }
      embeddings := embeddings + [embedding.value];
      i := i + 1;
    }
    return Success(embeddings);
  }
}
