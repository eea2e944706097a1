/**
 * The fallback generator of RAG/fallback.py: a guard that refuses to build
 * the generator unless it is configured for Gemini, and a `generate` that
 * retries once when the first cleaned answer is empty and never returns an
 * empty text.
 */
module Fallback {
  import opened Common
  import opened Sanitizer
  import opened Llm

  /** The last-resort answer, returned when nothing usable came back. */
  const Refusal: string := "I'm sorry\U{2014}I can't provide a reliable medical answer right now."

  /** Why the constructor raised: `RuntimeError` for the first two, `ValueError` for a bad number. */
  datatype ConfigError =
    | UnsupportedProvider(provider: string)
    | LlmNotConfigured
    | NotANumber(text: string)

  /** `int(text)` and `float(text)`: the parsed value, or `None` where Python raises `ValueError`. */
  datatype Parsers = Parsers(toInt: string -> Option<int>, toReal: string -> Option<real>)

  /** The values `__init__` stores. */
  datatype Config = Config(maxTokens: int, temperature: real, modelId: string)

  function Provider(env: Env): string {
    Lower(GetEnv(env, "FALLBACK_PROVIDER", "gemini"))
  }

  /**
   * What `FallbackModel()` does with the environment: the configuration it
   * stores, or the error it raises, checked in the source's order.
   */
  function Configure(env: Env, llmConfigured: bool, parse: Parsers): Result<Config, ConfigError> {
    var modelId := GetEnv(env, "FALLBACK_MODEL_ID", "gemini-2.5-flash");
    var tokens := GetEnv(env, "FALLBACK_MAX_TOKENS", "128");
    var temperature := GetEnv(env, "FALLBACK_TEMPERATURE", "0.2");
    if Provider(env) != "gemini" then Err(UnsupportedProvider(Provider(env)))
    else if !llmConfigured then Err(LlmNotConfigured)
    else if parse.toInt(tokens).None? then Err(NotANumber(tokens))
    else if parse.toReal(temperature).None? then Err(NotANumber(temperature))
    else Ok(Config(parse.toInt(tokens).value, parse.toReal(temperature).value, modelId))
  }

  /**
   * The guard: construction succeeds exactly when the provider is Gemini in
   * any case, a language model is configured, and both numbers parse; a
   * wrong provider is reported before a missing model, and both before a
   * bad number.
   */
  lemma ConfigureGuard(env: Env, llmConfigured: bool, parse: Parsers)
    ensures Configure(env, llmConfigured, parse).Ok?
        <==> && Provider(env) == "gemini"
             && llmConfigured
             && parse.toInt(GetEnv(env, "FALLBACK_MAX_TOKENS", "128")).Some?
             && parse.toReal(GetEnv(env, "FALLBACK_TEMPERATURE", "0.2")).Some?
    ensures Provider(env) != "gemini"
        ==> Configure(env, llmConfigured, parse) == Err(UnsupportedProvider(Provider(env)))
    ensures Provider(env) == "gemini" && !llmConfigured
        ==> Configure(env, llmConfigured, parse) == Err(LlmNotConfigured)
    ensures Configure(env, llmConfigured, parse).Ok?
        ==> Configure(env, llmConfigured, parse).value.modelId == GetEnv(env, "FALLBACK_MODEL_ID", "gemini-2.5-flash")
  {
  }

  /** Without `FALLBACK_PROVIDER` the provider is Gemini, so only the model and the numbers can fail. */
  lemma DefaultProviderIsAccepted(env: Env, llmConfigured: bool, parse: Parsers)
    requires "FALLBACK_PROVIDER" !in env
    ensures Configure(env, llmConfigured, parse).Err? ==> Configure(env, llmConfigured, parse).error != UnsupportedProvider(Provider(env))
  {
    assert Lower("gemini") == "gemini";
  }

  /** The provider is compared case-insensitively: `GEMINI` and `gemini` configure alike. */
  lemma ProviderIsCaseInsensitive(env: Env, llmConfigured: bool, parse: Parsers, p: string)
    ensures Configure(env["FALLBACK_PROVIDER" := p], llmConfigured, parse).Ok?
        <==> Configure(env["FALLBACK_PROVIDER" := Lower(p)], llmConfigured, parse).Ok?
  {
    LowerIsIdempotent(p);
  }

  /** The answer the language model gives to `p`, cleaned; `""` when the call raised. */
  function Cleaned(llm: Completion, p: Prompt): string {
    match llm(p)
    case Raised => ""
    case Returned(out) => CleanAnswer(out)
  }

  /**
   * `text` at the end of `generate`'s `try`: the cleaned first answer, or the
   * cleaned retry when the first is empty; `""` once a call has raised.
   */
  function GeneratedText(question: string, llm: Completion): string {
    match llm(FallbackFirst(question))
    case Raised => ""
    case Returned(out) =>
      if CleanAnswer(out) != "" then CleanAnswer(out) else Cleaned(llm, FallbackRetry(question))
  }

  /** What `generate` returns: never empty, either the refusal or a cleaned model answer. */
  function Generated(question: string, llm: Completion): (r: string)
    ensures r != ""
    ensures r == Refusal || (Tidied(r) && !LooksLikeInstructions(r))
  {
    var text := GeneratedText(question, llm);
    if text != "" then text else Refusal
  }

  /** The prompts `generate` sends: the retry only after a first answer that cleaned to nothing. */
  function GeneratePrompts(question: string, llm: Completion): seq<Prompt> {
    match llm(FallbackFirst(question))
    case Raised => [FallbackFirst(question)]
    case Returned(out) =>
      if CleanAnswer(out) != "" then [FallbackFirst(question)]
      else [FallbackFirst(question), FallbackRetry(question)]
  }

  class FallbackModel {
    const maxTokens: int
    const temperature: real
    const modelId: string

    constructor (config: Config)
      ensures maxTokens == config.maxTokens && temperature == config.temperature && modelId == config.modelId
    {
      maxTokens := config.maxTokens;
      temperature := config.temperature;
      modelId := config.modelId;
    }

    /** `FallbackModel()`: reads the environment and raises unless the guard passes. */
    static method Create(env: Env, llmConfigured: bool, parse: Parsers) returns (r: Result<FallbackModel, ConfigError>)
      ensures r.Err? <==> Configure(env, llmConfigured, parse).Err?
      ensures r.Err? ==> r.error == Configure(env, llmConfigured, parse).error
      ensures r.Ok? ==> fresh(r.value)
      ensures r.Ok? ==> Config(r.value.maxTokens, r.value.temperature, r.value.modelId)
                        == Configure(env, llmConfigured, parse).value
    {
      var provider := Lower(GetEnv(env, "FALLBACK_PROVIDER", "gemini"));
      var modelId := GetEnv(env, "FALLBACK_MODEL_ID", "gemini-2.5-flash");
      if provider != "gemini" {
        return Err(UnsupportedProvider(provider));
      }
      if !llmConfigured {
        return Err(LlmNotConfigured);
      }
      var tokens := GetEnv(env, "FALLBACK_MAX_TOKENS", "128");
      var maxTokens := parse.toInt(tokens);
      if maxTokens.None? {
        return Err(NotANumber(tokens));
      }
      var temperatureText := GetEnv(env, "FALLBACK_TEMPERATURE", "0.2");
      var temperature := parse.toReal(temperatureText);
      if temperature.None? {
        return Err(NotANumber(temperatureText));
      }
      var model := new FallbackModel(Config(maxTokens.value, temperature.value, modelId));
      r := Ok(model);
    }

    /**
     * `generate(question)`: asks once, asks the simpler prompt once more when
     * the first answer cleaned to nothing, and answers with the refusal when
     * nothing usable came back or a call raised. `sent` lists the prompts in
     * the order they were sent.
     */
    method Generate(question: string, llm: Completion) returns (answer: string, sent: seq<Prompt>)
      ensures answer == Generated(question, llm)
      ensures sent == GeneratePrompts(question, llm)
    {
      var text: string;
      sent := [FallbackFirst(question)];
      match llm(FallbackFirst(question)) {
        case Raised =>
          text := "";
        case Returned(out) =>
          text := CleanAnswer(out);
          if text == "" {
            sent := sent + [FallbackRetry(question)];
            match llm(FallbackRetry(question)) {
              case Raised =>
                text := "";
              case Returned(out2) =>
                text := CleanAnswer(out2);
            }
          }
      }
      answer := if text != "" then text else Refusal;
    }
  }

  /** The second call is made exactly when the first call returned a text that cleaned to nothing. */
  lemma RetryOnlyWhenFirstIsEmpty(question: string, llm: Completion)
    ensures GeneratePrompts(question, llm)[0] == FallbackFirst(question)
    ensures 1 <= |GeneratePrompts(question, llm)| <= 2
    ensures |GeneratePrompts(question, llm)| == 2
        <==> llm(FallbackFirst(question)).Returned? && CleanAnswer(llm(FallbackFirst(question)).value) == ""
  {
  }

  /**
   * A usable first answer is returned as cleaned, and the model's answer to
   * the retry prompt then plays no part.
   */
  lemma FirstUsableAnswerIsKept(question: string, llm: Completion, other: Completion)
    requires llm(FallbackFirst(question)).Returned?
    requires CleanAnswer(llm(FallbackFirst(question)).value) != ""
    requires other(FallbackFirst(question)) == llm(FallbackFirst(question))
    ensures Generated(question, llm) == CleanAnswer(llm(FallbackFirst(question)).value)
    ensures Generated(question, other) == Generated(question, llm)
  {
  }

  /**
   * The refusal is returned whenever the first call raised, or its answer
   * cleaned to nothing and the retry raised or cleaned to nothing too;
   * otherwise the answer is the first non-empty cleaned text.
   */
  lemma RefusalWhenNothingUsable(question: string, llm: Completion)
    ensures llm(FallbackFirst(question)).Raised? ==> Generated(question, llm) == Refusal
    ensures llm(FallbackFirst(question)).Returned? && CleanAnswer(llm(FallbackFirst(question)).value) == ""
        ==> (Generated(question, llm)
             == if Cleaned(llm, FallbackRetry(question)) != "" then Cleaned(llm, FallbackRetry(question)) else Refusal)
  {
  }
}
