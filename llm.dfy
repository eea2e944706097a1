/**
 * What the answer handlers exchange with the world outside the model: the
 * prompts they send to the language model (their wording is not modelled,
 * only what goes into them) and the process environment they read.
 */
module Llm {
  import opened Common

  /** A prompt, identified by the template it fills in and the values it carries. */
  datatype Prompt =
      /** RAG/app.py's primary prompt: the question, the evidence excerpts and whether reasoning is asked for. */
    | Primary(question: string, evidence: seq<string>, reasoning: bool)
      /** RAG/app.py's simpler second prompt. */
    | PrimaryRetry(question: string)
      /** RAG/fallback.py's first prompt. */
    | FallbackFirst(question: string)
      /** RAG/fallback.py's simpler second prompt. */
    | FallbackRetry(question: string)
      /** app.py's prompt: the question and its evidence excerpts. */
    | Legacy(question: string, evidence: seq<string>)

  /**
   * The language model: the text of its completion, or `Raised` when the call
   * raised (including when no model is configured).
   */
  type Completion = Prompt -> Outcome<string>

  /** The process environment. */
  type Env = map<string, string>

  /** `os.getenv(name, default)`. */
  function GetEnv(env: Env, name: string, default: string): string {
    if name in env then env[name] else default
  }
}
