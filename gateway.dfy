/**
 * `call_llm`: fill the system prompt with the context and hand it, with the
 * question, to the backend the configured provider names; and `ask`, which
 * feeds it the context of the retrieved chunks.
 */
module Gateway {
  import opened Wrappers
  import opened Retrieval

  /** The four language-model backends. */
  datatype Backend = Anthropic | OpenAI | AzureOpenAI | Ollama

  /** The `LLM_PROVIDER` value that selects each backend. */
  function ProviderName(b: Backend): string
  {
    match b
    case Anthropic => "anthropic"
    case OpenAI => "openai"
    case AzureOpenAI => "azure_openai"
    case Ollama => "ollama"
  }

  /** The message of the `ValueError` raised for any other provider. */
  function UnknownProviderMessage(provider: string): string
  {
    "Unknown LLM provider: " + provider
  }

  /** The `if`/`elif` chain of `call_llm`: the backend the provider names, or the error. */
  function SelectBackend(provider: string): Result<Backend, string>
  {
    if provider == "anthropic" then Ok(Anthropic)
    else if provider == "openai" then Ok(OpenAI)
    else if provider == "azure_openai" then Ok(AzureOpenAI)
    else if provider == "ollama" then Ok(Ollama)
    else Err(UnknownProviderMessage(provider))
  }

  /** Each backend's provider name selects that backend. */
  lemma SelectBackendOfName(b: Backend)
    ensures SelectBackend(ProviderName(b)) == Ok(b)
  {
  }

  /**
   * A provider selects a backend exactly when it is that backend's name,
   * and fails with the message naming it otherwise.
   */
  lemma SelectBackendIsName(provider: string)
    ensures SelectBackend(provider).Ok? ==> ProviderName(SelectBackend(provider).value) == provider
    ensures SelectBackend(provider).Err? <==> forall b: Backend :: ProviderName(b) != provider
    ensures SelectBackend(provider).Err? ==> SelectBackend(provider).error == UnknownProviderMessage(provider)
  {
    if SelectBackend(provider).Err? {
      forall b: Backend
        ensures ProviderName(b) != provider
      {
        SelectBackendOfName(b);
      }
    }
  }

  /** Distinct backends have distinct provider names. */
  lemma ProviderNamesDistinct(b1: Backend, b2: Backend)
    requires ProviderName(b1) == ProviderName(b2)
    ensures b1 == b2
  {
    SelectBackendOfName(b1);
    SelectBackendOfName(b2);
  }

  /**
   * `SYSTEM_PROMPT` with its one `{context}` placeholder: the text before
   * it and the text after it, escaped braces already undone.
   */
  datatype PromptTemplate = PromptTemplate(before: string, after: string)

  /** `SYSTEM_PROMPT.format(context=context)`. */
  function FillPrompt(t: PromptTemplate, context: string): string
  {
    t.before + context + t.after
  }

  /** The filled prompt gives back the context between the two fixed parts. */
  lemma FillPromptKeepsContext(t: PromptTemplate, context: string)
    ensures var p := FillPrompt(t, context);
      |p| == |t.before| + |context| + |t.after| && p[|t.before|..|t.before| + |context|] == context
  {
  }

  /** Different contexts give different prompts. */
  lemma FillPromptInjective(t: PromptTemplate, c1: string, c2: string)
    requires FillPrompt(t, c1) == FillPrompt(t, c2)
    ensures c1 == c2
  {
    FillPromptKeepsContext(t, c1);
    FillPromptKeepsContext(t, c2);
  }

  /** The call `call_llm` makes: which backend, with which system prompt and which question. */
  datatype LlmCall = LlmCall(backend: Backend, system: string, query: string)

  /** `call_llm(query, context)`: the backend call it makes, or the error it raises. */
  function CallLlm(provider: string, t: PromptTemplate, query: string, context: string): Result<LlmCall, string>
  {
    var system := FillPrompt(t, context);
    match SelectBackend(provider)
    case Ok(b) => Ok(LlmCall(b, system, query))
    case Err(e) => Err(e)
  }

  /**
   * Each provider name routes to its own backend with the filled prompt and
   * the question unchanged; any other provider raises the error naming it.
   */
  lemma CallLlmRoutes(provider: string, t: PromptTemplate, query: string, context: string)
    ensures forall b: Backend :: provider == ProviderName(b) ==>
      CallLlm(provider, t, query, context) == Ok(LlmCall(b, FillPrompt(t, context), query))
    ensures (forall b: Backend :: provider != ProviderName(b)) ==>
      CallLlm(provider, t, query, context) == Err(UnknownProviderMessage(provider))
  {
    SelectBackendIsName(provider);
    forall b: Backend | provider == ProviderName(b)
      ensures CallLlm(provider, t, query, context) == Ok(LlmCall(b, FillPrompt(t, context), query))
    {
      SelectBackendOfName(b);
    }
  }

  /** `ask` after retrieval: the context of the retrieved records, passed to `call_llm`. */
  function Ask<S>(provider: string, t: PromptTemplate, query: string, records: seq<Record<S>>, showScore: S -> string)
    : Result<LlmCall, string>
  {
    CallLlm(provider, t, query, Context(records, showScore))
  }

  /**
   * With a known provider, `ask` calls the backend with the question and a
   * system prompt that holds exactly the context of the retrieved records,
   * which is empty when nothing was retrieved.
   */
  lemma AskPassesContext<S>(b: Backend, t: PromptTemplate, query: string, records: seq<Record<S>>, showScore: S -> string)
    ensures var r := Ask(ProviderName(b), t, query, records, showScore);
      var c := Context(records, showScore);
      r.Ok? && r.value.backend == b && r.value.query == query &&
      r.value.system[|t.before|..|r.value.system| - |t.after|] == c &&
      (records == [] ==> r.value.system == t.before + t.after)
  {
    SelectBackendOfName(b);
    ContextEmpty(records, showScore);
    FillPromptKeepsContext(t, Context(records, showScore));
  }
}
