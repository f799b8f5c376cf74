/** The readiness chain and the two query paths of `CamosRAGPipeline`
    (`src/rag_pipeline.py`), and its construction as the application performs
    it (`app.py`).

    The language model and the `RetrievalQA` chain are opaque calls that may
    raise; they are fields of arrow type. `runChain` stands for the chain call
    together with the lookup of its "result" key, both inside the `try` of
    `query_rag`. Each reply records which of them it consulted, so that "not
    called" can be stated. */
module Rag {
  import opened Outcomes
  import opened PyText
  import opened Templates
  import opened Ingest

  /** The configuration the pipeline reads: the Ollama model name, the state
      of the vector-store directory, the two prompt templates, and the
      exception, if any, that building the embedding model inside
      `load_vector_store` raises. */
  datatype Config = Config(modelName: string, indexDir: IndexDir, ragTemplate: string, debugTemplate: string,
                           loadEmbedError: Option<string>)

  /** `vectorstore.as_retriever(search_kwargs={"k": k})`. */
  datatype Retriever = Retriever(index: Index, k: nat)

  /** A `RetrievalQA` chain of type "stuff" over a retriever, with its prompt. */
  datatype QaChain = QaChain(retriever: Retriever, prompt: string)

  /** A call to one of the opaque components. */
  datatype Call = ChainCall(chain: QaChain, query: string) | LlmCall(prompt: string)

  /** The text returned to the caller, and the calls made to produce it. */
  datatype Reply = Reply(text: string, calls: seq<Call>)

  /** Number of documents the retriever returns. */
  const TopK: nat := 5

  const NotReadyMessage: string := "RAG system not ready. Please ensure data has been ingested."

  /** The text that ends both failure messages. */
  function ServerHint(modelName: string): string {
    ". Please ensure Ollama server is running and the model '" + modelName + "' is pulled."
  }

  /** `_load_or_recreate_vector_store`: the store is loaded only from an
      existing, non-empty directory; otherwise there is none, and no
      embedding model is built. */
  function LoadOrRecreateVectorStore(dir: IndexDir, embedError: Option<string>): (r: Outcome<Option<Index>>)
    ensures !(dir.Present? && |dir.files| > 0) ==> r == Ok(None)
    ensures r.Raised? <==> dir.Present? && |dir.files| > 0 && (embedError.Some? || dir.saved.None?)
    ensures r.Ok? && r.value.Some? ==> embedError.None? && r.value == dir.saved
  {
    if dir.Present? && |dir.files| > 0 then LoadVectorStore(dir, embedError) else Ok(None)
  }

  /** `_initialize_qa_chain` on the retriever it reads: no retriever, no chain. */
  function InitializeQaChain(retriever: Option<Retriever>, ragTemplate: string): (r: Option<QaChain>)
    ensures r.None? <==> retriever.None?
    ensures r.Some? ==> r.value.retriever == retriever.value && r.value.prompt == ragTemplate
  {
    match retriever
    case None => None
    case Some(ret) => Some(QaChain(ret, ragTemplate))
  }

  /** The fields passed to the debug template. */
  function DebugFields(code: string, error: string): map<string, string> {
    map["code_snippet" := code, "error_message" := error]
  }

  class Pipeline {
    const config: Config
    const llm: string -> Outcome<string>
    const runChain: (QaChain, string) -> Outcome<string>
    const vectorstore: Option<Index>
    const retriever: Option<Retriever>
    const qaChain: Option<QaChain>

    /** Each readiness field is set exactly when the one it is built from is. */
    ghost predicate Valid() {
      && (retriever.Some? <==> vectorstore.Some?)
      && (retriever.Some? ==> retriever.value == Retriever(vectorstore.value, TopK))
      && (qaChain.None? <==> retriever.None?)
      && (qaChain.Some? ==> qaChain.value == QaChain(retriever.value, config.ragTemplate))
    }

    /** `__init__` from the point where `_load_or_recreate_vector_store`
        returned `loaded`: the vector store, then the retriever built from it,
        then the chain built from the retriever. */
    constructor(config: Config, llm: string -> Outcome<string>,
                runChain: (QaChain, string) -> Outcome<string>, loaded: Option<Index>)
      ensures this.config == config && this.llm == llm && this.runChain == runChain
      ensures vectorstore == loaded
      ensures retriever.Some? <==> loaded.Some?
      ensures retriever.Some? ==> retriever.value.k == TopK
      ensures qaChain.None? <==> retriever.None?
      ensures Valid()
    {
      this.config := config;
      this.llm := llm;
      this.runChain := runChain;
      vectorstore := loaded;
      var ret: Option<Retriever>;
      if loaded.Some? {
        ret := Some(Retriever(loaded.value, TopK));
      } else {
        ret := None;
      }
      retriever := ret;
      qaChain := InitializeQaChain(ret, config.ragTemplate);
    }

    /** `query_rag(question)`: without a chain, the fixed not-ready message and
        no call; otherwise one chain call, whose failure becomes a message. */
    function QueryRag(question: string): (r: Reply)
      ensures qaChain.None? ==> r == Reply(NotReadyMessage, [])
      ensures qaChain.Some? ==> r.calls == [ChainCall(qaChain.value, question)]
      ensures qaChain.Some? && runChain(qaChain.value, question).Ok? ==>
                r.text == runChain(qaChain.value, question).value
      ensures qaChain.Some? && runChain(qaChain.value, question).Raised? ==>
                && r.text == "An error occurred during AI processing: " + runChain(qaChain.value, question).error
                             + ServerHint(config.modelName)
                && StartsWith(r.text, "An error occurred during AI processing: ")
                && EndsWith(r.text, ServerHint(config.modelName))
    {
      match qaChain
      case None => Reply(NotReadyMessage, [])
      case Some(chain) =>
        match runChain(chain, question)
        case Ok(answer) => Reply(answer, [ChainCall(chain, question)])
        case Raised(e) =>
          var prefix := "An error occurred during AI processing: ";
          var text := prefix + e + ServerHint(config.modelName);
          assert text[..|prefix|] == prefix;
          assert text[|text| - |ServerHint(config.modelName)|..] == ServerHint(config.modelName);
          Reply(text, [ChainCall(chain, question)])
    }

    /** `debug_code(code, error)`: fills the debug template, which may raise,
        then makes one language-model call, whose failure becomes a message.
        The retriever and the chain are never consulted. */
    function DebugCode(code: string, error: string): (r: Outcome<Reply>)
      ensures r.Raised? <==> Format(config.debugTemplate, DebugFields(code, error)).Raised?
      ensures r.Ok? ==>
                var prompt := Format(config.debugTemplate, DebugFields(code, error)).value;
                && r.value.calls == [LlmCall(prompt)]
                && (llm(prompt).Ok? ==> r.value.text == llm(prompt).value)
                && (llm(prompt).Raised? ==>
                      && r.value.text == "An error occurred during code debugging: " + llm(prompt).error
                                         + ServerHint(config.modelName)
                      && StartsWith(r.value.text, "An error occurred during code debugging: ")
                      && EndsWith(r.value.text, ServerHint(config.modelName)))
    {
      match Format(config.debugTemplate, DebugFields(code, error))
      case Raised(e) => Raised(e)
      case Ok(prompt) =>
        match llm(prompt)
        case Ok(text) => Ok(Reply(text, [LlmCall(prompt)]))
        case Raised(e) =>
          var prefix := "An error occurred during code debugging: ";
          var text := prefix + e + ServerHint(config.modelName);
          assert text[..|prefix|] == prefix;
          assert text[|text| - |ServerHint(config.modelName)|..] == ServerHint(config.modelName);
          Ok(Reply(text, [LlmCall(prompt)]))
    }
  }

  /** `initialize_rag_pipeline_cached`: builds the pipeline, or gives `None`
      when loading the vector store raised. */
  method InitializeRagPipeline(config: Config, llm: string -> Outcome<string>,
                               runChain: (QaChain, string) -> Outcome<string>)
    returns (r: Option<Pipeline>)
    ensures r.None? <==> LoadOrRecreateVectorStore(config.indexDir, config.loadEmbedError).Raised?
    ensures r.Some? ==>
              && fresh(r.value) && r.value.Valid()
              && r.value.config == config && r.value.llm == llm && r.value.runChain == runChain
              && r.value.vectorstore == LoadOrRecreateVectorStore(config.indexDir, config.loadEmbedError).value
  {
    match LoadOrRecreateVectorStore(config.indexDir, config.loadEmbedError) {
      case Raised(_) =>
        return None;
      case Ok(loaded) =>
        var p := new Pipeline(config, llm, runChain, loaded);
        return Some(p);
    }
  }

  // ---------------------------------------------------------------------------
  // Properties
  // ---------------------------------------------------------------------------

  /** A vector store is loaded only from an existing, non-empty directory that
      holds a saved index, when the embedding model can be built, and then it
      is that index. */
  lemma StoreLoadedOnlyFromSavedIndex(dir: IndexDir, embedError: Option<string>)
    ensures LoadOrRecreateVectorStore(dir, embedError).Ok? && LoadOrRecreateVectorStore(dir, embedError).value.Some? <==>
              dir.Present? && |dir.files| > 0 && dir.saved.Some? && embedError.None?
    ensures LoadOrRecreateVectorStore(dir, embedError).Ok? && LoadOrRecreateVectorStore(dir, embedError).value.Some? ==>
              LoadOrRecreateVectorStore(dir, embedError).value == dir.saved
    ensures !(dir.Present? && |dir.files| > 0) ==> LoadOrRecreateVectorStore(dir, embedError) == Ok(None)
  {
  }

  /** After a successful ingestion, the pipeline loads exactly the index that
      was saved, and is therefore ready, unless building the embedding model
      for the load raises, in which case the load raises that exception. */
  lemma IngestedIndexIsLoaded(docs: seq<Doc>, embed: seq<Doc> -> Outcome<Index>, saveError: Option<string>,
                              dir: IndexDir, embedError: Option<string>)
    requires docs != [] && embed(docs).Ok? && saveError.None?
    ensures embedError.None? ==>
              LoadOrRecreateVectorStore(CreateAndSaveVectorStore(docs, embed, saveError, dir).dir, embedError)
                == Ok(Some(embed(docs).value))
    ensures embedError.Some? ==>
              LoadOrRecreateVectorStore(CreateAndSaveVectorStore(docs, embed, saveError, dir).dir, embedError)
                == Raised(embedError.value)
  {
    SaveThenLoad(docs, embed, saveError, dir, embedError);
  }

  /** A valid pipeline answers from its chain exactly when a vector store was
      loaded; otherwise its queries never reach a component. */
  lemma ReadyIffStoreLoaded(p: Pipeline, question: string)
    requires p.Valid()
    ensures p.qaChain.Some? <==> p.vectorstore.Some?
    ensures p.vectorstore.None? ==> p.QueryRag(question) == Reply(NotReadyMessage, [])
    ensures p.vectorstore.Some? ==>
              p.QueryRag(question).calls
                == [ChainCall(QaChain(Retriever(p.vectorstore.value, TopK), p.config.ragTemplate), question)]
  {
  }

  /** The two names the debug template is filled with are plain names. */
  lemma DebugFieldNamesPlain()
    ensures PlainName("code_snippet") && PlainName("error_message")
  {
    assert "code_snippet"[0] == 'c';
    assert "error_message"[0] == 'e';
  }

  /** A debug template `pre{code_snippet}mid{error_message}post` (with literal
      braces doubled) sends the snippet and the message to the model in place,
      and the model is the only component consulted. */
  lemma DebugPromptFilled(p: Pipeline, pre: string, mid: string, post: string, code: string, error: string)
    requires p.config.debugTemplate
               == Escape(pre) + Field("code_snippet") + Escape(mid) + Field("error_message") + Escape(post)
    ensures p.DebugCode(code, error).Ok?
    ensures p.DebugCode(code, error).value.calls == [LlmCall(pre + code + mid + error + post)]
  {
    DebugFieldNamesPlain();
    FormatTwoFields(pre, "code_snippet", mid, "error_message", post, DebugFields(code, error));
  }

  /** A debug template naming a field other than the two it is given makes
      `debug_code` raise instead of returning a message. */
  lemma DebugTemplateUnknownField(p: Pipeline, pre: string, name: string, rest: string, code: string, error: string)
    requires PlainName(name)
    requires name != "code_snippet" && name != "error_message"
    requires p.config.debugTemplate == Escape(pre) + Field(name) + rest
    ensures p.DebugCode(code, error).Raised?
  {
    FormatMissingField(pre, name, rest, DebugFields(code, error));
  }
}
