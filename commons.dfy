/** The language-model abstraction and the factory that maps a type name to
    the class implementing it (src/backend/commons/llm_factory.py). */
module Commons {
  import opened Wrappers

  /** The token counts a model reports with each reply; the thinking count
      may be absent. */
  datatype Usage = Usage(promptTokenCount: nat, candidatesTokenCount: nat, thoughtsTokenCount: Option<nat>)

  datatype GenerateConfig = GenerateConfig(responseMimeType: string, responseJsonSchema: string, temperature: real)

  /** The arguments of `LLM.generate`. */
  datatype GenerateRequest = GenerateRequest(prompt: string, model: string, documentCacheId: string, config: GenerateConfig)

  /** What `generate` hands back: the text and the usage metadata. */
  datatype GenerateReply = GenerateReply(text: string, usage: Option<Usage>)

  /** An `LLM`. `generate` is abstract: the model is a fixed answer for
      each request (`respond`, which may fail) plus the log of the requests
      it has received, so that callers can be specified by what they ask. */
  class LanguageModel {
    const respond: GenerateRequest -> Result<GenerateReply, string>
    var calls: seq<GenerateRequest>

    constructor(respond: GenerateRequest -> Result<GenerateReply, string>)
      ensures this.respond == respond
      ensures calls == []
    {
      this.respond := respond;
      calls := [];
    }

    /** `generate`: one request, logged, answered by `respond`. */
    method Generate(request: GenerateRequest) returns (r: Result<GenerateReply, string>)
      modifies this
      ensures calls == old(calls) + [request]
      ensures r == respond(request)
    {
      calls := calls + [request];
      r := respond(request);
    }
  }

  /** A Python class as the factory sees it: its name and whether it is a
      subclass of `LLM`. */
  datatype ClassDesc = ClassDesc(name: string, isLlmSubclass: bool)

  /** `llm_class(**config)`: an instance of a registered class built from
      the keyword configuration. */
  datatype LlmInstance = LlmInstance(cls: ClassDesc, config: map<string, string>)

  datatype FactoryError = TypeError(message: string) | ValueError(message: string)

  const GeminiLlm := ClassDesc("GeminiLLM", true)

  /** `LLMFactory`: a registry from type name to `LLM` subclass. */
  class LlmFactory {
    var llmMap: map<string, ClassDesc>

    /** Only subclasses of `LLM` are ever registered. */
    ghost predicate Valid()
      reads this
    {
      forall t :: t in llmMap ==> llmMap[t].isLlmSubclass
    }

    /** `__init__`: the registry starts empty. */
    constructor()
      ensures llmMap == map[]
      ensures Valid()
    {
      llmMap := map[];
    }

    /** `register_llm`: refuses a class that is not an `LLM` with a
        `TypeError` and no change; otherwise binds `llmType` to the class,
        replacing any earlier binding, and leaves every other key alone. */
    method RegisterLlm(llmType: string, llmClass: ClassDesc) returns (r: Result<(), FactoryError>)
      requires Valid()
      modifies this
      ensures Valid()
      ensures !llmClass.isLlmSubclass ==>
                r == Failure(TypeError("llm_class must be a subclass of LLM")) && llmMap == old(llmMap)
      ensures llmClass.isLlmSubclass ==>
                r.Success? && llmMap.Keys == old(llmMap.Keys) + {llmType} && llmMap[llmType] == llmClass
      ensures forall t :: t != llmType && t in old(llmMap) ==> t in llmMap && llmMap[t] == old(llmMap[t])
      ensures llmClass.isLlmSubclass ==>
                forall config :: CreateLlm(llmType, config) == Success(LlmInstance(llmClass, config))
      ensures forall t, config :: t != llmType ==> CreateLlm(t, config) == old(CreateLlm(t, config))
    {
      if !llmClass.isLlmSubclass {
        return Failure(TypeError("llm_class must be a subclass of LLM"));
      }
      llmMap := llmMap[llmType := llmClass];
      r := Success(());
    }

    /** `create_llm`: a `ValueError` for a type never registered, otherwise
        an instance of exactly the class registered under it, given the
        configuration. */
    function CreateLlm(llmType: string, config: map<string, string>): (r: Result<LlmInstance, FactoryError>)
      reads this
      ensures r.Failure? <==> llmType !in llmMap
      ensures r.Failure? ==> r.error == ValueError("Unknown LLM type: " + llmType)
      ensures r.Success? ==> r.value.cls == llmMap[llmType] && r.value.config == config
      ensures r.Success? && Valid() ==> r.value.cls.isLlmSubclass
    {
      if llmType !in llmMap then Failure(ValueError("Unknown LLM type: " + llmType))
      else Success(LlmInstance(llmMap[llmType], config))
    }
  }

  /** `get_llm_factory`: a fresh factory whose only entry is `"gemini"`. */
  method GetLlmFactory() returns (factory: LlmFactory)
    ensures fresh(factory)
    ensures factory.Valid()
    ensures factory.llmMap == map["gemini" := GeminiLlm]
  {
    factory := new LlmFactory();
    var r := factory.RegisterLlm("gemini", GeminiLlm);
    assert factory.llmMap.Keys == {"gemini"};
  }
}
