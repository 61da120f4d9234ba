/**
 * The application configuration schema: every field's exposure level
 * (`ConfigField`), the section layout of `AppConfig`, each section's
 * defaults and the bounds Pydantic enforces when a section is built.
 */
module ConfigSchemas {
  import opened Wrappers

  /** The `exposure` recorded in a field's `json_schema_extra`. */
  datatype Exposure = Normal | Advanced | Secret

  /**
   * A declared field: a scalar whose `json_schema_extra` may carry an exposure
   * (`None` when the field was declared with plain `Field`), or a field whose
   * annotation is itself a model with fields of its own.
   */
  datatype FieldDecl =
    | Scalar(name: string, exposure: Option<Exposure>)
    | Nested(name: string, fields: seq<FieldDecl>)

  /** `ConfigField(exposure=e)`: the exposure is always recorded. */
  function ConfigField(name: string, exposure: Exposure): (r: FieldDecl)
    ensures r.Scalar? && r.name == name && r.exposure == Some(exposure)
  {
    Scalar(name, Some(exposure))
  }

  const ModelFields: seq<FieldDecl> :=
    [ConfigField("llm", Normal), ConfigField("embedding", Normal), ConfigField("temperature", Advanced)]
  const ResumeFields: seq<FieldDecl> := [ConfigField("default_template", Normal)]
  const ListingsFields: seq<FieldDecl> :=
    [ConfigField("semantic_threshold", Advanced), ConfigField("title_threshold", Advanced),
     ConfigField("company_threshold", Advanced), ConfigField("search_k", Normal)]
  const ExperiencesFields: seq<FieldDecl> := [ConfigField("top_k", Normal), ConfigField("max_bullets", Normal)]
  const ScrapingFields: seq<FieldDecl> :=
    [ConfigField("aggressive", Advanced), ConfigField("headless", Advanced), ConfigField("max_length", Advanced)]
  const EnvFields: seq<FieldDecl> := [ConfigField("openai_api_key", Secret)]

  /** `AppConfig`: six sections, each a nested model declared with plain `Field`. */
  const AppConfig: seq<FieldDecl> :=
    [Nested("model", ModelFields), Nested("resume", ResumeFields), Nested("listings", ListingsFields),
     Nested("experiences", ExperiencesFields), Nested("scraping", ScrapingFields), Nested("env", EnvFields)]

  // ---------------------------------------------------------------- sections, defaults and bounds

  datatype ModelPrefs = ModelPrefs(llm: string, embedding: string, temperature: real)
  datatype ResumePrefs = ResumePrefs(defaultTemplate: string)
  datatype ListingsPrefs = ListingsPrefs(semanticThreshold: real, titleThreshold: real, companyThreshold: real, searchK: int)
  datatype ExperiencesPrefs = ExperiencesPrefs(topK: int, maxBullets: int)
  datatype ScrapingPrefs = ScrapingPrefs(aggressive: bool, headless: bool, maxLength: int)

  /** A Pydantic validation error: the names of the fields that broke their bounds, in declaration order. */
  datatype ValidationError = ValidationError(fields: seq<string>)

  predicate IsFraction(x: real) { 0.0 <= x <= 1.0 }

  /** `ModelPrefs(...)`: `temperature` must lie in [0, 2]. */
  function MakeModelPrefs(llm: string, embedding: string, temperature: real): (r: Result<ModelPrefs, ValidationError>)
    ensures r.Ok? <==> 0.0 <= temperature <= 2.0
    ensures r.Ok? ==> r.value.temperature == temperature && r.value.llm == llm && r.value.embedding == embedding
    ensures r.Err? ==> r.error.fields == ["temperature"]
  {
    if 0.0 <= temperature <= 2.0 then Ok(ModelPrefs(llm, embedding, temperature))
    else Err(ValidationError(["temperature"]))
  }

  /** `ListingsPrefs(...)`: the three thresholds in [0, 1], `search_k` positive; every violation is reported. */
  function MakeListingsPrefs(semantic: real, title: real, company: real, searchK: int): (r: Result<ListingsPrefs, ValidationError>)
    ensures r.Ok? <==> IsFraction(semantic) && IsFraction(title) && IsFraction(company) && searchK > 0
    ensures r.Ok? ==> r.value == ListingsPrefs(semantic, title, company, searchK)
    ensures r.Err? ==> ("semantic_threshold" in r.error.fields <==> !IsFraction(semantic))
    ensures r.Err? ==> ("title_threshold" in r.error.fields <==> !IsFraction(title)) && ("company_threshold" in r.error.fields <==> !IsFraction(company))
    ensures r.Err? ==> ("search_k" in r.error.fields <==> searchK <= 0)
  {
    var a := if IsFraction(semantic) then [] else ["semantic_threshold"];
    var b := if IsFraction(title) then [] else ["title_threshold"];
    var c := if IsFraction(company) then [] else ["company_threshold"];
    var d := if searchK > 0 then [] else ["search_k"];
    var fails := a + b + c + d;
    assert forall x :: x in fails <==> x in a || x in b || x in c || x in d;
    assert |"semantic_threshold"| == 18 && |"title_threshold"| == 15 && |"company_threshold"| == 17 && |"search_k"| == 8;
    if fails == [] then Ok(ListingsPrefs(semantic, title, company, searchK)) else Err(ValidationError(fails))
  }

  /** `ExperiencesPrefs(...)`: both limits positive. */
  function MakeExperiencesPrefs(topK: int, maxBullets: int): (r: Result<ExperiencesPrefs, ValidationError>)
    ensures r.Ok? <==> topK > 0 && maxBullets > 0
    ensures r.Ok? ==> r.value == ExperiencesPrefs(topK, maxBullets)
    ensures r.Err? ==> ("top_k" in r.error.fields <==> topK <= 0) && ("max_bullets" in r.error.fields <==> maxBullets <= 0)
  {
    var fails := (if topK > 0 then [] else ["top_k"]) + (if maxBullets > 0 then [] else ["max_bullets"]);
    if fails == [] then Ok(ExperiencesPrefs(topK, maxBullets)) else Err(ValidationError(fails))
  }

  /** `ScrapingPrefs(...)`: `max_length` positive. */
  function MakeScrapingPrefs(aggressive: bool, headless: bool, maxLength: int): (r: Result<ScrapingPrefs, ValidationError>)
    ensures r.Ok? <==> maxLength > 0
    ensures r.Ok? ==> r.value == ScrapingPrefs(aggressive, headless, maxLength)
  {
    if maxLength > 0 then Ok(ScrapingPrefs(aggressive, headless, maxLength)) else Err(ValidationError(["max_length"]))
  }

  /** The defaults pass their own validation. */
  function DefaultModelPrefs(): (r: ModelPrefs)
    ensures MakeModelPrefs(r.llm, r.embedding, r.temperature) == Ok(r)
    ensures r.temperature == 0.3
  {
    ModelPrefs("gpt-4o-mini", "text-embedding-3-small", 0.3)
  }

  function DefaultResumePrefs(): (r: ResumePrefs)
  {
    ResumePrefs("template-1.html")
  }

  function DefaultListingsPrefs(): (r: ListingsPrefs)
    ensures MakeListingsPrefs(r.semanticThreshold, r.titleThreshold, r.companyThreshold, r.searchK) == Ok(r)
    ensures r.semanticThreshold == 0.90 && r.titleThreshold == 0.85 && r.companyThreshold == 0.90 && r.searchK == 5
  {
    ListingsPrefs(0.90, 0.85, 0.90, 5)
  }

  function DefaultExperiencesPrefs(): (r: ExperiencesPrefs)
    ensures MakeExperiencesPrefs(r.topK, r.maxBullets) == Ok(r)
    ensures r.topK == 3 && r.maxBullets == 4
  {
    ExperiencesPrefs(3, 4)
  }

  function DefaultScrapingPrefs(): (r: ScrapingPrefs)
    ensures MakeScrapingPrefs(r.aggressive, r.headless, r.maxLength) == Ok(r)
    ensures r.aggressive && r.headless && r.maxLength == 10000
  {
    ScrapingPrefs(true, true, 10000)
  }
}
