/** The `[preprocessor.minijinja]` configuration section and the engine settings derived from it
    (src/config.rs). */
module Config {
  import opened Wrappers
  import opened Paths

  /** The preprocessor's own undefined-variable policy. */
  datatype UndefinedBehavior = Lenient | Chainable | Strict

  /** The template engine's policy enum, `minijinja::UndefinedBehavior`. */
  datatype EngineUndefinedBehavior = EngineLenient | EngineChainable | EngineStrict

  /** The `Default` impl. */
  function DefaultUndefinedBehavior(): (b: UndefinedBehavior)
    ensures b == Strict && ToEngine(b) == EngineStrict
  {
    Strict
  }

  /** The name serde derives for each variant. */
  function VariantName(b: UndefinedBehavior): string {
    match b
    case Lenient => "Lenient"
    case Chainable => "Chainable"
    case Strict => "Strict"
  }

  /** The `#[serde(alias = ...)]` of each variant. */
  function VariantAlias(b: UndefinedBehavior): string {
    match b
    case Lenient => "lenient"
    case Chainable => "chainable"
    case Strict => "strict"
  }

  /** Deserialising the policy from a string: the variant's own name or its alias, nothing else. */
  function ParseUndefinedBehavior(s: string): (r: Option<UndefinedBehavior>)
    ensures r.Some? ==> s == VariantName(r.value) || s == VariantAlias(r.value)
    ensures r.None? ==> forall b :: s != VariantName(b) && s != VariantAlias(b)
  {
    if s == "Lenient" || s == "lenient" then Some(Lenient)
    else if s == "Chainable" || s == "chainable" then Some(Chainable)
    else if s == "Strict" || s == "strict" then Some(Strict)
    else None
  }

  /** Both spellings of every variant are accepted and mean that variant. */
  lemma ParseAcceptsNameAndAlias(b: UndefinedBehavior)
    ensures ParseUndefinedBehavior(VariantName(b)) == Some(b)
    ensures ParseUndefinedBehavior(VariantAlias(b)) == Some(b)
  {
  }

  /** The `Into<minijinja::UndefinedBehavior>` impl. */
  function ToEngine(b: UndefinedBehavior): (e: EngineUndefinedBehavior)
    ensures EngineVariantName(e) == VariantName(b)
  {
    match b
    case Lenient => EngineLenient
    case Strict => EngineStrict
    case Chainable => EngineChainable
  }

  /** The name of each of the engine's variants, as the engine spells it. */
  function EngineVariantName(e: EngineUndefinedBehavior): string {
    match e
    case EngineLenient => "Lenient"
    case EngineChainable => "Chainable"
    case EngineStrict => "Strict"
  }

  /** The inverse mapping, from the engine's policy back to the preprocessor's. */
  function FromEngine(e: EngineUndefinedBehavior): UndefinedBehavior {
    match e
    case EngineLenient => Lenient
    case EngineChainable => Chainable
    case EngineStrict => Strict
  }

  /** The mapping onto the engine's policies is a bijection: `FromEngine` undoes it on both sides,
      so it is total, injective and hits every engine policy. */
  lemma ToEngineBijective(b: UndefinedBehavior, e: EngineUndefinedBehavior)
    ensures FromEngine(ToEngine(b)) == b
    ensures ToEngine(FromEngine(e)) == e
  {
  }

  lemma ToEngineInjective(a: UndefinedBehavior, b: UndefinedBehavior)
    ensures ToEngine(a) == ToEngine(b) ==> a == b
  {
  }

  /** A TOML value, the element type of the `variables` table. */
  datatype TomlValue =
    | TString(s: string)
    | TInteger(i: int)
    | TBoolean(b: bool)
    | TArray(items: seq<TomlValue>)
    | TTable(entries: map<string, TomlValue>)

  /** `toml::Table`: the user's template variables. */
  type Vars = map<string, TomlValue>

  /** The configuration section as written, one optional entry per key it may hold. */
  datatype RawSection = RawSection(
    variables: Option<Vars>,
    undefinedBehavior: Option<string>,
    templatesDir: Option<Path>,
    preludeString: Option<string>,
    preprocessSummary: Option<bool>,
    globalEnv: Option<bool>)

  datatype ConfigError = MissingField(field: string) | UnknownVariant(variant: string)

  /** `MiniJinjaConfig`, with the three fields src/preprocessor.rs reads besides the declared ones. */
  datatype MiniJinjaConfig = MiniJinjaConfig(
    variables: Vars,
    undefinedBehavior: UndefinedBehavior,
    templatesDir: Path,
    preludeString: string,
    preprocessSummary: bool,
    globalEnv: bool)

  /** `MiniJinjaConfig::default_templates_dir`. */
  function DefaultTemplatesDir(): (p: Path)
    ensures !p.absolute && p.comps == ["templates"]
    ensures forall root :: Join(root, p) == Path(root.absolute, root.comps + ["templates"])
  {
    Relative(["templates"])
  }

  /** The derived `Deserialize` of the section. `variables` has no default, so a section without it
      is refused; an unknown policy name is refused; every other key falls back to its default. */
  function Deserialize(raw: RawSection): (r: Result<MiniJinjaConfig, ConfigError>)
    ensures r.Ok? <==> (raw.variables.Some? &&
      (raw.undefinedBehavior.Some? ==> ParseUndefinedBehavior(raw.undefinedBehavior.value).Some?))
    ensures r.Ok? ==> r.value.variables == raw.variables.value
    ensures r.Ok? && raw.undefinedBehavior.None? ==> r.value.undefinedBehavior == Strict
    ensures r.Ok? && raw.undefinedBehavior.Some? ==>
      ParseUndefinedBehavior(raw.undefinedBehavior.value) == Some(r.value.undefinedBehavior)
    ensures r.Ok? ==> r.value.templatesDir == raw.templatesDir.GetOr(Relative(["templates"]))
    ensures r.Ok? ==> r.value.preludeString == raw.preludeString.GetOr("")
    ensures r.Ok? ==> r.value.preprocessSummary == raw.preprocessSummary.GetOr(false)
    ensures r.Ok? ==> r.value.globalEnv == raw.globalEnv.GetOr(false)
    ensures raw.undefinedBehavior.Some? && ParseUndefinedBehavior(raw.undefinedBehavior.value).None?
      ==> r == Err(UnknownVariant(raw.undefinedBehavior.value))
  {
    var policy :-
      match raw.undefinedBehavior
      case None => Ok(DefaultUndefinedBehavior())
      case Some(s) =>
        match ParseUndefinedBehavior(s)
        case Some(b) => Ok(b)
        case None => Err(UnknownVariant(s));
    if raw.variables.None? then Err(MissingField("variables"))
    else
      Ok(MiniJinjaConfig(
        raw.variables.value,
        policy,
        raw.templatesDir.GetOr(DefaultTemplatesDir()),
        raw.preludeString.GetOr(""),
        raw.preprocessSummary.GetOr(false),
        raw.globalEnv.GetOr(false)))
  }

  /** What `create_env` sets on a fresh engine: the policy and the template loader's directory. */
  datatype EngineSetup = EngineSetup(undefinedBehavior: EngineUndefinedBehavior, loaderDir: Path)

  /** The loader directory of `create_env`: `templates_dir` itself when absolute, otherwise under
      the book root. Because `join` with an absolute path returns that path, this is always
      `root.join(templates_dir)`. */
  function TemplatesLoaderDir(conf: MiniJinjaConfig, root: Path): (dir: Path)
    ensures dir == Join(root, conf.templatesDir)
    ensures conf.templatesDir.absolute ==> dir == conf.templatesDir
    ensures !conf.templatesDir.absolute ==>
      dir.absolute == root.absolute && dir.comps == root.comps + conf.templatesDir.comps
  {
    if conf.templatesDir.absolute then conf.templatesDir else Join(root, conf.templatesDir)
  }

  /** `create_env` up to the engine calls: the configured policy and the loader directory. */
  function CreateEnv(conf: MiniJinjaConfig, root: Path): (e: EngineSetup)
    ensures FromEngine(e.undefinedBehavior) == conf.undefinedBehavior
    ensures EngineVariantName(e.undefinedBehavior) == VariantName(conf.undefinedBehavior)
    ensures e.loaderDir == Join(root, conf.templatesDir)
  {
    EngineSetup(ToEngine(conf.undefinedBehavior), TemplatesLoaderDir(conf, root))
  }

  /** With `undefined_behavior` and `templates_dir` left out, the engine is strict and loads
      templates from `<root>/templates`. */
  lemma OmittedKeysDefaults(vars: Vars, root: Path)
    ensures var r := Deserialize(RawSection(Some(vars), None, None, None, None, None));
      r.Ok? && r.value.undefinedBehavior == Strict &&
      CreateEnv(r.value, root) ==
        EngineSetup(EngineStrict, Path(root.absolute, root.comps + ["templates"]))
  {
  }
}
