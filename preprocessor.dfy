/** The rewrite pass (src/preprocessor.rs): the engine with its mutable globals, `eval_in_place`,
    the traversal closure, and `MiniJinjaPreprocessor::run`. The template engine's renderer is a
    parameter that every contract holds for. */
module Preprocessor {
  import opened Wrappers
  import opened Paths
  import opened Config
  import opened MdBook
  import opened ExtraGlobals

  /** `Environment::render_str` of an engine: given the engine's settings, its globals at the time
      of the call, the template text and the render's variables, it gives the output or an error. */
  type Renderer = (EngineSetup, map<string, Global>, string, Vars) -> Result<string, Error>

  /** The template `eval_in_place` hands to the engine: the prelude, a newline and the text when a
      prelude is asked for and configured, and otherwise the text itself. */
  function TemplateSource(conf: MiniJinjaConfig, s: string, prelude: bool): (t: string)
    ensures !(prelude && conf.preludeString != "") ==> t == s
    ensures prelude && conf.preludeString != "" ==>
      var n := |conf.preludeString|;
      |t| == n + 1 + |s| && t[..n] == conf.preludeString && t[n] == '\n' && t[n + 1..] == s
  {
    if prelude && conf.preludeString != "" then conf.preludeString + "\n" + s else s
  }

  /** What the rendered field holds afterwards: the output on success, the old text on failure. */
  function AfterRender(r: Result<string, Error>, s: string): string {
    if r.Ok? then r.value else s
  }

  /** The globals after the closure has visited `item`: a chapter rebinds `chapter` to its own
      object; other items leave the globals alone. */
  function VisitGlobals(g: map<string, Global>, item: BookItem): (r: map<string, Global>)
    ensures item.ChapterItem? ==> "chapter" in r && r["chapter"] == ChapterGlobal(ChapterObjectFrom(item.chapter))
    ensures !item.ChapterItem? ==> r == g
    ensures forall name :: name != "chapter" ==> (name in r <==> name in g)
    ensures forall name :: name != "chapter" && name in g ==> r[name] == g[name]
  {
    if item.ChapterItem? then g["chapter" := ChapterGlobal(ChapterObjectFrom(item.chapter))] else g
  }

  /** The texts the closure writes into `item` when the globals were `g` before the visit. A
      chapter's name and content are both rendered under the chapter's own, freshly built object,
      which carries the name as it was before rendering; the name without the prelude, the content
      with it. A part title is rendered without the prelude under the globals as they are. A
      separator has no texts. Every render gets the configured variables. */
  function VisitTexts(setup: EngineSetup, g: map<string, Global>, conf: MiniJinjaConfig,
                      item: BookItem, render: Renderer): (t: Texts)
    ensures item.Separator? <==> t == NoTexts
    ensures item.ChapterItem? <==> t.ChapterTexts?
    ensures item.PartTitle? <==> t.TitleText?
    ensures item.ChapterItem? ==>
      var bound := VisitGlobals(g, item);
      t.name == AfterRender(render(setup, bound, item.chapter.name, conf.variables), item.chapter.name)
    ensures item.ChapterItem? ==>
      var bound := VisitGlobals(g, item);
      t.content == AfterRender(render(setup, bound, TemplateSource(conf, item.chapter.content, true), conf.variables),
                               item.chapter.content)
    ensures item.PartTitle? ==>
      t.title == AfterRender(render(setup, g, item.title, conf.variables), item.title)
  {
    match item
    case ChapterItem(c) =>
      var bound := VisitGlobals(g, item);
      ChapterTexts(
        AfterRender(render(setup, bound, TemplateSource(conf, c.name, false), conf.variables), c.name),
        AfterRender(render(setup, bound, TemplateSource(conf, c.content, true), conf.variables), c.content))
    case Separator => NoTexts
    case PartTitle(t) =>
      TitleText(AfterRender(render(setup, g, TemplateSource(conf, t, false), conf.variables), t))
  }

  /** The globals before the `j`-th visit of a traversal that started from `g0`. */
  function GlobalsBefore(items: seq<BookItem>, order: seq<Address>, g0: map<string, Global>, j: nat): map<string, Global>
    requires j <= |order|
    requires forall k :: 0 <= k < |order| ==> ValidAddr(items, order[k])
  {
    if j == 0 then g0 else VisitGlobals(GlobalsBefore(items, order, g0, j - 1), At(items, order[j - 1]))
  }

  /** `out` is what the traversal in `order` makes of `items`, starting from globals `g0`: only
      texts differ, and the texts at the `j`-th visited address are what the closure writes
      there given the globals before that visit. */
  ghost predicate IsRewrite(setup: EngineSetup, conf: MiniJinjaConfig, render: Renderer,
                            g0: map<string, Global>, items: seq<BookItem>, order: seq<Address>,
                            out: seq<BookItem>)
  {
    && IsVisitOrder(items, order)
    && Erase(out) == Erase(items)
    && forall j :: 0 <= j < |order| ==>
         && ValidAddr(out, order[j])
         && TextsOf(At(out, order[j])) ==
              VisitTexts(setup, GlobalsBefore(items, order, g0, j), conf, At(items, order[j]), render)
  }

  /** The state of a traversal in `order` after its first `i` visits: only texts differ, the
      visited items carry what the closure wrote, the others their original texts. */
  ghost predicate PartialRewrite(setup: EngineSetup, conf: MiniJinjaConfig, render: Renderer,
                                 g0: map<string, Global>, items: seq<BookItem>, order: seq<Address>,
                                 out: seq<BookItem>, i: nat)
  {
    && IsVisitOrder(items, order)
    && i <= |order|
    && Erase(out) == Erase(items)
    && (forall j :: 0 <= j < |order| ==> ValidAddr(out, order[j]))
    && (forall j :: 0 <= j < i ==>
          TextsOf(At(out, order[j])) ==
            VisitTexts(setup, GlobalsBefore(items, order, g0, j), conf, At(items, order[j]), render))
    && (forall j :: i <= j < |order| ==> TextsOf(At(out, order[j])) == TextsOf(At(items, order[j])))
  }

  /** One visit of the traversal: writing what the closure computes for the `i`-th address
      extends the partial rewrite by one, and the globals move to those before the next visit. */
  lemma RewriteStep(setup: EngineSetup, conf: MiniJinjaConfig, render: Renderer,
                    g0: map<string, Global>, items: seq<BookItem>, order: seq<Address>,
                    out: seq<BookItem>, i: nat)
    requires PartialRewrite(setup, conf, render, g0, items, order, out, i) && i < |order|
    ensures ValidAddr(out, order[i])
    ensures VisitGlobals(GlobalsBefore(items, order, g0, i), At(out, order[i])) == GlobalsBefore(items, order, g0, i + 1)
    ensures PartialRewrite(setup, conf, render, g0, items, order,
                           SetTexts(out, order[i], VisitTexts(setup, GlobalsBefore(items, order, g0, i), conf, At(out, order[i]), render)),
                           i + 1)
  {
    var a := order[i];
    var g := GlobalsBefore(items, order, g0, i);
    var t := VisitTexts(setup, g, conf, At(out, a), render);
    SameSkeletonAt(out, items, a);
    VisitSeesOwnFields(setup, g, conf, At(out, a), At(items, a), render);
    var out' := SetTexts(out, a, t);
    forall j | 0 <= j < |order|
      ensures ValidAddr(out', order[j])
      ensures TextsOf(At(out', order[j])) == if j == i then t else TextsOf(At(out, order[j]))
    {
      SetTextsAt(out, a, t, order[j]);
    }
    SetTextsErase(out, a, t);
  }

  /** What the closure does depends on the item's own fields only, not on its sub-items, and what
      it writes fits the item. */
  lemma VisitSeesOwnFields(setup: EngineSetup, g: map<string, Global>, conf: MiniJinjaConfig,
                           x: BookItem, y: BookItem, render: Renderer)
    requires EraseItem(x) == EraseItem(y) && TextsOf(x) == TextsOf(y)
    ensures VisitTexts(setup, g, conf, x, render) == VisitTexts(setup, g, conf, y, render)
    ensures VisitGlobals(g, x) == VisitGlobals(g, y)
    ensures TextsOf(WithTexts(x, VisitTexts(setup, g, conf, x, render))) == VisitTexts(setup, g, conf, x, render)
  {
  }

  // ---------------------------------------------------------------------------------------
  // The globals along a traversal

  /** Before the first chapter is visited, the globals are the ones the traversal started with. */
  lemma {:induction false} GlobalsBeforeFirstChapter(items: seq<BookItem>, order: seq<Address>,
                                                     g0: map<string, Global>, j: nat)
    requires j <= |order| && forall k :: 0 <= k < |order| ==> ValidAddr(items, order[k])
    requires forall k :: 0 <= k < j ==> !At(items, order[k]).ChapterItem?
    ensures GlobalsBefore(items, order, g0, j) == g0
  {
    if j > 0 {
      GlobalsBeforeFirstChapter(items, order, g0, j - 1);
    }
  }

  /** Once a chapter has been visited, `chapter` is bound to the object of the chapter visited
      most recently, whatever non-chapter items came after it. */
  lemma {:induction false} ChapterSlotIsLatest(items: seq<BookItem>, order: seq<Address>,
                                               g0: map<string, Global>, k: nat, j: nat)
    requires j <= |order| && forall m :: 0 <= m < |order| ==> ValidAddr(items, order[m])
    requires k < j && At(items, order[k]).ChapterItem?
    requires forall m :: k < m < j ==> !At(items, order[m]).ChapterItem?
    ensures "chapter" in GlobalsBefore(items, order, g0, j)
    ensures GlobalsBefore(items, order, g0, j)["chapter"] == ChapterGlobal(ChapterObjectFrom(At(items, order[k]).chapter))
  {
    if j > k + 1 {
      ChapterSlotIsLatest(items, order, g0, k, j - 1);
    }
  }

  /** The binding of `chapter` is replaced but never removed. */
  lemma {:induction false} ChapterSlotNeverRemoved(items: seq<BookItem>, order: seq<Address>,
                                                   g0: map<string, Global>, k: nat, j: nat)
    requires j <= |order| && forall m :: 0 <= m < |order| ==> ValidAddr(items, order[m])
    requires k <= j && "chapter" in GlobalsBefore(items, order, g0, k)
    ensures "chapter" in GlobalsBefore(items, order, g0, j)
  {
    if j > k {
      ChapterSlotNeverRemoved(items, order, g0, k, j - 1);
    }
  }

  /** Every global other than `chapter` stays as the traversal found it. */
  lemma {:induction false} OtherGlobalsKept(items: seq<BookItem>, order: seq<Address>,
                                            g0: map<string, Global>, j: nat)
    requires j <= |order| && forall m :: 0 <= m < |order| ==> ValidAddr(items, order[m])
    ensures forall name :: name != "chapter" ==> (name in GlobalsBefore(items, order, g0, j) <==> name in g0)
    ensures forall name :: name != "chapter" && name in g0 ==> GlobalsBefore(items, order, g0, j)[name] == g0[name]
  {
    if j > 0 {
      OtherGlobalsKept(items, order, g0, j - 1);
    }
  }

  // ---------------------------------------------------------------------------------------
  // What a rewrite does to the tree

  /** Only texts change: every item is still where it was, of the same kind, a separator is left
      exactly as it was, and a chapter keeps its number, paths, parent names and number of
      sub-items. */
  lemma RewriteKeepsStructure(items: seq<BookItem>, out: seq<BookItem>, a: Address)
    requires Erase(out) == Erase(items) && ValidAddr(items, a)
    ensures ValidAddr(out, a)
    ensures At(items, a).Separator? <==> At(out, a).Separator?
    ensures At(items, a).Separator? ==> At(out, a) == Separator
    ensures At(items, a).PartTitle? <==> At(out, a).PartTitle?
    ensures At(items, a).ChapterItem? <==> At(out, a).ChapterItem?
    ensures At(items, a).ChapterItem? ==>
      var c, d := At(items, a).chapter, At(out, a).chapter;
      && d.number == c.number && d.path == c.path && d.sourcePath == c.sourcePath
      && d.parentNames == c.parentNames && |d.subItems| == |c.subItems|
  {
    SameSkeletonAt(out, items, a);
  }

  /** Every item of the input, at any depth, carries what its own visit wrote. */
  lemma EveryItemRewritten(setup: EngineSetup, conf: MiniJinjaConfig, render: Renderer,
                           g0: map<string, Global>, items: seq<BookItem>, order: seq<Address>,
                           out: seq<BookItem>, a: Address)
    requires IsRewrite(setup, conf, render, g0, items, order, out) && ValidAddr(items, a)
    ensures ValidAddr(out, a)
    ensures exists j ::
      && 0 <= j < |order| && order[j] == a
      && TextsOf(At(out, a)) == VisitTexts(setup, GlobalsBefore(items, order, g0, j), conf, At(items, a), render)
  {
    assert a in order;
    var j :| 0 <= j < |order| && order[j] == a;
  }

  /** A traversal has one outcome: two rewrites of the same tree in the same order with the same
      renderer and starting globals are the same tree. */
  lemma RewriteIsDeterministic(setup: EngineSetup, conf: MiniJinjaConfig, render: Renderer,
                               g0: map<string, Global>, items: seq<BookItem>, order: seq<Address>,
                               out1: seq<BookItem>, out2: seq<BookItem>)
    requires IsRewrite(setup, conf, render, g0, items, order, out1)
    requires IsRewrite(setup, conf, render, g0, items, order, out2)
    ensures out1 == out2
  {
    forall a | ValidAddr(out1, a)
      ensures ValidAddr(out2, a) && TextsOf(At(out1, a)) == TextsOf(At(out2, a))
    {
      SameSkeletonAt(out1, items, a);
      SameSkeletonAt(out2, items, a);
      assert a in order;
      var j :| 0 <= j < |order| && order[j] == a;
    }
    DeterminedByTexts(out1, out2);
  }

  /** A chapter's name and content are both rendered with `chapter` bound to that chapter as it
      was before rendering (so exposing its unrendered name), and the chapter ends up with the two
      renders' outputs, each falling back to its old text on failure. */
  lemma ChapterRendersSeeOwnBinding(setup: EngineSetup, conf: MiniJinjaConfig, render: Renderer,
                                    g0: map<string, Global>, items: seq<BookItem>, order: seq<Address>,
                                    out: seq<BookItem>, j: nat)
    requires IsRewrite(setup, conf, render, g0, items, order, out)
    requires j < |order| && At(items, order[j]).ChapterItem?
    ensures
      var c := At(items, order[j]).chapter;
      var g := GlobalsBefore(items, order, g0, j + 1);
      && "chapter" in g && g["chapter"] == ChapterGlobal(ChapterObjectFrom(c))
      && ChapterObjectFrom(c).name == c.name
      && At(out, order[j]).ChapterItem?
      && At(out, order[j]).chapter.name ==
           AfterRender(render(setup, g, TemplateSource(conf, c.name, false), conf.variables), c.name)
      && At(out, order[j]).chapter.content ==
           AfterRender(render(setup, g, TemplateSource(conf, c.content, true), conf.variables), c.content)
  {
    SameSkeletonAt(out, items, order[j]);
  }

  /** A part title visited after a chapter is rendered with `chapter` still bound to the chapter
      visited most recently: the binding is not cleared between items. */
  lemma PartTitleSeesLatestChapter(setup: EngineSetup, conf: MiniJinjaConfig, render: Renderer,
                                   g0: map<string, Global>, items: seq<BookItem>, order: seq<Address>,
                                   out: seq<BookItem>, k: nat, j: nat)
    requires IsRewrite(setup, conf, render, g0, items, order, out)
    requires k < j < |order| && At(items, order[k]).ChapterItem? && At(items, order[j]).PartTitle?
    requires forall m :: k < m < j ==> !At(items, order[m]).ChapterItem?
    ensures
      var t := At(items, order[j]).title;
      var g := GlobalsBefore(items, order, g0, j);
      && "chapter" in g && g["chapter"] == ChapterGlobal(ChapterObjectFrom(At(items, order[k]).chapter))
      && TextsOf(At(out, order[j])) ==
           TitleText(AfterRender(render(setup, g, TemplateSource(conf, t, false), conf.variables), t))
  {
    ChapterSlotIsLatest(items, order, g0, k, j);
  }

  /** `minijinja::Environment` as the preprocessor uses it: settings fixed by `create_env`, and a
      table of globals that `add_global` and `add_function` write. */
  class Engine {
    const setup: EngineSetup
    var globals: map<string, Global>

    /** `conf.create_env(root)`. */
    constructor (conf: MiniJinjaConfig, root: Path)
      ensures setup == CreateEnv(conf, root)
      ensures globals == map[]
    {
      setup := CreateEnv(conf, root);
      globals := map[];
    }

    /** `add_global`: binds `name`, replacing what it was bound to. */
    method AddGlobal(name: string, value: Global)
      modifies this
      ensures globals == old(globals)[name := value]
    {
      globals := globals[name := value];
    }

    /** `extra_globals::functions::add_functions`. */
    method AddFunctions()
      modifies this
      ensures globals == old(globals)["file_exists" := FunctionGlobal("file_exists")]
                                     ["copy_file" := FunctionGlobal("copy_file")]
                                     ["load_file" := FunctionGlobal("load_file")]
    {
      AddGlobal("file_exists", FunctionGlobal("file_exists"));
      AddGlobal("copy_file", FunctionGlobal("copy_file"));
      AddGlobal("load_file", FunctionGlobal("load_file"));
    }

    /** `eval_in_place`: renders the text, with the prelude when asked for; the text becomes the
        output when the render succeeds and stays as it was when it fails. */
    method EvalInPlace(conf: MiniJinjaConfig, s: string, vars: Vars, prelude: bool, render: Renderer)
      returns (res: string)
      ensures render(setup, globals, TemplateSource(conf, s, prelude), vars).Ok? ==>
        res == render(setup, globals, TemplateSource(conf, s, prelude), vars).value
      ensures render(setup, globals, TemplateSource(conf, s, prelude), vars).Err? ==> res == s
    {
      match render(setup, globals, TemplateSource(conf, s, prelude), vars)
      case Ok(output) =>
        res := output;
      case Err(_) =>
        res := s;
    }

    /** The closure given to `for_each_mut`, for one item; it returns the item's new texts. */
    method Visit(conf: MiniJinjaConfig, item: BookItem, render: Renderer) returns (t: Texts)
      modifies this
      ensures globals == VisitGlobals(old(globals), item)
      ensures t == VisitTexts(setup, old(globals), conf, item, render)
    {
      match item
      case ChapterItem(c) =>
        AddGlobal("chapter", ChapterGlobal(ChapterObjectFrom(c)));
        var name := EvalInPlace(conf, c.name, conf.variables, false, render);
        var content := EvalInPlace(conf, c.content, conf.variables, true, render);
        t := ChapterTexts(name, content);
      case Separator =>
        t := NoTexts;
      case PartTitle(title) =>
        var s := EvalInPlace(conf, title, conf.variables, false, render);
        t := TitleText(s);
    }

    /** `for_each_mut` over the tree with the closure, the items visited in `order`, which may be
        any order that visits each item exactly once. Each visit rewrites the texts of one item in
        place. */
    method ForEachMut(conf: MiniJinjaConfig, items: seq<BookItem>, order: seq<Address>, render: Renderer)
      returns (out: seq<BookItem>)
      requires IsVisitOrder(items, order)
      modifies this
      ensures IsRewrite(setup, conf, render, old(globals), items, order, out)
      ensures globals == GlobalsBefore(items, order, old(globals), |order|)
    {
      out := items;
      var i := 0;
      while i < |order|
        invariant PartialRewrite(setup, conf, render, old(globals), items, order, out, i)
        invariant globals == GlobalsBefore(items, order, old(globals), i)
      {
        RewriteStep(setup, conf, render, old(globals), items, order, out, i);
        var t := Visit(conf, At(out, order[i]), render);
        out := SetTexts(out, order[i], t);
        i := i + 1;
      }
    }
  }

  // ---------------------------------------------------------------------------------------
  // The run

  /** `MiniJinjaPreprocessor::name`. */
  function Name(): (r: string)
    ensures r != [] && '.' !in r
  {
    "minijinja"
  }

  /** The configuration key of the preprocessor's section. */
  function ConfigKey(): (r: string)
    ensures |r| == |"preprocessor."| + |Name()|
    ensures r[..|"preprocessor."|] == "preprocessor." && r[|"preprocessor."|..] == Name()
  {
    "preprocessor." + Name()
  }

  datatype RunError =
    | MissingConfigSection(preprocessor: string)
    | BadConfig(error: ConfigError)
    | Io(message: string)
    | Host(message: string)

  /** The globals in place when traversal starts: `book`, `env` when configured, and the three
      functions. */
  function BaseGlobals(ctx: PreprocessorContext, conf: MiniJinjaConfig, osVars: seq<EnvVar>): (g: map<string, Global>)
    ensures "chapter" !in g
    ensures "book" in g && g["book"] == BookGlobal(NewBookObject(ctx, conf))
    ensures "env" in g <==> conf.globalEnv
    ensures conf.globalEnv ==> g["env"] == EnvGlobal(NewEnvironmentObject(osVars))
    ensures forall f :: f in FunctionNames() ==> f in g && g[f] == FunctionGlobal(f)
    ensures g.Keys == {"book", "file_exists", "copy_file", "load_file"} + (if conf.globalEnv then {"env"} else {})
  {
    var withBook := map["book" := BookGlobal(NewBookObject(ctx, conf))];
    var withEnv := if conf.globalEnv then withBook["env" := EnvGlobal(NewEnvironmentObject(osVars))] else withBook;
    withEnv["file_exists" := FunctionGlobal("file_exists")]
           ["copy_file" := FunctionGlobal("copy_file")]
           ["load_file" := FunctionGlobal("load_file")]
  }

  /** The directory the `book` object calls the template directory is the one the engine loads
      templates from. */
  lemma TemplateDirMatchesLoader(ctx: PreprocessorContext, conf: MiniJinjaConfig)
    ensures NewBookObject(ctx, conf).templateDir == CreateEnv(conf, ctx.root).loaderDir
  {
  }

  /** The path of the summary file: the configured source directory joined with `SUMMARY.md`,
      as configured (not put under the book root). */
  function SummaryPath(ctx: PreprocessorContext): (p: Path)
    ensures p.absolute == ctx.config.src.absolute
    ensures p.comps != [] && LastComp(p) == "SUMMARY.md"
    ensures Parent(p) == Some(ctx.config.src)
  {
    Join(ctx.config.src, Relative(["SUMMARY.md"]))
  }

  /** The book the summary branch produces: read the summary, render it without the prelude
      (a failed render keeps the text), parse it and load the book from it; any failure of the
      read, the parse or the load ends the run. */
  function ReloadedBook<S>(ctx: PreprocessorContext, conf: MiniJinjaConfig, g0: map<string, Global>,
                           render: Renderer, readFile: Path -> Result<string, string>,
                           parseSummary: string -> Result<S, string>,
                           loadBook: (Path, BookConfig, S) -> Result<Book, string>): (r: Result<Book, RunError>)
    ensures r.Err? ==> r.error.Io? || r.error.Host?
    ensures readFile(SummaryPath(ctx)).Err? ==> r == Err(Io(readFile(SummaryPath(ctx)).error))
    ensures r.Ok? ==>
      && readFile(SummaryPath(ctx)).Ok?
      && var text := readFile(SummaryPath(ctx)).value;
         var rendered := AfterRender(render(CreateEnv(conf, ctx.root), g0, text, conf.variables), text);
         && parseSummary(rendered).Ok?
         && loadBook(ctx.root, ctx.config, parseSummary(rendered).value) == Ok(r.value)
    ensures readFile(SummaryPath(ctx)).Ok? ==>
      var text := readFile(SummaryPath(ctx)).value;
      var rendered := AfterRender(render(CreateEnv(conf, ctx.root), g0, text, conf.variables), text);
      && (parseSummary(rendered).Err? ==> r == Err(Host(parseSummary(rendered).error)))
      && (parseSummary(rendered).Ok? ==>
            var loaded := loadBook(ctx.root, ctx.config, parseSummary(rendered).value);
            r == if loaded.Ok? then Ok(loaded.value) else Err(Host(loaded.error)))
  {
    match readFile(SummaryPath(ctx))
    case Err(e) => Err(Io(e))
    case Ok(text) =>
      var rendered := AfterRender(render(CreateEnv(conf, ctx.root), g0, TemplateSource(conf, text, false), conf.variables), text);
      match parseSummary(rendered)
      case Err(e) => Err(Host(e))
      case Ok(summary) =>
        match loadBook(ctx.root, ctx.config, summary)
        case Err(e) => Err(Host(e))
        case Ok(b) => Ok(b)
  }

  /** The engine `run` sets up: `create_env`, then `book`, `env` when configured, and the three
      functions. */
  method NewEngine(ctx: PreprocessorContext, conf: MiniJinjaConfig, osVars: seq<EnvVar>) returns (env: Engine)
    ensures fresh(env)
    ensures env.setup == CreateEnv(conf, ctx.root)
    ensures env.globals == BaseGlobals(ctx, conf, osVars)
  {
    env := new Engine(conf, ctx.root);
    env.AddGlobal("book", BookGlobal(NewBookObject(ctx, conf)));
    if conf.globalEnv {
      env.AddGlobal("env", EnvGlobal(NewEnvironmentObject(osVars)));
    }
    env.AddFunctions();
  }

  /** The summary branch of `run`: `read_to_string`, `eval_in_place` without the prelude,
      `parse_summary` and `load_with_config_and_summary`, each failure ending the run. */
  method ReloadSummary<S>(env: Engine, ctx: PreprocessorContext, conf: MiniJinjaConfig, render: Renderer,
                          readFile: Path -> Result<string, string>,
                          parseSummary: string -> Result<S, string>,
                          loadBook: (Path, BookConfig, S) -> Result<Book, string>)
    returns (r: Result<Book, RunError>)
    requires env.setup == CreateEnv(conf, ctx.root)
    ensures r == ReloadedBook(ctx, conf, env.globals, render, readFile, parseSummary, loadBook)
  {
    var read := readFile(SummaryPath(ctx));
    if read.Err? {
      return Err(Io(read.error));
    }
    var summaryText := env.EvalInPlace(conf, read.value, conf.variables, false, render);
    var summary := parseSummary(summaryText);
    if summary.Err? {
      return Err(Host(summary.error));
    }
    var loaded := loadBook(ctx.root, ctx.config, summary.value);
    if loaded.Err? {
      return Err(Host(loaded.error));
    }
    r := Ok(loaded.value);
  }

  /** `MiniJinjaPreprocessor::run`. The host's readers, parsers and loaders are parameters:
      `readFile` is `std::fs::read_to_string`, `parseSummary` is `mdbook::book::parse_summary`,
      `loadBook` is `MDBook::load_with_config_and_summary`, and `osVars` is what
      `env::vars_os` yields. */
  method Run<S>(ctx: PreprocessorContext, book: Book, osVars: seq<EnvVar>, render: Renderer,
                readFile: Path -> Result<string, string>,
                parseSummary: string -> Result<S, string>,
                loadBook: (Path, BookConfig, S) -> Result<Book, string>)
    returns (r: Result<Book, RunError>)
    ensures ConfigKey() !in ctx.config.tables ==> r == Err(MissingConfigSection("minijinja"))
    ensures ConfigKey() in ctx.config.tables && Deserialize(ctx.config.tables[ConfigKey()]).Err? ==>
      r == Err(BadConfig(Deserialize(ctx.config.tables[ConfigKey()]).error))
    ensures ConfigKey() in ctx.config.tables && Deserialize(ctx.config.tables[ConfigKey()]).Ok? ==>
      var conf := Deserialize(ctx.config.tables[ConfigKey()]).value;
      var g0 := BaseGlobals(ctx, conf, osVars);
      var input := if conf.preprocessSummary
                   then ReloadedBook(ctx, conf, g0, render, readFile, parseSummary, loadBook)
                   else Ok(book);
      (input.Err? ==> r == Err(input.error)) &&
      (input.Ok? ==>
         r.Ok? &&
         IsRewrite(CreateEnv(conf, ctx.root), conf, render, g0, input.value.sections,
                   PostOrder(input.value.sections), r.value.sections))
  {
    var opt := GetDeserializedOpt(ctx.config, ConfigKey());
    if opt.Err? {
      return Err(BadConfig(opt.error));
    }
    if opt.value.None? {
      return Err(MissingConfigSection(Name()));
    }
    var conf := opt.value.value;

    var env := NewEngine(ctx, conf, osVars);
    var input := book;
    if conf.preprocessSummary {
      var reloaded := ReloadSummary(env, ctx, conf, render, readFile, parseSummary, loadBook);
      if reloaded.Err? {
        return Err(reloaded.error);
      }
      input := reloaded.value;
    }

    PostOrderIsVisitOrder(input.sections);
    var sections := env.ForEachMut(conf, input.sections, PostOrder(input.sections), render);
    r := Ok(Book(sections));
  }
}
