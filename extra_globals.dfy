/** The objects the preprocessor exposes to templates and the template-callable file functions
    (src/extra_globals.rs). */
module ExtraGlobals {
  import opened Wrappers
  import opened Paths
  import opened Config
  import MdBook

  /** A template value, as far as these objects look at it. `NoneValue` stands for both `none`
      and `undefined`. */
  datatype Value = Str(s: string) | Bool(b: bool) | NoneValue | OtherValue

  function PathValue(p: Option<Path>): Option<Value> {
    if p.Some? then Some(Str(PathString(p.value))) else None
  }

  // ---------------------------------------------------------------------------------------
  // EnvironmentObject

  /** An `OsString` from the process environment: valid Unicode, or not. */
  datatype OsString = Unicode(text: string) | NonUnicode(raw: seq<bv8>)

  datatype EnvVar = EnvVar(key: OsString, value: OsString)

  /** Kept by the `filter_map`: key and value both convert with `into_string`. */
  predicate Convertible(v: EnvVar) {
    v.key.Unicode? && v.value.Unicode?
  }

  /** The environment entry `i` that has key `k` and survives the filter. */
  predicate EntryFor(vars: seq<EnvVar>, i: int, k: string) {
    0 <= i < |vars| && Convertible(vars[i]) && vars[i].key.text == k
  }

  /** The map that `collect` builds from the kept entries, a later entry with the same key
      replacing an earlier one. Its keys are exactly the keys of the kept entries. */
  function SnapshotVars(vars: seq<EnvVar>): (m: map<string, string>)
    ensures forall k :: k in m <==> exists i :: EntryFor(vars, i, k)
    decreases |vars|
  {
    if |vars| == 0 then map[]
    else
      var n := |vars| - 1;
      var front := SnapshotVars(vars[..n]);
      assert forall i, k :: 0 <= i < n ==> (EntryFor(vars[..n], i, k) <==> EntryFor(vars, i, k));
      assert forall k :: EntryFor(vars, n, k) ==> k == vars[n].key.text;
      if Convertible(vars[n]) then
        assert EntryFor(vars, n, vars[n].key.text);
        front[vars[n].key.text := vars[n].value.text]
      else front
  }

  /** The key list: each kept key once, in the order it first appears. */
  function SnapshotKeys(vars: seq<EnvVar>): (keys: seq<string>)
    ensures forall k :: k in keys <==> k in SnapshotVars(vars)
    ensures forall i, j :: 0 <= i < j < |keys| ==> keys[i] != keys[j]
    decreases |vars|
  {
    if |vars| == 0 then []
    else
      var n := |vars| - 1;
      var front := SnapshotKeys(vars[..n]);
      if Convertible(vars[n]) && vars[n].key.text !in front then front + [vars[n].key.text] else front
  }

  /** `EnvironmentObject`: a snapshot of the environment taken once. */
  datatype EnvironmentObject = EnvironmentObject(vars: map<string, string>, keys: seq<string>)

  /** `EnvironmentObject::new`, given the entries `env::vars_os` yields. */
  function NewEnvironmentObject(osVars: seq<EnvVar>): (e: EnvironmentObject)
    ensures forall k :: k in e.vars <==> exists i :: EntryFor(osVars, i, k)
    ensures forall k :: k in e.keys <==> k in e.vars
    ensures forall i, j :: 0 <= i < j < |e.keys| ==> e.keys[i] != e.keys[j]
    ensures KeysMatchVars(e)
  {
    EnvironmentObject(SnapshotVars(osVars), SnapshotKeys(osVars))
  }

  /** The value of key `k` is that of the last kept entry with key `k`. */
  lemma {:induction false} SnapshotLastWins(vars: seq<EnvVar>, i: int)
    requires 0 <= i < |vars| && Convertible(vars[i])
    requires forall j :: i < j < |vars| ==> !EntryFor(vars, j, vars[i].key.text)
    ensures vars[i].key.text in SnapshotVars(vars)
    ensures SnapshotVars(vars)[vars[i].key.text] == vars[i].value.text
    decreases |vars|
  {
    var n := |vars| - 1;
    if i < n {
      assert !EntryFor(vars, n, vars[i].key.text);
      forall j | i < j < n ensures !EntryFor(vars[..n], j, vars[i].key.text) {
        assert !EntryFor(vars, j, vars[i].key.text);
      }
      SnapshotLastWins(vars[..n], i);
    }
  }

  /** `get_value`: a string key finds its entry; a missing or non-string key finds nothing. */
  function EnvGetValue(e: EnvironmentObject, key: Value): (r: Option<Value>)
    ensures r.Some? <==> key.Str? && key.s in e.vars
    ensures r.Some? ==> r.value == Str(e.vars[key.s])
  {
    match key
    case Str(k) => if k in e.vars then Some(Str(e.vars[k])) else None
    case _ => None
  }

  /** An environment object as `new` builds it: the key list names each key of the map once. */
  ghost predicate KeysMatchVars(e: EnvironmentObject) {
    && (forall k :: k in e.keys <==> k in e.vars)
    && (forall i, j :: 0 <= i < j < |e.keys| ==> e.keys[i] != e.keys[j])
  }

  /** `enumerate`: on an object built by `new`, the keys that have a value, each once. */
  function EnvEnumerate(e: EnvironmentObject): (r: seq<string>)
    ensures KeysMatchVars(e) ==> forall k :: k in r <==> EnvGetValue(e, Str(k)).Some?
    ensures KeysMatchVars(e) ==> forall i, j :: 0 <= i < j < |r| ==> r[i] != r[j]
  {
    e.keys
  }

  /** On a snapshot, a key is enumerated exactly when looking it up finds a value, and that value
      is the one of the last kept environment entry with that key. */
  lemma EnvironmentLookup(osVars: seq<EnvVar>, i: int)
    requires 0 <= i < |osVars| && Convertible(osVars[i])
    requires forall j :: i < j < |osVars| ==> !EntryFor(osVars, j, osVars[i].key.text)
    ensures var e := NewEnvironmentObject(osVars);
      osVars[i].key.text in EnvEnumerate(e) &&
      EnvGetValue(e, Str(osVars[i].key.text)) == Some(Str(osVars[i].value.text))
  {
    SnapshotLastWins(osVars, i);
  }

  lemma EnvironmentEnumerateMatchesLookup(osVars: seq<EnvVar>, k: string)
    ensures var e := NewEnvironmentObject(osVars);
      (k in EnvEnumerate(e) <==> EnvGetValue(e, Str(k)).Some?) &&
      (EnvGetValue(e, Str(k)).Some? <==> exists i :: EntryFor(osVars, i, k))
  {
  }

  // ---------------------------------------------------------------------------------------
  // ChapterObject

  /** `ChapterObject`. */
  datatype ChapterObject = ChapterObject(
    name: string,
    path: Option<Path>,
    dir: Option<Path>,
    sourcePath: Option<Path>,
    sourceDir: Option<Path>)

  /** `p.as_ref().and_then(|p| p.parent())`. */
  function ParentOf(p: Option<Path>): (r: Option<Path>)
    ensures r.Some? <==> p.Some? && p.value.comps != []
    ensures r.Some? ==> Join(r.value, Relative([LastComp(p.value)])) == p.value
  {
    if p.Some? then Parent(p.value) else None
  }

  /** `ChapterObject::from(&Chapter)`: the name and both paths are copied, and each directory is
      the parent of its path, absent when the path is absent or has no parent. */
  function ChapterObjectFrom(c: MdBook.Chapter): (o: ChapterObject)
    ensures o.name == c.name && o.path == c.path && o.sourcePath == c.sourcePath
    ensures o.dir.Some? <==> c.path.Some? && c.path.value.comps != []
    ensures o.dir.Some? ==> Join(o.dir.value, Relative([LastComp(c.path.value)])) == c.path.value
    ensures o.sourceDir.Some? <==> c.sourcePath.Some? && c.sourcePath.value.comps != []
    ensures o.sourceDir.Some? ==>
      Join(o.sourceDir.value, Relative([LastComp(c.sourcePath.value)])) == c.sourcePath.value
  {
    ChapterObject(c.name, c.path, ParentOf(c.path), c.sourcePath, ParentOf(c.sourcePath))
  }

  /** The keys `enumerate` lists. */
  function ChapterKeys(): (r: seq<string>)
    ensures |r| == 5 && forall i, j :: 0 <= i < j < |r| ==> r[i] != r[j]
    ensures "name" in r && "path" in r && "dir" in r && "source_path" in r && "source_dir" in r
  {
    ["name", "path", "dir", "source_path", "source_dir"]
  }

  /** `get_value`: `name` always has a value, the four path keys have one exactly when the field is
      present, and no other key, nor a key that is not a string, has one. */
  function ChapterGetValue(o: ChapterObject, key: Value): (r: Option<Value>)
    ensures r.Some? ==> key.Str? && key.s in ChapterKeys()
    ensures key == Str("name") ==> r == Some(Str(o.name))
    ensures key == Str("path") ==> r == PathValue(o.path)
    ensures key == Str("dir") ==> r == PathValue(o.dir)
    ensures key == Str("source_path") ==> r == PathValue(o.sourcePath)
    ensures key == Str("source_dir") ==> r == PathValue(o.sourceDir)
  {
    match key
    case Str(k) =>
      if k == "name" then Some(Str(o.name))
      else if k == "path" then PathValue(o.path)
      else if k == "dir" then PathValue(o.dir)
      else if k == "source_path" then PathValue(o.sourcePath)
      else if k == "source_dir" then PathValue(o.sourceDir)
      else None
    case _ => None
  }

  /** Every enumerated key of a chapter has a value exactly when the field behind it is present;
      a chapter with both paths present answers for all five. */
  lemma ChapterEnumerateMatchesLookup(c: MdBook.Chapter)
    ensures var o := ChapterObjectFrom(c);
      (forall k :: ChapterGetValue(o, Str(k)).Some? ==> k in ChapterKeys()) &&
      (ChapterGetValue(o, Str("path")).Some? <==> c.path.Some?) &&
      (ChapterGetValue(o, Str("dir")).Some? <==> c.path.Some? && c.path.value.comps != []) &&
      (ChapterGetValue(o, Str("source_path")).Some? <==> c.sourcePath.Some?) &&
      (ChapterGetValue(o, Str("source_dir")).Some? <==>
         c.sourcePath.Some? && c.sourcePath.value.comps != [])
  {
  }

  // ---------------------------------------------------------------------------------------
  // BookObject

  /** `BookObject`: the four directories of the book. */
  datatype BookObject = BookObject(rootDir: Path, srcDir: Path, templateDir: Path, buildDir: Path)

  /** `resolve_to_root`: an absolute path is kept, a relative one is put under the root. Since
      `join` with an absolute path returns it, this is `root.join(path)` in every case. */
  function ResolveToRoot(path: Path, root: Path): (r: Path)
    ensures r == Join(root, path)
    ensures path.absolute ==> r == path
    ensures r.absolute == (path.absolute || root.absolute)
  {
    if path.absolute then path else Join(root, path)
  }

  /** `BookObject::new`. */
  function NewBookObject(ctx: MdBook.PreprocessorContext, conf: MiniJinjaConfig): (b: BookObject)
    ensures b.rootDir == ctx.root
    ensures b.srcDir == Join(ctx.root, ctx.config.src)
    ensures b.templateDir == Join(ctx.root, conf.templatesDir)
    ensures b.buildDir == Join(ctx.root, ctx.config.buildDir)
    ensures ctx.root.absolute ==>
      b.srcDir.absolute && b.templateDir.absolute && b.buildDir.absolute
  {
    BookObject(
      ctx.root,
      ResolveToRoot(ctx.config.src, ctx.root),
      ResolveToRoot(conf.templatesDir, ctx.root),
      ResolveToRoot(ctx.config.buildDir, ctx.root))
  }

  /** The keys `enumerate` lists. */
  function BookKeys(): (r: seq<string>)
    ensures |r| == 4 && forall i, j :: 0 <= i < j < |r| ==> r[i] != r[j]
    ensures "root_dir" in r && "src_dir" in r && "template_dir" in r && "build_dir" in r
  {
    ["root_dir", "src_dir", "template_dir", "build_dir"]
  }

  /** `get_value`: exactly the four enumerated keys have a value. */
  function BookGetValue(b: BookObject, key: Value): (r: Option<Value>)
    ensures r.Some? <==> key.Str? && key.s in BookKeys()
    ensures key == Str("root_dir") ==> r == Some(Str(PathString(b.rootDir)))
    ensures key == Str("src_dir") ==> r == Some(Str(PathString(b.srcDir)))
    ensures key == Str("template_dir") ==> r == Some(Str(PathString(b.templateDir)))
    ensures key == Str("build_dir") ==> r == Some(Str(PathString(b.buildDir)))
  {
    match key
    case Str(k) =>
      if k == "root_dir" then Some(Str(PathString(b.rootDir)))
      else if k == "src_dir" then Some(Str(PathString(b.srcDir)))
      else if k == "template_dir" then Some(Str(PathString(b.templateDir)))
      else if k == "build_dir" then Some(Str(PathString(b.buildDir)))
      else None
    case _ => None
  }

  // ---------------------------------------------------------------------------------------
  // Engine globals and the render state

  /** What the engine holds as a global: one of the three objects, or a registered function. */
  datatype Global =
    | BookGlobal(book: BookObject)
    | ChapterGlobal(chapter: ChapterObject)
    | EnvGlobal(env: EnvironmentObject)
    | FunctionGlobal(fname: string)

  /** What a template function sees of a render: the render's variables and the engine's globals. */
  datatype State = State(vars: Vars, globals: map<string, Global>)

  datatype Found = Variable(v: TomlValue) | GlobalValue(g: Global)

  /** `State::lookup`: the render's variables come before the engine's globals. */
  function Lookup(st: State, name: string): (r: Option<Found>)
    ensures name in st.vars ==> r == Some(Variable(st.vars[name]))
    ensures name !in st.vars ==> (r.Some? <==> name in st.globals)
    ensures name !in st.vars && name in st.globals ==> r == Some(GlobalValue(st.globals[name]))
    ensures r.Some? && r.value.GlobalValue? ==> name !in st.vars
  {
    if name in st.vars then Some(Variable(st.vars[name]))
    else if name in st.globals then Some(GlobalValue(st.globals[name]))
    else None
  }

  /** `minijinja::ErrorKind`, the kinds that arise here. */
  datatype ErrorKind =
    | UndefinedError
    | InvalidOperation
    | WriteFailure
    | TooManyArguments
    | CannotDeserialize

  datatype Error = Error(kind: ErrorKind, detail: string)

  /** `get_chapterobject`: the `chapter` name must resolve to a chapter object. */
  function GetChapterObject(st: State): (r: Result<ChapterObject, Error>)
    ensures r.Ok? ==> Lookup(st, "chapter") == Some(GlobalValue(ChapterGlobal(r.value)))
    ensures r.Err? ==>
      r.error.kind == UndefinedError && forall c :: Lookup(st, "chapter") != Some(GlobalValue(ChapterGlobal(c)))
    ensures r.Err? ==> r.error == Error(UndefinedError, "'chapter' global not found or wrong type")
  {
    match Lookup(st, "chapter")
    case Some(GlobalValue(ChapterGlobal(c))) => Ok(c)
    case _ => Err(Error(UndefinedError, "'chapter' global not found or wrong type"))
  }

  /** `get_bookobject`: the `book` name must resolve to a book object. */
  function GetBookObject(st: State): (r: Result<BookObject, Error>)
    ensures r.Ok? ==> Lookup(st, "book") == Some(GlobalValue(BookGlobal(r.value)))
    ensures r.Err? ==>
      r.error.kind == UndefinedError && forall b :: Lookup(st, "book") != Some(GlobalValue(BookGlobal(b)))
    ensures r.Err? ==> r.error == Error(UndefinedError, "'book' global not found or wrong type")
  {
    match Lookup(st, "book")
    case Some(GlobalValue(BookGlobal(b))) => Ok(b)
    case _ => Err(Error(UndefinedError, "'book' global not found or wrong type"))
  }

  // ---------------------------------------------------------------------------------------
  // Anchors and path resolution

  /** `RelativeType`. */
  datatype RelativeType = Absolute | Root | Source | Template | Build | Chapter | ChapterBuild

  /** The spelling `#[serde(rename_all = "lowercase")]` gives each variant. */
  function RelativeTypeName(t: RelativeType): string {
    match t
    case Absolute => "absolute"
    case Root => "root"
    case Source => "source"
    case Template => "template"
    case Build => "build"
    case Chapter => "chapter"
    case ChapterBuild => "chapterbuild"
  }

  /** Deserialising an anchor from a string: exactly the seven lowercase names. */
  function ParseRelativeType(s: string): (r: Option<RelativeType>)
    ensures r.Some? ==> RelativeTypeName(r.value) == s
    ensures r.None? ==> forall t :: RelativeTypeName(t) != s
  {
    if s == "absolute" then Some(Absolute)
    else if s == "root" then Some(Root)
    else if s == "source" then Some(Source)
    else if s == "template" then Some(Template)
    else if s == "build" then Some(Build)
    else if s == "chapter" then Some(Chapter)
    else if s == "chapterbuild" then Some(ChapterBuild)
    else None
  }

  /** Each anchor's name parses back to that anchor. */
  lemma RelativeTypeRoundTrip(t: RelativeType)
    ensures ParseRelativeType(RelativeTypeName(t)) == Some(t)
  {
  }

  /** The directory a book-anchored resolution starts from. */
  function BookAnchor(b: BookObject, t: RelativeType): Path
    requires t in {Root, Source, Template, Build}
  {
    match t
    case Root => b.rootDir
    case Source => b.srcDir
    case Template => b.templateDir
    case Build => b.buildDir
  }

  /** `resolve_path`. */
  function ResolvePath(st: State, path: Path, t: RelativeType): (r: Result<Path, Error>)
    ensures t == Absolute ==> r == Ok(path)
    ensures t in {Root, Source, Template, Build} ==>
      (r.Ok? <==> GetBookObject(st).Ok?) &&
      (r.Ok? ==> r.value == Join(BookAnchor(GetBookObject(st).value, t), path))
    ensures t in {Chapter, ChapterBuild} ==>
      (r.Ok? <==> GetBookObject(st).Ok? && GetChapterObject(st).Ok? &&
                  GetChapterObject(st).value.sourceDir.Some?)
    ensures t in {Chapter, ChapterBuild} && r.Ok? ==>
      var base := if t == Chapter then GetBookObject(st).value.srcDir else GetBookObject(st).value.buildDir;
      r.value == Join(Join(base, GetChapterObject(st).value.sourceDir.value), path)
    ensures t != Absolute && GetBookObject(st).Err? ==> r == Err(GetBookObject(st).error)
    ensures t in {Chapter, ChapterBuild} && GetBookObject(st).Ok? && GetChapterObject(st).Err? ==>
      r == Err(GetChapterObject(st).error)
    ensures t in {Chapter, ChapterBuild} && GetBookObject(st).Ok? && GetChapterObject(st).Ok? &&
            GetChapterObject(st).value.sourceDir.None? ==>
      r == Err(Error(UndefinedError, "'source_dir' not found in 'chapter'"))
    ensures r.Err? ==> r.error.kind == UndefinedError
  {
    match t
    case Absolute => Ok(path)
    case Root =>
      var b :- GetBookObject(st);
      Ok(Join(b.rootDir, path))
    case Source =>
      var b :- GetBookObject(st);
      Ok(Join(b.srcDir, path))
    case Template =>
      var b :- GetBookObject(st);
      Ok(Join(b.templateDir, path))
    case Build =>
      var b :- GetBookObject(st);
      Ok(Join(b.buildDir, path))
    case Chapter =>
      var b :- GetBookObject(st);
      var c :- GetChapterObject(st);
      if c.sourceDir.None? then Err(Error(UndefinedError, "'source_dir' not found in 'chapter'"))
      else Ok(Join(Join(b.srcDir, c.sourceDir.value), path))
    case ChapterBuild =>
      var b :- GetBookObject(st);
      var c :- GetChapterObject(st);
      if c.sourceDir.None? then Err(Error(UndefinedError, "'source_dir' not found in 'chapter'"))
      else Ok(Join(Join(b.buildDir, c.sourceDir.value), path))
  }

  /** An absolute input escapes every anchor: whenever it resolves, it resolves to itself. Only
      ordinary joining is done, which is the documented trust boundary. */
  lemma AbsoluteInputIgnoresAnchor(st: State, path: Path, t: RelativeType)
    requires path.absolute
    ensures ResolvePath(st, path, t).Ok? ==> ResolvePath(st, path, t).value == path
  {
  }

  /** A relative input resolves under its anchor directory. */
  lemma RelativeInputUnderAnchor(st: State, path: Path, t: RelativeType)
    requires !path.absolute && t in {Root, Source, Template, Build}
    requires ResolvePath(st, path, t).Ok?
    ensures var dir := BookAnchor(GetBookObject(st).value, t);
      ResolvePath(st, path, t).value.comps == dir.comps + path.comps
  {
  }

  /** The chapter anchors fail when no book or chapter object is bound, or when the chapter has
      no source directory (a chapter without a source file). */
  lemma ChapterAnchorNeedsSourceDir(st: State, path: Path, t: RelativeType)
    requires t in {Chapter, ChapterBuild}
    ensures (GetBookObject(st).Err? || GetChapterObject(st).Err? || GetChapterObject(st).value.sourceDir.None?) ==>
      ResolvePath(st, path, t).Err? && ResolvePath(st, path, t).error.kind == UndefinedError
  {
  }

  /** A chapter whose source is `guide/intro.md`, in a book whose source directory is
      `/proj/src`, resolves `x.png` against the `chapter` anchor to `/proj/src/guide/x.png`. */
  lemma ChapterAnchorExample(st: State, c: MdBook.Chapter)
    requires "book" !in st.vars && "chapter" !in st.vars
    requires "book" in st.globals && st.globals["book"].BookGlobal?
    requires st.globals["book"].book.srcDir == Path(true, ["proj", "src"])
    requires c.sourcePath == Some(Relative(["guide", "intro.md"]))
    requires "chapter" in st.globals && st.globals["chapter"] == ChapterGlobal(ChapterObjectFrom(c))
    ensures ResolvePath(st, Relative(["x.png"]), Chapter) == Ok(Path(true, ["proj", "src", "guide", "x.png"]))
  {
    assert ["guide", "intro.md"][..1] == ["guide"];
    assert ParentOf(c.sourcePath) == Some(Relative(["guide"]));
    assert ["proj", "src"] + ["guide"] + ["x.png"] == ["proj", "src", "guide", "x.png"];
  }

  // ---------------------------------------------------------------------------------------
  // Keyword arguments and the three template functions

  /** The keyword arguments of a call. */
  datatype Kwargs = Kwargs(values: map<string, Value>)

  /** `get_relative_type`: an absent, `none` or `undefined` argument is no anchor; a string must
      name one of the seven anchors; anything else cannot be deserialised. */
  function GetRelativeType(kw: Kwargs, key: string): (r: Result<Option<RelativeType>, Error>)
    ensures (key !in kw.values || kw.values[key] == NoneValue) ==> r == Ok(None)
    ensures key in kw.values && kw.values[key].Str? ==>
      if ParseRelativeType(kw.values[key].s).Some?
      then r == Ok(ParseRelativeType(kw.values[key].s))
      else r.Err? && r.error.kind == CannotDeserialize
    ensures r.Ok? && r.value.Some? ==>
      key in kw.values && kw.values[key] == Str(RelativeTypeName(r.value.value))
    ensures key in kw.values && kw.values[key] != NoneValue && !kw.values[key].Str? ==>
      r.Err? && r.error.kind == CannotDeserialize
    ensures r.Err? ==> r.error.kind == CannotDeserialize
  {
    if key !in kw.values then Ok(None)
    else
      match kw.values[key]
      case NoneValue => Ok(None)
      case Str(s) =>
        (match ParseRelativeType(s)
         case Some(t) => Ok(Some(t))
         case None => Err(Error(CannotDeserialize, "unknown variant")))
      case _ => Err(Error(CannotDeserialize, "expected a string"))
  }

  /** `Kwargs::assert_all_used`, with the keys the function has read. */
  function AssertAllUsed(kw: Kwargs, used: set<string>): (r: Result<bool, Error>)
    ensures r.Ok? <==> kw.values.Keys <= used
    ensures r.Err? ==> r.error.kind == TooManyArguments
  {
    if kw.values.Keys <= used then Ok(true)
    else Err(Error(TooManyArguments, "unknown keyword argument"))
  }

  /** `file_exists` up to the filesystem call: the path whose metadata it asks for. The anchor
      `rel` defaults to `template`, and any other keyword makes the call fail. */
  function FileExistsPath(st: State, filename: Path, kw: Kwargs): (r: Result<Path, Error>)
    ensures r.Ok? ==> kw.values.Keys <= {"rel"}
    ensures GetRelativeType(kw, "rel").Ok? && !(kw.values.Keys <= {"rel"}) ==>
      r.Err? && r.error.kind == TooManyArguments
    ensures kw.values == map[] ==> r == ResolvePath(st, filename, Template)
    ensures GetRelativeType(kw, "rel").Err? ==> r == Err(GetRelativeType(kw, "rel").error)
    ensures GetRelativeType(kw, "rel").Ok? && kw.values.Keys <= {"rel"} ==>
      r == ResolvePath(st, filename, GetRelativeType(kw, "rel").value.GetOr(Template))
    ensures r.Ok? ==>
      GetRelativeType(kw, "rel").Ok? &&
      ResolvePath(st, filename, GetRelativeType(kw, "rel").value.GetOr(Template)) == r
  {
    var t :- GetRelativeType(kw, "rel");
    var _ :- AssertAllUsed(kw, {"rel"});
    ResolvePath(st, filename, t.GetOr(Template))
  }

  /** `file_exists`; `metadataOk` is `std::fs::metadata(path).is_ok()`. */
  function FileExists(st: State, filename: Path, kw: Kwargs, metadataOk: Path -> bool): (r: Result<Value, Error>)
    ensures r.Ok? <==> FileExistsPath(st, filename, kw).Ok?
    ensures r.Ok? ==> r.value == Bool(metadataOk(FileExistsPath(st, filename, kw).value))
  {
    var p :- FileExistsPath(st, filename, kw);
    Ok(Bool(metadataOk(p)))
  }

  /** `copy_file` up to the filesystem call: the source and destination paths. `srcrel` defaults
      to `template`, `dstrel` to `chapterbuild` and the destination name to the source name; the
      source is resolved first. */
  function CopyFilePaths(st: State, src: Path, dst: Option<Path>, kw: Kwargs): (r: Result<(Path, Path), Error>)
    ensures r.Ok? ==> kw.values.Keys <= {"srcrel", "dstrel"}
    ensures (GetRelativeType(kw, "srcrel").Ok? && GetRelativeType(kw, "dstrel").Ok? &&
             !(kw.values.Keys <= {"srcrel", "dstrel"})) ==> r.Err? && r.error.kind == TooManyArguments
    ensures kw.values == map[] ==>
      (r.Ok? <==> ResolvePath(st, src, Template).Ok? && ResolvePath(st, dst.GetOr(src), ChapterBuild).Ok?) &&
      (r.Ok? ==> r.value == (ResolvePath(st, src, Template).value,
                             ResolvePath(st, dst.GetOr(src), ChapterBuild).value))
    ensures GetRelativeType(kw, "srcrel").Err? ==> r == Err(GetRelativeType(kw, "srcrel").error)
    ensures GetRelativeType(kw, "srcrel").Ok? && GetRelativeType(kw, "dstrel").Err? ==>
      r == Err(GetRelativeType(kw, "dstrel").error)
    ensures GetRelativeType(kw, "srcrel").Ok? && GetRelativeType(kw, "dstrel").Ok? &&
            kw.values.Keys <= {"srcrel", "dstrel"} ==>
      var s, d := GetRelativeType(kw, "srcrel").value.GetOr(Template),
                  GetRelativeType(kw, "dstrel").value.GetOr(ChapterBuild);
      && (r.Ok? <==> ResolvePath(st, src, s).Ok? && ResolvePath(st, dst.GetOr(src), d).Ok?)
      && (r.Ok? ==> r.value == (ResolvePath(st, src, s).value, ResolvePath(st, dst.GetOr(src), d).value))
      && (ResolvePath(st, src, s).Err? ==> r == Err(ResolvePath(st, src, s).error))
      && (ResolvePath(st, src, s).Ok? && ResolvePath(st, dst.GetOr(src), d).Err? ==>
            r == Err(ResolvePath(st, dst.GetOr(src), d).error))
  {
    var ts :- GetRelativeType(kw, "srcrel");
    var td :- GetRelativeType(kw, "dstrel");
    var _ :- AssertAllUsed(kw, {"srcrel", "dstrel"});
    var srcPath :- ResolvePath(st, src, ts.GetOr(Template));
    var dstPath :- ResolvePath(st, dst.GetOr(src), td.GetOr(ChapterBuild));
    Ok((srcPath, dstPath))
  }

  /** `copy_file`; `copy` is `std::fs::copy`, giving the number of bytes copied or the I/O error's
      message, which becomes a write failure. */
  function CopyFile(st: State, src: Path, dst: Option<Path>, kw: Kwargs,
                    copy: (Path, Path) -> Result<nat, string>): (r: Result<Value, Error>)
    ensures r.Ok? ==> r.value == Bool(true)
    ensures r.Ok? <==> (CopyFilePaths(st, src, dst, kw).Ok? &&
      copy(CopyFilePaths(st, src, dst, kw).value.0, CopyFilePaths(st, src, dst, kw).value.1).Ok?)
    ensures CopyFilePaths(st, src, dst, kw).Ok? && r.Err? ==> r.error.kind == WriteFailure
    ensures CopyFilePaths(st, src, dst, kw).Err? ==> r == Err(CopyFilePaths(st, src, dst, kw).error)
    ensures CopyFilePaths(st, src, dst, kw).Ok? ==>
      var paths := CopyFilePaths(st, src, dst, kw).value;
      copy(paths.0, paths.1).Err? ==>
        r == Err(Error(WriteFailure, "could not copy file: " + copy(paths.0, paths.1).error))
  {
    var paths :- CopyFilePaths(st, src, dst, kw);
    match copy(paths.0, paths.1)
    case Ok(_) => Ok(Bool(true))
    case Err(e) => Err(Error(WriteFailure, "could not copy file: " + e))
  }

  /** `load_file` up to the filesystem call: the path it reads. Same arguments as `file_exists`. */
  function LoadFilePath(st: State, filename: Path, kw: Kwargs): (r: Result<Path, Error>)
    ensures r.Ok? ==> kw.values.Keys <= {"rel"}
    ensures GetRelativeType(kw, "rel").Err? ==> r == Err(GetRelativeType(kw, "rel").error)
    ensures GetRelativeType(kw, "rel").Ok? && !(kw.values.Keys <= {"rel"}) ==>
      r.Err? && r.error.kind == TooManyArguments
    ensures kw.values == map[] ==> r == ResolvePath(st, filename, Template)
    ensures GetRelativeType(kw, "rel").Ok? && kw.values.Keys <= {"rel"} ==>
      r == ResolvePath(st, filename, GetRelativeType(kw, "rel").value.GetOr(Template))
  {
    var t :- GetRelativeType(kw, "rel");
    var _ :- AssertAllUsed(kw, {"rel"});
    ResolvePath(st, filename, t.GetOr(Template))
  }

  /** `load_file`; `read` is `std::fs::read_to_string`, whose error becomes an invalid operation. */
  function LoadFile(st: State, filename: Path, kw: Kwargs, read: Path -> Result<string, string>): (r: Result<Value, Error>)
    ensures LoadFilePath(st, filename, kw).Ok? ==>
      match read(LoadFilePath(st, filename, kw).value)
      case Ok(text) => r == Ok(Str(text))
      case Err(e) => r == Err(Error(InvalidOperation, "could not read file: " + e))
    ensures LoadFilePath(st, filename, kw).Err? ==> r.Err? && r.error == LoadFilePath(st, filename, kw).error
  {
    var p :- LoadFilePath(st, filename, kw);
    match read(p)
    case Ok(text) => Ok(Str(text))
    case Err(e) => Err(Error(InvalidOperation, "could not read file: " + e))
  }

  /** The names `add_functions` registers. */
  function FunctionNames(): (r: seq<string>)
    ensures |r| == 3 && forall i, j :: 0 <= i < j < |r| ==> r[i] != r[j]
    ensures forall f :: f in r <==> f == "file_exists" || f == "copy_file" || f == "load_file"
  {
    ["file_exists", "copy_file", "load_file"]
  }
}
