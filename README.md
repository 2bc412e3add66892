# mdbook-minijinja in Dafny

mdbook-minijinja is an mdBook preprocessor. It treats every chapter name, chapter content and
part title, and optionally `SUMMARY.md`, as a MiniJinja template and renders it against the
variables declared in the book's `[preprocessor.minijinja]` table. Templates see three globals:
a `book` object holding the book's directories, a `chapter` object describing the chapter being
rendered, and an optional `env` object with the process environment. They can also call
`file_exists`, `copy_file` and `load_file`, which resolve a path against one of seven anchors.

This project models that core and proves properties of the model:

- `wrappers.dfy` (`Wrappers`): `Option` and `Result`.
- `paths.dfy` (`Paths`): Unix paths the way `PathBuf` joins them and takes their parent.
- `config.dfy` (`Config`): the configuration section, its serde defaults and aliases, the undefined-value policy and its conversion, and `create_env`.
- `mdbook.dfy` (`MdBook`): the host's book tree and configuration.
  - Items in the tree are named by addresses.
  - A visit order is a sequence of addresses that lists every item exactly once.
  - `PostOrder` is the order mdBook's `for_each_mut` uses, with sub-items before their chapter. It is proved to be a visit order.
- `extra_globals.dfy` (`ExtraGlobals`): the template globals.
  - The environment snapshot, the chapter and book objects, and variable lookup, where a render variable hides a global of the same name.
  - The anchor resolution `resolve_path`, keyword-argument decoding and the three template functions.
- `preprocessor.dfy` (`Preprocessor`): `eval_in_place` and the traversal closure.
  - `Engine` is a class whose `globals` field the methods update in place.
  - `ForEachMut` is a loop that rewrites the tree one item at a time, in any visit order. It is proved against `IsRewrite`, which gives the texts at each visited address in terms of the globals before that visit.
  - `Run` is the whole pass, including the optional reload of the summary.

The pass is modelled with these things as parameters:
- the template engine's renderer, as a function from the engine's settings, its globals, the template text and the variables to an output or an error;
- the filesystem calls, oracles of the same shape: read a file, copy a file, ask for its metadata;
- the host's summary parser and book loader;
- the process environment, as a list of key/value pairs.

Every contract holds for every choice of these parameters.

## Model

| member | source | states |
|---|---|---|
| Paths.Join | src/config.rs:20-24 | A join is absolute exactly when the base or the argument is. An absolute argument replaces the base. A relative one is appended to the base's components. |
| Paths.PathString | src/extra_globals.rs:61-64 | With well-formed components, the text starts with `/` exactly when the path is rooted. A relative path's text is empty only for the empty path. |
| Paths.SplitAtSeparator | src/extra_globals.rs:61-64 | Two texts that each start with a separator-free component followed by `/` have the same component and the same rest. |
| Paths.JoinCompsInjective | src/extra_globals.rs:61-64 | Two lists of normal components with the same `/`-joined text are equal. |
| Paths.PathStringInjective | src/extra_globals.rs:61-64 | Two paths with normal components and the same text are the same path, so storing a directory as a path loses nothing compared with storing its text. |
| Paths.Parent | src/extra_globals.rs:62-64 | There is no parent exactly when there are no components. Otherwise the parent is one component shorter, just as rooted, and gives back the path when its last component is joined again. |
| Paths.JoinAssociative | src/extra_globals.rs:175-184 | Joining a directory, then a chapter's source dir, then a path is the same as joining the directory with the joined rest, whichever of them are absolute. |
| Paths.JoinEmpty | src/extra_globals.rs:170-174 | Joining the empty relative path leaves a path unchanged. |
| Paths.ParentOfJoin | src/extra_globals.rs:62-64 | The parent of a path extended by one component is the path itself. |
| Paths.JoinRelativeUnder | src/extra_globals.rs:171-174 | A relative path joined to an anchor keeps the anchor's rootedness and has the anchor's components as a prefix. |
| Config.DefaultUndefinedBehavior | src/config.rs:46-50 | The default policy is `Strict`, which becomes the engine's strict policy. |
| Config.ParseUndefinedBehavior | src/config.rs:36-44 | Accepts a string exactly when it is a variant's name (`Strict`) or its lower-case alias (`strict`), and gives that variant. Every other string is rejected. |
| Config.ParseAcceptsNameAndAlias | src/config.rs:36-44 | Both the name and the alias of every variant parse back to that variant. |
| Config.ToEngine | src/config.rs:52-60 | Each policy maps to the engine's policy of the same name. |
| Config.ToEngineBijective | src/config.rs:52-60 | The conversion and its inverse round-trip in both directions. |
| Config.ToEngineInjective | src/config.rs:52-60 | Distinct policies map to distinct engine policies. |
| Config.DefaultTemplatesDir | src/config.rs:31-33 | The default templates directory is the relative one-component path `templates`, which joined to any root gives `<root>/templates`. |
| Config.Deserialize | src/config.rs:6-13 | Succeeds exactly when `variables` is present and any given policy string parses. `variables` is kept as given. The policy defaults to `Strict` and the templates directory to `templates`. An unknown policy is reported by name. |
| Config.TemplatesLoaderDir | src/config.rs:20-24 | The loader directory is the templates directory joined to the book root: the directory itself when absolute, the root's components followed by its own otherwise. |
| Config.CreateEnv | src/config.rs:16-29 | The engine gets the configured policy, with the same variant name, and loads templates from the templates directory joined to the root. |
| Config.OmittedKeysDefaults | src/config.rs:9-12 | A section holding only `variables` gives a strict engine loading from `<root>/templates`. |
| MdBook.GetDeserializedOpt | src/preprocessor.rs:21-23 | An absent table gives `Ok(None)`. A present table gives either its deserialized section or the deserialization error. |
| MdBook.PostOrder | src/preprocessor.rs:67 | The traversal of a non-empty tree is non-empty and ends with the tree's last top-level item. |
| MdBook.PostOrderLength | src/preprocessor.rs:67 | The traversal lists exactly as many addresses as the tree has items, at any depth. |
| MdBook.PostOrderValid | src/preprocessor.rs:67 | Every address the post-order traversal lists exists in the tree and starts at a top-level item. |
| MdBook.PostOrderDistinct | src/preprocessor.rs:67 | No address is listed twice by the post-order traversal. |
| MdBook.PostOrderValidDistinct | src/preprocessor.rs:67 | Every address the post-order traversal lists exists in the tree, and no address is listed twice. |
| MdBook.PostOrderCovers | src/preprocessor.rs:67 | Every address in the tree, at any depth, is listed by the post-order traversal. |
| MdBook.PostOrderIsVisitOrder | src/preprocessor.rs:67 | The post-order traversal visits each item exactly once. |
| MdBook.DeterminedByTexts | src/preprocessor.rs:67-75 | Two trees with the same structure apart from texts, and the same texts at every address, are equal. |
| ExtraGlobals.SnapshotVars | src/extra_globals.rs:19-28 | A key is in the snapshot exactly when some entry has that key and both its key and value are Unicode. |
| ExtraGlobals.SnapshotKeys | src/extra_globals.rs:29 | The key list holds exactly the snapshot's keys, each once. |
| ExtraGlobals.NewEnvironmentObject | src/extra_globals.rs:17-35 | The object's map keeps exactly the convertible entries, and its key list enumerates exactly the map's keys, without duplicates. |
| ExtraGlobals.SnapshotLastWins | src/extra_globals.rs:19-28 | For a key that occurs more than once, the snapshot holds the value of its last convertible entry. |
| ExtraGlobals.EnvGetValue | src/extra_globals.rs:39-41 | A lookup succeeds exactly for a string key in the snapshot, and gives its value as a string. |
| ExtraGlobals.EnvEnumerate | src/extra_globals.rs:43-45 | On an object built by `new`, the enumerated keys are exactly those with a value, each listed once. |
| ExtraGlobals.EnvironmentLookup | src/extra_globals.rs:17-41 | Looking up a variable through the environment object gives the value of its last convertible entry. |
| ExtraGlobals.EnvironmentEnumerateMatchesLookup | src/extra_globals.rs:38-46 | A key is enumerated exactly when looking it up succeeds. |
| ExtraGlobals.ParentOf | src/extra_globals.rs:62-64 | An optional path has a directory exactly when it is present and non-empty, and joining its last component to that directory gives the path back. |
| ExtraGlobals.ChapterObjectFrom | src/extra_globals.rs:57-66 | The object copies the chapter's name, path and source path. `dir` and `source_dir` are present exactly when the path is present and non-empty, and each is the path's parent. |
| ExtraGlobals.ChapterKeys | src/extra_globals.rs:81-83 | The chapter enumerates five distinct keys: `name`, `path`, `dir`, `source_path`, `source_dir`. |
| ExtraGlobals.ChapterGetValue | src/extra_globals.rs:69-79 | Only the five chapter keys are found. Each gives its field, and an absent optional field is not found. |
| ExtraGlobals.ChapterEnumerateMatchesLookup | src/extra_globals.rs:69-83 | The enumerated keys are the five field names, and each is found exactly when its field is present. |
| ExtraGlobals.ResolveToRoot | src/extra_globals.rs:96-105 | The result is the path joined to the root: the path itself when absolute. |
| ExtraGlobals.NewBookObject | src/extra_globals.rs:94-115 | The root is kept, and the source, template and build directories are each resolved against it. Under an absolute root, all three are absolute. |
| ExtraGlobals.BookKeys | src/extra_globals.rs:129-131 | The book enumerates four distinct keys: `root_dir`, `src_dir`, `template_dir`, `build_dir`. |
| ExtraGlobals.BookGetValue | src/extra_globals.rs:118-131 | Only the four book keys are found, each giving its directory as a string. |
| ExtraGlobals.Lookup | src/extra_globals.rs:155-165 | A name bound as a render variable is found as that variable. Otherwise it is found exactly when it is a global, as that global, so a variable shadows a global of the same name. |
| ExtraGlobals.GetChapterObject | src/extra_globals.rs:155-159 | Success means `chapter` resolves to a chapter object. Otherwise the error is `UndefinedError` with the message "'chapter' global not found or wrong type". This includes the case where a render variable of that name hides the global. |
| ExtraGlobals.GetBookObject | src/extra_globals.rs:161-165 | Same as GetChapterObject, for `book`, with the message "'book' global not found or wrong type". |
| ExtraGlobals.ParseRelativeType | src/extra_globals.rs:143-153 | Accepts exactly the seven lower-case anchor names, `chapterbuild` included, and gives the anchor named. |
| ExtraGlobals.RelativeTypeRoundTrip | src/extra_globals.rs:143-153 | Every anchor's name parses back to it. |
| ExtraGlobals.ResolvePath | src/extra_globals.rs:167-186 | Full case analysis: `absolute` gives the path unchanged. The four book anchors join the matching book directory. Every anchor but `absolute` passes on the book lookup's error. `chapter` and `chapterbuild` join the source or build directory, then the chapter's `source_dir`, then the path. They pass on the chapter lookup's error, and fail with "'source_dir' not found in 'chapter'" when there is no source dir. Every error is an `UndefinedError`. |
| ExtraGlobals.AbsoluteInputIgnoresAnchor | src/extra_globals.rs:170-184 | An absolute input resolves to itself under every anchor that succeeds. |
| ExtraGlobals.RelativeInputUnderAnchor | src/extra_globals.rs:171-174 | A relative input resolved against a book anchor lies under that anchor's directory. |
| ExtraGlobals.ChapterAnchorNeedsSourceDir | src/extra_globals.rs:175-184 | With no book bound, no chapter bound, or a chapter without a source dir, the chapter anchors fail with an undefined-value error. |
| ExtraGlobals.ChapterAnchorExample | src/extra_globals.rs:175-179 | `x.png` in a chapter whose source path is `guide/intro.md`, with the source dir `/proj/src`, resolves to `/proj/src/guide/x.png`. |
| ExtraGlobals.GetRelativeType | src/extra_globals.rs:188-191 | An absent or `none` argument gives no anchor. A string argument gives the anchor it names, or a `CannotDeserialize` error when it names none. Any other value is a `CannotDeserialize` error. |
| ExtraGlobals.AssertAllUsed | src/extra_globals.rs:196 | Succeeds exactly when every given keyword was consumed. Otherwise it fails with `TooManyArguments`. |
| ExtraGlobals.FileExistsPath | src/extra_globals.rs:193-197 | A bad `rel` fails with its own error. Otherwise an unknown keyword fails with `TooManyArguments`. Otherwise the result is the path resolved against the anchor `rel` names, defaulting to the template directory. Success implies only `rel` was given. |
| ExtraGlobals.FileExists | src/extra_globals.rs:193-200 | Succeeds exactly when the path resolves, and then says whether metadata for the resolved path exists. |
| ExtraGlobals.CopyFilePaths | src/extra_globals.rs:202-208 | A bad `srcrel` fails first, then a bad `dstrel`. Otherwise an unknown keyword fails with `TooManyArguments`. Otherwise the source resolves against the `srcrel` anchor, defaulting to the template anchor. The destination, which defaults to the source path, resolves against the `dstrel` anchor, defaulting to `chapterbuild`. The source's resolution error comes before the destination's. |
| ExtraGlobals.CopyFile | src/extra_globals.rs:202-214 | Succeeds with `true` exactly when both paths resolve and the copy succeeds. A resolution error is passed through. A failed copy is a `WriteFailure` "could not copy file: " followed by the I/O error. |
| ExtraGlobals.LoadFilePath | src/extra_globals.rs:216-220 | A bad `rel` fails with its own error. Otherwise an unknown keyword fails with `TooManyArguments`. Otherwise the result is the path resolved against the anchor `rel` names, defaulting to the template directory. |
| ExtraGlobals.FunctionNames | src/extra_globals.rs:228-232 | The three names `add_functions` registers, each once. |
| ExtraGlobals.LoadFile | src/extra_globals.rs:216-226 | Gives the file's text when the path resolves and the read succeeds. A failed read is an `InvalidOperation` "could not read file: " followed by the I/O error. A resolution error is passed through. |
| Preprocessor.TemplateSource | src/preprocessor.rs:82-86 | Without prelude, or with an empty prelude string, the text is unchanged. Otherwise it is the prelude, one newline, then the text. |
| Preprocessor.Engine.constructor | src/config.rs:16-17 | The engine's settings are those `create_env` computes, and it starts with no globals of the preprocessor's own. |
| Preprocessor.Engine.AddGlobal | src/preprocessor.rs:34-37 | Binds one name, replacing what it was bound to, and leaves every other binding alone. |
| Preprocessor.Engine.AddFunctions | src/extra_globals.rs:228-232 | Binds `file_exists`, `copy_file` and `load_file` to the matching functions. |
| Preprocessor.Engine.EvalInPlace | src/preprocessor.rs:81-97 | The field becomes the render's output when the render succeeds, and keeps its old text when it fails. |
| Preprocessor.VisitGlobals | src/preprocessor.rs:68-69 | A chapter rebinds `chapter` to a chapter object built from it. Other items leave the globals alone. No other global changes. |
| Preprocessor.VisitTexts | src/preprocessor.rs:67-75 | A separator gets no texts, a chapter a name and a content, and a part title a title. A chapter's name and a part title are rendered without any prelude. A chapter's content is rendered with the prelude when one is configured. A chapter's name and content are rendered with `chapter` rebound to it, a part title under the globals as they are. A failed render keeps the old text. |
| Preprocessor.VisitSeesOwnFields | src/preprocessor.rs:67-75 | What the closure writes and binds depends only on the item's own fields, not on its sub-items, and fits the item's kind. |
| Preprocessor.RewriteStep | src/preprocessor.rs:67-75 | Each visit extends the rewrite by exactly one item and moves the globals to those before the next visit. |
| Preprocessor.Engine.Visit | src/preprocessor.rs:67-75 | The closure binds a chapter, then renders its name without and its content with the prelude. A part title is rendered without the prelude. A separator is left alone. |
| Preprocessor.Engine.ForEachMut | src/preprocessor.rs:67-75 | For any order that visits every item once, the result differs from the input only in texts. The item at the j-th address carries what the closure writes given the globals before the j-th visit. The globals end where the last visit left them. |
| Preprocessor.GlobalsBeforeFirstChapter | src/preprocessor.rs:67-75 | Until the first chapter is visited, renders see the globals the traversal started with, so no `chapter` is bound. |
| Preprocessor.ChapterSlotIsLatest | src/preprocessor.rs:69 | Once a chapter has been visited, `chapter` is bound to the most recently visited chapter's object. |
| Preprocessor.ChapterSlotNeverRemoved | src/preprocessor.rs:69 | A bound `chapter` stays bound for the rest of the traversal. |
| Preprocessor.OtherGlobalsKept | src/preprocessor.rs:67-75 | The traversal changes no global other than `chapter`. |
| Preprocessor.RewriteKeepsStructure | src/preprocessor.rs:67-75 | Every item keeps its place and kind. A separator is unchanged. A chapter keeps its number, paths, parent names and number of sub-items. |
| Preprocessor.EveryItemRewritten | src/preprocessor.rs:67-75 | Every item, at any depth, carries what its own visit wrote. |
| Preprocessor.RewriteIsDeterministic | src/preprocessor.rs:67-75 | A traversal has one outcome for given inputs, renderer and starting globals. |
| Preprocessor.ChapterRendersSeeOwnBinding | src/preprocessor.rs:68-72 | A chapter's name and content are rendered with `chapter` bound to the chapter as it was before rendering, so the object exposes the unrendered name. The chapter ends with each render's output, or its old text when that render failed. |
| Preprocessor.PartTitleSeesLatestChapter | src/preprocessor.rs:69-74 | A part title after a chapter is rendered while `chapter` is still bound to the most recently visited chapter. |
| Preprocessor.Name | src/preprocessor.rs:16-18 | The preprocessor's name is non-empty and has no `.`, so it is one segment of a dotted configuration key. |
| Preprocessor.ConfigKey | src/preprocessor.rs:21-23 | The configuration section key is `preprocessor.` followed by the preprocessor's name. |
| Preprocessor.BaseGlobals | src/preprocessor.rs:33-40 | The globals before traversal are exactly `book`, the three functions, and `env` when `global_env` is set. `chapter` is not among them. |
| Preprocessor.NewEngine | src/preprocessor.rs:31-40 | The fresh engine has the settings `create_env` computes and exactly the base globals. |
| Preprocessor.SummaryPath | src/preprocessor.rs:49 | The summary file is `SUMMARY.md` directly inside the configured source directory, as rooted as that directory is. It is not put under the book root. |
| Preprocessor.ReloadedBook | src/preprocessor.rs:42-61 | The summary branch fails only with an I/O or host error, and with the read's error when the read fails. A success means the read succeeded, the summary rendered without prelude (or the raw text, if that render failed) parsed, and the host loaded the book from that summary, the root and the configuration. Conversely, after a successful read a parse error becomes a host error, and otherwise the result is exactly the host's load result. |
| Preprocessor.ReloadSummary | src/preprocessor.rs:49-61 | The engine's summary branch gives exactly the outcome ReloadedBook describes, under the engine's current globals. |
| Preprocessor.TemplateDirMatchesLoader | src/preprocessor.rs:31-34 | The `book` object's template directory is the engine's loader directory. |
| Preprocessor.Run | src/preprocessor.rs:20-78 | A missing section fails with a missing-section error, and a bad section fails with its error. With `preprocess_summary`, the summary is read, rendered without the prelude under the base globals, parsed and loaded, and each failure ends the run. Otherwise the host's book is used. The book is then rewritten in post-order from the base globals. |

## Left out

- The template engine: rendering, template syntax, the loader, and how the undefined-value policy affects a render. The renderer is a parameter, so `Run` holds for every renderer.
- Logging: the `log` calls and `log_jinja_err`, which only write messages.
- Filesystem access: `read_to_string`, `fs::copy` and `fs::metadata` are parameters.
- The host: `parse_summary` and `load_with_config_and_summary` are parameters, and the summary's grammar is not modelled.
- `src/main.rs`: argument handling, the `supports` check and the JSON exchange with mdBook on standard input and output are I/O.
- `src/dynamic_env.rs` is not part of this model.
- Paths: Windows prefixes, `..` and `.` components, trailing separators and non-UTF-8 text.
  - A path is a rooted flag and a list of normal components.
  - `to_str`/`to_string_lossy` are modelled as always succeeding.
- Config.Deserialize: models only string values of `undefined_behavior` and leaves out the TOML type errors serde reports for values of the wrong type.
- ExtraGlobals.NewEnvironmentObject: lists the keys in first-occurrence order, but the order of `env`'s key list comes from a `HashMap`, whose hash seed differs per process.
  - Only the set of keys and their distinctness are stated.
  - The model's fixed order hides that the order can change between runs, so two runs are not guaranteed to give identical output for templates that iterate over `env`.
- The process-lifetime leaking of the snapshot and key list, `Arc` and other memory details.
- ExtraGlobals.Lookup: stops at render variables and globals. Variables set inside a template (`{% set %}`, loop variables) are not modelled.
- Template values other than strings, booleans and `none` are collapsed into one `OtherValue`.
- Preprocessor.Renderer: a fixed function of the engine's settings, its globals, the template and the variables.
  - A file that `copy_file` writes during one render cannot affect a later render.
  - The contents of the templates directory are not modelled. Changes to them cannot affect a render either.
  - RewriteIsDeterministic and ChapterRendersSeeOwnBinding hold partly because of this.
- Preprocessor.Engine.constructor: starts with no globals. `Environment::new()` also carries the engine's built-in globals (`range`, `dict`, `debug`, `namespace`, …), which are not modelled.
  - BaseGlobals states exactly the preprocessor's own bindings, not the engine's built-ins.

## Notes on the code

- The code rebinds the `chapter` global at each chapter and never clears it. A part title visited after a chapter therefore still sees that chapter (`PartTitleSeesLatestChapter`). Only a part title visited before any chapter sees no `chapter` (`GlobalsBeforeFirstChapter`).
- `src/config.rs` declares only `variables`, `undefined_behavior` and `templates_dir`, while `src/preprocessor.rs` also reads `prelude_string`, `preprocess_summary` and `global_env`. The model gives these three keys the defaults `""`, false and false.
- `variables` has no serde default in `src/config.rs`, so a section without it fails to deserialize. The model makes it required.
- The summary is read from the configured source directory joined with `SUMMARY.md`. It is not resolved against the book root (`SummaryPath`).
