# esbuild-plugin-vue-go, modelled in Dafny

This project models the core of `esbuild-plugin-vue-go`. The plugin lets the esbuild bundler
build Vue 3 single-file components (`.vue`), stand-alone Sass files (`.scss` / `.sass`) and an
`index.html` page. It hands the compilation itself to a JavaScript executor that runs the Vue
and Sass compilers. The model covers the plugin's own logic:

- **Options** (`option.go`):
  - the options record with its defaults;
  - the functional-option builders that register processors on each extension point;
  - the lookup of `import.meta.env` values in esbuild's `Define` map;
  - the normalisation of the build options, which fills in the Vite-compatible environment
    variables and the Vue feature flags.
- **Plugin** (`plugin.go`):
  - `NewPlugin`, including its panic when no executor is configured;
  - the setup, which normalises the build options;
  - the start, end and dispose chains.
- **Vue** (`vue.go`):
  - reading a component, with CRLF normalisation and the load-processor chain;
  - the content-hash component id and the compile request;
  - checking and splitting the compiler's answer;
  - the synthesized entry module, modelled as the list of statements the entry template
    emits rather than as text;
  - the resolve handler for `?type=…` sub-module paths, with its resolve-processor chain;
  - the loaders of the script, template and style parts.
- **PathAlias** (`pathalias.go`):
  - reading `compilerOptions.paths` from the inline or on-disk tsconfig;
  - rewriting an import path with the first alias that matches, in Go's unspecified map
    order. This is modelled as a method with a nondeterministic choice.
  - the regular-expression replacement is modelled as Go's template expansion (`$1`, `${1}`,
    `$name`, `$$`) over the match's groups.
- **Sass** (`sass.go`):
  - resolution into the `sass-loader` namespace;
  - the source read through the Sass load processors, falling back to the file system;
  - the compile request and the checks on the compiler's answer.
- **Html** (`html.go`):
  - the default HTML processor: which build outputs become `<script>` / `<link>` tags, the
    append to the first `<head>`, and removal by XPath;
  - the end hook that reads the page, runs the processor chain and produces the page to write.

Modelling conventions:

- A Go run-time panic the plugin can reach is an ordinary error value, `Panic(site)`. The
  sites are a failed type assertion, an index out of range and a nil dereference.
- A Go `(value, error)` pair is a `Result`. A callback's `(result, error)` pair is a `Handled`
  record.
- A nil Go map reads exactly like an empty map, and the model uses the empty map for both.
- Some behaviour comes from collaborators the plugin calls but does not define. This model
  takes that behaviour as parameters, gathered in the `Api.Host` record:
  - xxhash, the JSON codec, base64, `%v` formatting and URL query parsing;
  - the file system, as a snapshot;
  - the HTML reader and XPath selection;
  - `filepath.Clean`, `Abs`, `Dir` and `Rel`, and the executable's directory.
- The JavaScript executor is a function from a service name and arguments to a result.

Files: `common.dfy`, `chains.dfy` (generic processor chains), `strconv.dfy`, `api.dfy`
(esbuild API records, HTML nodes, `Host`, lexical `path/filepath`), `options.dfy`,
`pathalias.dfy`, `vue.dfy`, `sass.dfy`, `html.dfy`, `plugin.dfy`.

## Model

| member | source | states |
|---|---|---|
| Options.NewOptions | option.go:96-103 | The defaults: the name `vue-plugin`, empty compiler and preprocessor option maps, zero-valued index-HTML options (no source page, no output, no XPaths, no processors), every processor chain empty, no executor, the default logger. |
| Options.WithName | option.go:107-111 | Sets the plugin name and leaves every other option as it was. |
| Options.WithTemplateCompilerOptions | option.go:118-122 | Sets the template compiler options and nothing else. |
| Options.WithStylePreprocessorOptions | option.go:129-133 | Sets the style preprocessor options and nothing else. |
| Options.WithIndexHtmlOptions | option.go:137-141 | Sets the HTML options and nothing else. |
| Options.WithOnStartProcessor | option.go:146-150 | Appends the processor at the end of the start chain; every other option is unchanged. |
| Options.WithOnVueResolveProcessor | option.go:155-159 | Appends at the end of the Vue resolve chain; nothing else changes. |
| Options.WithOnVueLoadProcessor | option.go:164-168 | Appends at the end of the Vue load chain; nothing else changes. |
| Options.WithOnSassLoadProcessor | option.go:173-177 | Appends at the end of the Sass load chain; nothing else changes. |
| Options.WithOnEndProcessor | option.go:182-186 | Appends at the end of the end chain; nothing else changes. |
| Options.WithOnDisposeProcessor | option.go:191-195 | Appends at the end of the dispose chain; nothing else changes. |
| Options.WithJsExecutor | option.go:200-204 | Sets the executor and nothing else. |
| Options.WithLogger | option.go:209-213 | Sets the logger and nothing else. |
| Options.ParseImportMetaEnv | option.go:218-239 | A variable's own `import.meta.env.<key>` entry wins, decoded, with invalid JSON giving nil. Otherwise the key of the decoded `import.meta.env` object is used. The variable is absent exactly when neither exists. |
| Options.DirectEntryShadowsObject | option.go:220-225 | While a variable has its own entry, replacing the `import.meta.env` object does not change its value. |
| Options.LookupPresenceMonotone | option.go:218-239 | Adding Define entries never makes a present variable disappear. |
| Options.EnsureEnv | option.go:256-270 | A variable is written under its own key only when the lookup does not find it. Afterwards it is found, and existing entries are kept. |
| Options.NormalizeWith | option.go:244-281 | Keeps every existing Define entry. Afterwards `import.meta.env`, every listed variable and every flag is present. The only keys it adds are these. |
| Options.NormalizeWithIdempotent | option.go:244-281 | Normalising an already normalised Define map changes nothing. |
| Options.EnsureKeysWritesDefault | option.go:273-281 | A flag absent from the Define map is written with the default of its first occurrence in the list. |
| Options.EnsureEnvsWritesDefault | option.go:256-270 | A variable the lookup does not find is written, under its own key, with the default of its first occurrence in the list. |
| Options.LookupUnaffected | option.go:218-239 | Writing one variable's own key leaves every other variable's lookup unchanged. |
| Options.Normalize | option.go:244-285 | The normalised Define map is set, the metafile is switched on, and no other build option changes. |
| Options.NormalizeIdempotent | option.go:244-285 | Normalising the build options twice is normalising them once. |
| Options.NormalizeEmptyDefine | option.go:246-281 | A nil or empty Define map becomes exactly the nine defaults: `{}`, `'production'`, `true`, `false`, `false`, `'/'`, `true`, `false`, `false`. |
| Options.NormalizeWritesDefaults | option.go:246-281 | On any Define map (with "{}" decoding to the empty object), normalisation fills in only what is missing. An absent `import.meta.env` becomes `{}`. Each variable the lookup does not find gets its default text, e.g. `PROD` gets `true`. Each absent flag gets its default. |
| Plugin.ApplyOptionsAppend | plugin.go:13-18 | Applying the option functions `a + b` is applying `a`, then `b`. |
| Plugin.LastNameWins | plugin.go:13-18 | Of several names given, the last one wins. |
| Plugin.StartProcessorsInOrder | plugin.go:13-18 | Start processors registered one by one end up in the chain in the order given, after any already there. Nothing else changes. |
| Plugin.NewPlugin | plugin.go:12-25 | Fails with the executor-required panic exactly when no executor was configured. Otherwise the plugin carries the configured options and name. |
| Plugin.ExecutorMakesPlugin | plugin.go:12-25 | With only an executor configured, the plugin has the default name and the default options plus that executor. |
| Plugin.NoExecutorPanics | plugin.go:20-22 | Without WithJsExecutor the plugin cannot be made, whatever name or processors are given. |
| Plugin.Setup | plugin.go:26-28 | Every callback sees build options with the metafile on and the original Define entries kept. Every Vite variable is found, and no other option changes. |
| Plugin.OnStart | plugin.go:31-39 | Succeeds exactly when every start processor succeeds. Otherwise it returns the error of the first processor that fails, and all processors before it succeeded. |
| Plugin.OnEnd | plugin.go:47-54 | The same, for the end processors with the build result. |
| Plugin.OnDispose | plugin.go:57-61 | Every dispose processor runs, in order. |
| Plugin.StartStopsAtFirstError | plugin.go:31-39 | A failing start processor's error is the callback's error; processors registered after it do not matter. |
| Chains.RunUntilError | plugin.go:33-37 | Runs the processors in order up to the first error; every one before the stop passed. |
| Chains.FoldAbort | vue.go:206-212 | In a chain where each processor receives the previous output, a failing processor ends the chain with its own error. |
| Chains.FirstDecision | sass.go:102-113 | Returns the first non-declining answer, with every processor before it declining; it declines exactly when all decline. |
| Strconv.FormatHex | vue.go:221 | Base-16 formatting gives a canonical lower-case hex string that parses back to the number. |
| Strconv.FormatHexInjective | vue.go:221 | Distinct numbers format to distinct strings. |
| Strconv.FormatParseHex | vue.go:221 | Every canonical hex string is the formatting of its own value. |
| Strconv.Atoi | vue.go:348-351 | On success the value is the signed decimal value of the digits, within int64. On failure it is 0 or the clamped bound. |
| Strconv.AtoiFormatDecimal | vue.go:442-443 | Parsing a formatted non-negative int64 gives it back. |
| Paths.Base | html.go:76 | `filepath.Base`: `.` for the empty path and `/` exactly for a path of slashes. Otherwise it is a non-empty, slash-free element of the path that starts it or follows a `/`, with only slashes after it: the last element. |
| Paths.Ext | html.go:77 | `filepath.Ext`: a suffix of the path that starts with `.` and holds no other `.` or `/`. It is empty exactly when no `.` follows the last `/`. |
| Paths.Absolutize | vue.go:316-319 | The path made absolute, as both resolve handlers do. An absolute path is kept. A relative, non-empty path with a non-empty importer directory becomes the cleaned join of the two. |
| Paths.AbsolutizeIsAbs | sass.go:42-45 | With an absolute importer directory, and a `Clean` that keeps absolute paths absolute, the resolved path is always absolute. |
| Paths.Join | sass.go:43-45 | `filepath.Join` of two elements: two non-empty elements are joined by `/` and cleaned; two empty ones give `""`. |
| Vue.ToPosixPath | vue.go:26-28 | Every backslash becomes `/`, and every other character and the length are kept. |
| Vue.ToPosixPathIdempotent | vue.go:26-28 | The result holds no backslash, so converting again changes nothing. |
| Vue.CrlfToLf | vue.go:201-202 | The result is shorter by exactly the number of CRLF pairs. |
| Vue.CrlfToLfOnlyDropsCr | vue.go:201-202 | Line-ending normalisation removes carriage returns and nothing else. |
| Vue.CrlfToLfNoCr | vue.go:201-202 | A source without carriage returns is left unchanged. |
| Vue.CrlfToLfPieces | vue.go:201-202 | A CRLF pair becomes a single LF, and any other single character is kept. |
| Vue.CrlfToLfAppend | vue.go:201-202 | Normalising two texts separately equals normalising their concatenation, unless the cut falls between a CR and an LF. With Vue.CrlfToLfPieces this fixes the result on every input, including where a lone CR stays. |
| Vue.ReadVueSource | vue.go:193-216 | A read error is returned as is. With no processors the result is the normalised file. A failing first processor's error is the result. |
| Vue.ReadVueSourceSnoc | vue.go:205-213 | Each processor receives exactly the output of the processors before it. |
| Vue.ReadVueSourceAbort | vue.go:208-211 | A failing processor ends the read with its error; later processors do not matter. |
| Vue.HashId | vue.go:220-222 | The id is canonical lower-case hex of at most 16 digits and parses back to the 64-bit hash. |
| Vue.DataId | vue.go:77 | The scope id is `data-v-` followed by the hash id. |
| Vue.HashIdSameIffSameHash | vue.go:76-77 | Two sources get the same scope id exactly when their hashes agree. |
| Vue.EnvFlag | vue.go:50-65 | A mode flag is the variable's value when that is a boolean, and the fallback otherwise. |
| Vue.IsProd | vue.go:50-56 | Production unless `import.meta.env.PROD` is the boolean false. |
| Vue.IsSSR | vue.go:59-65 | SSR exactly when `import.meta.env.SSR` is the boolean true. |
| Vue.ExtractParts | vue.go:122-142 | A present, non-null script that is not an object is a failed type assertion. The template is kept only when it is an object. The styles are kept only when they are an array, element by element, with a non-object as the empty map. |
| Vue.SomeScoped | vue.go:252-259 | True exactly when some style is `scoped: true` with only `scoped: false` before it. False exactly when all are `scoped: false`. It panics exactly when a non-boolean `scoped` comes first. |
| Vue.StyleImports | vue.go:267-269 | One side-effect import per style, in order, with the indices 0 .. n-1. |
| Vue.AssembleStyles | vue.go:261-286 | The only side-effect imports of the entry are the style imports, in order. |
| Vue.AssembleScript | vue.go:261-265 | The script is imported exactly when there is one, and the empty object is declared exactly when there is none. |
| Vue.AssembleExports | vue.go:283-286 | `export *` from the script appears exactly when there is one, and the entry ends with `export default script`. |
| Vue.AssembleTemplate | vue.go:271-274 | The template import, and the assignment of its render function to the component, appear exactly when there is a template. Every named import binds `ssrRender` under SSR and `render` otherwise. |
| Vue.AssembleRender | vue.go:273 | `script.render = render` (`ssrRender` under SSR) is in the generated module exactly when the component has a template. |
| Vue.AssembleFields | vue.go:276-281 | `__ssrInlineRender` is set exactly under SSR and `__scopeId` exactly when a style is scoped. `__file` is always set. |
| Vue.GenerateEntryContents | vue.go:227-302 | It fails, with the template-failure wrapper, exactly when the scoped check panics. Otherwise it gives the statement list, with all the properties above stated for the component's parts, including the render assignment exactly when there is a template. |
| Vue.EntryData | vue.go:159-170 | The plugin data holds `id` and `script` always, `template` exactly when there is one, `styles` exactly when there are any, and no other key. |
| Vue.ScriptWarnings | vue.go:173-180 | The string entries of the script's `warnings` array become build warnings, in order. |
| Vue.LoadEntry | vue.go:67-188 | A read error is returned unchanged. An executor error becomes one located error message. A non-object answer is one located message with no error. An object answer is handled by EntryFromResult. A success comes from an object answer that splits into parts: it carries the content id, the resolve directory, the plugin data of those parts and the entry generated from them. |
| Vue.EntryFromResult | vue.go:122-187 | A split that panics (a script that is not an object) is returned as the error. When the split succeeds but generation fails, the result is one "Failed to generate Vue entry contents" message located at the file, together with the error. An entry is produced exactly when the split succeeds and generation succeeds. It then carries the plugin data, the warnings and the statements of that very split. |
| Vue.EntryFromParts | vue.go:144-187 | An entry is produced exactly when generation succeeds; a generation error becomes one located message with that error. A success carries the plugin data, the script warnings and the generated statements. |
| Vue.LoadEntryProducesEntry | vue.go:67-187 | A readable component whose compiled answer is an object with well-formed parts always yields an entry, with no error and no messages. The entry carries the content id and those parts as plugin data, and imports the script exactly when there is one. |
| Vue.Classify | vue.go:334-358 | An unparsable path is a nil dereference. Otherwise the namespace is `sfc-<type>`, or `file` without a type. The plugin data is the old data, with `index` set exactly when the parameter parses as an int. |
| Vue.ResolveAfterAlias | vue.go:321-358 | When every processor declines, the default classification is used. An error comes from some processor. |
| Vue.ResolveShortCircuit | vue.go:322-332 | The first processor that answers or fails decides, and later processors are not consulted. |
| Vue.Resolve | vue.go:307-360 | A tsconfig error is returned. Otherwise the path is rewritten by the aliases (literal replacement) and the rest of the handler runs on it. Without aliases the path is used as given. |
| Vue.PartOf | vue.go:367-368 | A part of the plugin data is read exactly when the data is present and the part is an object; otherwise it is a failed type assertion. |
| Vue.LoadScript | vue.go:365-395 | Succeeds exactly when the script part, its string content, the source map encoding and the `lang` string are all there. The content gets the inline source map exactly when source maps are on and a map exists. The loader is TS exactly for `lang: "ts"`. |
| Vue.LoadTemplate | vue.go:400-430 | Succeeds exactly when the template part and its string code exist. The loader is TS, and the string tips become warnings in order. |
| Vue.LoadStyle | vue.go:435-457 | A success is the code of the style block at the path's `index`, with the CSS loader. An index outside the styles panics with index out of range. |
| Vue.EntryScriptRoundTrip | vue.go:159-170 | The script loader returns the content the entry stored. |
| Vue.EntryTemplateRoundTrip | vue.go:164-166 | The template loader returns the code the entry stored. |
| Vue.EntryStyleRoundTrip | vue.go:267-269 | The style import the entry emits for block `i` loads exactly block `i`. |
| Vue.ResolvedStyleRoundTrip | vue.go:334-352 | The style import for block `i`, resolved by the default classification, lands in `sfc-style` with `index` = `i` recorded. Loading it gives exactly block `i`. |
| Vue.StyleBlockLoads | vue.go:440-448 | The style loader returns the code of the block the path's index names. |
| PathAlias.AsConfig | pathalias.go:35-38 | Decoding into a map: an object is its fields, null is the empty map, any other value is an error. |
| PathAlias.TsconfigSource | pathalias.go:33-66 | The inline tsconfig wins and is resolved against the working directory, else the executable's directory. The tsconfig file is resolved against its own directory. A read error is returned. In both branches the configuration is the decoded JSON as a map, and a decode error or a non-object is returned as the error. Without either there is no configuration. |
| PathAlias.FirstMapping | pathalias.go:74-75 | An alias's target is its first mapping, when the mappings are a non-empty array whose first element is a string. |
| PathAlias.PathsOf | pathalias.go:69-70 | `compilerOptions.paths` when both levels are objects. Empty when `compilerOptions` is not an object, and empty when it is but `paths` is missing or not an object. |
| PathAlias.AliasTable | pathalias.go:72-80 | The aliases are exactly those with a string first mapping, each joined onto the tsconfig's directory. |
| PathAlias.ParseTsconfigPathAlias | pathalias.go:27-85 | Configuration errors are returned. Otherwise the aliases are exactly the entries of `compilerOptions.paths` whose first mapping is a string, each mapped to that string joined onto the tsconfig's directory. |
| PathAlias.NoTsconfigNoAliases | pathalias.go:33-66 | Without any tsconfig there are no aliases. |
| PathAlias.RawTsconfigWins | pathalias.go:33-50 | With an inline tsconfig, the tsconfig path and the file system do not matter. |
| PathAlias.AliasTableKeepsStringMappings | pathalias.go:74-77 | An alias whose mappings start with a string is kept, joined onto the directory. |
| PathAlias.RawTsconfigAlias | pathalias.go:33-82 | An inline tsconfig declaring an alias whose mappings start with a string yields that alias, joined onto the working directory. |
| PathAlias.InvalidTsconfigFails | pathalias.go:35-38 | An inline tsconfig that is not valid JSON, or is an array, makes the parse fail. |
| PathAlias.Groups | pathalias.go:110-125 | Group 0 is the whole match. A wildcard's group 1 is the text after the stem, up to the first newline. |
| PathAlias.Extract | pathalias.go:124 | After a `$`, Go's template reads a name or a braced name, and consumes at least one character when it does. |
| PathAlias.Matches | pathalias.go:107-122 | `MatchString` of the alias expression. A wildcard alias matches exactly the paths that start with its text before the `*`, and an exact alias matches only itself. |
| PathAlias.Expand | pathalias.go:124 | The template expansion of `ReplaceAllString`: a template without `$` expands to itself. |
| PathAlias.ExpandPlain | pathalias.go:124 | A template without `$` expands to itself. |
| PathAlias.ExpandCapture | pathalias.go:113 | `$1` expands to the wildcard's capture. |
| PathAlias.LiteralSubstitute | pathalias.go:110-125 | For a wildcard, the captured rest of the path replaces the target's last character. For an exact alias, the path becomes the target. |
| PathAlias.Substitute | pathalias.go:110-124 | `ReplaceAllString` as written, with the target's `*` turned into `$1`. For a target without `$` it equals the literal substitution, newlines in the path included. |
| PathAlias.DollarTargetIsExpanded | pathalias.go:113-124 | The alias `@lib` for `/p/$lib` rewrites `@lib` to `/p/` rather than `/p/$lib`. |
| PathAlias.ApplyPathAlias | pathalias.go:103-130 | The result is a rewrite by some matching alias, or the path itself when no alias matches. A wildcard alias with an empty target panics when it is visited. With no such alias the result is never an error. |
| PathAlias.OutcomeDeterministic | pathalias.go:105-126 | With no broken alias and at most one matching alias, the map's visiting order cannot change the result. |
| PathAlias.WildcardRewrite | pathalias.go:110-125 | The single matching wildcard alias puts the rest of the path in place of the target's `*`. |
| Sass.ResolveSass | sass.go:29-52 | A tsconfig error is returned. Otherwise the result is the alias-rewritten path made absolute, in the `sass-loader` namespace, with no plugin data. |
| Sass.ReadSassSource | sass.go:99-122 | The content is the first non-empty processor content, or the file when all processors give `""`. A processor error or a read error is wrapped with its own prefix. |
| Sass.FirstContentWins | sass.go:103-111 | The first processor with content wins; later processors and the file system do not matter. |
| Sass.ProcessorErrorAborts | sass.go:104-107 | A processor error ends the read with `sass processor failed` wrapping it. |
| Sass.CompileSass | sass.go:128-161 | The three failures come in order: the service error (wrapped), a non-object answer, a missing `css` string. A success is exactly the `css` string. |
| Sass.LoadSass | sass.go:57-93 | A read or compile failure becomes one error message at the path, with the error. A success is the CSS with the CSS loader. |
| Html.ShouldInclude | html.go:74-85 | An output is included exactly when its file name starts with the stem of some entry point. |
| Html.AssetTags | html.go:87-115 | An output gives a tag and a newline exactly when it is included and is `.js` or `.css`; otherwise it gives nothing. |
| Html.HeadAdditions | html.go:69-116 | Nothing is added exactly when no output qualifies, and at most two nodes are added per output. |
| Html.HeadAdditionsAppend | html.go:69-116 | The additions for two lists of outputs are those of the first followed by those of the second. |
| Html.InjectedOutput | html.go:88-115 | A qualifying JavaScript output adds a `script` element with the script builder's attributes, and a CSS output a `link` element, each followed by a newline, in output order. |
| Html.AppendToFirstHead | html.go:67 | The append succeeds exactly when the document has a `<head>` somewhere, and keeps the number of top-level nodes. |
| Html.FirstHead | html.go:67 | The depth-first search for `//head`: found exactly when the page has a `<head>`, and what it finds is a `head` element. |
| Html.AppendLandsInHead | html.go:96-114 | The appended nodes become the last children of the first `<head>`, which keeps its attributes and earlier children. |
| Html.DropAfterAppend | html.go:96-114 | Dropping the appended number of children from the first head gives back the original page, so nothing outside that head's list of children changes. |
| Html.AppendToFirstHeadTwice | html.go:96-114 | Appending one batch after another to the first head is appending both at once. |
| Html.AppendNothing | html.go:67-116 | Appending nothing leaves the document as it was. |
| Html.Prune | html.go:119-126 | Removal keeps exactly the unselected top-level nodes: the result has one node per top-level node that is not selected. |
| Html.PruneUnselected | html.go:119-126 | An unselected node keeps its place, tag and attributes; only its selected descendants are removed. A text node that is not selected stays as it is. |
| Html.PruneNothing | html.go:119-126 | When nothing is selected, removal changes nothing. |
| Html.PruneAppend | html.go:119-126 | Removal works sibling by sibling. |
| Html.PruneSelected | html.go:120-123 | A selected node disappears with its whole subtree. |
| Html.RemoveSelected | html.go:121-123 | The document node has no parent and is never removed; only its descendants are. |
| Html.RemoveTags | html.go:119-126 | No XPath expression leaves the document unchanged. |
| Html.RemoveTagsOne | html.go:120-123 | One expression removes exactly the nodes it finds below the document node. |
| Html.RemoveTagsAppend | html.go:119-126 | The expressions apply in order, each to the page the earlier ones left. |
| Html.Inject | html.go:67-116 | Injection fails exactly when there are tags and no `<head>`, as a nil dereference. With no tags the document is unchanged. With tags they become the last children of the first `<head>`, and dropping them again gives back the original page. |
| Html.Process | html.go:31-129 | The processor fails exactly when there are tags to add but no `<head>`. Otherwise the result is the injected page with the XPath removals applied. |
| Html.ProcessAppendsToHead | html.go:67-116 | Without removals, the default processor appends the tags of the qualifying outputs, in output order, as the last children of the first `<head>`, and changes nothing else. |
| Html.ProcessNothingToDo | html.go:69-126 | With no qualifying output and nothing to remove, the page is unchanged. |
| Html.DefaultScriptTag | html.go:33-47 | The default script tag is `crossorigin=""`, `type="module"` and `src`, the output relative to the page's directory. |
| Html.ProcessorsOf | html.go:148-153 | The configured processors are used, or the single default processor when none is configured. |
| Html.HtmlEnd | html.go:135-191 | The hook is skipped exactly without a source file or when writing is off. The guards come in order: missing metafile, missing output path, open error, decode error. The page is written exactly when the processor chain succeeds, and a chain error is returned. |
| Html.DefaultProcessorRuns | html.go:148-175 | Without configured processors, the page written is what the default processor makes of the parsed source. |
| Html.FailingProcessorStops | html.go:169-175 | A failing processor's error ends the hook; later processors do not run and nothing is written. |

## Left out

- Reading and writing files, rendering HTML to text and the encoding detection are
  parameters. The file system is a snapshot function; the HTML reader returns a parsed
  document or an open or decode error. `html.Render` and `os.WriteFile` are not modelled.
  `HtmlEnd` returns the document and the path it would write, so render and write errors do
  not appear.
- Logging is not modelled. The logger is only recorded in the options.
- The request ids (`xid`) are not modelled.
- `SimpleCopy` is a file-copying utility built on the file system, and is not modelled.
- The JavaScript executor and the compilers behind it are not modelled. This includes the Vue
  and Sass services and `engine/fs.go`; the executor is a function parameter.
- xxhash, JSON decoding and encoding, base64, `%v` formatting, URL parsing and `filepath.Clean`,
  `Abs`, `Dir` and `Rel` are parameters of `Api.Host`. Only `IsAbs`, `Join`, `Base` and `Ext`
  are modelled, for POSIX paths. `filepath.ToSlash` is the identity there.
- JSON numbers are integers; Go's `float64` is not modelled.
- XPath selection is a per-node predicate. It is evaluated on the tree as it was before that
  expression's removals, so document-position-dependent XPath semantics are not modelled.
- Node identity and aliasing of `*html.Node` and of the plugin-data maps are not modelled.
  Values are immutable.
- Resolve processors receive `&args` and can change it. Load processors can also change
  `build.InitialOptions` through the pointer. Neither mutation is modelled: processors see the
  arguments and options as values.
- Go's map iteration order in `applyPathAlias` is a nondeterministic choice. Races between
  esbuild callbacks are not modelled.
- Group names after `$` are read as ASCII letters, digits and `_`. Go also accepts non-ASCII
  letters there.
- The JSON decoder of the tsconfig file reads only the first JSON value; `decodeJson` stands
  for that.
- Vue.GenerateEntryContents: on a template failure, the wrapped error is the panic value
  itself. `text/template` adds its own prefix, and that prefix is not modelled.
- Plugin.OnEnd: esbuild runs every end callback. The HTML hook is registered before the
  end-processor callback, and how esbuild combines their errors is not modelled.
- Html.HtmlEnd: storing the default processor back into the options is not modelled. The
  default is recomputed on every build, which gives the same processors.
- Vue.IsProd: the source computes the mode flags once, when the handler is registered. The
  model computes them from the build options each time, which agrees because the options are
  normalised before registration and not changed after it.
- Vue.LoadStyle: errors other than the out-of-range index are stated only as "no contents".
  These are a missing plugin data map, a non-array `styles`, a non-object block and a
  non-string `code`.
- Vue.ReadVueSource: its own contract covers only the first processor. The whole chain is
  stated by Vue.ReadVueSourceSnoc and Vue.ReadVueSourceAbort.
- PathAlias.Substitute: strings are sequences of characters, not UTF-8 bytes. The source drops
  the last byte of a wildcard target, and the model drops its last character. The two differ
  when a wildcard target ends in a non-ASCII character.
- PathAlias.LiteralSubstitute: the same character-for-byte simplification as Substitute.
- Vue.Resolve: uses the literal alias replacement (see Findings).
  PathAlias.DollarTargetIsExpanded states where the source's replacement differs.
- Sass.ResolveSass: uses the literal alias replacement too, for the same reason as Vue.Resolve.

## Findings

| source | as written | input that shows it | evidently intended | confidence | as-written member | corrected member |
|---|---|---|---|---|---|---|
| pathalias.go:113-124 | The alias target, with its trailing `*` replaced by `$1`, is passed to `ReplaceAllString` as a template. Every `$name` in the target is therefore expanded, and a name that is not a group becomes empty. | alias `@lib` with target `/p/$lib`, path `@lib` gives `/p/` | The target is taken literally, and only its `*` is replaced by the rest of the path. | medium, not executed | PathAlias.DollarTargetIsExpanded | PathAlias.LiteralSubstitute |
