/** Plugin configuration (option.go): the processor types of every extension point, the
    options record with its defaults and functional-option builders, the lookup of
    `import.meta.env` values in esbuild's Define map, and the normalisation that fills in
    the Vite-compatible defaults. */
module Options {
  import opened Common
  import opened Api

  // ---------------------------------------------------------------- processor types

  type StartProcessor = BuildOptions -> Option<Error>
  /** Returns a resolution to use instead of the default one, None to decline, or an error. */
  type VueResolveProcessor = (ResolveArgs, BuildOptions) -> Result<Option<ResolveResult>>
  /** Receives the current Vue source and returns the transformed source. */
  type VueLoadProcessor = (string, LoadArgs, BuildOptions) -> Result<string>
  /** Returns Sass source to use instead of the file on disk; "" means "not mine". */
  type SassLoadProcessor = (LoadArgs, BuildOptions) -> Result<string>
  type EndProcessor = (BuildResult, BuildOptions) -> Option<Error>
  /** What a dispose processor did; dispose processors cannot report errors. */
  datatype Cleanup = Cleanup(note: string)
  type DisposeProcessor = BuildOptions -> Cleanup

  /** The fields of IndexHtmlOptions that an HTML processor reads through its options argument. */
  datatype HtmlPage = HtmlPage(sourceFile: string, outFile: string, removeTagXPaths: seq<string>)
  /** Receives the parsed document and returns it edited, or an error. */
  type IndexHtmlProcessor = (Node, BuildResult, HtmlPage, BuildOptions) -> Result<Node>

  datatype IndexHtmlOptions = IndexHtmlOptions(
    sourceFile: string,
    outFile: string,
    removeTagXPaths: seq<string>,
    indexHtmlProcessors: seq<IndexHtmlProcessor>)

  function Page(h: IndexHtmlOptions): HtmlPage
  {
    HtmlPage(h.sourceFile, h.outFile, h.removeTagXPaths)
  }

  /** The JavaScript executor: runs a named service with positional arguments. */
  datatype Executor = Executor(execute: (string, seq<Json>) -> Result<Json>)

  datatype Logger = DefaultLogger | CustomLogger(handle: nat)

  datatype Options = Options(
    name: string,
    templateCompilerOptions: map<string, Json>,
    stylePreprocessorOptions: map<string, Json>,
    indexHtmlOptions: IndexHtmlOptions,
    onStartProcessors: seq<StartProcessor>,
    onVueResolveProcessors: seq<VueResolveProcessor>,
    onVueLoadProcessors: seq<VueLoadProcessor>,
    onSassLoadProcessors: seq<SassLoadProcessor>,
    onEndProcessors: seq<EndProcessor>,
    onDisposeProcessors: seq<DisposeProcessor>,
    jsExecutor: Option<Executor>,
    logger: Logger)

  type OptionFunc = Options -> Options

  const DefaultName: string := "vue-plugin"

  /** newOptions */
  function NewOptions(): (o: Options)
    ensures o.name == DefaultName
    ensures o.templateCompilerOptions == map[] && o.stylePreprocessorOptions == map[]
    ensures o.onStartProcessors == [] && o.onVueResolveProcessors == [] && o.onVueLoadProcessors == []
    ensures o.onSassLoadProcessors == [] && o.onEndProcessors == [] && o.onDisposeProcessors == []
    ensures o.jsExecutor.None?
    ensures o.indexHtmlOptions == IndexHtmlOptions("", "", [], [])
    ensures o.logger == DefaultLogger
  {
    Options(DefaultName, map[], map[], IndexHtmlOptions("", "", [], []), [], [], [], [], [], [], None, DefaultLogger)
  }

  // ---------------------------------------------------------------- setters

  function WithName(name: string): (f: OptionFunc)
    ensures forall o :: f(o).name == name && f(o).(name := o.name) == o
  {
    (o: Options) => o.(name := name)
  }

  function WithTemplateCompilerOptions(m: map<string, Json>): (f: OptionFunc)
    ensures forall o :: f(o).templateCompilerOptions == m && f(o).(templateCompilerOptions := o.templateCompilerOptions) == o
  {
    (o: Options) => o.(templateCompilerOptions := m)
  }

  function WithStylePreprocessorOptions(m: map<string, Json>): (f: OptionFunc)
    ensures forall o :: f(o).stylePreprocessorOptions == m && f(o).(stylePreprocessorOptions := o.stylePreprocessorOptions) == o
  {
    (o: Options) => o.(stylePreprocessorOptions := m)
  }

  function WithIndexHtmlOptions(h: IndexHtmlOptions): (f: OptionFunc)
    ensures forall o :: f(o).indexHtmlOptions == h && f(o).(indexHtmlOptions := o.indexHtmlOptions) == o
  {
    (o: Options) => o.(indexHtmlOptions := h)
  }

  function WithJsExecutor(e: Executor): (f: OptionFunc)
    ensures forall o :: f(o).jsExecutor == Some(e) && f(o).(jsExecutor := o.jsExecutor) == o
  {
    (o: Options) => o.(jsExecutor := Some(e))
  }

  function WithLogger(l: Logger): (f: OptionFunc)
    ensures forall o :: f(o).logger == l && f(o).(logger := o.logger) == o
  {
    (o: Options) => o.(logger := l)
  }

  // ---------------------------------------------------------------- chain builders

  /** Appends `p` at the end of the start chain and changes nothing else. */
  function WithOnStartProcessor(p: StartProcessor): (f: OptionFunc)
    ensures forall o :: f(o).onStartProcessors == o.onStartProcessors + [p]
    ensures forall o :: f(o).(onStartProcessors := o.onStartProcessors) == o
  {
    (o: Options) => o.(onStartProcessors := o.onStartProcessors + [p])
  }

  function WithOnVueResolveProcessor(p: VueResolveProcessor): (f: OptionFunc)
    ensures forall o :: f(o).onVueResolveProcessors == o.onVueResolveProcessors + [p]
    ensures forall o :: f(o).(onVueResolveProcessors := o.onVueResolveProcessors) == o
  {
    (o: Options) => o.(onVueResolveProcessors := o.onVueResolveProcessors + [p])
  }

  function WithOnVueLoadProcessor(p: VueLoadProcessor): (f: OptionFunc)
    ensures forall o :: f(o).onVueLoadProcessors == o.onVueLoadProcessors + [p]
    ensures forall o :: f(o).(onVueLoadProcessors := o.onVueLoadProcessors) == o
  {
    (o: Options) => o.(onVueLoadProcessors := o.onVueLoadProcessors + [p])
  }

  function WithOnSassLoadProcessor(p: SassLoadProcessor): (f: OptionFunc)
    ensures forall o :: f(o).onSassLoadProcessors == o.onSassLoadProcessors + [p]
    ensures forall o :: f(o).(onSassLoadProcessors := o.onSassLoadProcessors) == o
  {
    (o: Options) => o.(onSassLoadProcessors := o.onSassLoadProcessors + [p])
  }

  function WithOnEndProcessor(p: EndProcessor): (f: OptionFunc)
    ensures forall o :: f(o).onEndProcessors == o.onEndProcessors + [p]
    ensures forall o :: f(o).(onEndProcessors := o.onEndProcessors) == o
  {
    (o: Options) => o.(onEndProcessors := o.onEndProcessors + [p])
  }

  function WithOnDisposeProcessor(p: DisposeProcessor): (f: OptionFunc)
    ensures forall o :: f(o).onDisposeProcessors == o.onDisposeProcessors + [p]
    ensures forall o :: f(o).(onDisposeProcessors := o.onDisposeProcessors) == o
  {
    (o: Options) => o.(onDisposeProcessors := o.onDisposeProcessors + [p])
  }

  // ---------------------------------------------------------------- import.meta.env

  const EnvObjectKey: string := "import.meta.env"

  /** The Define key of one environment variable: fmt.Sprintf("import.meta.env.%s", key). */
  function EnvKey(key: string): string
  {
    EnvObjectKey + "." + key
  }

  /** `var v interface{}; json.Unmarshal(text, &v)` with the error ignored: invalid JSON leaves nil. */
  function Unmarshalled(decode: string -> Result<Json>, text: string): Json
  {
    match decode(text)
    case Ok(v) => v
    case Err(_) => JNull
  }

  /** parseImportMetaEnv: Some(v) is `(v, true)`, None is `(nil, false)`. The variable's own
      Define entry is consulted first; only without it is the `import.meta.env` object searched. */
  function ParseImportMetaEnv(define: map<string, string>, key: string, decode: string -> Result<Json>): (r: Option<Json>)
    ensures EnvKey(key) in define ==> r == Some(Unmarshalled(decode, define[EnvKey(key)]))
    ensures EnvKey(key) !in define && r.Some? ==>
              EnvObjectKey in define && Unmarshalled(decode, define[EnvObjectKey]).JObj? &&
              key in Unmarshalled(decode, define[EnvObjectKey]).fields &&
              r.value == Unmarshalled(decode, define[EnvObjectKey]).fields[key]
    ensures r.None? <==> EnvKey(key) !in define && !NestedHas(define, key, decode)
  {
    if EnvKey(key) in define then Some(Unmarshalled(decode, define[EnvKey(key)]))
    else if EnvObjectKey in define then
      match Unmarshalled(decode, define[EnvObjectKey])
      case JObj(fields) => if key in fields then Some(fields[key]) else None
      case _ => None
    else None
  }

  /** The `import.meta.env` object decodes to a JSON object that has `key`. */
  predicate NestedHas(define: map<string, string>, key: string, decode: string -> Result<Json>)
  {
    EnvObjectKey in define && Unmarshalled(decode, define[EnvObjectKey]).JObj? &&
    key in Unmarshalled(decode, define[EnvObjectKey]).fields
  }

  /** While the variable has its own entry, the `import.meta.env` object is never consulted. */
  lemma DirectEntryShadowsObject(define: map<string, string>, key: string, obj: string, decode: string -> Result<Json>)
    requires EnvKey(key) in define
    requires EnvKey(key) != EnvObjectKey
    ensures ParseImportMetaEnv(define[EnvObjectKey := obj], key, decode) == ParseImportMetaEnv(define, key, decode)
  {
  }

  /** `d` is `e` restricted to some of its keys. */
  ghost predicate Extends(e: map<string, string>, d: map<string, string>)
  {
    forall k :: k in d ==> k in e && e[k] == d[k]
  }

  /** Adding entries never makes a present variable disappear. */
  lemma LookupPresenceMonotone(d: map<string, string>, e: map<string, string>, key: string, decode: string -> Result<Json>)
    requires Extends(e, d)
    requires ParseImportMetaEnv(d, key, decode).Some?
    ensures ParseImportMetaEnv(e, key, decode).Some?
  {
    if EnvKey(key) !in d {
      assert NestedHas(d, key, decode);
    }
  }

  // ---------------------------------------------------------------- normalisation

  /** Writes `value` under `key` unless the key is present. */
  function EnsureKey(d: map<string, string>, key: string, value: string): (r: map<string, string>)
    ensures Extends(r, d) && key in r
    ensures r.Keys == d.Keys + {key}
    ensures key !in d ==> r[key] == value
  {
    if key in d then d else d[key := value]
  }

  /** Writes `value` under the variable's own key unless parseImportMetaEnv already finds it. */
  function EnsureEnv(d: map<string, string>, key: string, value: string, decode: string -> Result<Json>): (r: map<string, string>)
    ensures Extends(r, d)
    ensures r.Keys <= d.Keys + {EnvKey(key)}
    ensures ParseImportMetaEnv(r, key, decode).Some?
    ensures ParseImportMetaEnv(d, key, decode).Some? ==> r == d
    ensures ParseImportMetaEnv(d, key, decode).None? ==> EnvKey(key) in r && r[EnvKey(key)] == value
  {
    if ParseImportMetaEnv(d, key, decode).Some? then d else d[EnvKey(key) := value]
  }

  const OptionsApiFlag: string := "__VUE_OPTIONS_API__"
  const ProdDevtoolsFlag: string := "__VUE_PROD_DEVTOOLS__"
  const HydrationDetailsFlag: string := "__VUE_PROD_HYDRATION_MISMATCH_DETAILS__"

  /** The environment variables normalisation guarantees, with their default Define text. */
  const EnvDefaults: seq<(string, string)> :=
    [("MODE", "'production'"), ("PROD", "true"), ("DEV", "false"), ("SSR", "false"), ("BASE_URL", "'/'")]

  /** The Vue feature flags normalisation guarantees, with their default Define text. */
  const FlagDefaults: seq<(string, string)> :=
    [(OptionsApiFlag, "true"), (ProdDevtoolsFlag, "false"), (HydrationDetailsFlag, "false")]

  /** The guarded writes of the environment variables, in list order. */
  function EnsureEnvs(d: map<string, string>, defaults: seq<(string, string)>, decode: string -> Result<Json>): (r: map<string, string>)
    ensures Extends(r, d)
    ensures forall i :: 0 <= i < |defaults| ==> ParseImportMetaEnv(r, defaults[i].0, decode).Some?
    ensures forall k :: k in r && k !in d ==> exists i :: 0 <= i < |defaults| && k == EnvKey(defaults[i].0)
    ensures (forall i :: 0 <= i < |defaults| ==> ParseImportMetaEnv(d, defaults[i].0, decode).Some?) ==> r == d
    decreases |defaults|
  {
    if |defaults| == 0 then d
    else
      var d' := EnsureEnv(d, defaults[0].0, defaults[0].1, decode);
      var r := EnsureEnvs(d', defaults[1..], decode);
      LookupPresenceMonotone(d', r, defaults[0].0, decode);
      assert forall k :: k in r && k !in d' ==> exists i :: 1 <= i < |defaults| && k == EnvKey(defaults[i].0) by {
        forall k | k in r && k !in d'
          ensures exists i :: 1 <= i < |defaults| && k == EnvKey(defaults[i].0)
        {
          var j :| 0 <= j < |defaults[1..]| && k == EnvKey(defaults[1..][j].0);
          assert k == EnvKey(defaults[j + 1].0);
        }
      }
      r
  }

  /** The guarded writes of plain Define keys, in list order. */
  function EnsureKeys(d: map<string, string>, defaults: seq<(string, string)>): (r: map<string, string>)
    ensures Extends(r, d)
    ensures forall i :: 0 <= i < |defaults| ==> defaults[i].0 in r
    ensures forall k :: k in r && k !in d ==> exists i :: 0 <= i < |defaults| && k == defaults[i].0
    ensures (forall i :: 0 <= i < |defaults| ==> defaults[i].0 in d) ==> r == d
    decreases |defaults|
  {
    if |defaults| == 0 then d
    else
      var d' := EnsureKey(d, defaults[0].0, defaults[0].1);
      var r := EnsureKeys(d', defaults[1..]);
      assert forall k :: k in r && k !in d' ==> exists i :: 1 <= i < |defaults| && k == defaults[i].0 by {
        forall k | k in r && k !in d'
          ensures exists i :: 1 <= i < |defaults| && k == defaults[i].0
        {
          var j :| 0 <= j < |defaults[1..]| && k == defaults[1..][j].0;
          assert k == defaults[j + 1].0;
        }
      }
      r
  }

  /** The Define map after normalizeEsbuildOptions: a nil map starts empty, the
      `import.meta.env` object defaults to "{}", then the environment variables `envs` and the
      feature flags `flags` are each written only when absent. */
  function NormalizeWith(d: map<string, string>, envs: seq<(string, string)>, flags: seq<(string, string)>, decode: string -> Result<Json>): (r: map<string, string>)
    ensures Extends(r, d)
    ensures EnvObjectKey in r
    ensures forall i :: 0 <= i < |envs| ==> ParseImportMetaEnv(r, envs[i].0, decode).Some?
    ensures forall i :: 0 <= i < |flags| ==> flags[i].0 in r
    ensures forall k :: k in r && k !in d ==>
              || k == EnvObjectKey
              || (exists i :: 0 <= i < |envs| && k == EnvKey(envs[i].0))
              || (exists i :: 0 <= i < |flags| && k == flags[i].0)
  {
    var d0 := EnsureKey(d, EnvObjectKey, "{}");
    var d1 := EnsureEnvs(d0, envs, decode);
    var r := EnsureKeys(d1, flags);
    ExtendsTrans(d, d0, d1);
    ExtendsTrans(d, d1, r);
    forall i | 0 <= i < |envs|
      ensures ParseImportMetaEnv(r, envs[i].0, decode).Some?
    {
      LookupPresenceMonotone(d1, r, envs[i].0, decode);
    }
    r
  }

  /** Normalising an already normalised map changes nothing: every guarded write finds its key. */
  lemma NormalizeWithIdempotent(d: map<string, string>, envs: seq<(string, string)>, flags: seq<(string, string)>, decode: string -> Result<Json>)
    ensures NormalizeWith(NormalizeWith(d, envs, flags, decode), envs, flags, decode) == NormalizeWith(d, envs, flags, decode)
  {
    var r := NormalizeWith(d, envs, flags, decode);
    assert EnsureKey(r, EnvObjectKey, "{}") == r;
    assert EnsureEnvs(r, envs, decode) == r;
    assert EnsureKeys(r, flags) == r;
  }

  /** normalizeEsbuildOptions: existing entries are kept, every guaranteed variable and flag is
      present afterwards, and the metafile is switched on; nothing else changes. */
  function Normalize(b: BuildOptions, decode: string -> Result<Json>): (r: BuildOptions)
    ensures r.metafile
    ensures r.define.Some? && Extends(r.define.value, Defines(b))
    ensures EnvObjectKey in r.define.value
    ensures forall i :: 0 <= i < |EnvDefaults| ==> ParseImportMetaEnv(r.define.value, EnvDefaults[i].0, decode).Some?
    ensures forall i :: 0 <= i < |FlagDefaults| ==> FlagDefaults[i].0 in r.define.value
    ensures r.define.value == NormalizeWith(Defines(b), EnvDefaults, FlagDefaults, decode)
    ensures r.(define := b.define, metafile := b.metafile) == b
  {
    b.(define := Some(NormalizeWith(Defines(b), EnvDefaults, FlagDefaults, decode)), metafile := true)
  }

  /** On an empty Define map every default is written, with exactly the texts of the source. */
  lemma NormalizeEmptyDefine(b: BuildOptions, decode: string -> Result<Json>)
    requires Defines(b) == map[]
    requires decode("{}") == Ok(JObj(map[]))
    ensures Normalize(b, decode).define == Some(map[
              EnvObjectKey := "{}",
              EnvKey("MODE") := "'production'", EnvKey("PROD") := "true", EnvKey("DEV") := "false",
              EnvKey("SSR") := "false", EnvKey("BASE_URL") := "'/'",
              OptionsApiFlag := "true", ProdDevtoolsFlag := "false", HydrationDetailsFlag := "false"])
  {
    NormalizeWithUnfold(map[], EnvDefaults, FlagDefaults, decode);
    assert EnsureKey(map[], EnvObjectKey, "{}") == map[EnvObjectKey := "{}"];
    EmptyEnvsWritten(decode);
    EmptyFlagsWritten();
  }

  lemma EmptyEnvsWritten(decode: string -> Result<Json>)
    requires decode("{}") == Ok(JObj(map[]))
    ensures EnsureEnvs(map[EnvObjectKey := "{}"], EnvDefaults, decode) == EnvsWritten()
  {
    var d0 := map[EnvObjectKey := "{}"];
    EnvDefaultsDistinct();
    FreshEnvs(d0, EnvDefaults, decode);
    FiveEnvsWritten(d0, EnvDefaults);
  }

  /** The Define map once the object key and the five variables are written. */
  function EnvsWritten(): map<string, string>
  {
    map[EnvObjectKey := "{}"][EnvKey("MODE") := "'production'"][EnvKey("PROD") := "true"][EnvKey("DEV") := "false"]
              [EnvKey("SSR") := "false"][EnvKey("BASE_URL") := "'/'"]
  }

  lemma EmptyFlagsWritten()
    ensures EnsureKeys(EnvsWritten(), FlagDefaults) == EnvsWritten()[OptionsApiFlag := "true"][ProdDevtoolsFlag := "false"][HydrationDetailsFlag := "false"]
  {
    var d0 := map[EnvObjectKey := "{}"];
    var e5 := EnvsWritten();
    assert forall k :: k in e5 ==> |k| > 0 && k[0] == 'i' by {
      assert forall k :: k in d0 ==> |k| > 0 && k[0] == 'i' by {
        assert EnvObjectKey[0] == 'i';
      }
      WriteEnvsInitial(d0, EnvDefaults);
      FiveEnvsWritten(d0, EnvDefaults);
    }
    FlagsAbsent(e5);
    ThreeKeysWritten(e5, FlagDefaults[0], FlagDefaults[1], FlagDefaults[2]);
    assert FlagDefaults == [FlagDefaults[0], FlagDefaults[1], FlagDefaults[2]];
  }

  lemma NormalizeWithUnfold(d: map<string, string>, envs: seq<(string, string)>, flags: seq<(string, string)>, decode: string -> Result<Json>)
    ensures NormalizeWith(d, envs, flags, decode) == EnsureKeys(EnsureEnvs(EnsureKey(d, EnvObjectKey, "{}"), envs, decode), flags)
  {
  }

  /** Five unconditional writes, spelled out. */
  lemma FiveEnvsWritten(m: map<string, string>, s: seq<(string, string)>)
    requires |s| == 5
    ensures WriteEnvs(m, s) == m[EnvKey(s[0].0) := s[0].1][EnvKey(s[1].0) := s[1].1][EnvKey(s[2].0) := s[2].1]
                                [EnvKey(s[3].0) := s[3].1][EnvKey(s[4].0) := s[4].1]
  {
    var m1 := m[EnvKey(s[0].0) := s[0].1];
    var m2 := m1[EnvKey(s[1].0) := s[1].1];
    var m3 := m2[EnvKey(s[2].0) := s[2].1];
    var m4 := m3[EnvKey(s[3].0) := s[3].1];
    assert WriteEnvs(m, s) == WriteEnvs(m1, s[1..]);
    assert WriteEnvs(m1, s[1..]) == WriteEnvs(m2, s[2..]) by { assert s[1..][0] == s[1] && s[1..][1..] == s[2..]; }
    assert WriteEnvs(m2, s[2..]) == WriteEnvs(m3, s[3..]) by { assert s[2..][0] == s[2] && s[2..][1..] == s[3..]; }
    assert WriteEnvs(m3, s[3..]) == WriteEnvs(m4, s[4..]) by { assert s[3..][0] == s[3] && s[3..][1..] == s[4..]; }
    assert WriteEnvs(m4, s[4..]) == WriteEnvs(m4[EnvKey(s[4].0) := s[4].1], s[5..]) by { assert s[4..][0] == s[4] && s[4..][1..] == s[5..]; }
  }

  /** Writing variables' keys keeps every key starting with 'i'. */
  lemma {:induction false} WriteEnvsInitial(m: map<string, string>, s: seq<(string, string)>)
    requires forall k :: k in m ==> |k| > 0 && k[0] == 'i'
    ensures forall k :: k in WriteEnvs(m, s) ==> |k| > 0 && k[0] == 'i'
    decreases |s|
  {
    if |s| > 0 {
      EnvKeyFirst(s[0].0);
      var m' := AddInitial(m, EnvKey(s[0].0), s[0].1, 'i');
      WriteEnvsInitial(m', s[1..]);
    }
  }

  /** The keys of the environment defaults are pairwise distinct and differ from the object key. */
  lemma EnvDefaultsDistinct()
    ensures forall i :: 0 <= i < |EnvDefaults| ==> EnvKey(EnvDefaults[i].0) != EnvObjectKey
    ensures forall i, j :: 0 <= i < j < |EnvDefaults| ==> EnvKey(EnvDefaults[i].0) != EnvKey(EnvDefaults[j].0)
  {
    forall i | 0 <= i < |EnvDefaults| ensures EnvKey(EnvDefaults[i].0) != EnvObjectKey {
      EnvKeyFirst(EnvDefaults[i].0);
    }
    forall i, j | 0 <= i < j < |EnvDefaults| ensures EnvKey(EnvDefaults[i].0) != EnvKey(EnvDefaults[j].0) {
      EnvKeyFirst(EnvDefaults[i].0);
      EnvKeyFirst(EnvDefaults[j].0);
      assert EnvDefaults[i].0[0] != EnvDefaults[j].0[0];
    }
  }

  /** Adding a key that starts with `c` to a map whose keys all start with `c`. */
  lemma AddInitial(m: map<string, string>, k: string, v: string, c: char) returns (r: map<string, string>)
    requires forall x :: x in m ==> |x| > 0 && x[0] == c
    requires |k| > 0 && k[0] == c
    ensures r == m[k := v]
    ensures forall x :: x in r ==> |x| > 0 && x[0] == c
  {
    r := m[k := v];
  }

  /** No key of the `import.meta.env` family is a feature flag, and the flags are distinct. */
  lemma FlagsAbsent(e: map<string, string>)
    requires forall k :: k in e ==> |k| > 0 && k[0] == 'i'
    ensures OptionsApiFlag !in e && ProdDevtoolsFlag !in e && HydrationDetailsFlag !in e
    ensures OptionsApiFlag != ProdDevtoolsFlag && OptionsApiFlag != HydrationDetailsFlag && ProdDevtoolsFlag != HydrationDetailsFlag
  {
    assert |OptionsApiFlag| == 19 && |ProdDevtoolsFlag| == 21 && |HydrationDetailsFlag| == 39;
    assert OptionsApiFlag[0] == '_' && ProdDevtoolsFlag[0] == '_' && HydrationDetailsFlag[0] == '_';
  }

  /** The variable's key is the fixed prefix, a dot and the variable's name. */
  lemma EnvKeyFirst(key: string)
    ensures |EnvKey(key)| == |EnvObjectKey| + 1 + |key| && EnvKey(key)[..|EnvObjectKey|] == EnvObjectKey
    ensures EnvKey(key)[0] == 'i'
    ensures |key| > 0 ==> EnvKey(key)[|EnvObjectKey| + 1] == key[0]
  {
  }

  /** Unconditional writes of the variables' keys, in list order. */
  function WriteEnvs(d: map<string, string>, defaults: seq<(string, string)>): (r: map<string, string>)
    decreases |defaults|
  {
    if |defaults| == 0 then d else WriteEnvs(d[EnvKey(defaults[0].0) := defaults[0].1], defaults[1..])
  }

  /** Against an empty `import.meta.env` object, variables whose keys are absent and distinct
      are all written. */
  lemma {:induction false} FreshEnvs(d: map<string, string>, defaults: seq<(string, string)>, decode: string -> Result<Json>)
    requires EnvObjectKey in d && decode(d[EnvObjectKey]) == Ok(JObj(map[]))
    requires forall i :: 0 <= i < |defaults| ==> EnvKey(defaults[i].0) !in d && EnvKey(defaults[i].0) != EnvObjectKey
    requires forall i, j :: 0 <= i < j < |defaults| ==> EnvKey(defaults[i].0) != EnvKey(defaults[j].0)
    decreases |defaults|
    ensures EnsureEnvs(d, defaults, decode) == WriteEnvs(d, defaults)
    ensures forall k :: k in WriteEnvs(d, defaults) ==> k in d || exists i :: 0 <= i < |defaults| && k == EnvKey(defaults[i].0)
  {
    if |defaults| > 0 {
      var d' := d[EnvKey(defaults[0].0) := defaults[0].1];
      assert EnsureEnv(d, defaults[0].0, defaults[0].1, decode) == d';
      forall i | 0 <= i < |defaults[1..]| ensures EnvKey(defaults[1..][i].0) !in d' && EnvKey(defaults[1..][i].0) != EnvObjectKey {
        assert defaults[1..][i] == defaults[i + 1];
      }
      forall i, j | 0 <= i < j < |defaults[1..]| ensures EnvKey(defaults[1..][i].0) != EnvKey(defaults[1..][j].0) {
        assert defaults[1..][i] == defaults[i + 1] && defaults[1..][j] == defaults[j + 1];
      }
      FreshEnvs(d', defaults[1..], decode);
      forall k | k in WriteEnvs(d, defaults) ensures k in d || exists i :: 0 <= i < |defaults| && k == EnvKey(defaults[i].0) {
        if k !in d' {
          var i :| 0 <= i < |defaults[1..]| && k == EnvKey(defaults[1..][i].0);
          assert defaults[1..][i] == defaults[i + 1];
        }
      }
    }
  }

  /** Three absent, distinct keys are written in order, each with its value. */
  lemma ThreeKeysWritten(e: map<string, string>, a: (string, string), b: (string, string), c: (string, string))
    requires a.0 !in e && b.0 !in e && c.0 !in e
    requires a.0 != b.0 && a.0 != c.0 && b.0 != c.0
    ensures EnsureKeys(e, [a, b, c]) == e[a.0 := a.1][b.0 := b.1][c.0 := c.1]
  {
    EnsureKeysUnfold(e, [a, b, c]);
    assert [a, b, c][1..] == [b, c];
    EnsureKeysUnfold(e[a.0 := a.1], [b, c]);
    assert [b, c][1..] == [c];
    EnsureKeysUnfold(e[a.0 := a.1][b.0 := b.1], [c]);
    assert [c][1..] == [];
  }

  lemma EnsureKeysUnfold(d: map<string, string>, defaults: seq<(string, string)>)
    requires |defaults| > 0
    ensures EnsureKeys(d, defaults) == EnsureKeys(EnsureKey(d, defaults[0].0, defaults[0].1), defaults[1..])
  {
  }

  lemma ExtendsTrans(a: map<string, string>, b: map<string, string>, c: map<string, string>)
    requires Extends(b, a) && Extends(c, b)
    ensures Extends(c, a)
  {
  }

  /** A plain key absent from the map is written with the value of its first occurrence. */
  lemma {:induction false} EnsureKeysWritesDefault(d: map<string, string>, defaults: seq<(string, string)>, i: nat)
    requires i < |defaults| && defaults[i].0 !in d
    requires FirstOccurrence(defaults, i)
    decreases i
    ensures EnsureKeys(d, defaults)[defaults[i].0] == defaults[i].1
  {
    EnsureKeysUnfold(d, defaults);
    var d' := EnsureKey(d, defaults[0].0, defaults[0].1);
    if i > 0 {
      FirstOccurrenceTail(defaults, i);
      EnsureKeysWritesDefault(d', defaults[1..], i - 1);
    }
  }

  /** Distinct variables have distinct keys, and none is the object key. */
  lemma EnvKeyInjective(a: string, b: string)
    ensures EnvKey(a) == EnvKey(b) ==> a == b
    ensures EnvKey(a) != EnvObjectKey
  {
    assert EnvKey(a)[|EnvObjectKey| + 1..] == a;
    assert EnvKey(b)[|EnvObjectKey| + 1..] == b;
  }

  /** Writing another variable's key leaves a variable's lookup as it was. */
  lemma LookupUnaffected(d: map<string, string>, other: string, v: string, key: string, decode: string -> Result<Json>)
    requires other != key
    ensures ParseImportMetaEnv(d[EnvKey(other) := v], key, decode) == ParseImportMetaEnv(d, key, decode)
  {
    EnvKeyInjective(other, key);
  }

  /** A variable the lookup does not find is written with the value of its first occurrence. */
  lemma {:induction false} EnsureEnvsWritesDefault(d: map<string, string>, defaults: seq<(string, string)>, i: nat, decode: string -> Result<Json>)
    requires i < |defaults| && ParseImportMetaEnv(d, defaults[i].0, decode).None?
    requires FirstOccurrence(defaults, i)
    decreases i
    ensures EnvKey(defaults[i].0) in EnsureEnvs(d, defaults, decode)
    ensures EnsureEnvs(d, defaults, decode)[EnvKey(defaults[i].0)] == defaults[i].1
  {
    var d' := EnsureEnv(d, defaults[0].0, defaults[0].1, decode);
    assert EnsureEnvs(d, defaults, decode) == EnsureEnvs(d', defaults[1..], decode);
    if i > 0 {
      LookupStillAbsent(d, defaults[0].0, defaults[0].1, defaults[i].0, decode);
      FirstOccurrenceTail(defaults, i);
      EnsureEnvsWritesDefault(d', defaults[1..], i - 1, decode);
    }
  }

  /** A variable that is not found stays unfound when another one is ensured. */
  lemma LookupStillAbsent(d: map<string, string>, other: string, v: string, key: string, decode: string -> Result<Json>)
    requires other != key && ParseImportMetaEnv(d, key, decode).None?
    ensures ParseImportMetaEnv(EnsureEnv(d, other, v, decode), key, decode).None?
  {
    if ParseImportMetaEnv(d, other, decode).None? {
      LookupUnaffected(d, other, v, key, decode);
    }
  }

  /** The names a default list mentions. */
  function Names(defaults: seq<(string, string)>): (r: set<string>)
    ensures forall j :: 0 <= j < |defaults| ==> defaults[j].0 in r
    decreases |defaults|
  {
    if defaults == [] then {} else {defaults[0].0} + Names(defaults[1..])
  }

  /** Every name comes from some entry of the list. */
  lemma {:induction false} NamesOnly(defaults: seq<(string, string)>, x: string)
    requires x in Names(defaults)
    decreases |defaults|
    ensures exists j :: 0 <= j < |defaults| && defaults[j].0 == x
  {
    if defaults[0].0 != x {
      NamesOnly(defaults[1..], x);
      var j :| 0 <= j < |defaults[1..]| && defaults[1..][j].0 == x;
      assert defaults[j + 1].0 == x;
    }
  }

  /** Entry `i` is the first in the list with its name. */
  predicate FirstOccurrence(defaults: seq<(string, string)>, i: nat)
    requires i < |defaults|
  {
    defaults[i].0 !in Names(defaults[..i])
  }

  /** An entry whose name no earlier entry has is a first occurrence. */
  lemma FirstOccurrenceOfDistinct(defaults: seq<(string, string)>, i: nat)
    requires i < |defaults|
    requires forall j :: 0 <= j < i ==> defaults[j].0 != defaults[i].0
    ensures FirstOccurrence(defaults, i)
  {
    if defaults[i].0 in Names(defaults[..i]) {
      NamesOnly(defaults[..i], defaults[i].0);
    }
  }

  /** A first occurrence after the head is a first occurrence in the tail. */
  lemma FirstOccurrenceTail(defaults: seq<(string, string)>, i: nat)
    requires 0 < i < |defaults| && FirstOccurrence(defaults, i)
    ensures defaults[1..][i - 1] == defaults[i]
    ensures FirstOccurrence(defaults[1..], i - 1)
  {
    assert defaults[..i][1..] == defaults[1..][..i - 1];
    assert Names(defaults[..i]) == {defaults[0].0} + Names(defaults[1..][..i - 1]);
  }

  /** On any Define map, normalisation writes each default the lookup does not find, with
      exactly the source's text; the JSON codec decodes "{}" to the empty object. */
  lemma NormalizeWritesDefaults(b: BuildOptions, decode: string -> Result<Json>)
    requires decode("{}") == Ok(JObj(map[]))
    ensures var r := Normalize(b, decode).define.value;
      && (EnvObjectKey !in Defines(b) ==> r[EnvObjectKey] == "{}")
      && (forall i :: 0 <= i < |EnvDefaults| && ParseImportMetaEnv(Defines(b), EnvDefaults[i].0, decode).None? ==>
            r[EnvKey(EnvDefaults[i].0)] == EnvDefaults[i].1)
      && (forall i :: 0 <= i < |FlagDefaults| && FlagDefaults[i].0 !in Defines(b) ==> r[FlagDefaults[i].0] == FlagDefaults[i].1)
  {
    NormalizeObjectValue(Defines(b), decode);
    NormalizeEnvValues(Defines(b), decode);
    NormalizeFlagValues(Defines(b), decode);
  }

  lemma NormalizeObjectValue(d: map<string, string>, decode: string -> Result<Json>)
    ensures EnvObjectKey !in d ==> NormalizeWith(d, EnvDefaults, FlagDefaults, decode)[EnvObjectKey] == "{}"
  {
    NormalizeWithUnfold(d, EnvDefaults, FlagDefaults, decode);
  }

  lemma NormalizeEnvValues(d: map<string, string>, decode: string -> Result<Json>)
    requires decode("{}") == Ok(JObj(map[]))
    ensures forall i :: 0 <= i < |EnvDefaults| && ParseImportMetaEnv(d, EnvDefaults[i].0, decode).None? ==>
              NormalizeWith(d, EnvDefaults, FlagDefaults, decode)[EnvKey(EnvDefaults[i].0)] == EnvDefaults[i].1
  {
    var d1 := EnsureEnvs(EnsureKey(d, EnvObjectKey, "{}"), EnvDefaults, decode);
    NormalizeWithUnfold(d, EnvDefaults, FlagDefaults, decode);
    assert Extends(EnsureKeys(d1, FlagDefaults), d1);
    EnvsWrittenWhenAbsent(d, decode);
  }

  lemma NormalizeFlagValues(d: map<string, string>, decode: string -> Result<Json>)
    ensures forall i :: 0 <= i < |FlagDefaults| && FlagDefaults[i].0 !in d ==>
              NormalizeWith(d, EnvDefaults, FlagDefaults, decode)[FlagDefaults[i].0] == FlagDefaults[i].1
  {
    var d0 := EnsureKey(d, EnvObjectKey, "{}");
    var d1 := EnsureEnvs(d0, EnvDefaults, decode);
    NormalizeWithUnfold(d, EnvDefaults, FlagDefaults, decode);
    EnvsAddInitialKeys(d, decode);
    FlagsWrittenWhenAbsent(d, d1);
  }

  /** The keys the object default and the variables add all start with 'i'. */
  lemma EnvsAddInitialKeys(d: map<string, string>, decode: string -> Result<Json>)
    ensures var d1 := EnsureEnvs(EnsureKey(d, EnvObjectKey, "{}"), EnvDefaults, decode);
      forall k :: k in d1 && k !in d ==> |k| > 0 && k[0] == 'i'
  {
    var d0 := EnsureKey(d, EnvObjectKey, "{}");
    var d1 := EnsureEnvs(d0, EnvDefaults, decode);
    forall k | k in d1 && k !in d ensures |k| > 0 && k[0] == 'i' {
      if k !in d0 {
        var j :| 0 <= j < |EnvDefaults| && k == EnvKey(EnvDefaults[j].0);
        EnvKeyFirst(EnvDefaults[j].0);
      }
    }
  }

  /** Each variable the lookup does not find is written with its default text. */
  lemma EnvsWrittenWhenAbsent(d: map<string, string>, decode: string -> Result<Json>)
    requires decode("{}") == Ok(JObj(map[]))
    ensures var d1 := EnsureEnvs(EnsureKey(d, EnvObjectKey, "{}"), EnvDefaults, decode);
      forall i :: 0 <= i < |EnvDefaults| && ParseImportMetaEnv(d, EnvDefaults[i].0, decode).None? ==>
        EnvKey(EnvDefaults[i].0) in d1 && d1[EnvKey(EnvDefaults[i].0)] == EnvDefaults[i].1
  {
    var d0 := EnsureKey(d, EnvObjectKey, "{}");
    EnvDefaultsDistinct();
    forall i | 0 <= i < |EnvDefaults| && ParseImportMetaEnv(d, EnvDefaults[i].0, decode).None?
      ensures var d1 := EnsureEnvs(d0, EnvDefaults, decode);
        EnvKey(EnvDefaults[i].0) in d1 && d1[EnvKey(EnvDefaults[i].0)] == EnvDefaults[i].1
    {
      ObjectDefaultHidesNothing(d, EnvDefaults[i].0, decode);
      FirstOccurrenceOfDistinct(EnvDefaults, i);
      EnsureEnvsWritesDefault(d0, EnvDefaults, i, decode);
    }
  }

  /** The default `import.meta.env` object "{}" makes no variable visible. */
  lemma ObjectDefaultHidesNothing(d: map<string, string>, key: string, decode: string -> Result<Json>)
    requires decode("{}") == Ok(JObj(map[]))
    requires ParseImportMetaEnv(d, key, decode).None?
    ensures ParseImportMetaEnv(EnsureKey(d, EnvObjectKey, "{}"), key, decode).None?
  {
    EnvKeyInjective(key, key);
  }

  /** Each flag absent from the original map is written with its default text. */
  lemma FlagsWrittenWhenAbsent(d: map<string, string>, d1: map<string, string>)
    requires forall k :: k in d1 && k !in d ==> |k| > 0 && k[0] == 'i'
    ensures forall i :: 0 <= i < |FlagDefaults| && FlagDefaults[i].0 !in d ==> EnsureKeys(d1, FlagDefaults)[FlagDefaults[i].0] == FlagDefaults[i].1
  {
    FlagsAbsent(map[]);
    forall i | 0 <= i < |FlagDefaults| && FlagDefaults[i].0 !in d
      ensures EnsureKeys(d1, FlagDefaults)[FlagDefaults[i].0] == FlagDefaults[i].1
    {
      assert FlagDefaults[i].0[0] == '_';
      FirstOccurrenceOfDistinct(FlagDefaults, i);
      EnsureKeysWritesDefault(d1, FlagDefaults, i);
    }
  }

  /** Normalising twice is normalising once. */
  lemma NormalizeIdempotent(b: BuildOptions, decode: string -> Result<Json>)
    ensures Normalize(Normalize(b, decode), decode) == Normalize(b, decode)
  {
    NormalizeWithIdempotent(Defines(b), EnvDefaults, FlagDefaults, decode);
  }
}
