/** Vue single-file components (vue.go): reading and preprocessing the source, the
    content-derived component id, the compile request, the synthesized entry module, the
    resolution of `?type=…` sub-module paths and the loaders of the script, template and
    style parts. The entry module is modelled as the sequence of statements it emits rather
    than as text. */
module Vue {
  import opened Common
  import opened Api
  import opened Strconv
  import opened Options
  import opened Chains
  import PathAlias
  import Paths

  // ---------------------------------------------------------------- paths and text

  /** toPosixPath: every backslash becomes a forward slash. */
  function ToPosixPath(p: string): (r: string)
    ensures |r| == |p|
    ensures forall i :: 0 <= i < |p| ==> r[i] == if p[i] == '\\' then '/' else p[i]
  {
    if |p| == 0 then "" else [if p[0] == '\\' then '/' else p[0]] + ToPosixPath(p[1..])
  }

  /** The result holds no backslash, so converting again changes nothing. */
  lemma ToPosixPathIdempotent(p: string)
    ensures forall i :: 0 <= i < |ToPosixPath(p)| ==> ToPosixPath(p)[i] != '\\'
    ensures ToPosixPath(ToPosixPath(p)) == ToPosixPath(p)
  {
  }

  /** Number of "\r\n" pairs in `s` (they never overlap). */
  function CrlfCount(s: string): nat
  {
    if |s| < 2 then 0 else (if s[0] == '\r' && s[1] == '\n' then 1 else 0) + CrlfCount(s[1..])
  }

  /** strings.ReplaceAll(s, "\r\n", "\n") */
  function CrlfToLf(s: string): (r: string)
    ensures |r| == |s| - CrlfCount(s)
  {
    if |s| == 0 then ""
    else if |s| >= 2 && s[0] == '\r' && s[1] == '\n' then
      assert CrlfCount(s[1..]) == CrlfCount(s[2..]);
      "\n" + CrlfToLf(s[2..])
    else [s[0]] + CrlfToLf(s[1..])
  }

  /** `s` with every carriage return removed. */
  function StripCr(s: string): (r: string)
    ensures forall i :: 0 <= i < |r| ==> r[i] != '\r'
  {
    if |s| == 0 then "" else (if s[0] == '\r' then "" else [s[0]]) + StripCr(s[1..])
  }

  lemma {:induction false} StripCrAppend(a: string, b: string)
    ensures StripCr(a + b) == StripCr(a) + StripCr(b)
  {
    if |a| == 0 {
      assert a + b == b;
    } else {
      assert (a + b)[0] == a[0];
      assert (a + b)[1..] == a[1..] + b;
      StripCrAppend(a[1..], b);
    }
  }

  /** Line-ending normalisation drops carriage returns and nothing else: with every CR
      removed, source and result are the same text. */
  lemma {:induction false} CrlfToLfOnlyDropsCr(s: string)
    ensures StripCr(CrlfToLf(s)) == StripCr(s)
  {
    if |s| == 0 {
    } else if |s| >= 2 && s[0] == '\r' && s[1] == '\n' {
      CrlfToLfOnlyDropsCr(s[2..]);
      StripCrAppend("\n", CrlfToLf(s[2..]));
      assert s == "\r\n" + s[2..];
      StripCrAppend("\r\n", s[2..]);
      assert StripCr("\r\n") == "\n" by {
        assert "\r\n"[1..] == "\n";
        assert "\n"[1..] == "";
      }
    } else {
      CrlfToLfOnlyDropsCr(s[1..]);
      StripCrAppend([s[0]], CrlfToLf(s[1..]));
      assert s == [s[0]] + s[1..];
      StripCrAppend([s[0]], s[1..]);
      assert [s[0]][1..] == [];
    }
  }

  /** A source without carriage returns is left as it is. */
  lemma {:induction false} CrlfToLfNoCr(s: string)
    requires forall i :: 0 <= i < |s| ==> s[i] != '\r'
    ensures CrlfToLf(s) == s
  {
    if |s| > 0 {
      CrlfToLfNoCr(s[1..]);
    }
  }

  /** A CRLF pair becomes LF, and any other single character is kept. */
  lemma CrlfToLfPieces(c: char)
    ensures CrlfToLf("\r\n") == "\n"
    ensures CrlfToLf([c]) == [c]
  {
    assert "\r\n"[2..] == "";
    assert [c][1..] == "";
  }

  /** Normalising two texts separately is normalising their concatenation, unless the cut
      splits a CRLF pair. With CrlfToLfPieces this fixes the result on every input. */
  lemma {:induction false} CrlfToLfAppend(a: string, b: string)
    requires !(|a| > 0 && |b| > 0 && a[|a| - 1] == '\r' && b[0] == '\n')
    decreases |a|
    ensures CrlfToLf(a + b) == CrlfToLf(a) + CrlfToLf(b)
  {
    if |a| == 0 {
      assert a + b == b;
    } else if |a| >= 2 && a[0] == '\r' && a[1] == '\n' {
      assert (a + b)[0] == '\r' && (a + b)[1] == '\n' && (a + b)[2..] == a[2..] + b;
      CrlfToLfAppend(a[2..], b);
      assert CrlfToLf(a + b) == "\n" + (CrlfToLf(a[2..]) + CrlfToLf(b));
      assert CrlfToLf(a) == "\n" + CrlfToLf(a[2..]);
      ConcatAssoc("\n", CrlfToLf(a[2..]), CrlfToLf(b));
    } else {
      assert (a + b)[0] == a[0] && (a + b)[1..] == a[1..] + b;
      assert !(|a + b| >= 2 && (a + b)[0] == '\r' && (a + b)[1] == '\n');
      CrlfToLfAppend(a[1..], b);
      assert CrlfToLf(a + b) == [a[0]] + (CrlfToLf(a[1..]) + CrlfToLf(b));
      assert CrlfToLf(a) == [a[0]] + CrlfToLf(a[1..]);
      ConcatAssoc([a[0]], CrlfToLf(a[1..]), CrlfToLf(b));
    }
  }

  // ---------------------------------------------------------------- readVueSource

  /** One step of the load chain: a processor applied to the current source. */
  function LoadStep(args: LoadArgs, build: BuildOptions): (VueLoadProcessor, string) -> Result<string>
  {
    (p: VueLoadProcessor, s: string) => p(s, args, build)
  }

  /** readVueSource: the file with CRLF normalised, then each processor in registration order. */
  function ReadVueSource(readFile: string -> Result<string>, procs: seq<VueLoadProcessor>, args: LoadArgs, build: BuildOptions): (r: Result<string>)
    ensures readFile(args.path).Err? ==> r == Err(readFile(args.path).error)
    ensures readFile(args.path).Ok? && procs == [] ==> r == Ok(CrlfToLf(readFile(args.path).value))
    ensures readFile(args.path).Ok? && procs != [] && procs[0](CrlfToLf(readFile(args.path).value), args, build).Err? ==>
              r == procs[0](CrlfToLf(readFile(args.path).value), args, build)
  {
    var text :- readFile(args.path);
    Fold(procs, CrlfToLf(text), LoadStep(args, build))
  }

  /** The last processor receives exactly what the processors before it produced. */
  lemma ReadVueSourceSnoc(readFile: string -> Result<string>, procs: seq<VueLoadProcessor>, p: VueLoadProcessor, args: LoadArgs, build: BuildOptions)
    ensures ReadVueSource(readFile, procs + [p], args, build) ==
            match ReadVueSource(readFile, procs, args, build)
            case Err(e) => Err(e)
            case Ok(s) => p(s, args, build)
  {
    if readFile(args.path).Ok? {
      FoldSnoc(procs, p, CrlfToLf(readFile(args.path).value), LoadStep(args, build));
    }
  }

  /** A failing processor aborts the chain with its error; the processors after it never run. */
  lemma ReadVueSourceAbort(readFile: string -> Result<string>, before: seq<VueLoadProcessor>, p: VueLoadProcessor, after: seq<VueLoadProcessor>, args: LoadArgs, build: BuildOptions)
    requires ReadVueSource(readFile, before, args, build).Ok?
    requires p(ReadVueSource(readFile, before, args, build).value, args, build).Err?
    ensures ReadVueSource(readFile, before + [p] + after, args, build) == p(ReadVueSource(readFile, before, args, build).value, args, build)
  {
    FoldAbort(before, p, after, CrlfToLf(readFile(args.path).value), LoadStep(args, build));
  }

  // ---------------------------------------------------------------- component id

  /** generateHashId: the 64-bit content hash in lower-case base 16. */
  function HashId(xxhash: string -> uint64, source: string): (id: string)
    ensures CanonicalHex(id) && |id| <= 16
    ensures ParseHex(id) == xxhash(source) as nat
  {
    FormatUint64Length(xxhash(source));
    FormatHex(xxhash(source) as nat)
  }

  const DataIdPrefix: string := "data-v-"

  /** The scope attribute of a component: `"data-v-" + hashId`. */
  function DataId(hashId: string): (d: string)
    ensures HasPrefix(d, DataIdPrefix) && d[|DataIdPrefix|..] == hashId
  {
    DataIdPrefix + hashId
  }

  /** Two sources get the same id exactly when their hashes agree. */
  lemma HashIdSameIffSameHash(xxhash: string -> uint64, a: string, b: string)
    ensures DataId(HashId(xxhash, a)) == DataId(HashId(xxhash, b)) <==> xxhash(a) == xxhash(b)
  {
    FormatHexInjective(xxhash(a) as nat, xxhash(b) as nat);
    if DataId(HashId(xxhash, a)) == DataId(HashId(xxhash, b)) {
      assert HashId(xxhash, a) == DataId(HashId(xxhash, a))[|DataIdPrefix|..];
    }
  }

  // ---------------------------------------------------------------- build modes

  /** A mode flag: the `import.meta.env` value when it is a boolean, else the fallback. */
  function EnvFlag(define: map<string, string>, key: string, fallback: bool, decode: string -> Result<Json>): (r: bool)
    ensures forall b :: ParseImportMetaEnv(define, key, decode) == Some(JBool(b)) ==> r == b
    ensures (forall b :: ParseImportMetaEnv(define, key, decode) != Some(JBool(b))) ==> r == fallback
  {
    match ParseImportMetaEnv(define, key, decode)
    case Some(JBool(b)) => b
    case _ => fallback
  }

  /** isProd: true unless `import.meta.env.PROD` is the boolean false. */
  function IsProd(build: BuildOptions, decode: string -> Result<Json>): (r: bool)
    ensures !r <==> ParseImportMetaEnv(Defines(build), "PROD", decode) == Some(JBool(false))
  {
    EnvFlag(Defines(build), "PROD", true, decode)
  }

  /** isSSR: false unless `import.meta.env.SSR` is the boolean true. */
  function IsSSR(build: BuildOptions, decode: string -> Result<Json>): (r: bool)
    ensures r <==> ParseImportMetaEnv(Defines(build), "SSR", decode) == Some(JBool(true))
  {
    EnvFlag(Defines(build), "SSR", false, decode)
  }

  // ---------------------------------------------------------------- compile request

  const CompileService: string := "sfc.vue.compileSFC"

  /** The arguments of the compile request: hash id, POSIX path, source and the options object. */
  function CompileArgs(hashId: string, path: string, source: string, o: Options, build: BuildOptions, decode: string -> Result<Json>): seq<Json>
  {
    [JStr(hashId), JStr(ToPosixPath(path)), JStr(source),
     JObj(map[
       "sourceMap" := JBool(build.sourcemap > 0),
       "isProd" := JBool(IsProd(build, decode)),
       "isSSR" := JBool(IsSSR(build, decode)),
       "preprocessOptions" := JObj(o.stylePreprocessorOptions),
       "compilerOptions" := JObj(o.templateCompilerOptions)])]
  }

  /** The compiled parts of a component. A Go nil map reads exactly like an empty map, so a
      missing script and a style element that is not an object are both the empty map here. */
  datatype Parts = Parts(
    script: Option<map<string, Json>>,
    template: Option<map<string, Json>>,
    styles: seq<map<string, Json>>)

  function ObjectOrEmpty(v: Json): map<string, Json>
  {
    if v.JObj? then v.fields else map[]
  }

  /** Step 4 of the entry handler: the script must be an object when present and non-null
      (a failed type assertion otherwise); the template is kept only when it is an object;
      the styles only when they are a non-empty array. */
  function ExtractParts(result: map<string, Json>): (r: Result<Parts>)
    ensures r.Err? <==> Get(result, "script") != JNull && !Get(result, "script").JObj?
    ensures r.Err? ==> r.error == Panic(AssertSite)
    ensures r.Ok? ==> (r.value.script.Some? <==> Get(result, "script").JObj?)
    ensures r.Ok? && r.value.script.Some? ==> r.value.script.value == Get(result, "script").fields
    ensures r.Ok? ==> (r.value.template.Some? <==> Get(result, "template").JObj?)
    ensures r.Ok? && r.value.template.Some? ==> r.value.template.value == Get(result, "template").fields
    ensures r.Ok? && Get(result, "styles").JArr? ==>
              |r.value.styles| == |Get(result, "styles").items| &&
              forall i :: 0 <= i < |r.value.styles| ==> r.value.styles[i] == ObjectOrEmpty(Get(result, "styles").items[i])
    ensures r.Ok? && !Get(result, "styles").JArr? ==> r.value.styles == []
  {
    var script := Get(result, "script");
    if script != JNull && !script.JObj? then Err(Panic(AssertSite))
    else
      var template := Get(result, "template");
      var styles := Get(result, "styles");
      Ok(Parts(
        if script.JObj? then Some(script.fields) else None,
        if template.JObj? then Some(template.fields) else None,
        if styles.JArr? then seq(|styles.items|, i requires 0 <= i < |styles.items| => ObjectOrEmpty(styles.items[i])) else []))
  }

  // ---------------------------------------------------------------- entry module

  datatype Expr = Ident(name: string) | Quoted(text: string) | True

  /** The statements the entry template can emit. */
  datatype Stmt =
    | ImportDefault(binding: string, from: string)   // import script from '<from>'
    | ConstEmptyObject(binding: string)              // const script = {};
    | ImportForEffect(from: string)                  // import '<from>'
    | ImportNamed(binding: string, from: string)     // import { <binding> } from '<from>'
    | Assign(target: string, field: string, value: Expr)
    | ExportAllFrom(from: string)                    // export * from '<from>'
    | ExportDefault(binding: string)                 // export default script;

  const Script: string := "script"

  function ScriptSpecifier(rel: string): string { rel + "?type=script" }
  function TemplateSpecifier(rel: string): string { rel + "?type=template" }
  function StyleSpecifier(rel: string, i: nat): string { rel + "?type=style&index=" + FormatDecimal(i) }

  /** The render function's name: ssrRender under SSR, render otherwise. */
  function RenderName(ssr: bool): string
  {
    if ssr then "ssrRender" else "render"
  }

  /** The path the entry imports from: relative to the working directory when filepath.Rel
      succeeds, the file path otherwise, with forward slashes. */
  function RelPath(rel: (string, string) -> Option<string>, filePath: string): string
  {
    ToPosixPath(match rel(".", filePath) case Some(r) => r case None => filePath)
  }

  predicate HasScript(script: Option<map<string, Json>>)
  {
    script.Some? && Get(script.value, "content") != JNull
  }

  predicate HasTemplate(template: Option<map<string, Json>>)
  {
    template.Some? && Get(template.value, "code") != JNull
  }

  /** Every style before index `n` has `scoped` equal to the boolean false. */
  predicate UnscopedBefore(styles: seq<map<string, Json>>, n: int)
  {
    forall j :: 0 <= j < n && j < |styles| ==> Get(styles[j], "scoped") == JBool(false)
  }

  /** The someScoped helper: scans the styles in order, stopping at the first `scoped == true`;
      a `scoped` that is not a boolean, reached before that, is a failed type assertion. */
  function SomeScoped(styles: seq<map<string, Json>>): (r: Result<bool>)
    ensures r == Ok(true) <==> exists i :: 0 <= i < |styles| && Get(styles[i], "scoped") == JBool(true) && UnscopedBefore(styles, i)
    ensures r == Ok(false) <==> UnscopedBefore(styles, |styles|)
    ensures r.Err? <==> exists i :: 0 <= i < |styles| && !Get(styles[i], "scoped").JBool? && UnscopedBefore(styles, i)
    ensures r.Err? ==> r.error == Panic(AssertSite)
  {
    if |styles| == 0 then Ok(false)
    else
      var rest := SomeScoped(styles[1..]);
      match Get(styles[0], "scoped")
      case JBool(b) =>
        if b then
          assert UnscopedBefore(styles, 0);
          assert !UnscopedBefore(styles, |styles|);
          Ok(true)
        else
          assert forall i :: 1 <= i <= |styles| ==> (UnscopedBefore(styles, i) <==> UnscopedBefore(styles[1..], i - 1));
          assert forall i :: 1 <= i < |styles| ==> styles[i] == styles[1..][i - 1];
          rest
      case _ =>
        assert UnscopedBefore(styles, 0);
        assert !UnscopedBefore(styles, |styles|);
        Err(Panic(AssertSite))
  }

  /** One side-effect import per style element, in order, with indices 0 .. n-1. */
  function StyleImports(rel: string, n: nat): (r: seq<Stmt>)
    ensures |r| == n
    ensures forall i :: 0 <= i < n ==> r[i] == ImportForEffect(StyleSpecifier(rel, i))
  {
    seq(n, i requires 0 <= i < n => ImportForEffect(StyleSpecifier(rel, i)))
  }

  /** The side-effect imports of a statement list, in order. */
  function SideEffectImports(stmts: seq<Stmt>): seq<Stmt>
  {
    if |stmts| == 0 then []
    else (if stmts[0].ImportForEffect? then [stmts[0]] else []) + SideEffectImports(stmts[1..])
  }

  lemma {:induction false} SideEffectImportsAppend(a: seq<Stmt>, b: seq<Stmt>)
    ensures SideEffectImports(a + b) == SideEffectImports(a) + SideEffectImports(b)
  {
    if |a| == 0 {
      assert a + b == b;
    } else {
      assert (a + b)[0] == a[0];
      assert (a + b)[1..] == a[1..] + b;
      SideEffectImportsAppend(a[1..], b);
    }
  }

  lemma {:induction false} SideEffectImportsNone(a: seq<Stmt>)
    requires forall i :: 0 <= i < |a| ==> !a[i].ImportForEffect?
    ensures SideEffectImports(a) == []
  {
    if |a| > 0 {
      SideEffectImportsNone(a[1..]);
    }
  }

  lemma {:induction false} SideEffectImportsAll(a: seq<Stmt>)
    requires forall i :: 0 <= i < |a| ==> a[i].ImportForEffect?
    ensures SideEffectImports(a) == a
  {
    if |a| > 0 {
      SideEffectImportsAll(a[1..]);
      assert a == [a[0]] + a[1..];
    }
  }

  const EntryTemplateFailure: string := "failed to execute Vue entry template"

  /** The script section at the head of the entry. */
  function ScriptHead(rel: string, hasScript: bool): seq<Stmt>
  {
    if hasScript then [ImportDefault(Script, ScriptSpecifier(rel))] else [ConstEmptyObject(Script)]
  }

  function TemplateSection(rel: string, hasTemplate: bool, ssr: bool): seq<Stmt>
  {
    if hasTemplate then
      [ImportNamed(RenderName(ssr), TemplateSpecifier(rel)), Assign(Script, RenderName(ssr), Ident(RenderName(ssr)))]
    else []
  }

  function Tail(rel: string, dataId: string, hasScript: bool, scoped: bool, ssr: bool): seq<Stmt>
  {
    [Assign(Script, "__file", Quoted(rel))]
    + (if scoped then [Assign(Script, "__scopeId", Quoted(dataId))] else [])
    + (if ssr then [Assign(Script, "__ssrInlineRender", True)] else [])
    + (if hasScript then [ExportAllFrom(ScriptSpecifier(rel))] else [])
    + [ExportDefault(Script)]
  }

  /** The statements in template order. */
  function Assemble(rel: string, dataId: string, hasScript: bool, hasTemplate: bool, scoped: bool, ssr: bool, styles: nat): seq<Stmt>
  {
    ScriptHead(rel, hasScript) + StyleImports(rel, styles) + TemplateSection(rel, hasTemplate, ssr) + Tail(rel, dataId, hasScript, scoped, ssr)
  }

  lemma AssembleStyles(rel: string, dataId: string, hasScript: bool, hasTemplate: bool, scoped: bool, ssr: bool, styles: nat)
    ensures SideEffectImports(Assemble(rel, dataId, hasScript, hasTemplate, scoped, ssr, styles)) == StyleImports(rel, styles)
  {
    var head := ScriptHead(rel, hasScript);
    var st := StyleImports(rel, styles);
    var tmpl := TemplateSection(rel, hasTemplate, ssr);
    var tail := Tail(rel, dataId, hasScript, scoped, ssr);
    assert SideEffectImports(head + st) == st by {
      SideEffectImportsAppend(head, st);
      SideEffectImportsNone(head);
      SideEffectImportsAll(st);
    }
    assert SideEffectImports(head + st + tmpl) == st by {
      SideEffectImportsAppend(head + st, tmpl);
      SideEffectImportsNone(tmpl);
    }
    SideEffectImportsAppend(head + st + tmpl, tail);
    SideEffectImportsNone(tail);
  }

  lemma AssembleScript(rel: string, dataId: string, hasScript: bool, hasTemplate: bool, scoped: bool, ssr: bool, styles: nat)
    ensures var stmts := Assemble(rel, dataId, hasScript, hasTemplate, scoped, ssr, styles);
      && (ImportDefault(Script, ScriptSpecifier(rel)) in stmts <==> hasScript)
      && (ConstEmptyObject(Script) in stmts <==> !hasScript)
  {
    var st := StyleImports(rel, styles);
    assert forall s :: s in st ==> s.ImportForEffect?;
  }

  lemma AssembleExports(rel: string, dataId: string, hasScript: bool, hasTemplate: bool, scoped: bool, ssr: bool, styles: nat)
    ensures var stmts := Assemble(rel, dataId, hasScript, hasTemplate, scoped, ssr, styles);
      && (ExportAllFrom(ScriptSpecifier(rel)) in stmts <==> hasScript)
      && stmts[|stmts| - 1] == ExportDefault(Script)
  {
    var st := StyleImports(rel, styles);
    assert forall s :: s in st ==> s.ImportForEffect?;
  }

  lemma AssembleTemplate(rel: string, dataId: string, hasScript: bool, hasTemplate: bool, scoped: bool, ssr: bool, styles: nat)
    ensures var stmts := Assemble(rel, dataId, hasScript, hasTemplate, scoped, ssr, styles);
      && (ImportNamed(RenderName(ssr), TemplateSpecifier(rel)) in stmts <==> hasTemplate)
      && (Assign(Script, RenderName(ssr), Ident(RenderName(ssr))) in stmts <==> hasTemplate)
      && (forall s :: s in stmts && s.ImportNamed? ==> s.binding == RenderName(ssr))
  {
    var st := StyleImports(rel, styles);
    assert forall s :: s in st ==> s.ImportForEffect?;
    AssembleRender(rel, dataId, hasScript, hasTemplate, scoped, ssr, styles);
  }

  /** The render function is assigned to the component exactly when there is a template. */
  lemma AssembleRender(rel: string, dataId: string, hasScript: bool, hasTemplate: bool, scoped: bool, ssr: bool, styles: nat)
    ensures Assign(Script, RenderName(ssr), Ident(RenderName(ssr))) in Assemble(rel, dataId, hasScript, hasTemplate, scoped, ssr, styles) <==> hasTemplate
  {
    var render := Assign(Script, RenderName(ssr), Ident(RenderName(ssr)));
    var st := StyleImports(rel, styles);
    assert forall s :: s in st ==> s.ImportForEffect?;
    assert render !in ScriptHead(rel, hasScript) + st;
    assert render !in Tail(rel, dataId, hasScript, scoped, ssr);
  }

  lemma AssembleFields(rel: string, dataId: string, hasScript: bool, hasTemplate: bool, scoped: bool, ssr: bool, styles: nat)
    ensures var stmts := Assemble(rel, dataId, hasScript, hasTemplate, scoped, ssr, styles);
      && (Assign(Script, "__ssrInlineRender", True) in stmts <==> ssr)
      && (Assign(Script, "__scopeId", Quoted(dataId)) in stmts <==> scoped)
      && Assign(Script, "__file", Quoted(rel)) in stmts
  {
    var st := StyleImports(rel, styles);
    assert forall s :: s in st ==> s.ImportForEffect?;
  }

  /** generateEntryContents, as the statements the template emits. */
  function GenerateEntryContents(rel: (string, string) -> Option<string>, filePath: string, dataId: string, ssr: bool, parts: Parts): (r: Result<seq<Stmt>>)
    ensures r.Err? <==> SomeScoped(parts.styles).Err?
    ensures r.Err? ==> r.error == Wrap(EntryTemplateFailure, SomeScoped(parts.styles).error)
    ensures r.Ok? ==> |r.value| > 0 && r.value[|r.value| - 1] == ExportDefault(Script)
    ensures r.Ok? ==> (ImportDefault(Script, ScriptSpecifier(RelPath(rel, filePath))) in r.value <==> HasScript(parts.script))
    ensures r.Ok? ==> (ExportAllFrom(ScriptSpecifier(RelPath(rel, filePath))) in r.value <==> HasScript(parts.script))
    ensures r.Ok? ==> (ConstEmptyObject(Script) in r.value <==> !HasScript(parts.script))
    ensures r.Ok? ==> SideEffectImports(r.value) == StyleImports(RelPath(rel, filePath), |parts.styles|)
    ensures r.Ok? ==> (ImportNamed(RenderName(ssr), TemplateSpecifier(RelPath(rel, filePath))) in r.value <==> HasTemplate(parts.template))
    ensures r.Ok? ==> (Assign(Script, RenderName(ssr), Ident(RenderName(ssr))) in r.value <==> HasTemplate(parts.template))
    ensures r.Ok? ==> forall s :: s in r.value && s.ImportNamed? ==> s.binding == RenderName(ssr)
    ensures r.Ok? ==> (Assign(Script, "__ssrInlineRender", True) in r.value <==> ssr)
    ensures r.Ok? ==> (Assign(Script, "__scopeId", Quoted(dataId)) in r.value <==> SomeScoped(parts.styles) == Ok(true))
    ensures r.Ok? ==> Assign(Script, "__file", Quoted(RelPath(rel, filePath))) in r.value
  {
    var p := RelPath(rel, filePath);
    var hasScript := HasScript(parts.script);
    var hasTemplate := HasTemplate(parts.template);
    match SomeScoped(parts.styles)
    case Err(e) => Err(Wrap(EntryTemplateFailure, e))
    case Ok(scoped) =>
      var n := |parts.styles|;
      AssembleStyles(p, dataId, hasScript, hasTemplate, scoped, ssr, n);
      AssembleScript(p, dataId, hasScript, hasTemplate, scoped, ssr, n);
      AssembleExports(p, dataId, hasScript, hasTemplate, scoped, ssr, n);
      AssembleTemplate(p, dataId, hasScript, hasTemplate, scoped, ssr, n);
      AssembleFields(p, dataId, hasScript, hasTemplate, scoped, ssr, n);
      Ok(Assemble(p, dataId, hasScript, hasTemplate, scoped, ssr, n))
  }

  // ---------------------------------------------------------------- entry handler

  const CompileFailed: string := "Vue SFC compilation failed: "
  const InvalidResult: string := "Invalid Vue SFC compilation result: "
  const EntryFailed: string := "Failed to generate Vue entry contents: "

  /** The plugin data the entry hands to the part loaders: the id and the script always,
      the template when there is one, the styles when there are any. */
  function EntryData(dataId: string, parts: Parts): (m: map<string, Json>)
    ensures "id" in m && m["id"] == JStr(dataId)
    ensures "script" in m && m["script"] == JObj(if parts.script.Some? then parts.script.value else map[])
    ensures "template" in m <==> parts.template.Some?
    ensures parts.template.Some? ==> m["template"] == JObj(parts.template.value)
    ensures "styles" in m <==> |parts.styles| > 0
    ensures |parts.styles| > 0 ==>
              (m["styles"].JArr? && |m["styles"].items| == |parts.styles| &&
               forall i :: 0 <= i < |parts.styles| ==> m["styles"].items[i] == JObj(parts.styles[i]))
    ensures forall k :: k in m ==> k in {"id", "script", "template", "styles"}
  {
    var m := map["id" := JStr(dataId), "script" := JObj(if parts.script.Some? then parts.script.value else map[])];
    var m1 := if parts.template.Some? then m["template" := JObj(parts.template.value)] else m;
    if |parts.styles| > 0 then
      m1["styles" := JArr(seq(|parts.styles|, i requires 0 <= i < |parts.styles| => JObj(parts.styles[i])))]
    else m1
  }

  /** Messages without a location, one per text, in order. */
  function Messages(texts: seq<string>): (ms: seq<Message>)
    ensures |ms| == |texts|
    ensures forall i :: 0 <= i < |texts| ==> ms[i] == Message(texts[i], None)
  {
    seq(|texts|, i requires 0 <= i < |texts| => Message(texts[i], None))
  }

  /** The string entries of `warnings` in the compiled script, as build warnings. */
  function ScriptWarnings(script: Option<map<string, Json>>): (ws: seq<Message>)
    ensures script.Some? && Get(script.value, "warnings").JArr? ==> ws == Messages(Strings(Get(script.value, "warnings").items))
    ensures script.None? || !Get(script.value, "warnings").JArr? ==> ws == []
  {
    if script.Some? && Get(script.value, "warnings").JArr? then Messages(Strings(Get(script.value, "warnings").items)) else []
  }

  /** The main `.vue` load handler. */
  function LoadEntry(o: Options, host: Host, build: BuildOptions, args: LoadArgs): (r: Handled<LoadResult<seq<Stmt>>>)
    requires o.jsExecutor.Some?
    ensures ReadVueSource(host.readFile, o.onVueLoadProcessors, args, build).Err? ==>
              r == Handled(NoLoad(), Some(ReadVueSource(host.readFile, o.onVueLoadProcessors, args, build).error))
    ensures r.result.errors != [] ==> r.result.contents.None? && |r.result.errors| == 1 && r.result.errors[0].file == Some(args.path)
    ensures r.result.contents.Some? ==>
              && r.err.None?
              && ReadVueSource(host.readFile, o.onVueLoadProcessors, args, build).Ok?
              && var source := ReadVueSource(host.readFile, o.onVueLoadProcessors, args, build).value;
              && var answer := o.jsExecutor.value.execute(CompileService, CompileArgs(HashId(host.xxhash, source), args.path, source, o, build, host.decodeJson));
              && answer.Ok? && answer.value.JObj? && ExtractParts(answer.value.fields).Ok?
              && var parts := ExtractParts(answer.value.fields).value;
              && r.result.pluginData == Some(EntryData(DataId(HashId(host.xxhash, source)), parts))
              && r.result.resolveDir == host.dir(args.path)
              && GenerateEntryContents(host.rel, args.path, DataId(HashId(host.xxhash, source)), IsSSR(build, host.decodeJson), parts) == Ok(r.result.contents.value)
              && r.result.warnings == ScriptWarnings(parts.script)
    ensures ReadVueSource(host.readFile, o.onVueLoadProcessors, args, build).Ok? ==>
              var source := ReadVueSource(host.readFile, o.onVueLoadProcessors, args, build).value;
              var hashId := HashId(host.xxhash, source);
              match o.jsExecutor.value.execute(CompileService, CompileArgs(hashId, args.path, source, o, build, host.decodeJson))
              case Err(e) => r.err == Some(e) && r.result.errors == [Message(CompileFailed + Text(e), Some(args.path))]
              case Ok(v) =>
                && (!v.JObj? ==> r.err.None? && r.result.errors == [Message(InvalidResult + host.formatValue(v), Some(args.path))])
                && (v.JObj? ==> r == EntryFromResult(host, build, args, DataId(hashId), v.fields))
  {
    match ReadVueSource(host.readFile, o.onVueLoadProcessors, args, build)
    case Err(e) => Handled(NoLoad(), Some(e))
    case Ok(source) =>
      var hashId := HashId(host.xxhash, source);
      var dataId := DataId(hashId);
      match o.jsExecutor.value.execute(CompileService, CompileArgs(hashId, args.path, source, o, build, host.decodeJson))
      case Err(e) => Handled(LoadError(CompileFailed + Text(e), args.path), Some(e))
      case Ok(JObj(result)) => EntryFromResult(host, build, args, dataId, result)
      case Ok(v) => Handled(LoadError(InvalidResult + host.formatValue(v), args.path), None)
  }

  /** A readable component whose compiled parts are well formed always yields an entry: its
      plugin data carries the content id and the parts, and its statements import the script
      and end with the default export. */
  lemma LoadEntryProducesEntry(o: Options, host: Host, build: BuildOptions, args: LoadArgs, source: string, result: map<string, Json>)
    requires o.jsExecutor.Some?
    requires ReadVueSource(host.readFile, o.onVueLoadProcessors, args, build) == Ok(source)
    requires o.jsExecutor.value.execute(CompileService, CompileArgs(HashId(host.xxhash, source), args.path, source, o, build, host.decodeJson)) == Ok(JObj(result))
    requires ExtractParts(result).Ok? && SomeScoped(ExtractParts(result).value.styles).Ok?
    ensures var r := LoadEntry(o, host, build, args);
      && r.err.None? && r.result.errors == [] && r.result.contents.Some?
      && r.result.pluginData == Some(EntryData(DataId(HashId(host.xxhash, source)), ExtractParts(result).value))
      && (ImportDefault(Script, ScriptSpecifier(RelPath(host.rel, args.path))) in r.result.contents.value <==> HasScript(ExtractParts(result).value.script))
  {
    var r := LoadEntry(o, host, build, args);
    assert r == EntryFromResult(host, build, args, DataId(HashId(host.xxhash, source)), result);
  }

  /** The entry once the compiler has answered with an object. */
  function EntryFromResult(host: Host, build: BuildOptions, args: LoadArgs, dataId: string, result: map<string, Json>): (r: Handled<LoadResult<seq<Stmt>>>)
    ensures ExtractParts(result).Err? ==> r == Handled(NoLoad(), Some(ExtractParts(result).error))
    ensures r.result.contents.Some? <==>
              ExtractParts(result).Ok? && GenerateEntryContents(host.rel, args.path, dataId, IsSSR(build, host.decodeJson), ExtractParts(result).value).Ok?
    ensures ExtractParts(result).Ok? ==>
              var g := GenerateEntryContents(host.rel, args.path, dataId, IsSSR(build, host.decodeJson), ExtractParts(result).value);
              g.Err? ==> r == Handled(LoadError(EntryFailed + Text(g.error), args.path), Some(g.error))
    ensures r.result.errors != [] ==> r.result.contents.None? && |r.result.errors| == 1 && r.result.errors[0].file == Some(args.path)
    ensures r.result.contents.Some? ==>
              var parts := ExtractParts(result).value;
              && r.err.None?
              && r.result.resolveDir == host.dir(args.path)
              && r.result.pluginData == Some(EntryData(dataId, parts))
              && GenerateEntryContents(host.rel, args.path, dataId, IsSSR(build, host.decodeJson), parts) == Ok(r.result.contents.value)
              && r.result.warnings == ScriptWarnings(parts.script)
  {
    match ExtractParts(result)
    case Err(e) => Handled(NoLoad(), Some(e))
    case Ok(parts) => EntryFromParts(host, build, args, dataId, parts)
  }

  /** The entry once the compiled parts are known. */
  function EntryFromParts(host: Host, build: BuildOptions, args: LoadArgs, dataId: string, parts: Parts): (r: Handled<LoadResult<seq<Stmt>>>)
    ensures var g := GenerateEntryContents(host.rel, args.path, dataId, IsSSR(build, host.decodeJson), parts);
      && (r.result.contents.Some? <==> g.Ok?)
      && (g.Err? ==> r == Handled(LoadError(EntryFailed + Text(g.error), args.path), Some(g.error)))
    ensures r.result.errors != [] ==> r.result.contents.None? && |r.result.errors| == 1 && r.result.errors[0].file == Some(args.path)
    ensures r.result.contents.Some? ==>
              && r.err.None?
              && r.result.resolveDir == host.dir(args.path)
              && r.result.pluginData == Some(EntryData(dataId, parts))
              && GenerateEntryContents(host.rel, args.path, dataId, IsSSR(build, host.decodeJson), parts) == Ok(r.result.contents.value)
              && r.result.warnings == ScriptWarnings(parts.script)
  {
    match GenerateEntryContents(host.rel, args.path, dataId, IsSSR(build, host.decodeJson), parts)
    case Err(e) => Handled(LoadError(EntryFailed + Text(e), args.path), Some(e))
    case Ok(stmts) =>
      Handled(LoadResult(Some(stmts), LoaderDefault, host.dir(args.path), Some(EntryData(dataId, parts)), [], ScriptWarnings(parts.script)), None)
  }

  // ---------------------------------------------------------------- resolve

  /** The default resolution: the namespace from the `type` query parameter, and the style
      `index` recorded in the plugin data when it parses as an int. */
  function Classify(args: ResolveArgs, host: Host): (r: Handled<ResolveResult>)
    ensures !host.urlParses(args.path) ==> r == Handled(EmptyResolve, Some(Panic(NilSite)))
    ensures host.urlParses(args.path) ==>
              var t := host.queryGet(args.path, "type");
              var idx := host.queryGet(args.path, "index");
              var base := if args.pluginData.Some? then args.pluginData.value else map[];
              && r.err.None?
              && r.result.path == args.path
              && r.result.namespace == (if t != "" then "sfc-" + t else "file")
              && r.result.pluginData.Some?
              && (forall k :: k != "index" ==> (k in r.result.pluginData.value <==> k in base))
              && (forall k :: k in base && k != "index" ==> r.result.pluginData.value[k] == base[k])
              && (idx != "" && Atoi(idx).ok ==> "index" in r.result.pluginData.value && r.result.pluginData.value["index"] == JNum(Atoi(idx).value))
              && (!(idx != "" && Atoi(idx).ok) ==> r.result.pluginData.value == base)
  {
    if !host.urlParses(args.path) then Handled(EmptyResolve, Some(Panic(NilSite)))
    else
      var t := host.queryGet(args.path, "type");
      var namespace := if t != "" then "sfc-" + t else "file";
      var data := if args.pluginData.Some? then args.pluginData.value else map[];
      var idx := host.queryGet(args.path, "index");
      var data' := if idx != "" && Atoi(idx).ok then data["index" := JNum(Atoi(idx).value)] else data;
      Handled(ResolveResult(args.path, namespace, Some(data')), None)
  }

  /** Runs one resolve processor on the (already rewritten) arguments. */
  function ResolveStep(args: ResolveArgs, build: BuildOptions): VueResolveProcessor -> Result<Option<ResolveResult>>
  {
    (p: VueResolveProcessor) => p(args, build)
  }

  /** The resolve handler after alias rewriting: the processors in order, the first that
      answers or fails deciding; the default classification when all decline. */
  function ResolveAfterAlias(procs: seq<VueResolveProcessor>, host: Host, build: BuildOptions, args: ResolveArgs): (r: Handled<ResolveResult>)
    ensures (forall i :: 0 <= i < |procs| ==> procs[i](args, build) == Ok(None)) ==> r == Classify(args, host)
    ensures r.err.Some? && host.urlParses(args.path) ==>
              exists i :: 0 <= i < |procs| && procs[i](args, build) == Err(r.err.value)
  {
    match FirstDecision(procs, ResolveStep(args, build))
    case Err(e) => Handled(EmptyResolve, Some(e))
    case Ok(Some(res)) => Handled(res, None)
    case Ok(None) => Classify(args, host)
  }

  /** The first processor that answers short-circuits: later processors are not consulted. */
  lemma ResolveShortCircuit(before: seq<VueResolveProcessor>, p: VueResolveProcessor, after: seq<VueResolveProcessor>, host: Host, build: BuildOptions, args: ResolveArgs)
    requires forall i :: 0 <= i < |before| ==> before[i](args, build) == Ok(None)
    requires p(args, build) != Ok(None)
    ensures ResolveAfterAlias(before + [p] + after, host, build, args) ==
            match p(args, build)
            case Err(e) => Handled(EmptyResolve, Some(e))
            case Ok(res) => Handled(res.value, None)
  {
    var ps := before + [p] + after;
    var run := ResolveStep(args, build);
    var r := FirstDecision(ps, run);
    assert ps[|before|] == p;
    assert !AllDeclineBefore(ps, run, |ps|);
    assert forall j :: 0 <= j < |before| ==> run(ps[j]) == Ok(None) by {
      forall j | 0 <= j < |before|
        ensures run(ps[j]) == Ok(None)
      {
        assert ps[j] == before[j];
      }
    }
    assert run(ps[|before|]) != Ok(None);
    var i :| 0 <= i < |ps| && run(ps[i]) == r && AllDeclineBefore(ps, run, i);
    assert i == |before|;
  }

  /** The rest of the handler once the alias table and the rewritten path are known. */
  function AfterAlias(o: Options, host: Host, build: BuildOptions, args: ResolveArgs, rewritten: Result<string>): Handled<ResolveResult>
  {
    match rewritten
    case Err(e) => Handled(EmptyResolve, Some(e))
    case Ok(p) => ResolveAfterAlias(o.onVueResolveProcessors, host, build, args.(path := Paths.Absolutize(host.clean, args.resolveDir, p)))
  }

  /** The `.vue` resolve handler. */
  method Resolve(o: Options, host: Host, build: BuildOptions, args: ResolveArgs) returns (r: Handled<ResolveResult>)
    ensures PathAlias.ParseTsconfigPathAlias(build, host).Err? ==> r == Handled(EmptyResolve, Some(PathAlias.ParseTsconfigPathAlias(build, host).error))
    ensures PathAlias.ParseTsconfigPathAlias(build, host).Ok? ==>
              exists rewritten :: PathAlias.Outcome(PathAlias.Literal, PathAlias.ParseTsconfigPathAlias(build, host).value, args.path, rewritten) &&
                r == AfterAlias(o, host, build, args, rewritten)
    ensures PathAlias.ParseTsconfigPathAlias(build, host) == Ok(map[]) ==>
              r == ResolveAfterAlias(o.onVueResolveProcessors, host, build, args.(path := Paths.Absolutize(host.clean, args.resolveDir, args.path)))
  {
    match PathAlias.ParseTsconfigPathAlias(build, host)
    case Err(e) =>
      return Handled(EmptyResolve, Some(e));
    case Ok(aliases) =>
      var rewritten := PathAlias.ApplyPathAlias(PathAlias.Literal, aliases, args.path);
      r := AfterAlias(o, host, build, args, rewritten);
  }

  // ---------------------------------------------------------------- part loaders

  /** `args.PluginData.(map[string]interface{})[key].(map[string]interface{})` */
  function PartOf(pluginData: PluginData, key: string): (r: Result<map<string, Json>>)
    ensures r.Ok? <==> pluginData.Some? && Get(pluginData.value, key).JObj?
    ensures r.Ok? ==> r.value == Get(pluginData.value, key).fields
    ensures r.Err? ==> r.error == Panic(AssertSite)
  {
    if pluginData.None? then Err(Panic(AssertSite))
    else match Get(pluginData.value, key)
      case JObj(m) => Ok(m)
      case _ => Err(Panic(AssertSite))
  }

  /** A value asserted to be a string. */
  function AsString(v: Json): (r: Result<string>)
    ensures r.Ok? <==> v.JStr?
    ensures r.Ok? ==> r.value == v.s
  {
    if v.JStr? then Ok(v.s) else Err(Panic(AssertSite))
  }

  const SourceMapPrefix: string := "\n\n//@ sourceMappingURL=data:application/json;charset=utf-8;base64,"

  /** Whether the source map comment is appended: source maps on and a map present. */
  predicate WantsSourceMap(build: BuildOptions, script: map<string, Json>)
  {
    build.sourcemap > 0 && Get(script, "map") != JNull
  }

  /** The `sfc-script` loader. */
  function LoadScript(build: BuildOptions, host: Host, args: LoadArgs): (r: Handled<LoadResult<string>>)
    ensures r.err.None? <==>
              && PartOf(args.pluginData, Script).Ok?
              && var script := PartOf(args.pluginData, Script).value;
              && Get(script, "content").JStr?
              && (WantsSourceMap(build, script) ==> host.marshalJson(Get(script, "map")).Ok?)
              && (Get(script, "lang") == JNull || Get(script, "lang").JStr?)
    ensures r.err.None? ==>
              var script := PartOf(args.pluginData, Script).value;
              && r.result.contents == Some(Get(script, "content").s +
                   (if WantsSourceMap(build, script) then SourceMapPrefix + host.base64(host.marshalJson(Get(script, "map")).value) else ""))
              && (r.result.loader == LoaderTS <==> Get(script, "lang") == JStr("ts"))
              && (r.result.loader != LoaderTS ==> r.result.loader == LoaderJS)
              && r.result.pluginData == args.pluginData
              && r.result.resolveDir == host.dir(args.path)
    ensures r.err.Some? ==> r.result.contents.None?
  {
    match PartOf(args.pluginData, Script)
    case Err(e) => Handled(NoLoad(), Some(e))
    case Ok(script) =>
      match AsString(Get(script, "content"))
      case Err(e) => Handled(NoLoad(), Some(e))
      case Ok(content) =>
        var mapped: Result<string> :=
          if WantsSourceMap(build, script) then
            match host.marshalJson(Get(script, "map"))
            case Err(e) => Err(e)
            case Ok(j) => Ok(content + (SourceMapPrefix + host.base64(j)))
          else assert content + "" == content; Ok(content);
        match mapped
        case Err(e) => Handled(NoLoad(), Some(e))
        case Ok(text) =>
          var lang := Get(script, "lang");
          if lang != JNull && !lang.JStr? then Handled(NoLoad(), Some(Panic(AssertSite)))
          else
            var loader := if lang == JStr("ts") then LoaderTS else LoaderJS;
            Handled(LoadResult(Some(text), loader, host.dir(args.path), args.pluginData, [], []), None)
  }

  /** The `sfc-template` loader: the compiled code, with the string tips as warnings. */
  function LoadTemplate(host: Host, args: LoadArgs): (r: Handled<LoadResult<string>>)
    ensures r.err.None? <==> PartOf(args.pluginData, "template").Ok? && Get(PartOf(args.pluginData, "template").value, "code").JStr?
    ensures r.err.None? ==>
              var t := PartOf(args.pluginData, "template").value;
              && r.result.contents == Some(Get(t, "code").s)
              && r.result.loader == LoaderTS
              && r.result.warnings == (if Get(t, "tips").JArr? then Messages(Strings(Get(t, "tips").items)) else [])
              && r.result.pluginData == args.pluginData
  {
    match PartOf(args.pluginData, "template")
    case Err(e) => Handled(NoLoad(), Some(e))
    case Ok(t) =>
      match AsString(Get(t, "code"))
      case Err(e) => Handled(NoLoad(), Some(e))
      case Ok(code) =>
        var tips := if Get(t, "tips").JArr? then Messages(Strings(Get(t, "tips").items)) else [];
        Handled(LoadResult(Some(code), LoaderTS, host.dir(args.path), args.pluginData, [], tips), None)
  }

  /** The style index of a path: Atoi of the `index` parameter with its error ignored. */
  function StyleIndex(host: Host, path: string): int
  {
    Atoi(host.queryGet(path, "index")).value
  }

  /** The `sfc-style` loader: the code of the style block at the path's `index`. */
  function LoadStyle(host: Host, args: LoadArgs): (r: Handled<LoadResult<string>>)
    ensures r.err.None? ==>
              && args.pluginData.Some? && host.urlParses(args.path)
              && var styles := Get(args.pluginData.value, "styles");
              && var i := StyleIndex(host, args.path);
              && styles.JArr? && 0 <= i < |styles.items|
              && styles.items[i].JObj? && Get(styles.items[i].fields, "code").JStr?
              && r.result.contents == Some(Get(styles.items[i].fields, "code").s)
              && r.result.loader == LoaderCSS
              && r.result.pluginData == args.pluginData
    ensures r.err.Some? ==> r.result.contents.None?
    ensures args.pluginData.Some? && host.urlParses(args.path) && Get(args.pluginData.value, "styles").JArr? &&
            !(0 <= StyleIndex(host, args.path) < |Get(args.pluginData.value, "styles").items|) ==>
              r.err == Some(Panic(IndexSite))
  {
    if args.pluginData.None? then Handled(NoLoad(), Some(Panic(AssertSite)))
    else if !host.urlParses(args.path) then Handled(NoLoad(), Some(Panic(NilSite)))
    else
      var i := StyleIndex(host, args.path);
      match Get(args.pluginData.value, "styles")
      case JArr(styles) =>
        if !(0 <= i < |styles|) then Handled(NoLoad(), Some(Panic(IndexSite)))
        else if !styles[i].JObj? then Handled(NoLoad(), Some(Panic(AssertSite)))
        else
          (match AsString(Get(styles[i].fields, "code"))
           case Err(e) => Handled(NoLoad(), Some(e))
           case Ok(code) => Handled(LoadResult(Some(code), LoaderCSS, host.dir(args.path), args.pluginData, [], []), None))
      case _ => Handled(NoLoad(), Some(Panic(AssertSite)))
  }

  // ---------------------------------------------------------------- round trips

  /** The script loader returns the compiled script the entry stored, unchanged when
      source maps are off. */
  lemma EntryScriptRoundTrip(build: BuildOptions, host: Host, path: string, dataId: string, parts: Parts, content: string)
    requires parts.script.Some? && Get(parts.script.value, "content") == JStr(content)
    requires Get(parts.script.value, "lang") == JNull
    requires build.sourcemap == 0
    ensures LoadScript(build, host, LoadArgs(path, "sfc-script", Some(EntryData(dataId, parts)))).result.contents == Some(content)
  {
  }

  /** The template loader returns the compiled template code the entry stored. */
  lemma EntryTemplateRoundTrip(host: Host, path: string, dataId: string, parts: Parts, code: string)
    requires parts.template.Some? && Get(parts.template.value, "code") == JStr(code)
    ensures LoadTemplate(host, LoadArgs(path, "sfc-template", Some(EntryData(dataId, parts)))).result.contents == Some(code)
  {
  }

  /** The style import the entry emits for block `i` loads exactly block `i`, provided the
      query parser reads back the index the specifier carries. */
  lemma EntryStyleRoundTrip(host: Host, rel: string, dataId: string, parts: Parts, i: nat, code: string)
    requires i < |parts.styles| && i <= MaxInt64
    requires Get(parts.styles[i], "code") == JStr(code)
    requires host.urlParses(StyleSpecifier(rel, i))
    requires host.queryGet(StyleSpecifier(rel, i), "index") == FormatDecimal(i)
    ensures LoadStyle(host, LoadArgs(StyleSpecifier(rel, i), "sfc-style", Some(EntryData(dataId, parts)))).result.contents == Some(code)
  {
    AtoiFormatDecimal(i);
  }

  /** The round trip the program performs: the style import, resolved by the default
      classification (which records its `index`), loads exactly block `i` in the `sfc-style`
      namespace. */
  lemma ResolvedStyleRoundTrip(host: Host, resolveDir: string, rel: string, dataId: string, parts: Parts, i: nat, code: string)
    requires i < |parts.styles| && i <= MaxInt64
    requires Get(parts.styles[i], "code") == JStr(code)
    requires var p := Paths.Absolutize(host.clean, resolveDir, StyleSpecifier(rel, i));
      host.urlParses(p) && host.queryGet(p, "type") == "style" && host.queryGet(p, "index") == FormatDecimal(i)
    ensures var c := Classify(ResolveArgs(Paths.Absolutize(host.clean, resolveDir, StyleSpecifier(rel, i)), resolveDir, Some(EntryData(dataId, parts))), host);
      && c.err.None? && c.result.namespace == "sfc-style"
      && c.result.pluginData.Some? && "index" in c.result.pluginData.value && c.result.pluginData.value["index"] == JNum(i)
      && LoadStyle(host, LoadArgs(c.result.path, c.result.namespace, c.result.pluginData)).result.contents == Some(code)
  {
    AtoiFormatDecimal(i);
    var p := Paths.Absolutize(host.clean, resolveDir, StyleSpecifier(rel, i));
    var data := EntryData(dataId, parts);
    var data' := data["index" := JNum(i)];
    var idx := host.queryGet(p, "index");
    assert idx != "" && Atoi(idx) == IntParse(i, true);
    assert "sfc-" + "style" == "sfc-style";
    assert Classify(ResolveArgs(p, resolveDir, Some(data)), host) == Handled(ResolveResult(p, "sfc-style", Some(data')), None);
    assert Get(data', "styles") == Get(data, "styles");
    StyleBlockLoads(host, p, data', i, code);
  }

  /** The style loader reads the block the path's index names. */
  lemma StyleBlockLoads(host: Host, path: string, data: map<string, Json>, i: nat, code: string)
    requires host.urlParses(path) && StyleIndex(host, path) == i
    requires Get(data, "styles").JArr? && i < |Get(data, "styles").items|
    requires Get(data, "styles").items[i].JObj? && Get(Get(data, "styles").items[i].fields, "code") == JStr(code)
    ensures LoadStyle(host, LoadArgs(path, "sfc-style", Some(data))).result.contents == Some(code)
  {
  }
}
