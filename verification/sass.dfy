/** Stand-alone Sass files (sass.go): resolution into the `sass-loader` namespace, the
    source read through the load processors with a fallback to the file system, and the
    compile request with its validation of the compiler's answer. */
module Sass {
  import opened Common
  import opened Api
  import opened Options
  import opened Chains
  import PathAlias
  import Paths

  const SassNamespace: string := "sass-loader"

  /** What the handler returns once the alias rewrite is known. */
  function SassResolution(clean: string -> string, resolveDir: string, rewritten: Result<string>): Handled<ResolveResult>
  {
    match rewritten
    case Err(e) => Handled(EmptyResolve, Some(e))
    case Ok(p) => Handled(ResolveResult(Paths.Absolutize(clean, resolveDir, p), SassNamespace, None), None)
  }

  /** The `.scss` / `.sass` resolve handler. */
  method ResolveSass(host: Host, build: BuildOptions, args: ResolveArgs) returns (r: Handled<ResolveResult>)
    ensures PathAlias.ParseTsconfigPathAlias(build, host).Err? ==>
              r == Handled(EmptyResolve, Some(PathAlias.ParseTsconfigPathAlias(build, host).error))
    ensures r.err.None? ==> r.result.namespace == SassNamespace && r.result.pluginData.None?
    ensures PathAlias.ParseTsconfigPathAlias(build, host).Ok? ==>
              exists rewritten :: PathAlias.Outcome(PathAlias.Literal, PathAlias.ParseTsconfigPathAlias(build, host).value, args.path, rewritten) &&
                r == SassResolution(host.clean, args.resolveDir, rewritten)
    ensures PathAlias.ParseTsconfigPathAlias(build, host) == Ok(map[]) ==>
              r == Handled(ResolveResult(Paths.Absolutize(host.clean, args.resolveDir, args.path), SassNamespace, None), None)
  {
    match PathAlias.ParseTsconfigPathAlias(build, host)
    case Err(e) =>
      return Handled(EmptyResolve, Some(e));
    case Ok(aliases) =>
      var rewritten := PathAlias.ApplyPathAlias(PathAlias.Literal, aliases, args.path);
      r := SassResolution(host.clean, args.resolveDir, rewritten);
  }

  const ProcessorFailed: string := "sass processor failed"
  const ReadFailed: string := "failed to read sass file"

  /** One processor of the load chain: an error decides (wrapped), non-empty content decides,
      empty content declines. */
  function SassStep(args: LoadArgs, build: BuildOptions): SassLoadProcessor -> Result<Option<string>>
  {
    (p: SassLoadProcessor) =>
      match p(args, build)
      case Err(e) => Err(Wrap(ProcessorFailed, e))
      case Ok(c) => if c != "" then Ok(Some(c)) else Ok(None)
  }

  /** readSassSource */
  function ReadSassSource(procs: seq<SassLoadProcessor>, readFile: string -> Result<string>, args: LoadArgs, build: BuildOptions): (r: Result<string>)
    ensures (forall i :: 0 <= i < |procs| ==> procs[i](args, build) == Ok("")) ==>
              r == (match readFile(args.path) case Ok(t) => Ok(t) case Err(e) => Err(Wrap(ReadFailed, e)))
    ensures r.Ok? ==>
              || (exists i :: 0 <= i < |procs| && procs[i](args, build) == Ok(r.value) && r.value != "")
              || ((forall i :: 0 <= i < |procs| ==> procs[i](args, build) == Ok("")) && readFile(args.path) == Ok(r.value))
    ensures r.Err? ==> (exists i :: 0 <= i < |procs| && procs[i](args, build).Err? && r.error == Wrap(ProcessorFailed, procs[i](args, build).error))
                       || (readFile(args.path).Err? && r.error == Wrap(ReadFailed, readFile(args.path).error))
  {
    match FirstDecision(procs, SassStep(args, build))
    case Err(e) => Err(e)
    case Ok(Some(c)) => Ok(c)
    case Ok(None) =>
      assert forall i :: 0 <= i < |procs| ==> procs[i](args, build) == Ok("") by {
        assert AllDeclineBefore(procs, SassStep(args, build), |procs|);
      }
      match readFile(args.path)
      case Ok(t) => Ok(t)
      case Err(e) => Err(Wrap(ReadFailed, e))
  }

  /** The first processor with content wins: the processors after it and the file system
      are never consulted. */
  lemma FirstContentWins(before: seq<SassLoadProcessor>, p: SassLoadProcessor, after: seq<SassLoadProcessor>, readFile: string -> Result<string>, args: LoadArgs, build: BuildOptions)
    requires forall i :: 0 <= i < |before| ==> before[i](args, build) == Ok("")
    requires p(args, build).Ok? && p(args, build).value != ""
    ensures ReadSassSource(before + [p] + after, readFile, args, build) == Ok(p(args, build).value)
  {
    DecidingProcessor(before, p, after, args, build);
  }

  /** A processor error aborts the read with a wrapped error; nothing is read from disk. */
  lemma ProcessorErrorAborts(before: seq<SassLoadProcessor>, p: SassLoadProcessor, after: seq<SassLoadProcessor>, readFile: string -> Result<string>, args: LoadArgs, build: BuildOptions)
    requires forall i :: 0 <= i < |before| ==> before[i](args, build) == Ok("")
    requires p(args, build).Err?
    ensures ReadSassSource(before + [p] + after, readFile, args, build) == Err(Wrap(ProcessorFailed, p(args, build).error))
  {
    DecidingProcessor(before, p, after, args, build);
  }

  lemma DecidingProcessor(before: seq<SassLoadProcessor>, p: SassLoadProcessor, after: seq<SassLoadProcessor>, args: LoadArgs, build: BuildOptions)
    requires forall i :: 0 <= i < |before| ==> before[i](args, build) == Ok("")
    requires SassStep(args, build)(p) != Ok(None)
    ensures FirstDecision(before + [p] + after, SassStep(args, build)) == SassStep(args, build)(p)
  {
    var ps := before + [p] + after;
    var run := SassStep(args, build);
    var r := FirstDecision(ps, run);
    assert forall j :: 0 <= j < |before| ==> run(ps[j]) == Ok(None) by {
      forall j | 0 <= j < |before|
        ensures run(ps[j]) == Ok(None)
      {
        assert ps[j] == before[j];
      }
    }
    assert ps[|before|] == p;
    assert !AllDeclineBefore(ps, run, |ps|);
    var i :| 0 <= i < |ps| && run(ps[i]) == r && AllDeclineBefore(ps, run, i);
    assert i == |before|;
  }

  const RenderService: string := "sfc.sass.renderSync"
  const ServiceFailed: string := "sass compilation service failed"
  const InvalidResponse: string := "invalid response from sass compilation service"
  const NoCss: string := "failed to extract CSS from compilation result"

  /** The single argument of the render request. */
  function SassRequest(dir: string -> string, filePath: string, source: string): seq<Json>
  {
    [JObj(map["data" := JStr(source), "sasslocation" := JStr(dir(filePath)), "sourceMap" := JBool(false), "style" := JStr("expanded")])]
  }

  /** compileSass: three failures, checked in this order, else the `css` string verbatim. */
  function CompileSass(exec: Executor, dir: string -> string, filePath: string, source: string): (r: Result<string>)
    ensures var resp := exec.execute(RenderService, SassRequest(dir, filePath, source));
      && (resp.Err? ==> r == Err(Wrap(ServiceFailed, resp.error)))
      && (resp.Ok? && !resp.value.JObj? ==> r == Err(Failure(InvalidResponse)))
      && (resp.Ok? && resp.value.JObj? && !Get(resp.value.fields, "css").JStr? ==> r == Err(Failure(NoCss)))
      && (r.Ok? <==> resp.Ok? && resp.value.JObj? && Get(resp.value.fields, "css").JStr?)
      && (r.Ok? ==> r.value == Get(resp.value.fields, "css").s)
  {
    match exec.execute(RenderService, SassRequest(dir, filePath, source))
    case Err(e) => Err(Wrap(ServiceFailed, e))
    case Ok(JObj(result)) =>
      (match Get(result, "css")
       case JStr(css) => Ok(css)
       case _ => Err(Failure(NoCss)))
    case Ok(_) => Err(Failure(InvalidResponse))
  }

  /** The `sass-loader` load handler: any failure becomes one error message located at the
      path; success is the CSS with the CSS loader. */
  function LoadSass(o: Options, host: Host, build: BuildOptions, args: LoadArgs): (r: Handled<LoadResult<string>>)
    requires o.jsExecutor.Some?
    ensures var compiled := ReadSassSource(o.onSassLoadProcessors, host.readFile, args, build);
      && (compiled.Err? ==> r == Handled(LoadError(Text(compiled.error), args.path), Some(compiled.error)))
      && (compiled.Ok? ==>
            var css := CompileSass(o.jsExecutor.value, host.dir, args.path, compiled.value);
            && (css.Err? ==> r == Handled(LoadError(Text(css.error), args.path), Some(css.error)))
            && (css.Ok? ==> r.err.None? && r.result.contents == Some(css.value) && r.result.loader == LoaderCSS && r.result.errors == []))
  {
    match ReadSassSource(o.onSassLoadProcessors, host.readFile, args, build)
    case Err(e) => Handled(LoadError(Text(e), args.path), Some(e))
    case Ok(source) =>
      match CompileSass(o.jsExecutor.value, host.dir, args.path, source)
      case Err(e) => Handled(LoadError(Text(e), args.path), Some(e))
      case Ok(css) => Handled(NoLoad<string>().(contents := Some(css), loader := LoaderCSS), None)
  }
}
