/** The plugin itself (plugin.go): the option functions applied to the defaults, the
    required executor, and the setup that normalises the build options and runs the start,
    end and dispose chains. */
module Plugin {
  import opened Common
  import opened Api
  import opened Options
  import opened Chains

  const ExecutorRequired: string := "jsExecutor is required, please set it using WithJsExecutor()"

  /** The option functions applied in order, each to the result of the previous one. */
  function ApplyOptions(fs: seq<OptionFunc>, o: Options): Options
    decreases |fs|
  {
    if |fs| == 0 then o else ApplyOptions(fs[1..], fs[0](o))
  }

  /** Applying `a + b` is applying `a`, then `b`. */
  lemma {:induction false} ApplyOptionsAppend(a: seq<OptionFunc>, b: seq<OptionFunc>, o: Options)
    decreases |a|
    ensures ApplyOptions(a + b, o) == ApplyOptions(b, ApplyOptions(a, o))
  {
    if |a| == 0 {
      assert a + b == b;
    } else {
      assert (a + b)[0] == a[0];
      assert (a + b)[1..] == a[1..] + b;
      ApplyOptionsAppend(a[1..], b, a[0](o));
    }
  }

  /** Of several names, the last one given wins. */
  lemma LastNameWins(fs: seq<OptionFunc>, name: string, o: Options)
    ensures ApplyOptions(fs + [WithName(name)], o).name == name
  {
    ApplyOptionsAppend(fs, [WithName(name)], o);
    assert [WithName(name)][1..] == [];
  }

  /** One WithOnStartProcessor per processor, in order. */
  function StartProcessorOptions(ps: seq<StartProcessor>): (fs: seq<OptionFunc>)
    ensures |fs| == |ps|
  {
    if |ps| == 0 then [] else [WithOnStartProcessor(ps[0])] + StartProcessorOptions(ps[1..])
  }

  /** Registering processors one by one appends them to the start chain in the order given
      and changes nothing else. */
  lemma {:induction false} StartProcessorsInOrder(ps: seq<StartProcessor>, o: Options)
    decreases |ps|
    ensures ApplyOptions(StartProcessorOptions(ps), o).onStartProcessors == o.onStartProcessors + ps
    ensures ApplyOptions(StartProcessorOptions(ps), o).(onStartProcessors := o.onStartProcessors) == o
  {
    if |ps| == 0 {
      assert o.onStartProcessors + ps == o.onStartProcessors;
    } else {
      var fs := StartProcessorOptions(ps);
      var o' := WithOnStartProcessor(ps[0])(o);
      assert fs[0] == WithOnStartProcessor(ps[0]) && fs[1..] == StartProcessorOptions(ps[1..]);
      assert ApplyOptions(fs, o) == ApplyOptions(StartProcessorOptions(ps[1..]), o');
      assert o'.onStartProcessors == o.onStartProcessors + [ps[0]];
      assert o'.(onStartProcessors := o.onStartProcessors) == o;
      StartProcessorsInOrder(ps[1..], o');
      SnocThenRest(o.onStartProcessors, ps);
    }
  }

  lemma SnocThenRest<T>(a: seq<T>, s: seq<T>)
    requires |s| > 0
    ensures a + [s[0]] + s[1..] == a + s
  {
    assert [s[0]] + s[1..] == s;
  }

  /** What NewPlugin returns: the plugin's name and the options its callbacks close over. */
  datatype Plugin = Plugin(name: string, opts: Options)

  /** NewPlugin; a missing executor is the source's panic. */
  function NewPlugin(fs: seq<OptionFunc>): (r: Result<Plugin>)
    ensures r.Err? <==> ApplyOptions(fs, NewOptions()).jsExecutor.None?
    ensures r.Err? ==> r.error == Panic(ExecutorRequired)
    ensures r.Ok? ==> r.value.opts == ApplyOptions(fs, NewOptions()) && r.value.name == r.value.opts.name
  {
    var opts := ApplyOptions(fs, NewOptions());
    if opts.jsExecutor.None? then Err(Panic(ExecutorRequired)) else Ok(Plugin(opts.name, opts))
  }

  /** An executor given last makes the plugin; the name stays the default unless set. */
  lemma ExecutorMakesPlugin(e: Executor)
    ensures NewPlugin([WithJsExecutor(e)]) == Ok(Plugin(DefaultName, NewOptions().(jsExecutor := Some(e))))
  {
    assert ApplyOptions([WithJsExecutor(e)], NewOptions()) == ApplyOptions([], WithJsExecutor(e)(NewOptions()));
  }

  /** Without WithJsExecutor the plugin cannot be made, whatever else is configured. */
  lemma NoExecutorPanics(name: string, ps: seq<StartProcessor>)
    ensures NewPlugin([WithName(name)] + StartProcessorOptions(ps)) == Err(Panic(ExecutorRequired))
  {
    ApplyOptionsAppend([WithName(name)], StartProcessorOptions(ps), NewOptions());
    assert ApplyOptions([WithName(name)], NewOptions()) == NewOptions().(name := name) by {
      assert [WithName(name)][1..] == [];
    }
    StartProcessorsInOrder(ps, NewOptions().(name := name));
  }

  /** The build options every callback sees: the initial options, normalised once by Setup. */
  function Setup(initial: BuildOptions, decode: string -> Result<Json>): (b: BuildOptions)
    ensures b.metafile
    ensures b.define.Some? && Extends(b.define.value, Defines(initial))
    ensures forall i :: 0 <= i < |EnvDefaults| ==> ParseImportMetaEnv(b.define.value, EnvDefaults[i].0, decode).Some?
    ensures b.(define := initial.define, metafile := initial.metafile) == initial
  {
    Normalize(initial, decode)
  }

  function StartRun(build: BuildOptions): StartProcessor -> Option<Error>
  {
    (q: StartProcessor) => q(build)
  }

  /** The start callback: the start processors in order, stopping at the first error. */
  function OnStart(p: Plugin, build: BuildOptions): (r: Option<Error>)
    ensures r.None? <==> forall i :: 0 <= i < |p.opts.onStartProcessors| ==> p.opts.onStartProcessors[i](build).None?
    ensures r.Some? ==> exists i :: 0 <= i < |p.opts.onStartProcessors| && p.opts.onStartProcessors[i](build) == r &&
                          forall j :: 0 <= j < i ==> p.opts.onStartProcessors[j](build).None?
  {
    var s := RunUntilError(p.opts.onStartProcessors, StartRun(build));
    assert s.error.Some? ==> s.ran - 1 < |p.opts.onStartProcessors| && p.opts.onStartProcessors[s.ran - 1](build) == s.error;
    s.error
  }

  /** The end callback registered after the HTML one: the end processors in order, stopping
      at the first error. */
  function OnEnd(p: Plugin, build: BuildOptions, result: BuildResult): (r: Option<Error>)
    ensures r.None? <==> forall i :: 0 <= i < |p.opts.onEndProcessors| ==> p.opts.onEndProcessors[i](result, build).None?
    ensures r.Some? ==> exists i :: 0 <= i < |p.opts.onEndProcessors| && p.opts.onEndProcessors[i](result, build) == r &&
                          forall j :: 0 <= j < i ==> p.opts.onEndProcessors[j](result, build).None?
  {
    var s := RunUntilError(p.opts.onEndProcessors, (q: EndProcessor) => q(result, build));
    assert s.error.Some? ==> s.ran - 1 < |p.opts.onEndProcessors| && p.opts.onEndProcessors[s.ran - 1](result, build) == s.error;
    s.error
  }

  /** The dispose callback: every dispose processor runs, in order. */
  function OnDispose(p: Plugin, build: BuildOptions): (r: seq<Cleanup>)
    ensures |r| == |p.opts.onDisposeProcessors|
    ensures forall i :: 0 <= i < |r| ==> r[i] == p.opts.onDisposeProcessors[i](build)
  {
    RunAll(p.opts.onDisposeProcessors, (q: DisposeProcessor) => q(build))
  }

  /** A start processor that fails hides the ones registered after it. */
  lemma StartStopsAtFirstError(fs: seq<OptionFunc>, e: Executor, before: seq<StartProcessor>, q: StartProcessor, after: seq<StartProcessor>, build: BuildOptions)
    requires forall i :: 0 <= i < |before| ==> before[i](build).None?
    requires q(build).Some?
    ensures NewPlugin(fs + [WithJsExecutor(e)] + StartProcessorOptions(before + [q] + after)).Ok? &&
            (ApplyOptions(fs, NewOptions()).onStartProcessors == [] ==>
              OnStart(NewPlugin(fs + [WithJsExecutor(e)] + StartProcessorOptions(before + [q] + after)).value, build) == q(build))
  {
    PluginStartChain(fs, e, before + [q] + after);
    OnStartFirstFailure(NewPlugin(fs + [WithJsExecutor(e)] + StartProcessorOptions(before + [q] + after)),
                        ApplyOptions(fs, NewOptions()).onStartProcessors == [], build, before, q, after);
  }

  /** On a plugin whose start chain is `before + [q] + after` when `chained` holds, the start
      hook returns the error of the first failing processor. */
  lemma OnStartFirstFailure(p: Result<Plugin>, chained: bool, build: BuildOptions, before: seq<StartProcessor>, q: StartProcessor, after: seq<StartProcessor>)
    requires forall i :: 0 <= i < |before| ==> before[i](build).None?
    requires q(build).Some?
    requires p.Ok? && (chained ==> p.value.opts.onStartProcessors == before + [q] + after)
    ensures p.Ok? && (chained ==> OnStart(p.value, build) == q(build))
  {
    FirstFailureStops(before, q, after, StartRun(build));
  }

  /** Options ending with an executor and start processors make a plugin whose start chain
      is those processors, when the earlier options register none. */
  lemma PluginStartChain(fs: seq<OptionFunc>, e: Executor, ps: seq<StartProcessor>)
    ensures var p := NewPlugin(fs + [WithJsExecutor(e)] + StartProcessorOptions(ps));
            p.Ok? && (ApplyOptions(fs, NewOptions()).onStartProcessors == [] ==> p.value.opts.onStartProcessors == ps)
  {
    ApplyOptionsAppend(fs + [WithJsExecutor(e)], StartProcessorOptions(ps), NewOptions());
    ExecutorKeepsStarts(fs, e);
    StartProcessorsInOrder(ps, ApplyOptions(fs + [WithJsExecutor(e)], NewOptions()));
  }

  /** An executor given after other options sets the executor and keeps their start chain. */
  lemma ExecutorKeepsStarts(fs: seq<OptionFunc>, e: Executor)
    ensures ApplyOptions(fs + [WithJsExecutor(e)], NewOptions()).jsExecutor == Some(e)
    ensures ApplyOptions(fs + [WithJsExecutor(e)], NewOptions()).onStartProcessors == ApplyOptions(fs, NewOptions()).onStartProcessors
  {
    ApplyOptionsAppend(fs, [WithJsExecutor(e)], NewOptions());
    assert [WithJsExecutor(e)][1..] == [];
  }
}
