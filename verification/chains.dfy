/** The three shapes of processor chain the plugin runs: a chain that stops at the first
    error, a fold that threads a value through every processor, and a chain in which the
    first processor that decides (a value or an error) short-circuits the rest. Plus the
    chain that runs every processor unconditionally. */
module Chains {
  import opened Common

  /** How a stop-at-first-error chain ended: how many processors ran, and the error if one failed. */
  datatype Stop = Stop(ran: nat, error: Option<Error>)

  /** Every processor before index `n` succeeded. */
  ghost predicate AllPassBefore<P>(ps: seq<P>, run: P -> Option<Error>, n: int)
  {
    forall j :: 0 <= j < n && j < |ps| ==> run(ps[j]).None?
  }

  /** Runs the processors in order and stops at the first one that returns an error. */
  function RunUntilError<P>(ps: seq<P>, run: P -> Option<Error>): (r: Stop)
    ensures r.ran <= |ps|
    ensures r.error.None? ==> r.ran == |ps| && AllPassBefore(ps, run, |ps|)
    ensures r.error.Some? ==> 0 < r.ran && run(ps[r.ran - 1]) == r.error && AllPassBefore(ps, run, r.ran - 1)
  {
    if |ps| == 0 then Stop(0, None)
    else
      match run(ps[0])
      case Some(e) => Stop(1, Some(e))
      case None =>
        var rest := RunUntilError(ps[1..], run);
        Stop(rest.ran + 1, rest.error)
  }

  /** The first processor that fails ends the chain with its error; the ones after it do not run. */
  lemma {:induction false} FirstFailureStops<P>(before: seq<P>, q: P, after: seq<P>, run: P -> Option<Error>)
    requires forall i :: 0 <= i < |before| ==> run(before[i]).None?
    requires run(q).Some?
    ensures RunUntilError(before + [q] + after, run) == Stop(|before| + 1, run(q))
  {
    var ps := before + [q] + after;
    if |before| == 0 {
      assert ps[0] == q;
    } else {
      assert ps[0] == before[0];
      assert ps[1..] == before[1..] + [q] + after;
      FirstFailureStops(before[1..], q, after, run);
    }
  }

  /** Runs every processor in order; none can stop the chain. */
  function RunAll<P, E>(ps: seq<P>, run: P -> E): (r: seq<E>)
    ensures |r| == |ps|
    ensures forall i :: 0 <= i < |ps| ==> r[i] == run(ps[i])
  {
    if |ps| == 0 then [] else [run(ps[0])] + RunAll(ps[1..], run)
  }

  /** Threads a value through the processors in order, each receiving the previous output;
      the first error aborts the chain with that error. */
  function Fold<P, S>(ps: seq<P>, s: S, step: (P, S) -> Result<S>): (r: Result<S>)
    ensures |ps| == 0 ==> r == Ok(s)
    ensures 0 < |ps| && step(ps[0], s).Err? ==> r == step(ps[0], s)
  {
    if |ps| == 0 then Ok(s)
    else
      match step(ps[0], s)
      case Err(e) => Err(e)
      case Ok(s') => Fold(ps[1..], s', step)
  }

  /** Running `a + b` is running `a`, then running `b` on its output. */
  lemma {:induction false} FoldAppend<P, S>(a: seq<P>, b: seq<P>, s: S, step: (P, S) -> Result<S>)
    ensures Fold(a + b, s, step) ==
            match Fold(a, s, step)
            case Err(e) => Err(e)
            case Ok(s') => Fold(b, s', step)
  {
    if |a| == 0 {
      assert a + b == b;
    } else {
      assert (a + b)[0] == a[0];
      assert (a + b)[1..] == a[1..] + b;
      match step(a[0], s)
      case Err(e) =>
      case Ok(s') => FoldAppend(a[1..], b, s', step);
    }
  }

  /** The last processor receives exactly what the processors before it produced. */
  lemma FoldSnoc<P, S>(ps: seq<P>, p: P, s: S, step: (P, S) -> Result<S>)
    ensures Fold(ps + [p], s, step) ==
            match Fold(ps, s, step)
            case Err(e) => Err(e)
            case Ok(s') => step(p, s')
  {
    FoldAppend(ps, [p], s, step);
    match Fold(ps, s, step)
    case Err(e) =>
    case Ok(s') => assert Fold([p], s', step) == step(p, s');
  }

  /** A processor that fails aborts the chain: what follows it is never consulted. */
  lemma FoldAbort<P, S>(a: seq<P>, p: P, b: seq<P>, s: S, step: (P, S) -> Result<S>)
    requires Fold(a, s, step).Ok?
    requires step(p, Fold(a, s, step).value).Err?
    ensures Fold(a + [p] + b, s, step) == step(p, Fold(a, s, step).value)
  {
    FoldAppend(a + [p], b, s, step);
    FoldSnoc(a, p, s, step);
  }

  /** Every processor before index `n` declined. */
  ghost predicate AllDeclineBefore<P, T>(ps: seq<P>, run: P -> Result<Option<T>>, n: int)
  {
    forall j :: 0 <= j < n && j < |ps| ==> run(ps[j]) == Ok(None)
  }

  /** Runs the processors in order; the first that returns a value or an error decides,
      and later processors are not consulted. `Ok(None)` means that every processor declined. */
  function FirstDecision<P, T>(ps: seq<P>, run: P -> Result<Option<T>>): (r: Result<Option<T>>)
    ensures r == Ok(None) <==> AllDeclineBefore(ps, run, |ps|)
    ensures r != Ok(None) ==>
              exists i :: 0 <= i < |ps| && run(ps[i]) == r && AllDeclineBefore(ps, run, i)
  {
    if |ps| == 0 then Ok(None)
    else
      var first := run(ps[0]);
      if first != Ok(None) then first
      else
        var rest := FirstDecision(ps[1..], run);
        assert rest != Ok(None) ==> exists i :: 0 <= i < |ps[1..]| && run(ps[1..][i]) == rest && AllDeclineBefore(ps[1..], run, i);
        assert rest != Ok(None) ==> exists i :: 1 <= i < |ps| && run(ps[i]) == rest && AllDeclineBefore(ps, run, i);
        rest
  }
}
