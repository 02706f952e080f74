/** Shared vocabulary of the plugin model: optional values, results, Go error values,
    the dynamically typed values that the JSON decoder and the JavaScript executor hand
    back (Go's `interface{}`), and a few string helpers from Go's `strings` package. */
module Common {

  datatype Option<+T> = None | Some(value: T)

  /** A Go `error` value. Only the shape that the plugin builds is modelled; errors that
      come from collaborators (file system, processors, executor, JSON decoder) are opaque. */
  datatype Error =
    | Foreign(msg: string)                 // an error produced by a collaborator, passed through unchanged
    | Failure(msg: string)                 // errors.New / fmt.Errorf without a wrapped cause
    | Wrap(context: string, cause: Error)  // fmt.Errorf("<context>: %w", cause)
    | Panic(site: string)                  // a Go run-time panic: failed type assertion, index out of range, nil dereference

  /** What the Go run time reports for the panics the plugin can reach. */
  const AssertSite: string := "interface conversion"  // a single-valued type assertion that fails
  const IndexSite: string := "runtime error: index out of range"
  const NilSite: string := "runtime error: invalid memory address or nil pointer dereference"

  /** The text `err.Error()` returns. */
  function Text(e: Error): string
  {
    match e
    case Foreign(m) => m
    case Failure(m) => m
    case Wrap(c, cause) => c + ": " + Text(cause)
    case Panic(s) => "panic: " + s
  }

  /** A Go `(value, error)` pair in which exactly one side is meaningful. */
  datatype Result<+T> = Ok(value: T) | Err(error: Error) {
    predicate IsFailure() { Err? }
    function PropagateFailure<U>(): Result<U>
      requires Err?
    {
      Err(error)
    }
    function Extract(): T
      requires Ok?
    {
      value
    }
  }

  /** A Go `interface{}` holding what encoding/json or the JavaScript executor produce:
      nil, bool, number, string, []interface{} or map[string]interface{}. */
  datatype Json =
    | JNull
    | JBool(b: bool)
    | JNum(n: int)
    | JStr(s: string)
    | JArr(items: seq<Json>)
    | JObj(fields: map<string, Json>)

  /** `m[key]` on a Go map[string]interface{}: a missing key reads as nil. */
  function Get(m: map<string, Json>, key: string): (v: Json)
    ensures key !in m ==> v == JNull
    ensures key in m ==> v == m[key]
  {
    if key in m then m[key] else JNull
  }

  /** The strings among `items`, in order: the `if s, ok := x.(string); ok` filter. */
  function Strings(items: seq<Json>): (r: seq<string>)
    ensures |r| <= |items|
    ensures forall s :: s in r ==> JStr(s) in items
    ensures forall i :: 0 <= i < |items| && items[i].JStr? ==> items[i].s in r
  {
    if |items| == 0 then []
    else (if items[0].JStr? then [items[0].s] else []) + Strings(items[1..])
  }

  /** Filtering distributes over concatenation, so the relative order of the strings is kept. */
  lemma {:induction false} StringsAppend(a: seq<Json>, b: seq<Json>)
    ensures Strings(a + b) == Strings(a) + Strings(b)
  {
    if |a| == 0 {
      assert a + b == b;
    } else {
      assert (a + b)[0] == a[0];
      assert (a + b)[1..] == a[1..] + b;
      StringsAppend(a[1..], b);
    }
  }

  /** When every item is a string, nothing is dropped. */
  lemma {:induction false} StringsAllStrings(items: seq<Json>)
    requires forall i :: 0 <= i < |items| ==> items[i].JStr?
    ensures |Strings(items)| == |items|
    ensures forall i :: 0 <= i < |items| ==> Strings(items)[i] == items[i].s
  {
    if |items| > 0 {
      StringsAllStrings(items[1..]);
    }
  }

  /** strings.HasPrefix */
  predicate HasPrefix(s: string, prefix: string)
  {
    |prefix| <= |s| && s[..|prefix|] == prefix
  }

  /** strings.TrimSuffix */
  function TrimSuffix(s: string, suffix: string): (r: string)
    ensures HasPrefix(s, r)
    ensures r == s || r + suffix == s
  {
    if |suffix| <= |s| && s[|s| - |suffix|..] == suffix then s[..|s| - |suffix|] else s
  }

  /** Concatenation regrouped. */
  lemma ConcatAssoc<T>(a: seq<T>, b: seq<T>, c: seq<T>)
    ensures a + (b + c) == a + b + c
  {
  }

  /** Two adjacent slices make one. */
  lemma AdjacentSlices<T>(s: seq<T>, i: nat, j: nat)
    requires i <= j <= |s|
    ensures s[i..j] + s[j..] == s[i..]
  {
  }
}
