/** The parts of the host bundler's plugin API (esbuild's `api` package) that the plugin
    reads and writes, the node type of golang.org/x/net/html, and the record of
    collaborators whose behaviour the model takes as given: the hash function, the JSON
    codec, base64, URL query parsing, the file system, XPath and the path functions of
    path/filepath that depend on the working directory or on lexical cleaning. */
module Api {
  import opened Common
  import opened Strconv

  /** api.BuildOptions, restricted to the fields the plugin touches. */
  datatype BuildOptions = BuildOptions(
    define: Option<map<string, string>>,  // None is a nil map
    metafile: bool,
    sourcemap: nat,                       // api.SourceMap; 0 is SourceMapNone
    tsconfig: string,
    tsconfigRaw: string,
    absWorkingDir: string,
    entryPoints: seq<string>,
    write: bool)

  /** Reading the Define map: a nil map reads as empty. */
  function Defines(b: BuildOptions): (m: map<string, string>)
    ensures b.define.Some? ==> m == b.define.value
    ensures b.define.None? ==> m == map[]
  {
    if b.define.Some? then b.define.value else map[]
  }

  /** The PluginData slot as the plugin uses it: nil, or a map[string]interface{}. */
  type PluginData = Option<map<string, Json>>

  datatype ResolveArgs = ResolveArgs(path: string, resolveDir: string, pluginData: PluginData)
  datatype ResolveResult = ResolveResult(path: string, namespace: string, pluginData: PluginData)
  /** api.OnResolveResult{} */
  const EmptyResolve: ResolveResult := ResolveResult("", "", None)

  datatype LoadArgs = LoadArgs(path: string, namespace: string, pluginData: PluginData)

  datatype Loader = LoaderDefault | LoaderJS | LoaderTS | LoaderCSS

  /** api.Message with an optional Location.File. */
  datatype Message = Message(text: string, file: Option<string>)

  /** api.OnLoadResult; the contents type is a parameter so that the synthesized entry module
      can be given as statements rather than text. */
  datatype LoadResult<C> = LoadResult(
    contents: Option<C>,
    loader: Loader,
    resolveDir: string,
    pluginData: PluginData,
    errors: seq<Message>,
    warnings: seq<Message>)

  /** api.OnLoadResult{} */
  function NoLoad<C>(): LoadResult<C>
  {
    LoadResult(None, LoaderDefault, "", None, [], [])
  }

  /** An OnLoadResult carrying one error message located at `file`. */
  function LoadError<C>(text: string, file: string): (r: LoadResult<C>)
    ensures r.errors == [Message(text, Some(file))] && r.contents.None?
  {
    NoLoad<C>().(errors := [Message(text, Some(file))])
  }

  /** A callback's `(result, error)` return pair. */
  datatype Handled<R> = Handled(result: R, err: Option<Error>)

  /** api.BuildResult: the paths of the output files, in order, and the metafile text. */
  datatype BuildResult = BuildResult(outputFiles: seq<string>, metafile: string)

  /** html.Attribute and html.Node (element and text nodes; the document node is an element
      whose tag is empty). */
  datatype Attr = Attr(key: string, val: string)
  datatype Node =
    | Element(tag: string, attrs: seq<Attr>, children: seq<Node>)
    | TextNode(data: string)

  /** What opening the source HTML file, converting it to UTF-8 and parsing it gives. */
  datatype HtmlSource = OpenFailed(error: Error) | ReadFailed(error: Error) | Parsed(doc: Node)

  /** The collaborators whose behaviour the model takes as given. */
  datatype Host = Host(
    xxhash: string -> uint64,                 // xxhash.Sum64String
    decodeJson: string -> Result<Json>,       // json.Unmarshal into interface{}
    marshalJson: Json -> Result<string>,      // json.Marshal
    base64: string -> string,                 // base64.StdEncoding.EncodeToString
    formatValue: Json -> string,              // fmt's %v
    urlParses: string -> bool,                // whether url.Parse(path) succeeds
    queryGet: (string, string) -> string,     // url.Parse(path).Query().Get(key)
    readFile: string -> Result<string>,       // os.ReadFile, as a snapshot of the file system
    readHtml: string -> HtmlSource,           // os.Open + detectAndConvertToUTF8 + htmlquery.Parse
    xpathSelects: (string, Node) -> bool,     // whether htmlquery.Find(doc, xpath) returns the node
    clean: string -> string,                  // filepath.Clean
    abs: string -> string,                    // filepath.Abs, error ignored
    dir: string -> string,                    // filepath.Dir
    rel: (string, string) -> Option<string>,  // filepath.Rel; None is an error
    executableDir: string)                    // filepath.Abs(filepath.Dir(os.Executable()))
}

/** The lexical parts of path/filepath on a POSIX host. */
module Paths {
  import opened Common

  /** filepath.IsAbs */
  predicate IsAbs(p: string)
  {
    |p| > 0 && p[0] == '/'
  }

  /** filepath.Join of two elements: the non-empty ones joined by '/', then cleaned. */
  function Join(clean: string -> string, a: string, b: string): (r: string)
    ensures a == "" && b == "" ==> r == ""
    ensures a != "" && b != "" ==> r == clean(a + "/" + b)
  {
    if a == "" && b == "" then ""
    else if a == "" then clean(b)
    else if b == "" then clean(a)
    else clean(a + "/" + b)
  }

  /** A path made absolute against a directory, as the resolve handlers do: kept when
      already absolute, otherwise joined onto the directory and cleaned. */
  function Absolutize(clean: string -> string, dir: string, path: string): (r: string)
    ensures IsAbs(path) ==> r == path
    ensures !IsAbs(path) && dir != "" && path != "" ==> r == clean(clean(dir + "/" + path))
  {
    if IsAbs(path) then path else clean(Join(clean, dir, path))
  }

  /** With an absolute directory and a Clean that keeps paths absolute, the result is absolute. */
  lemma AbsolutizeIsAbs(clean: string -> string, dir: string, path: string)
    requires forall s :: IsAbs(s) ==> IsAbs(clean(s))
    requires IsAbs(dir)
    ensures IsAbs(Absolutize(clean, dir, path))
  {
    if !IsAbs(path) {
      if path == "" {
        assert IsAbs(Join(clean, dir, path));
      } else {
        assert IsAbs(dir + "/" + path);
      }
    }
  }

  /** Index just past the last '/' in `p[..end]`, or 0. */
  function AfterLastSlash(p: string, end: nat): (i: nat)
    requires end <= |p|
    ensures i <= end
    ensures forall j :: i <= j < end ==> p[j] != '/'
    ensures i > 0 ==> p[i - 1] == '/'
  {
    if end == 0 then 0 else if p[end - 1] == '/' then end else AfterLastSlash(p, end - 1)
  }

  /** Length of `p` once its trailing slashes are removed. */
  function TrimmedLength(p: string): (n: nat)
    ensures n <= |p|
    ensures forall j :: n <= j < |p| ==> p[j] == '/'
    ensures n > 0 ==> p[n - 1] != '/'
  {
    if |p| == 0 || p[|p| - 1] != '/' then |p| else TrimmedLength(p[..|p| - 1])
  }

  /** filepath.Base */
  function Base(p: string): (r: string)
    ensures p == "" ==> r == "."
    ensures r != "/" ==> |r| > 0 && forall j :: 0 <= j < |r| ==> r[j] != '/'
    ensures r == "/" <==> p != "" && forall j :: 0 <= j < |p| ==> p[j] == '/'
    ensures p != "" && r != "/" ==> exists k :: LastElementAt(p, r, k)
  {
    if p == "" then "."
    else
      var n := TrimmedLength(p);
      if n == 0 then "/"
      else
        var i := AfterLastSlash(p, n);
        assert LastElementAt(p, p[i..n], i);
        p[i..n]
  }

  /** `r` sits in `p` at `k`, right after a '/' or the start, with only slashes after it. */
  predicate LastElementAt(p: string, r: string, k: nat)
  {
    k + |r| <= |p| && p[k..k + |r|] == r && (k == 0 || p[k - 1] == '/') &&
    forall j :: k + |r| <= j < |p| ==> p[j] == '/'
  }

  /** filepath.Ext: the suffix from the last '.' of the final element, or "". */
  function Ext(p: string): (r: string)
    ensures r == "" || (r[0] == '.' && forall j :: 0 < j < |r| ==> r[j] != '.' && r[j] != '/')
    ensures |r| <= |p| && r == p[|p| - |r|..]
    ensures r == "" ==> forall j :: AfterLastSlash(p, |p|) <= j < |p| ==> p[j] != '.'
  {
    ExtFrom(p, |p|)
  }

  function ExtFrom(p: string, end: nat): (r: string)
    requires end <= |p|
    requires forall j :: end <= j < |p| ==> p[j] != '.' && p[j] != '/'
    ensures r == "" || (r[0] == '.' && forall j :: 0 < j < |r| ==> r[j] != '.' && r[j] != '/')
    ensures |r| <= |p| && r == p[|p| - |r|..]
    ensures r == "" ==> forall j :: AfterLastSlash(p, end) <= j < end ==> p[j] != '.'
  {
    if end == 0 || p[end - 1] == '/' then ""
    else if p[end - 1] == '.' then p[end - 1..]
    else ExtFrom(p, end - 1)
  }
}
