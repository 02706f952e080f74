/** TypeScript path aliases (pathalias.go): reading `compilerOptions.paths` from the inline or
    on-disk tsconfig, and rewriting an import path with the first alias that matches, visited
    in Go's unspecified map order.

    The source builds, per alias, the regular expression `^<alias>$` (exact alias) or
    `^<alias without '*'>(.*)` (wildcard alias) and calls ReplaceAllString with the target,
    whose trailing character is replaced by `$1` for a wildcard. The model states the same
    thing without regular expressions: a match is a prefix or equality test, and the
    replacement is Go's template expansion (`$$`, `$n`, `${n}`, `$name`) over the groups. */
module PathAlias {
  import opened Common
  import opened Api
  import opened Strconv
  import Paths

  // ---------------------------------------------------------------- tsconfig

  /** The message encoding/json gives when the top-level value is not an object. */
  function UnmarshalTypeError(v: Json): string
  {
    var kind := match v
      case JBool(_) => "bool"
      case JNum(_) => "number"
      case JStr(_) => "string"
      case JArr(_) => "array"
      case _ => "object";
    "json: cannot unmarshal " + kind + " into Go value of type map[string]interface {}"
  }

  /** Decoding into a `map[string]interface{}`: null leaves the map nil (read as empty),
      any other non-object is an error. */
  function AsConfig(decoded: Result<Json>): (r: Result<map<string, Json>>)
    ensures decoded.Err? ==> r == Err(decoded.error)
    ensures decoded.Ok? && decoded.value.JObj? ==> r == Ok(decoded.value.fields)
    ensures decoded == Ok(JNull) ==> r == Ok(map[])
    ensures decoded.Ok? && !decoded.value.JObj? && decoded.value != JNull ==> r.Err?
  {
    match decoded
    case Err(e) => Err(e)
    case Ok(JObj(m)) => Ok(m)
    case Ok(JNull) => Ok(map[])
    case Ok(v) => Err(Failure(UnmarshalTypeError(v)))
  }

  /** The tsconfig in effect and the directory its relative paths are resolved against:
      TsconfigRaw wins (against AbsWorkingDir, else the executable's directory), then the
      Tsconfig file (against its own directory), else no configuration at all. */
  function TsconfigSource(b: BuildOptions, host: Host): (r: Result<(map<string, Json>, string)>)
    ensures b.tsconfigRaw != "" && r.Ok? ==>
              r.value.1 == (if b.absWorkingDir != "" then b.absWorkingDir else host.executableDir)
    ensures b.tsconfigRaw == "" && b.tsconfig != "" && r.Ok? ==> r.value.1 == host.abs(host.dir(b.tsconfig))
    ensures b.tsconfigRaw == "" && b.tsconfig != "" && host.readFile(b.tsconfig).Err? ==> r == Err(host.readFile(b.tsconfig).error)
    ensures b.tsconfigRaw == "" && b.tsconfig == "" ==> r == Ok((map[], ""))
    ensures b.tsconfigRaw != "" ==>
              var cfg := AsConfig(host.decodeJson(b.tsconfigRaw));
              && (r.Err? <==> cfg.Err?)
              && (r.Err? ==> r.error == cfg.error)
              && (r.Ok? ==> r.value.0 == cfg.value)
    ensures b.tsconfigRaw == "" && b.tsconfig != "" && host.readFile(b.tsconfig).Ok? ==>
              var cfg := AsConfig(host.decodeJson(host.readFile(b.tsconfig).value));
              && (r.Err? <==> cfg.Err?)
              && (r.Err? ==> r.error == cfg.error)
              && (r.Ok? ==> r.value.0 == cfg.value)
  {
    if b.tsconfigRaw != "" then
      var cfg :- AsConfig(host.decodeJson(b.tsconfigRaw));
      Ok((cfg, if b.absWorkingDir != "" then b.absWorkingDir else host.executableDir))
    else if b.tsconfig != "" then
      var text :- host.readFile(b.tsconfig);
      var cfg :- AsConfig(host.decodeJson(text));
      Ok((cfg, host.abs(host.dir(b.tsconfig))))
    else
      Ok((map[], ""))
  }

  /** The first mapping of an alias, when the mappings are a non-empty array whose first
      element is a string. */
  function FirstMapping(v: Json): (r: Option<string>)
    ensures r.Some? <==> v.JArr? && |v.items| > 0 && v.items[0].JStr?
    ensures r.Some? ==> r.value == v.items[0].s
  {
    if v.JArr? && |v.items| > 0 && v.items[0].JStr? then Some(v.items[0].s) else None
  }

  /** `compilerOptions.paths` as an object, or empty when either level is missing or not an object. */
  function PathsOf(cfg: map<string, Json>): (r: map<string, Json>)
    ensures Get(cfg, "compilerOptions").JObj? && Get(Get(cfg, "compilerOptions").fields, "paths").JObj? ==>
              r == Get(Get(cfg, "compilerOptions").fields, "paths").fields
    ensures !Get(cfg, "compilerOptions").JObj? ==> r == map[]
    ensures Get(cfg, "compilerOptions").JObj? && !Get(Get(cfg, "compilerOptions").fields, "paths").JObj? ==> r == map[]
  {
    match Get(cfg, "compilerOptions")
    case JObj(co) =>
      (match Get(co, "paths")
       case JObj(paths) => paths
       case _ => map[])
    case _ => map[]
  }

  /** The alias table: every alias whose first mapping is a string, joined onto `dir`. */
  function AliasTable(paths: map<string, Json>, dir: string, clean: string -> string): (r: map<string, string>)
    ensures forall a :: a in r <==> a in paths && FirstMapping(paths[a]).Some?
    ensures forall a :: a in r ==> r[a] == Paths.Join(clean, dir, FirstMapping(paths[a]).value)
  {
    map a | a in paths && FirstMapping(paths[a]).Some? :: Paths.Join(clean, dir, FirstMapping(paths[a]).value)
  }

  /** parseTsconfigPathAlias */
  function ParseTsconfigPathAlias(b: BuildOptions, host: Host): (r: Result<map<string, string>>)
    ensures TsconfigSource(b, host).Err? ==> r == Err(TsconfigSource(b, host).error)
    ensures TsconfigSource(b, host).Ok? ==> r.Ok?
    ensures r.Ok? ==> forall a :: a in r.value ==>
              var (cfg, dir) := TsconfigSource(b, host).value;
              a in PathsOf(cfg) && FirstMapping(PathsOf(cfg)[a]).Some? &&
              r.value[a] == Paths.Join(host.clean, dir, FirstMapping(PathsOf(cfg)[a]).value)
    ensures r.Ok? ==>
              var cfg := TsconfigSource(b, host).value.0;
              forall a :: a in PathsOf(cfg) && FirstMapping(PathsOf(cfg)[a]).Some? ==> a in r.value
  {
    var (cfg, dir) :- TsconfigSource(b, host);
    Ok(AliasTable(PathsOf(cfg), dir, host.clean))
  }

  /** Without any tsconfig there are no aliases. */
  lemma NoTsconfigNoAliases(b: BuildOptions, host: Host)
    requires b.tsconfigRaw == "" && b.tsconfig == ""
    ensures ParseTsconfigPathAlias(b, host) == Ok(map[])
  {
  }

  /** An inline tsconfig takes precedence: the Tsconfig path and the file system are never consulted. */
  lemma RawTsconfigWins(b: BuildOptions, host: Host, file: string, files: string -> Result<string>)
    requires b.tsconfigRaw != ""
    ensures ParseTsconfigPathAlias(b.(tsconfig := file), host.(readFile := files)) == ParseTsconfigPathAlias(b, host)
  {
  }

  /** An inline tsconfig declaring `alias` with a string as its first mapping yields that
      alias, joined onto the working directory. */
  lemma RawTsconfigAlias(b: BuildOptions, host: Host, paths: map<string, Json>, alias: string, target: string, rest: seq<Json>)
    requires b.tsconfigRaw != "" && b.absWorkingDir != ""
    requires host.decodeJson(b.tsconfigRaw) == Ok(JObj(map["compilerOptions" := JObj(map["paths" := JObj(paths)])]))
    requires alias in paths && paths[alias] == JArr([JStr(target)] + rest)
    ensures ParseTsconfigPathAlias(b, host).Ok?
    ensures alias in ParseTsconfigPathAlias(b, host).value
    ensures ParseTsconfigPathAlias(b, host).value[alias] == Paths.Join(host.clean, b.absWorkingDir, target)
  {
    var cfg := map["compilerOptions" := JObj(map["paths" := JObj(paths)])];
    assert TsconfigSource(b, host) == Ok((cfg, b.absWorkingDir));
    assert PathsOf(cfg) == paths;
    AliasTableKeepsStringMappings(paths, b.absWorkingDir, host.clean, alias, target, rest);
  }

  /** A tsconfig that is not valid JSON, or not an object, is an error. */
  lemma InvalidTsconfigFails(b: BuildOptions, host: Host)
    requires b.tsconfigRaw != ""
    requires host.decodeJson(b.tsconfigRaw).Err? || (host.decodeJson(b.tsconfigRaw).Ok? && host.decodeJson(b.tsconfigRaw).value.JArr?)
    ensures ParseTsconfigPathAlias(b, host).Err?
  {
  }

  /** An alias whose mappings are not an array starting with a string is dropped, while
      every other alias is kept. */
  lemma AliasTableKeepsStringMappings(paths: map<string, Json>, dir: string, clean: string -> string, a: string, target: string, rest: seq<Json>)
    requires a in paths && paths[a] == JArr([JStr(target)] + rest)
    ensures a in AliasTable(paths, dir, clean)
    ensures AliasTable(paths, dir, clean)[a] == Paths.Join(clean, dir, target)
  {
  }

  // ---------------------------------------------------------------- matching

  predicate IsWildcard(alias: string)
  {
    |alias| > 0 && alias[|alias| - 1] == '*'
  }

  /** The literal part of a wildcard alias. */
  function Stem(alias: string): (r: string)
    requires IsWildcard(alias)
    ensures alias == r + "*"
  {
    alias[..|alias| - 1]
  }

  /** MatchString of the alias's expression: `^stem(.*)` matches every path that starts with
      the stem, since `(.*)` may match nothing; `^alias$` matches the alias itself only. */
  function Matches(alias: string, path: string): (r: bool)
    ensures IsWildcard(alias) ==> (r <==> |alias| - 1 <= |path| && forall j :: 0 <= j < |alias| - 1 ==> path[j] == alias[j])
    ensures !IsWildcard(alias) ==> (r <==> path == alias)
  {
    if IsWildcard(alias) then
      assert HasPrefix(path, Stem(alias)) <==> |alias| - 1 <= |path| && path[..|alias| - 1] == alias[..|alias| - 1];
      HasPrefix(path, Stem(alias))
    else path == alias
  }

  /** A wildcard alias with an empty target: `realPath[:len(realPath)-1]` panics on it. */
  predicate Broken(alias: string, target: string)
  {
    IsWildcard(alias) && target == ""
  }

  const SliceSite: string := "runtime error: slice bounds out of range [:-1]"

  /** End of the text `(.*)` can match from `start`: `.` stops at the first newline. */
  function LineEnd(path: string, start: nat): (e: nat)
    requires start <= |path|
    ensures start <= e <= |path|
    ensures forall j :: start <= j < e ==> path[j] != '\n'
    ensures e < |path| ==> path[e] == '\n'
    decreases |path| - start
  {
    if start == |path| || path[start] == '\n' then start else LineEnd(path, start + 1)
  }

  /** Where the match ends in `path`. */
  function MatchEnd(alias: string, path: string): (e: nat)
    requires Matches(alias, path)
    ensures e <= |path|
  {
    if IsWildcard(alias) then LineEnd(path, |Stem(alias)|) else |path|
  }

  /** The groups of the match: group 0 is the whole match, group 1 the wildcard's capture. */
  function Groups(alias: string, path: string): (g: seq<string>)
    requires Matches(alias, path)
    ensures |g| == if IsWildcard(alias) then 2 else 1
    ensures g[0] == path[..MatchEnd(alias, path)]
    ensures IsWildcard(alias) ==> g[1] == path[|Stem(alias)|..MatchEnd(alias, path)]
  {
    var e := MatchEnd(alias, path);
    if IsWildcard(alias) then [path[..e], path[|Stem(alias)|..e]] else [path]
  }

  /** The replacement template: a wildcard target loses its last character to `$1`. */
  function Template(alias: string, target: string): string
    requires !Broken(alias, target)
  {
    if IsWildcard(alias) then target[..|target| - 1] + "$1" else target
  }

  // ---------------------------------------------------------------- template expansion

  /** The characters of a group name: unicode.IsLetter, unicode.IsDigit or '_', restricted to ASCII. */
  predicate IsNameChar(c: char)
  {
    'a' <= c <= 'z' || 'A' <= c <= 'Z' || '0' <= c <= '9' || c == '_'
  }

  function NameRun(s: string): (k: nat)
    ensures k <= |s|
    ensures forall j :: 0 <= j < k ==> IsNameChar(s[j])
    ensures k < |s| ==> !IsNameChar(s[k])
  {
    if |s| == 0 || !IsNameChar(s[0]) then 0 else 1 + NameRun(s[1..])
  }

  /** Go's `extract`: after a '$', a name or a braced name; the number of characters it
      consumes is returned with it. None means the '$' is copied as it stands. */
  function Extract(s: string): (r: Option<(string, nat)>)
    ensures r.Some? ==> 0 < r.value.1 <= |s| && |r.value.0| > 0
  {
    if |s| == 0 then None
    else if s[0] == '{' then
      var i := NameRun(s[1..]);
      if i == 0 || i + 1 >= |s| || s[i + 1] != '}' then None
      else Some((s[1..i + 1], i + 2))
    else
      var i := NameRun(s);
      if i == 0 then None else Some((s[..i], i))
  }

  /** The text a `$name` stands for: a group number without leading zeros selects that
      group; any other name selects nothing, since these expressions have no named groups. */
  function GroupText(name: string, groups: seq<string>): string
  {
    if |name| > 0 && AllDigits(name) && (name[0] != '0' || |name| == 1) && DecimalValue(name) < |groups|
    then groups[DecimalValue(name)]
    else ""
  }

  /** regexp.Expand of a template over the groups of one match. */
  function Expand(t: string, groups: seq<string>): (r: string)
    decreases |t|
    ensures NoDollar(t) ==> r == t
  {
    if |t| == 0 then ""
    else if t[0] != '$' then
      assert NoDollar(t) ==> NoDollar(t[1..]);
      [t[0]] + Expand(t[1..], groups)
    else if |t| >= 2 && t[1] == '$' then "$" + Expand(t[2..], groups)
    else
      match Extract(t[1..])
      case None => "$" + Expand(t[1..], groups)
      case Some((name, used)) => GroupText(name, groups) + Expand(t[1 + used..], groups)
  }

  predicate NoDollar(s: string)
  {
    forall j :: 0 <= j < |s| ==> s[j] != '$'
  }

  /** A character other than '$' is copied. */
  lemma ExpandFirst(t: string, groups: seq<string>)
    requires |t| > 0 && t[0] != '$'
    ensures Expand(t, groups) == [t[0]] + Expand(t[1..], groups)
  {
  }

  /** Text without '$' expands to itself, in front of whatever follows it. */
  lemma {:induction false} ExpandPlainPrefix(p: string, t: string, groups: seq<string>)
    requires NoDollar(p)
    ensures Expand(p + t, groups) == p + Expand(t, groups)
    decreases |p|
  {
    if |p| > 0 {
      assert (p + t)[0] == p[0] && (p + t)[1..] == p[1..] + t;
      assert p[0] != '$' && NoDollar(p[1..]);
      ExpandFirst(p + t, groups);
      ExpandPlainPrefix(p[1..], t, groups);
      ConcatAssoc([p[0]], p[1..], Expand(t, groups));
      assert [p[0]] + p[1..] == p;
    } else {
      assert p + t == t;
    }
  }

  lemma ExpandPlain(p: string, groups: seq<string>)
    requires NoDollar(p)
    ensures Expand(p, groups) == p
  {
    ExpandPlainPrefix(p, "", groups);
    assert p + "" == p;
  }

  /** `$1` at the end of a template is the capture. */
  lemma ExpandCapture(groups: seq<string>)
    requires |groups| >= 2
    ensures Expand("$1", groups) == groups[1]
  {
    assert "$1"[1..] == "1";
    assert NameRun("1") == 1;
    assert "1"[0] != '{' && "1"[..1] == "1";
    assert Extract("1") == Some(("1", 1));
    assert AllDigits("1") && DecimalValue("1") == 1;
    assert "$1"[2..] == "";
  }

  // ---------------------------------------------------------------- substitution

  /** ReplaceAllString for a matching alias, as written: the expanded template replaces the
      match and the text after it (from a newline on) is kept. */
  function Substitute(alias: string, target: string, path: string): (r: string)
    requires Matches(alias, path) && !Broken(alias, target)
    ensures NoDollar(target) ==> r == LiteralSubstitute(alias, target, path)
  {
    var r := Expand(Template(alias, target), Groups(alias, path)) + path[MatchEnd(alias, path)..];
    if NoDollar(target) then TemplateAgrees(alias, target, path); r else r
  }

  /** The substitution the alias table describes: the captured rest of the path replaces
      the target's last character, or the exact target replaces the path, with the target
      taken literally. */
  function LiteralSubstitute(alias: string, target: string, path: string): (r: string)
    requires Matches(alias, path) && !Broken(alias, target)
    ensures IsWildcard(alias) ==> r == target[..|target| - 1] + path[|Stem(alias)|..]
    ensures !IsWildcard(alias) ==> r == target
  {
    if IsWildcard(alias) then target[..|target| - 1] + path[|Stem(alias)|..] else target
  }

  /** For a target without '$' the expanded template, followed by the text after the match,
      is the literal substitution, newlines included. */
  lemma TemplateAgrees(alias: string, target: string, path: string)
    requires Matches(alias, path) && !Broken(alias, target)
    requires NoDollar(target)
    ensures Expand(Template(alias, target), Groups(alias, path)) + path[MatchEnd(alias, path)..]
            == LiteralSubstitute(alias, target, path)
  {
    if IsWildcard(alias) {
      WildcardSubstituteAgrees(alias, target, path);
    } else {
      ExpandPlain(target, Groups(alias, path));
      assert path[|path|..] == "";
    }
  }

  lemma WildcardSubstituteAgrees(alias: string, target: string, path: string)
    requires IsWildcard(alias) && Matches(alias, path) && !Broken(alias, target)
    requires NoDollar(target)
    ensures Expand(Template(alias, target), Groups(alias, path)) + path[MatchEnd(alias, path)..]
            == target[..|target| - 1] + path[|Stem(alias)|..]
  {
    var g := Groups(alias, path);
    var e := MatchEnd(alias, path);
    var n := |Stem(alias)|;
    var p := target[..|target| - 1];
    assert Expand(Template(alias, target), g) == p + path[n..e] by {
      assert NoDollar(p);
      ExpandPrefixCapture(p, g);
    }
    AdjacentSlices(path, n, e);
    ConcatAssoc(p, path[n..e], path[e..]);
  }

  /** Plain text followed by `$1` is the text followed by the capture. */
  lemma ExpandPrefixCapture(p: string, groups: seq<string>)
    requires NoDollar(p) && |groups| >= 2
    ensures Expand(p + "$1", groups) == p + groups[1]
  {
    ExpandPlainPrefix(p, "$1", groups);
    ExpandCapture(groups);
  }

  /** `$lib` names no group of these expressions, so it expands to nothing. */
  lemma ExpandUnknownName(groups: seq<string>)
    ensures Expand("$lib", groups) == ""
  {
    assert "$lib"[0] == '$' && "$lib"[1] != '$';
    assert "$lib"[1..] == "lib";
    assert NameRun("lib") == 3 by {
      assert "lib"[1..] == "ib" && "ib"[1..] == "b" && "b"[1..] == "";
    }
    assert Extract("lib") == Some(("lib", 3)) by {
      assert "lib"[..3] == "lib";
    }
    assert !AllDigits("lib") by {
      assert !IsDigit("lib"[0]);
    }
    assert GroupText("lib", groups) == "";
    assert "$lib"[4..] == "";
  }

  /** A target containing '$' is not taken literally: the alias `@lib` for `/p/$lib`
      rewrites `@lib` to `/p/`, because `$lib` names a group the expression lacks. */
  lemma DollarTargetIsExpanded()
    ensures Matches("@lib", "@lib") && !Broken("@lib", "/p/$lib")
    ensures Substitute("@lib", "/p/$lib", "@lib") == "/p/"
    ensures LiteralSubstitute("@lib", "/p/$lib", "@lib") == "/p/$lib"
  {
    var g := Groups("@lib", "@lib");
    assert "/p/$lib" == "/p/" + "$lib";
    ExpandPlainPrefix("/p/", "$lib", g);
    ExpandUnknownName(g);
    assert "@lib"[4..] == "";
  }

  /** Which substitution a rewrite uses. */
  datatype Replacement = AsWritten | Literal

  function Rewrite(mode: Replacement, alias: string, target: string, path: string): string
    requires Matches(alias, path) && !Broken(alias, target)
  {
    match mode
    case AsWritten => Substitute(alias, target, path)
    case Literal => LiteralSubstitute(alias, target, path)
  }

  // ---------------------------------------------------------------- applyPathAlias

  /** The results applyPathAlias may give, over every visiting order of the aliases: a
      rewrite by some matching alias, the path itself when no alias matches, or the panic of
      a broken alias; a broken alias is visited before any verdict on itself. */
  ghost predicate Outcome(mode: Replacement, aliases: map<string, string>, path: string, r: Result<string>)
  {
    match r
    case Err(e) => e == Panic(SliceSite) && exists a :: a in aliases && Broken(a, aliases[a])
    case Ok(p) =>
      || (exists a :: a in aliases && Matches(a, path) && !Broken(a, aliases[a]) && p == Rewrite(mode, a, aliases[a], path))
      || (p == path && forall a :: a in aliases ==> !Matches(a, path) && !Broken(a, aliases[a]))
  }

  /** applyPathAlias: the aliases are tried in an order the program does not control; the first
      that matches rewrites the path. */
  method ApplyPathAlias(mode: Replacement, aliases: map<string, string>, path: string) returns (r: Result<string>)
    ensures Outcome(mode, aliases, path, r)
    ensures (forall a :: a in aliases ==> !Broken(a, aliases[a])) ==> r.Ok?
    ensures (forall a :: a in aliases ==> !Matches(a, path)) ==> r.Err? || r == Ok(path)
  {
    var rest := aliases.Keys;
    while rest != {}
      invariant rest <= aliases.Keys
      invariant forall a :: a in aliases && a !in rest ==> !Matches(a, path) && !Broken(a, aliases[a])
      decreases |rest|
    {
      var a :| a in rest;
      if Broken(a, aliases[a]) {
        return Err(Panic(SliceSite));
      }
      if Matches(a, path) {
        return Ok(Rewrite(mode, a, aliases[a], path));
      }
      rest := rest - {a};
    }
    return Ok(path);
  }

  /** With no broken alias and at most one alias matching, the visiting order cannot matter. */
  lemma OutcomeDeterministic(mode: Replacement, aliases: map<string, string>, path: string, r1: Result<string>, r2: Result<string>)
    requires forall a :: a in aliases ==> !Broken(a, aliases[a])
    requires forall a, b :: a in aliases && b in aliases && Matches(a, path) && Matches(b, path) ==> a == b
    requires Outcome(mode, aliases, path, r1) && Outcome(mode, aliases, path, r2)
    ensures r1 == r2
  {
  }

  /** A matched wildcard alias with a '$'-free target puts the rest of the import path in place of the '*'. */
  lemma WildcardRewrite(mode: Replacement, aliases: map<string, string>, alias: string, path: string, r: Result<string>)
    requires forall a :: a in aliases ==> !Broken(a, aliases[a])
    requires alias in aliases && IsWildcard(alias) && Matches(alias, path) && NoDollar(aliases[alias])
    requires forall a :: a in aliases && Matches(a, path) ==> a == alias
    requires Outcome(mode, aliases, path, r)
    ensures r == Ok(aliases[alias][..|aliases[alias]| - 1] + path[|Stem(alias)|..])
  {
  }
}
