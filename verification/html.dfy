/** The index page (html.go): the default HTML processor, which injects a `<script>` or
    `<link>` tag into `<head>` for every JavaScript or CSS output of an entry point and then
    removes the nodes the configured XPath expressions select, and the end-of-build hook that
    reads the source page, runs the processor chain and hands the result to the writer. */
module Html {
  import opened Common
  import opened Api
  import opened Options
  import opened Chains
  import Paths

  /** Builds the attributes of an injected tag from the absolute output path and the
      absolute path of the page being written. */
  type AttrBuilder = (string, string) -> seq<Attr>

  /** HtmlProcessorOptions; a missing builder means the default one. */
  datatype HtmlProcessorOptions = HtmlProcessorOptions(scriptAttrBuilder: Option<AttrBuilder>, cssAttrBuilder: Option<AttrBuilder>)

  // ---------------------------------------------------------------- default tag attributes

  /** The URL of an asset as seen from the page: the path relative to the page's directory,
      or the absolute path when that cannot be computed. */
  function AssetUrl(host: Host, filename: string, htmlFile: string): string
  {
    match host.rel(host.dir(htmlFile), filename)
    case Some(p) => if p != "" then p else filename
    case None => filename
  }

  function DefaultScriptAttrs(host: Host): AttrBuilder
  {
    (filename: string, htmlFile: string) =>
      [Attr("crossorigin", ""), Attr("type", "module"), Attr("src", AssetUrl(host, filename, htmlFile))]
  }

  function DefaultCssAttrs(host: Host): AttrBuilder
  {
    (filename: string, htmlFile: string) =>
      [Attr("crossorigin", ""), Attr("rel", "stylesheet"), Attr("href", AssetUrl(host, filename, htmlFile))]
  }

  /** The builders in effect: the configured ones, else the defaults. */
  datatype Builders = Builders(script: AttrBuilder, css: AttrBuilder)

  function BuildersOf(host: Host, o: HtmlProcessorOptions): Builders
  {
    Builders(
      if o.scriptAttrBuilder.Some? then o.scriptAttrBuilder.value else DefaultScriptAttrs(host),
      if o.cssAttrBuilder.Some? then o.cssAttrBuilder.value else DefaultCssAttrs(host))
  }

  // ---------------------------------------------------------------- which outputs are injected

  /** An entry point's file name without its extension. */
  function EntryStem(entryPoint: string): string
  {
    var base := Paths.Base(entryPoint);
    TrimSuffix(base, Paths.Ext(base))
  }

  /** The output comes from an entry point: its file name starts with some entry point's stem. */
  ghost predicate FromEntryPoint(entryPoints: seq<string>, outputFile: string)
  {
    exists i :: 0 <= i < |entryPoints| && HasPrefix(Paths.Base(outputFile), EntryStem(entryPoints[i]))
  }

  /** The scan over the entry points that stops at the first match. */
  function ShouldInclude(entryPoints: seq<string>, outputFile: string): (r: bool)
    ensures r <==> FromEntryPoint(entryPoints, outputFile)
  {
    if |entryPoints| == 0 then false
    else if HasPrefix(Paths.Base(outputFile), EntryStem(entryPoints[0])) then true
    else
      FromEntryPointTail(entryPoints, outputFile);
      ShouldInclude(entryPoints[1..], outputFile)
  }

  /** Past a first entry point that does not match, the output comes from the remaining ones. */
  lemma FromEntryPointTail(entryPoints: seq<string>, outputFile: string)
    requires |entryPoints| > 0 && !HasPrefix(Paths.Base(outputFile), EntryStem(entryPoints[0]))
    ensures FromEntryPoint(entryPoints, outputFile) <==> FromEntryPoint(entryPoints[1..], outputFile)
  {
    var prefix := Paths.Base(outputFile);
    if FromEntryPoint(entryPoints[1..], outputFile) {
      var i :| 0 <= i < |entryPoints[1..]| && HasPrefix(prefix, EntryStem(entryPoints[1..][i]));
      assert entryPoints[1..][i] == entryPoints[i + 1];
    }
    if FromEntryPoint(entryPoints, outputFile) {
      var i :| 0 <= i < |entryPoints| && HasPrefix(prefix, EntryStem(entryPoints[i]));
      assert entryPoints[1..][i - 1] == entryPoints[i];
    }
  }

  /** The output gets a tag: it comes from an entry point and is JavaScript or CSS. */
  predicate Injects(entryPoints: seq<string>, outputFile: string)
  {
    ShouldInclude(entryPoints, outputFile) && (Paths.Ext(outputFile) == ".js" || Paths.Ext(outputFile) == ".css")
  }

  /** The nodes one absolute output path contributes to `<head>`. */
  function AssetTags(b: Builders, entryPoints: seq<string>, outputFile: string, htmlFile: string): (r: seq<Node>)
    ensures |r| == 0 || |r| == 2
    ensures r == [] <==> !Injects(entryPoints, outputFile)
  {
    if !ShouldInclude(entryPoints, outputFile) then []
    else if Paths.Ext(outputFile) == ".js" then [Element("script", b.script(outputFile, htmlFile), []), TextNode("\n")]
    else if Paths.Ext(outputFile) == ".css" then [Element("link", b.css(outputFile, htmlFile), []), TextNode("\n")]
    else []
  }

  /** The nodes appended to `<head>`, in the order of the build's output files. */
  function HeadAdditions(host: Host, b: Builders, entryPoints: seq<string>, outputs: seq<string>, htmlFile: string): (r: seq<Node>)
    ensures |r| <= 2 * |outputs|
    ensures r == [] <==> forall i :: 0 <= i < |outputs| ==> !Injects(entryPoints, host.abs(outputs[i]))
  {
    if |outputs| == 0 then []
    else
      var rest := HeadAdditions(host, b, entryPoints, outputs[1..], htmlFile);
      assert forall i :: 0 < i < |outputs| ==> outputs[i] == outputs[1..][i - 1];
      AssetTags(b, entryPoints, host.abs(outputs[0]), htmlFile) + rest
  }

  /** The tags of `a + b` are those of `a` followed by those of `b`. */
  lemma {:induction false} HeadAdditionsAppend(host: Host, b: Builders, entryPoints: seq<string>, xs: seq<string>, ys: seq<string>, htmlFile: string)
    ensures HeadAdditions(host, b, entryPoints, xs + ys, htmlFile) ==
            HeadAdditions(host, b, entryPoints, xs, htmlFile) + HeadAdditions(host, b, entryPoints, ys, htmlFile)
  {
    if |xs| == 0 {
      assert xs + ys == ys;
    } else {
      var t := AssetTags(b, entryPoints, host.abs(xs[0]), htmlFile);
      assert (xs + ys)[0] == xs[0];
      assert (xs + ys)[1..] == xs[1..] + ys;
      HeadAdditionsCons(host, b, entryPoints, xs + ys, htmlFile);
      HeadAdditionsCons(host, b, entryPoints, xs, htmlFile);
      HeadAdditionsAppend(host, b, entryPoints, xs[1..], ys, htmlFile);
      ConcatAssoc(t, HeadAdditions(host, b, entryPoints, xs[1..], htmlFile), HeadAdditions(host, b, entryPoints, ys, htmlFile));
    }
  }

  lemma HeadAdditionsCons(host: Host, b: Builders, entryPoints: seq<string>, xs: seq<string>, htmlFile: string)
    requires |xs| > 0
    ensures HeadAdditions(host, b, entryPoints, xs, htmlFile) ==
            AssetTags(b, entryPoints, host.abs(xs[0]), htmlFile) + HeadAdditions(host, b, entryPoints, xs[1..], htmlFile)
  {
  }


  /** One JavaScript output of an entry point becomes a script element (with the script
      builder's attributes) and a newline; a CSS output a link element and a newline. */
  lemma InjectedOutput(host: Host, b: Builders, entryPoints: seq<string>, before: seq<string>, out: string, after: seq<string>, htmlFile: string)
    requires Injects(entryPoints, host.abs(out))
    ensures var f := host.abs(out);
            var tag := if Paths.Ext(f) == ".js" then Element("script", b.script(f, htmlFile), [])
                       else Element("link", b.css(f, htmlFile), []);
            HeadAdditions(host, b, entryPoints, before + [out] + after, htmlFile) ==
            HeadAdditions(host, b, entryPoints, before, htmlFile) + [tag, TextNode("\n")] + HeadAdditions(host, b, entryPoints, after, htmlFile)
  {
    var f := host.abs(out);
    HeadAdditionsAppend(host, b, entryPoints, before + [out], after, htmlFile);
    HeadAdditionsAppend(host, b, entryPoints, before, [out], htmlFile);
    assert HeadAdditions(host, b, entryPoints, [out], htmlFile) == AssetTags(b, entryPoints, f, htmlFile) by {
      assert [out][0] == out && [out][1..] == [];
    }
  }

  // ---------------------------------------------------------------- the head element

  /** Some element of the forest, at any depth, is `<head>`. */
  predicate HasHead(ns: seq<Node>)
    decreases ns
  {
    if |ns| == 0 then false
    else (ns[0].Element? && (ns[0].tag == "head" || HasHead(ns[0].children))) || HasHead(ns[1..])
  }

  /** Appends `kids` to the first `<head>` in document order; None when there is none. */
  function AppendToFirstHead(ns: seq<Node>, kids: seq<Node>): (r: Option<seq<Node>>)
    decreases ns
    ensures r.Some? <==> HasHead(ns)
    ensures r.Some? ==> |r.value| == |ns|
  {
    if |ns| == 0 then None
    else
      match ns[0]
      case TextNode(_) =>
        (match AppendToFirstHead(ns[1..], kids)
         case Some(rest) => Some([ns[0]] + rest)
         case None => None)
      case Element(tag, attrs, children) =>
        if tag == "head" then Some([Element(tag, attrs, children + kids)] + ns[1..])
        else
          match AppendToFirstHead(children, kids)
          case Some(cs) => Some([Element(tag, attrs, cs)] + ns[1..])
          case None =>
            match AppendToFirstHead(ns[1..], kids)
            case Some(rest) => Some([ns[0]] + rest)
            case None => None
  }

  /** Appending one batch after another is appending both at once: the per-node appends of
      the source and the single append of the model give the same tree. */
  lemma {:induction false} AppendToFirstHeadTwice(ns: seq<Node>, a: seq<Node>, b: seq<Node>)
    requires HasHead(ns)
    decreases ns
    ensures AppendToFirstHead(AppendToFirstHead(ns, a).value, b) == AppendToFirstHead(ns, a + b)
  {
    var once := AppendToFirstHead(ns, a).value;
    match ns[0]
    case TextNode(_) =>
      AppendToFirstHeadTwice(ns[1..], a, b);
      assert once[0] == ns[0] && once[1..] == AppendToFirstHead(ns[1..], a).value;
    case Element(tag, attrs, children) =>
      if tag == "head" {
        assert once[0] == Element(tag, attrs, children + a) && once[1..] == ns[1..];
        assert children + a + b == children + (a + b);
      } else if HasHead(children) {
        AppendToFirstHeadTwice(children, a, b);
        assert once[0] == Element(tag, attrs, AppendToFirstHead(children, a).value) && once[1..] == ns[1..];
      } else {
        AppendToFirstHeadTwice(ns[1..], a, b);
        assert once[0] == ns[0] && once[1..] == AppendToFirstHead(ns[1..], a).value;
      }
  }

  /** Appending nothing leaves the forest as it was. */
  lemma {:induction false} AppendNothing(ns: seq<Node>)
    requires HasHead(ns)
    decreases ns
    ensures AppendToFirstHead(ns, []) == Some(ns)
  {
    match ns[0]
    case TextNode(_) =>
      AppendNothing(ns[1..]);
      assert [ns[0]] + ns[1..] == ns;
    case Element(tag, attrs, children) =>
      assert [ns[0]] + ns[1..] == ns;
      if tag == "head" {
        assert children + [] == children;
      } else if HasHead(children) {
        AppendNothing(children);
      } else {
        AppendNothing(ns[1..]);
      }
  }

  /** The first `<head>` in document order, searched depth-first. */
  function FirstHead(ns: seq<Node>): (r: Option<Node>)
    decreases ns
    ensures r.Some? <==> HasHead(ns)
    ensures r.Some? ==> r.value.Element? && r.value.tag == "head"
  {
    if |ns| == 0 then None
    else if ns[0].Element? && ns[0].tag == "head" then Some(ns[0])
    else if ns[0].Element? && FirstHead(ns[0].children).Some? then FirstHead(ns[0].children)
    else FirstHead(ns[1..])
  }

  /** The appended nodes become the last children of the first `<head>`, which keeps its
      attributes and its earlier children. */
  lemma {:induction false} AppendLandsInHead(ns: seq<Node>, kids: seq<Node>)
    requires HasHead(ns)
    decreases ns
    ensures var h := FirstHead(ns).value;
      FirstHead(AppendToFirstHead(ns, kids).value) == Some(Element("head", h.attrs, h.children + kids))
  {
    var r := AppendToFirstHead(ns, kids).value;
    match ns[0]
    case TextNode(_) =>
      AppendLandsInHead(ns[1..], kids);
      assert r[0] == ns[0] && r[1..] == AppendToFirstHead(ns[1..], kids).value;
    case Element(tag, attrs, children) =>
      if tag == "head" {
        assert r[0] == Element(tag, attrs, children + kids);
      } else if HasHead(children) {
        AppendLandsInHead(children, kids);
        assert r[0] == Element(tag, attrs, AppendToFirstHead(children, kids).value);
      } else {
        AppendLandsInHead(ns[1..], kids);
        assert r[0] == ns[0] && r[1..] == AppendToFirstHead(ns[1..], kids).value;
      }
  }

  /** Removes the last `n` children of the first `<head>`, leaving every other node as it is. */
  function DropFromFirstHead(ns: seq<Node>, n: nat): seq<Node>
    decreases ns
  {
    if |ns| == 0 then []
    else
      match ns[0]
      case TextNode(_) => [ns[0]] + DropFromFirstHead(ns[1..], n)
      case Element(tag, attrs, children) =>
        if tag == "head" then [Element(tag, attrs, children[..if n <= |children| then |children| - n else 0])] + ns[1..]
        else if HasHead(children) then [Element(tag, attrs, DropFromFirstHead(children, n))] + ns[1..]
        else [ns[0]] + DropFromFirstHead(ns[1..], n)
  }

  /** Dropping what was appended gives back the original page: the append touches nothing but
      the first head's list of children. */
  lemma {:induction false} DropAfterAppend(ns: seq<Node>, kids: seq<Node>)
    requires HasHead(ns)
    decreases ns
    ensures DropFromFirstHead(AppendToFirstHead(ns, kids).value, |kids|) == ns
  {
    var r := AppendToFirstHead(ns, kids).value;
    match ns[0]
    case TextNode(_) =>
      DropAfterAppend(ns[1..], kids);
      assert r[0] == ns[0] && r[1..] == AppendToFirstHead(ns[1..], kids).value;
      assert [ns[0]] + ns[1..] == ns;
    case Element(tag, attrs, children) =>
      if tag == "head" {
        assert r[0] == Element(tag, attrs, children + kids) && r[1..] == ns[1..];
        assert (children + kids)[..|children|] == children;
        assert [ns[0]] + ns[1..] == ns;
      } else if HasHead(children) {
        var cs := AppendToFirstHead(children, kids).value;
        DropAfterAppend(children, kids);
        AppendLandsInHead(children, kids);
        assert r[0] == Element(tag, attrs, cs) && r[1..] == ns[1..];
        assert HasHead(cs);
        assert [ns[0]] + ns[1..] == ns;
      } else {
        DropAfterAppend(ns[1..], kids);
        assert r[0] == ns[0] && r[1..] == AppendToFirstHead(ns[1..], kids).value;
        assert [ns[0]] + ns[1..] == ns;
      }
  }

  // ---------------------------------------------------------------- removal by XPath

  /** Removes every node `selected` holds of, with its subtree; the selection is made on the
      nodes as they were before anything was removed. */
  function Prune(ns: seq<Node>, selected: Node -> bool): (r: seq<Node>)
    decreases ns
    ensures |r| <= |ns|
    ensures |r| == CountUnselected(ns, selected)
  {
    if |ns| == 0 then []
    else
      var kept := if selected(ns[0]) then []
                  else match ns[0]
                       case Element(tag, attrs, children) => [Element(tag, attrs, Prune(children, selected))]
                       case TextNode(_) => [ns[0]];
      kept + Prune(ns[1..], selected)
  }

  /** How many top-level nodes of the forest are not selected. */
  function CountUnselected(ns: seq<Node>, selected: Node -> bool): nat
    decreases ns
  {
    if |ns| == 0 then 0 else (if selected(ns[0]) then 0 else 1) + CountUnselected(ns[1..], selected)
  }

  /** An unselected node keeps its place, tag and attributes; only its selected descendants go. */
  lemma PruneUnselected(n: Node, selected: Node -> bool)
    requires !selected(n)
    ensures n.Element? ==> Prune([n], selected) == [Element(n.tag, n.attrs, Prune(n.children, selected))]
    ensures n.TextNode? ==> Prune([n], selected) == [n]
  {
    assert [n][0] == n && [n][1..] == [];
  }

  /** What the first node of a forest leaves behind. */
  function PruneHead(n: Node, selected: Node -> bool): seq<Node>
  {
    if selected(n) then []
    else match n
         case Element(tag, attrs, children) => [Element(tag, attrs, Prune(children, selected))]
         case TextNode(_) => [n]
  }

  lemma PruneCons(ns: seq<Node>, selected: Node -> bool)
    requires |ns| > 0
    ensures Prune(ns, selected) == PruneHead(ns[0], selected) + Prune(ns[1..], selected)
  {
  }

  /** No node of the forest, at any depth, is selected. */
  ghost predicate NoneSelected(ns: seq<Node>, selected: Node -> bool)
    decreases ns
  {
    |ns| == 0 ||
    (!selected(ns[0]) && (ns[0].Element? ==> NoneSelected(ns[0].children, selected)) && NoneSelected(ns[1..], selected))
  }

  /** Pruning a forest in which nothing is selected changes nothing. */
  lemma {:induction false} PruneNothing(ns: seq<Node>, selected: Node -> bool)
    requires NoneSelected(ns, selected)
    decreases ns
    ensures Prune(ns, selected) == ns
  {
    if |ns| > 0 {
      if ns[0].Element? {
        PruneNothing(ns[0].children, selected);
      }
      PruneNothing(ns[1..], selected);
      assert [ns[0]] + ns[1..] == ns;
    }
  }

  /** Pruning works sibling by sibling, and a selected sibling vanishes whole. */
  lemma {:induction false} PruneAppend(a: seq<Node>, b: seq<Node>, selected: Node -> bool)
    decreases a
    ensures Prune(a + b, selected) == Prune(a, selected) + Prune(b, selected)
  {
    if |a| == 0 {
      assert a + b == b;
    } else {
      assert (a + b)[0] == a[0];
      assert (a + b)[1..] == a[1..] + b;
      PruneCons(a + b, selected);
      PruneCons(a, selected);
      PruneAppend(a[1..], b, selected);
      ConcatAssoc(PruneHead(a[0], selected), Prune(a[1..], selected), Prune(b, selected));
    }
  }

  lemma PruneSelected(a: seq<Node>, n: Node, b: seq<Node>, selected: Node -> bool)
    requires selected(n)
    ensures Prune(a + [n] + b, selected) == Prune(a, selected) + Prune(b, selected)
  {
    PruneAppend(a + [n], b, selected);
    PruneAppend(a, [n], selected);
    PruneOne(n, selected);
    assert Prune(a, selected) + [] == Prune(a, selected);
  }

  lemma PruneOne(n: Node, selected: Node -> bool)
    requires selected(n)
    ensures Prune([n], selected) == []
  {
    assert [n][0] == n && [n][1..] == [];
  }

  /** The root is the document node: it has no parent and is never removed. */
  function RemoveSelected(doc: Node, selected: Node -> bool): (r: Node)
    ensures r.Element? <==> doc.Element?
    ensures r.Element? ==> r.tag == doc.tag && r.attrs == doc.attrs && r.children == Prune(doc.children, selected)
    ensures doc.TextNode? ==> r == doc
  {
    match doc
    case Element(tag, attrs, children) => Element(tag, attrs, Prune(children, selected))
    case TextNode(_) => doc
  }

  /** The nodes one XPath expression finds. */
  function Selector(selects: (string, Node) -> bool, xpath: string): Node -> bool
  {
    (n: Node) => selects(xpath, n)
  }

  /** The removal loop: one XPath expression after another, in order. */
  function RemoveTags(doc: Node, xpaths: seq<string>, selects: (string, Node) -> bool): (r: Node)
    decreases |xpaths|
    ensures xpaths == [] ==> r == doc
    ensures r.Element? <==> doc.Element?
  {
    if |xpaths| == 0 then doc
    else RemoveTags(RemoveSelected(doc, Selector(selects, xpaths[0])), xpaths[1..], selects)
  }

  /** One expression removes exactly what it finds below the document node. */
  lemma RemoveTagsOne(doc: Node, xpath: string, selects: (string, Node) -> bool)
    ensures RemoveTags(doc, [xpath], selects) == RemoveSelected(doc, Selector(selects, xpath))
  {
    assert [xpath][0] == xpath && [xpath][1..] == [];
  }

  /** The expressions apply in order, each to the page the earlier ones left. */
  lemma {:induction false} RemoveTagsAppend(doc: Node, xs: seq<string>, ys: seq<string>, selects: (string, Node) -> bool)
    decreases |xs|
    ensures RemoveTags(doc, xs + ys, selects) == RemoveTags(RemoveTags(doc, xs, selects), ys, selects)
  {
    if |xs| == 0 {
      assert xs + ys == ys;
    } else {
      assert (xs + ys)[0] == xs[0] && (xs + ys)[1..] == xs[1..] + ys;
      RemoveTagsAppend(RemoveSelected(doc, Selector(selects, xs[0])), xs[1..], ys, selects);
    }
  }

  // ---------------------------------------------------------------- the processor

  /** The page with the tags appended to its head; a document without a head receiving tags
      is the source's method call on a nil node. */
  function Inject(doc: Node, tags: seq<Node>): (r: Result<Node>)
    ensures r.Ok? && doc.Element? ==> r.value.Element? && r.value.tag == doc.tag && r.value.attrs == doc.attrs
    ensures r.Err? <==> tags != [] && !(doc.Element? && HasHead(doc.children))
    ensures r.Err? ==> r.error == Panic(NilSite)
    ensures tags == [] ==> r == Ok(doc)
    ensures r.Ok? && tags != [] ==>
              && doc.Element? && HasHead(doc.children) && r.value.Element?
              && var h := FirstHead(doc.children).value;
              && FirstHead(r.value.children) == Some(Element("head", h.attrs, h.children + tags))
              && DropFromFirstHead(r.value.children, |tags|) == doc.children
  {
    var head := if doc.Element? then AppendToFirstHead(doc.children, tags) else None;
    match head
    case Some(cs) =>
      (if tags == [] then AppendNothing(doc.children); assert cs == doc.children; Ok(doc)
       else
         AppendLandsInHead(doc.children, tags);
         DropAfterAppend(doc.children, tags);
         Ok(doc.(children := cs)))
    case None => if tags == [] then Ok(doc) else Err(Panic(NilSite))
  }

  /** What the default processor does to a page: inject, then remove. */
  function Process(host: Host, o: HtmlProcessorOptions, doc: Node, result: BuildResult, page: HtmlPage, build: BuildOptions): (r: Result<Node>)
    ensures var tags := HeadAdditions(host, BuildersOf(host, o), build.entryPoints, result.outputFiles, host.abs(page.outFile));
      && (r.Err? <==> tags != [] && !(doc.Element? && HasHead(doc.children)))
      && (r.Ok? ==> r.value == RemoveTags(Inject(doc, tags).value, page.removeTagXPaths, host.xpathSelects))
  {
    var htmlFile := host.abs(page.outFile);
    var tags := HeadAdditions(host, BuildersOf(host, o), build.entryPoints, result.outputFiles, htmlFile);
    var injected :- Inject(doc, tags);
    Ok(RemoveTags(injected, page.removeTagXPaths, host.xpathSelects))
  }

  /** Without removals, the default processor appends the tags of the qualifying outputs, in
      output order, as the last children of the page's first `<head>` and changes nothing else. */
  lemma ProcessAppendsToHead(host: Host, o: HtmlProcessorOptions, doc: Node, result: BuildResult, page: HtmlPage, build: BuildOptions)
    requires page.removeTagXPaths == []
    requires doc.Element? && HasHead(doc.children)
    ensures var tags := HeadAdditions(host, BuildersOf(host, o), build.entryPoints, result.outputFiles, host.abs(page.outFile));
      var r := Process(host, o, doc, result, page, build);
      var h := FirstHead(doc.children).value;
      && r.Ok? && r.value.Element? && r.value.tag == doc.tag && r.value.attrs == doc.attrs
      && FirstHead(r.value.children) == Some(Element("head", h.attrs, h.children + tags))
      && DropFromFirstHead(r.value.children, |tags|) == doc.children
  {
    var tags := HeadAdditions(host, BuildersOf(host, o), build.entryPoints, result.outputFiles, host.abs(page.outFile));
    if tags == [] {
      assert FirstHead(doc.children).value.children + tags == FirstHead(doc.children).value.children;
      DropNothing(doc.children);
    }
  }

  /** Dropping nothing changes nothing. */
  lemma {:induction false} DropNothing(ns: seq<Node>)
    decreases ns
    ensures DropFromFirstHead(ns, 0) == ns
    ensures HasHead(ns) ==> FirstHead(ns) == Some(Element("head", FirstHead(ns).value.attrs, FirstHead(ns).value.children))
  {
    if |ns| > 0 {
      assert [ns[0]] + ns[1..] == ns;
      match ns[0]
      case TextNode(_) =>
        DropNothing(ns[1..]);
      case Element(tag, attrs, children) =>
        if tag == "head" {
          assert children[..|children|] == children;
        } else if HasHead(children) {
          DropNothing(children);
        } else {
          DropNothing(ns[1..]);
        }
    }
  }

  /** NewHtmlProcessor */
  function NewHtmlProcessor(host: Host, o: HtmlProcessorOptions): IndexHtmlProcessor
  {
    (doc: Node, result: BuildResult, page: HtmlPage, build: BuildOptions) => Process(host, o, doc, result, page, build)
  }

  /** With no output of an entry point to inject and nothing to remove, the page is unchanged. */
  lemma ProcessNothingToDo(host: Host, o: HtmlProcessorOptions, doc: Node, result: BuildResult, page: HtmlPage, build: BuildOptions)
    requires forall i :: 0 <= i < |result.outputFiles| ==> !Injects(build.entryPoints, host.abs(result.outputFiles[i]))
    requires page.removeTagXPaths == []
    ensures NewHtmlProcessor(host, o)(doc, result, page, build) == Ok(doc)
  {
  }

  /** The default script tag points at the output relative to the page's directory. */
  lemma DefaultScriptTag(host: Host, doc: Node, out: string, page: HtmlPage, build: BuildOptions, rel: string)
    requires Injects(build.entryPoints, host.abs(out)) && Paths.Ext(host.abs(out)) == ".js"
    requires host.rel(host.dir(host.abs(page.outFile)), host.abs(out)) == Some(rel) && rel != ""
    requires doc.Element? && HasHead(doc.children)
    ensures NewHtmlProcessor(host, HtmlProcessorOptions(None, None))(doc, BuildResult([out], ""), page, build) ==
            Ok(RemoveTags(doc.(children := AppendToFirstHead(doc.children,
                 [Element("script", [Attr("crossorigin", ""), Attr("type", "module"), Attr("src", rel)], []), TextNode("\n")]).value),
               page.removeTagXPaths, host.xpathSelects))
  {
    var tags := [Element("script", [Attr("crossorigin", ""), Attr("type", "module"), Attr("src", rel)], []), TextNode("\n")];
    var o := HtmlProcessorOptions(None, None);
    var result := BuildResult([out], "");
    assert NewHtmlProcessor(host, o)(doc, result, page, build) == Process(host, o, doc, result, page, build);
    DefaultScriptTags(host, out, page, build, rel);
    InjectIntoHead(doc, tags);
  }

  /** On a page with a head, injection replaces the top-level children by the appended ones. */
  lemma InjectIntoHead(doc: Node, tags: seq<Node>)
    requires doc.Element? && HasHead(doc.children)
    ensures Inject(doc, tags) == Ok(doc.(children := AppendToFirstHead(doc.children, tags).value))
  {
    if tags == [] {
      AppendNothing(doc.children);
    }
  }

  lemma DefaultScriptTags(host: Host, out: string, page: HtmlPage, build: BuildOptions, rel: string)
    requires Injects(build.entryPoints, host.abs(out)) && Paths.Ext(host.abs(out)) == ".js"
    requires host.rel(host.dir(host.abs(page.outFile)), host.abs(out)) == Some(rel) && rel != ""
    ensures HeadAdditions(host, BuildersOf(host, HtmlProcessorOptions(None, None)), build.entryPoints, [out], host.abs(page.outFile)) ==
            [Element("script", [Attr("crossorigin", ""), Attr("type", "module"), Attr("src", rel)], []), TextNode("\n")]
  {
    var b := BuildersOf(host, HtmlProcessorOptions(None, None));
    SingleScript(host, b, build.entryPoints, out, host.abs(page.outFile));
    assert AssetUrl(host, host.abs(out), host.abs(page.outFile)) == rel;
  }

  lemma SingleScript(host: Host, b: Builders, entryPoints: seq<string>, out: string, htmlFile: string)
    requires ShouldInclude(entryPoints, host.abs(out)) && Paths.Ext(host.abs(out)) == ".js"
    ensures HeadAdditions(host, b, entryPoints, [out], htmlFile) == [Element("script", b.script(host.abs(out), htmlFile), []), TextNode("\n")]
  {
    HeadAdditionsCons(host, b, entryPoints, [out], htmlFile);
    assert [out][0] == out && [out][1..] == [];
  }

  // ---------------------------------------------------------------- the end hook

  const MetafileMissing: string := "metafile is nil"
  const PathsMissing: string := "outFile or sourceFile is nil"
  const OpenFailedPrefix: string := "failed to open source file: "
  const DecodeFailedPrefix: string := "failed to convert source file to UTF-8: "

  /** How the end hook finished: it did nothing, failed, or rendered `doc` to `path`. */
  datatype EndOutcome = Skipped | Failed(error: Error) | Written(path: string, doc: Node)

  /** The configured processors, or the default one when none is configured. */
  function ProcessorsOf(host: Host, h: IndexHtmlOptions): (ps: seq<IndexHtmlProcessor>)
    ensures |ps| > 0
    ensures h.indexHtmlProcessors != [] ==> ps == h.indexHtmlProcessors
  {
    if |h.indexHtmlProcessors| == 0 then [NewHtmlProcessor(host, HtmlProcessorOptions(None, None))] else h.indexHtmlProcessors
  }

  function HtmlStep(result: BuildResult, page: HtmlPage, build: BuildOptions): (IndexHtmlProcessor, Node) -> Result<Node>
  {
    (p: IndexHtmlProcessor, doc: Node) => p(doc, result, page, build)
  }

  /** setupHtmlHandler's end callback. */
  function HtmlEnd(host: Host, h: IndexHtmlOptions, build: BuildOptions, result: BuildResult): (r: EndOutcome)
    ensures r.Skipped? <==> h.sourceFile == "" || !build.write
    ensures !r.Skipped? && result.metafile == "" ==> r == Failed(Failure(MetafileMissing))
    ensures !r.Skipped? && result.metafile != "" && h.outFile == "" ==> r == Failed(Failure(PathsMissing))
    ensures r.Written? ==>
              && r.path == h.outFile && result.metafile != "" && host.readHtml(h.sourceFile).Parsed?
              && Fold(ProcessorsOf(host, h), host.readHtml(h.sourceFile).doc, HtmlStep(result, Page(h), build)) == Ok(r.doc)
    ensures var src := host.readHtml(h.sourceFile);
      var ready := h.sourceFile != "" && build.write && result.metafile != "" && h.outFile != "";
      && (ready && src.OpenFailed? ==> r == Failed(Failure(OpenFailedPrefix + Text(src.error))))
      && (ready && src.ReadFailed? ==> r == Failed(Failure(DecodeFailedPrefix + Text(src.error))))
      && (ready && src.Parsed? ==> (r.Failed? <==> Fold(ProcessorsOf(host, h), src.doc, HtmlStep(result, Page(h), build)).Err?))
      && (r.Failed? && ready && src.Parsed? ==> Fold(ProcessorsOf(host, h), src.doc, HtmlStep(result, Page(h), build)) == Err(r.error))
  {
    if h.sourceFile == "" || !build.write then Skipped
    else if result.metafile == "" then Failed(Failure(MetafileMissing))
    else if h.outFile == "" then Failed(Failure(PathsMissing))
    else
      match host.readHtml(h.sourceFile)
      case OpenFailed(e) => Failed(Failure(OpenFailedPrefix + Text(e)))
      case ReadFailed(e) => Failed(Failure(DecodeFailedPrefix + Text(e)))
      case Parsed(doc) =>
        match Fold(ProcessorsOf(host, h), doc, HtmlStep(result, Page(h), build))
        case Err(e) => Failed(e)
        case Ok(d) => Written(h.outFile, d)
  }

  /** Without configured processors the written page is what the default processor makes of
      the parsed source. */
  lemma DefaultProcessorRuns(host: Host, h: IndexHtmlOptions, build: BuildOptions, result: BuildResult, doc: Node)
    requires h.sourceFile != "" && build.write && result.metafile != "" && h.outFile != ""
    requires h.indexHtmlProcessors == []
    requires host.readHtml(h.sourceFile) == Parsed(doc)
    ensures var p := Process(host, HtmlProcessorOptions(None, None), doc, result, Page(h), build);
            && (p.Ok? ==> HtmlEnd(host, h, build, result) == Written(h.outFile, p.value))
            && (p.Err? ==> HtmlEnd(host, h, build, result) == Failed(p.error))
  {
    var ps := ProcessorsOf(host, h);
    assert ps[1..] == [];
  }

  /** A processor that fails stops the chain: later processors do not run and nothing is written. */
  lemma FailingProcessorStops(host: Host, h: IndexHtmlOptions, build: BuildOptions, result: BuildResult, doc: Node,
                              before: seq<IndexHtmlProcessor>, p: IndexHtmlProcessor, after: seq<IndexHtmlProcessor>)
    requires h.sourceFile != "" && build.write && result.metafile != "" && h.outFile != ""
    requires h.indexHtmlProcessors == before + [p] + after
    requires host.readHtml(h.sourceFile) == Parsed(doc)
    requires Fold(before, doc, HtmlStep(result, Page(h), build)).Ok?
    requires p(Fold(before, doc, HtmlStep(result, Page(h), build)).value, result, Page(h), build).Err?
    ensures HtmlEnd(host, h, build, result) == Failed(p(Fold(before, doc, HtmlStep(result, Page(h), build)).value, result, Page(h), build).error)
  {
    FoldAbort(before, p, after, doc, HtmlStep(result, Page(h), build));
  }
}
