/** The structural extractor, `processHtml` (src/background/analyzer/analyzerEngine.js:269-355),
    over an abstract element tree standing for the document cheerio builds
    from the markup. A selector `$("t")` is the list of elements tagged `t`
    in document order; `$(el).find(...)` the same over the proper
    descendants of `el`; `.text()` the concatenated text of all descendant
    text nodes. */
module Extractor {
  import opened JsCore
  import Counting

  /** A node of the parsed document. Attribute names are as the parser
      reports them; an absent attribute reads as `undefined`. */
  datatype Node =
    | Element(tag: string, attrs: map<string, string>, children: seq<Node>)
    | Text(text: string)

  // ---------- tree queries ----------

  /** `$(el).attr(name)`. */
  function Attr(n: Node, name: string): Option<string> {
    if n.Element? && name in n.attrs then Some(n.attrs[name]) else None
  }

  /** The elements of the subtree rooted at `n`, in document order, `n` first. */
  function Elements(n: Node): seq<Node>
    decreases n, 1
  {
    match n
    case Text(_) => []
    case Element(_, _, cs) => [n] + ElementsOf(cs)
  }

  /** The elements of a sequence of sibling subtrees, in document order. */
  function ElementsOf(ns: seq<Node>): seq<Node>
    decreases ns, 0
  {
    if ns == [] then [] else Elements(ns[0]) + ElementsOf(ns[1..])
  }

  /** The proper descendants of `n` that are elements, in document order
      (what `$(n).find(...)` searches). */
  function Descendants(n: Node): seq<Node> {
    if n.Element? then ElementsOf(n.children) else []
  }

  /** `.text()`: the text of every text node below `n`, concatenated. */
  function TextOf(n: Node): string
    decreases n, 1
  {
    match n
    case Text(t) => t
    case Element(_, _, cs) => TextOfAll(cs)
  }

  function TextOfAll(ns: seq<Node>): string
    decreases ns, 0
  {
    if ns == [] then "" else TextOf(ns[0]) + TextOfAll(ns[1..])
  }

  /** The elements of `els` whose tag is one of `tags` (a selector list such
      as `"ul, ol"` keeps document order). */
  function WithTag(els: seq<Node>, tags: set<string>): (r: seq<Node>)
    ensures |r| <= |els|
    ensures forall k :: 0 <= k < |r| ==> r[k].Element? && r[k].tag in tags
  {
    if els == [] then []
    else (if els[0].Element? && els[0].tag in tags then [els[0]] else []) + WithTag(els[1..], tags)
  }

  /** A selector returns every matching element and only those. */
  lemma {:induction false} WithTagIff(els: seq<Node>, tags: set<string>, e: Node)
    ensures e in WithTag(els, tags) <==> e in els && e.Element? && e.tag in tags
  {
    if els != [] {
      WithTagIff(els[1..], tags, e);
      assert els == [els[0]] + els[1..];
    }
  }

  /** Selecting over two runs of the document is selecting over each, in
      turn: the selection keeps document order. */
  lemma {:induction false} WithTagAppend(a: seq<Node>, b: seq<Node>, tags: set<string>)
    ensures WithTag(a + b, tags) == WithTag(a, tags) + WithTag(b, tags)
  {
    if a == [] {
      assert a + b == b;
    } else {
      var ab := a + b;
      assert ab[0] == a[0];
      assert ab[1..] == a[1..] + b;
      var head := if a[0].Element? && a[0].tag in tags then [a[0]] else [];
      assert WithTag(ab, tags) == head + WithTag(a[1..] + b, tags);
      assert WithTag(a, tags) == head + WithTag(a[1..], tags);
      WithTagAppend(a[1..], b, tags);
      assert head + (WithTag(a[1..], tags) + WithTag(b, tags))
        == (head + WithTag(a[1..], tags)) + WithTag(b, tags);
    }
  }

  /** The elements of the subtree at `n` that have an ancestor tagged `anc`;
      `inside` says whether one lies above `n` already. This is the
      descendant combinator of `$("head link")`. */
  function ElementsWithin(n: Node, anc: string, inside: bool): seq<Node>
    decreases n, 1
  {
    match n
    case Text(_) => []
    case Element(tag, _, cs) =>
      (if inside then [n] else []) + ElementsWithinAll(cs, anc, inside || tag == anc)
  }

  function ElementsWithinAll(ns: seq<Node>, anc: string, inside: bool): seq<Node>
    decreases ns, 0
  {
    if ns == [] then [] else ElementsWithin(ns[0], anc, inside) + ElementsWithinAll(ns[1..], anc, inside)
  }

  /** Every element `ElementsWithin` reports is an element of the subtree. */
  lemma {:induction false} ElementsWithinAreElements(n: Node, anc: string, inside: bool)
    ensures forall e :: e in ElementsWithin(n, anc, inside) ==> e in Elements(n)
    ensures !inside && n.Element? && n.tag != anc ==>
      forall e :: e in ElementsWithin(n, anc, inside) ==> e in ElementsWithinAll(n.children, anc, false)
    decreases n, 1
  {
    match n
    case Text(_) =>
    case Element(tag, _, cs) =>
      ElementsWithinAllAreElements(cs, anc, inside || tag == anc);
  }

  lemma {:induction false} ElementsWithinAllAreElements(ns: seq<Node>, anc: string, inside: bool)
    ensures forall e :: e in ElementsWithinAll(ns, anc, inside) ==> e in ElementsOf(ns)
    decreases ns, 0
  {
    if ns != [] {
      ElementsWithinAreElements(ns[0], anc, inside);
      ElementsWithinAllAreElements(ns[1..], anc, inside);
    }
  }

  /** Inside an ancestor, every element of the subtree is reported. */
  lemma {:induction false} ElementsWithinInside(n: Node, anc: string)
    ensures ElementsWithin(n, anc, true) == Elements(n)
    decreases n, 1
  {
    match n
    case Text(_) =>
    case Element(tag, _, cs) =>
      ElementsWithinAllInside(cs, anc);
  }

  lemma {:induction false} ElementsWithinAllInside(ns: seq<Node>, anc: string)
    ensures ElementsWithinAll(ns, anc, true) == ElementsOf(ns)
    decreases ns, 0
  {
    if ns != [] {
      ElementsWithinInside(ns[0], anc);
      ElementsWithinAllInside(ns[1..], anc);
    }
  }

  // ---------- getDepth ----------

  predicate HasElementChild(cs: seq<Node>) {
    exists k :: 0 <= k < |cs| && cs[k].Element?
  }

  function Max(a: nat, b: nat): nat {
    if a >= b then a else b
  }

  /** `getDepth(node, depth)`: `depth` when `node` has no element children,
      otherwise the largest `getDepth(child, depth + 1)` over them. */
  function Depth(n: Node, d: nat): (r: nat)
    ensures r >= d
    decreases n, 1
  {
    if n.Text? || !HasElementChild(n.children) then d else MaxDepth(n.children, d + 1)
  }

  /** `Math.max(...children.map(child => getDepth(child, d)))` over the
      element children in `cs` (0 when there are none). */
  function MaxDepth(cs: seq<Node>, d: nat): (r: nat)
    ensures HasElementChild(cs) ==> r >= d
    ensures !HasElementChild(cs) ==> r == 0
    decreases cs, 0
  {
    if cs == [] then 0
    else
      var rest := MaxDepth(cs[1..], d);
      assert HasElementChild(cs) && !cs[0].Element? ==> HasElementChild(cs[1..]) by {
        if HasElementChild(cs) && !cs[0].Element? {
          var k :| 0 <= k < |cs| && cs[k].Element?;
          assert cs[1..][k - 1] == cs[k];
        }
      }
      assert !HasElementChild(cs[1..]) && !cs[0].Element? ==> !HasElementChild(cs) by {
        if HasElementChild(cs) && !cs[0].Element? {
          var k :| 0 <= k < |cs| && cs[k].Element?;
          assert cs[1..][k - 1] == cs[k];
        }
      }
      if cs[0].Element? then Max(Depth(cs[0], d), rest) else rest
  }

  /** A chain of element children starting below `n`. */
  ghost predicate ElementPath(n: Node, p: seq<Node>)
    decreases p
  {
    p == [] || (n.Element? && p[0] in n.children && p[0].Element? && ElementPath(p[0], p[1..]))
  }

  lemma {:induction false} MaxDepthBounds(cs: seq<Node>, d: nat, c: Node)
    requires c in cs && c.Element?
    ensures Depth(c, d) <= MaxDepth(cs, d)
    decreases cs
  {
    if cs[0] != c {
      MaxDepthBounds(cs[1..], d, c);
    }
  }

  lemma {:induction false} MaxDepthAttained(cs: seq<Node>, d: nat) returns (c: Node)
    requires HasElementChild(cs)
    ensures c in cs && c.Element? && MaxDepth(cs, d) == Depth(c, d)
    decreases cs
  {
    if cs[0].Element? && (!HasElementChild(cs[1..]) || Depth(cs[0], d) >= MaxDepth(cs[1..], d)) {
      c := cs[0];
    } else {
      if !cs[0].Element? {
        var k :| 0 <= k < |cs| && cs[k].Element?;
        assert cs[1..][k - 1] == cs[k];
      }
      c := MaxDepthAttained(cs[1..], d);
    }
  }

  /** No chain of nested elements below `n` is longer than `Depth(n, d) - d` ... */
  lemma {:induction false} DepthBoundsPaths(n: Node, d: nat, p: seq<Node>)
    requires ElementPath(n, p)
    ensures d + |p| <= Depth(n, d)
    decreases p
  {
    if p != [] {
      DepthBoundsPaths(p[0], d + 1, p[1..]);
      assert HasElementChild(n.children) by {
        var k :| 0 <= k < |n.children| && n.children[k] == p[0];
      }
      MaxDepthBounds(n.children, d + 1, p[0]);
    }
  }

  /** ... and some chain is exactly that long: the depth is the length of
      the longest chain of nested elements, counted from `d`. */
  lemma {:induction false} DepthAttained(n: Node, d: nat)
    ensures exists p :: ElementPath(n, p) && d + |p| == Depth(n, d)
    decreases n
  {
    if n.Text? || !HasElementChild(n.children) {
      assert ElementPath(n, []);
    } else {
      var c := MaxDepthAttained(n.children, d + 1);
      DepthAttained(c, d + 1);
      var p :| ElementPath(c, p) && d + 1 + |p| == Depth(c, d + 1);
      assert ([c] + p)[1..] == p;
      assert ElementPath(n, [c] + p);
    }
  }

  /** Where the count starts does not matter: `getDepth(n, d)` is
      `d + getDepth(n, 0)`. */
  lemma DepthOffset(n: Node, d: nat)
    ensures Depth(n, d) == d + Depth(n, 0)
  {
    DepthAttained(n, d);
    var p :| ElementPath(n, p) && d + |p| == Depth(n, d);
    DepthAttained(n, 0);
    var q :| ElementPath(n, q) && |q| == Depth(n, 0);
    DepthBoundsPaths(n, 0, p);
    DepthBoundsPaths(n, d, q);
  }

  /** `k` nested `div` elements. */
  function Nest(k: nat): Node {
    if k == 0 then Element("div", map[], []) else Element("div", map[], [Nest(k - 1)])
  }

  /** A root with `k` levels of nesting below it has depth `k`. */
  lemma {:induction false} NestDepth(k: nat, d: nat)
    ensures Depth(Nest(k), d) == d + k
  {
    if k > 0 {
      NestDepth(k - 1, d + 1);
      var cs := Nest(k).children;
      assert cs == [Nest(k - 1)];
      assert cs[0].Element? && HasElementChild(cs);
      assert cs[1..] == [];
      assert MaxDepth(cs, d + 1) == Max(Depth(Nest(k - 1), d + 1), MaxDepth([], d + 1));
    }
  }

  // ---------- tagCount ----------

  /** `$("*").map((i, el) => el.tagName)`. */
  function TagNames(els: seq<Node>): (r: seq<string>)
    ensures |r| == |els|
    ensures forall k :: 0 <= k < |els| && els[k].Element? ==> r[k] == els[k].tag
  {
    seq(|els|, k requires 0 <= k < |els| => if els[k].Element? then els[k].tag else "")
  }

  /** With only elements given, a tag occurs among the names as often as
      the tag selector `$(t)` finds an element. */
  lemma {:induction false} TagNamesCountSelection(els: seq<Node>, t: string)
    requires forall k :: 0 <= k < |els| ==> els[k].Element?
    ensures multiset(TagNames(els))[t] == |WithTag(els, {t})|
  {
    if els != [] {
      TagNamesCountSelection(els[1..], t);
      assert TagNames(els) == [els[0].tag] + TagNames(els[1..]);
      assert multiset(TagNames(els)) == multiset{els[0].tag} + multiset(TagNames(els[1..]));
    }
  }

  /** `.reduce((acc, tag) => { acc[tag] = (acc[tag] || 0) + 1; return acc; }, acc)`. */
  function Tally(acc: map<string, nat>, tags: seq<string>): map<string, nat>
    decreases |tags|
  {
    if tags == [] then acc
    else
      var t := tags[0];
      Tally(acc[t := (if t in acc then acc[t] else 0) + 1], tags[1..])
  }

  /** The fold adds to each tag already in `acc` the number of times it
      occurs in `tags`, and adds the tags not yet in `acc` with that number. */
  lemma {:induction false} TallyCounts(acc: map<string, nat>, tags: seq<string>)
    ensures forall t :: t in Tally(acc, tags) <==> t in acc || t in tags
    ensures forall t :: t in Tally(acc, tags) ==>
      Tally(acc, tags)[t] == (if t in acc then acc[t] else 0) + multiset(tags)[t]
    decreases |tags|
  {
    if tags != [] {
      var t := tags[0];
      var acc' := acc[t := (if t in acc then acc[t] else 0) + 1];
      TallyCounts(acc', tags[1..]);
      assert tags == [t] + tags[1..];
      assert multiset(tags) == multiset{t} + multiset(tags[1..]);
    }
  }

  /** The fold adds exactly one per tag to the sum of the counts. */
  lemma {:induction false} TallySum(acc: map<string, nat>, tags: seq<string>)
    ensures Counting.SumValues(Tally(acc, tags)) == Counting.SumValues(acc) + |tags|
    decreases |tags|
  {
    if tags != [] {
      var t := tags[0];
      var acc' := acc[t := (if t in acc then acc[t] else 0) + 1];
      Counting.SumValuesUpdate(acc, t, (if t in acc then acc[t] else 0) + 1);
      TallySum(acc', tags[1..]);
    }
  }

  /** `stats.tagCount` of a document. */
  function TagCount(doc: Node): map<string, nat> {
    Tally(map[], TagNames(Elements(doc)))
  }

  /** The keys of `tagCount` are the tag names that occur (no zero entries),
      each maps to its number of occurrences, at least 1, and the counts add
      up to `totalElements`. */
  lemma TagCountFacts(doc: Node)
    ensures var names, tc := TagNames(Elements(doc)), TagCount(doc);
      && (forall t :: t in tc <==> t in names)
      && (forall t :: t in tc ==> tc[t] == multiset(names)[t] && tc[t] >= 1)
      && Counting.SumValues(tc) == |Elements(doc)|
  {
    var names := TagNames(Elements(doc));
    TallyCounts(map[], names);
    TallySum(map[], names);
    Counting.SumValuesEmpty<string>(map[]);
  }

  /** Every node `Elements` lists is an element. */
  lemma {:induction false} ElementsAreElements(n: Node)
    ensures forall k :: 0 <= k < |Elements(n)| ==> Elements(n)[k].Element?
    decreases n, 1
  {
    match n
    case Text(_) =>
    case Element(_, _, cs) =>
      ElementsOfAreElements(cs);
  }

  lemma {:induction false} ElementsOfAreElements(ns: seq<Node>)
    ensures forall k :: 0 <= k < |ElementsOf(ns)| ==> ElementsOf(ns)[k].Element?
    decreases ns, 0
  {
    if ns != [] {
      ElementsAreElements(ns[0]);
      ElementsOfAreElements(ns[1..]);
    }
  }

  /** `tagCount[t]` is the number of elements `$(t)` selects, and `t` is a
      key exactly when there is one. */
  lemma TagCountIsSelection(doc: Node, t: string)
    ensures t in TagCount(doc) <==> |WithTag(Elements(doc), {t})| > 0
    ensures t in TagCount(doc) ==> TagCount(doc)[t] == |WithTag(Elements(doc), {t})|
  {
    ElementsAreElements(doc);
    TagNamesCountSelection(Elements(doc), t);
    TagCountFacts(doc);
  }

  // ---------- the summary record ----------

  datatype MetaTag = MetaTag(name: Option<string>, content: Option<string>)
  datatype LinkTag = LinkTag(rel: Option<string>, href: Option<string>)
  datatype ScriptTag = ScriptTag(src: Option<string>, inlineText: Option<string>)
  datatype Head = Head(title: string, meta: seq<MetaTag>, links: seq<LinkTag>, scripts: seq<ScriptTag>)

  datatype Headings = Headings(
    h1: seq<string>, h2: seq<string>, h3: seq<string>,
    h4: seq<string>, h5: seq<string>, h6: seq<string>)
  datatype Anchor = Anchor(href: Option<string>, text: string)
  datatype FormControl = FormControl(
    tag: string, name: Option<string>, controlType: string,
    value: Option<string>, placeholder: Option<string>)
  datatype Form = Form(action: Option<string>, httpMethod: string, inputs: seq<FormControl>)
  datatype Image = Image(src: Option<string>, alt: string)
  datatype Media = Media(src: Option<string>, controls: bool)
  datatype Frame = Frame(src: Option<string>, title: Option<string>)
  datatype ListBlock = ListBlock(listType: string, items: seq<string>)
  datatype Table = Table(rows: seq<seq<string>>)
  datatype Body = Body(
    headings: Headings, links: seq<Anchor>, forms: seq<Form>, images: seq<Image>,
    videos: seq<Media>, audios: seq<Media>, iframes: seq<Frame>,
    lists: seq<ListBlock>, tables: seq<Table>)

  datatype Stats = Stats(totalElements: nat, depth: nat, tagCount: map<string, nat>)

  datatype Summary = Summary(head: Head, body: Body, stats: Stats)

  // ---------- per-element records ----------

  /** `name: attr("name") || attr("property")`, `content: attr("content")`. */
  function MetaOf(el: Node): MetaTag {
    MetaTag(Or(Attr(el, "name"), Attr(el, "property")), Attr(el, "content"))
  }

  function LinkOf(el: Node): LinkTag {
    LinkTag(Attr(el, "rel"), Attr(el, "href"))
  }

  /** `$(el).html()?.trim().slice(0, 50) || null`; a script's inner markup is
      its text. */
  function ScriptOf(el: Node): ScriptTag {
    var body := Trim(TextOf(el));
    var cut := if |body| <= 50 then body else body[..50];
    ScriptTag(OrNull(Attr(el, "src")), OrNull(Some(cut)))
  }

  function TrimmedText(el: Node): string {
    Trim(TextOf(el))
  }

  function AnchorOf(el: Node): Anchor {
    Anchor(Attr(el, "href"), TrimmedText(el))
  }

  const FormControlTags: set<string> := {"input", "select", "textarea", "button"}

  /** One entry of a form's `inputs`; `type` falls back to the lower-cased
      tag name. */
  function ControlOf(el: Node): FormControl
    requires el.Element?
  {
    FormControl(
      el.tag, OrNull(Attr(el, "name")), OrElse(Attr(el, "type"), ToLowerAscii(el.tag)),
      OrNull(Attr(el, "value")), OrNull(Attr(el, "placeholder")))
  }

  function ControlsOf(els: seq<Node>): (r: seq<FormControl>)
    requires forall k :: 0 <= k < |els| ==> els[k].Element?
    ensures |r| == |els|
    ensures forall k :: 0 <= k < |els| ==> r[k] == ControlOf(els[k])
  {
    if els == [] then [] else [ControlOf(els[0])] + ControlsOf(els[1..])
  }

  /** A form: `action || null`, `method || "GET"`, and its descendant
      input, select, textarea and button elements. */
  function FormOf(form: Node): Form {
    Form(
      OrNull(Attr(form, "action")), OrElse(Attr(form, "method"), "GET"),
      ControlsOf(WithTag(Descendants(form), FormControlTags)))
  }

  function ImageOf(el: Node): Image {
    Image(Attr(el, "src"), OrElse(Attr(el, "alt"), ""))
  }

  /** `controls: attr("controls") !== undefined`: presence, even when empty. */
  function MediaOf(el: Node): Media {
    Media(OrNull(Attr(el, "src")), Attr(el, "controls").Some?)
  }

  function FrameOf(el: Node): Frame {
    Frame(OrNull(Attr(el, "src")), OrNull(Attr(el, "title")))
  }

  function ListOf(el: Node): ListBlock
    requires el.Element?
  {
    ListBlock(el.tag, TextsOf(WithTag(Descendants(el), {"li"})))
  }

  function TextsOf(els: seq<Node>): (r: seq<string>)
    ensures |r| == |els|
    ensures forall k :: 0 <= k < |els| ==> r[k] == TrimmedText(els[k])
  {
    seq(|els|, k requires 0 <= k < |els| => TrimmedText(els[k]))
  }

  /** The cells of one row: the trimmed texts of its `th` and `td` descendants. */
  function RowOf(row: Node): seq<string> {
    TextsOf(WithTag(Descendants(row), {"th", "td"}))
  }

  function RowsOf(rows: seq<Node>): (r: seq<seq<string>>)
    ensures |r| == |rows|
    ensures forall k :: 0 <= k < |rows| ==> r[k] == RowOf(rows[k])
  {
    if rows == [] then [] else [RowOf(rows[0])] + RowsOf(rows[1..])
  }

  /** A table as a list of rows, each the list of its cell texts. */
  function TableOf(table: Node): (r: Table)
    ensures |r.rows| == |WithTag(Descendants(table), {"tr"})|
    ensures forall k :: 0 <= k < |r.rows| ==> r.rows[k] == RowOf(WithTag(Descendants(table), {"tr"})[k])
  {
    Table(RowsOf(WithTag(Descendants(table), {"tr"})))
  }

  /** The `tables[].rows` the source builds: cheerio's `.map` splices an
      array a callback returns into the result, so the per-row arrays are
      concatenated into one flat list of cell texts. */
  function TableRowsAsWritten(table: Node): seq<string> {
    Flatten(RowsOf(WithTag(Descendants(table), {"tr"})))
  }

  function Flatten(rows: seq<seq<string>>): seq<string> {
    if rows == [] then [] else rows[0] + Flatten(rows[1..])
  }

  // ---------- processHtml ----------

  /** `$("t1, t2, ...")` over the whole document. */
  function Select(doc: Node, tags: set<string>): seq<Node> {
    WithTag(Elements(doc), tags)
  }

  function HeadOf(doc: Node): Head {
    var metas := Select(doc, {"meta"});
    var links := WithTag(ElementsWithin(doc, "head", false), {"link"});
    var scripts := WithTag(ElementsWithin(doc, "head", false), {"script"});
    Head(
      TextOfAll(Select(doc, {"title"})),
      seq(|metas|, k requires 0 <= k < |metas| => MetaOf(metas[k])),
      seq(|links|, k requires 0 <= k < |links| => LinkOf(links[k])),
      seq(|scripts|, k requires 0 <= k < |scripts| => ScriptOf(scripts[k])))
  }

  function HeadingsOf(doc: Node): Headings {
    Headings(
      TextsOf(Select(doc, {"h1"})), TextsOf(Select(doc, {"h2"})), TextsOf(Select(doc, {"h3"})),
      TextsOf(Select(doc, {"h4"})), TextsOf(Select(doc, {"h5"})), TextsOf(Select(doc, {"h6"})))
  }

  function FormsOf(doc: Node): seq<Form> {
    var forms := Select(doc, {"form"});
    seq(|forms|, k requires 0 <= k < |forms| => FormOf(forms[k]))
  }

  function ImagesOf(doc: Node): seq<Image> {
    var images := Select(doc, {"img"});
    seq(|images|, k requires 0 <= k < |images| => ImageOf(images[k]))
  }

  function MediaList(doc: Node, tag: string): seq<Media> {
    var els := Select(doc, {tag});
    seq(|els|, k requires 0 <= k < |els| => MediaOf(els[k]))
  }

  function BodyOf(doc: Node): Body {
    var anchors := Select(doc, {"a"});
    var frames := Select(doc, {"iframe"});
    var lists := Select(doc, {"ul", "ol"});
    var tables := Select(doc, {"table"});
    Body(
      HeadingsOf(doc),
      seq(|anchors|, k requires 0 <= k < |anchors| => AnchorOf(anchors[k])),
      FormsOf(doc), ImagesOf(doc), MediaList(doc, "video"), MediaList(doc, "audio"),
      seq(|frames|, k requires 0 <= k < |frames| => FrameOf(frames[k])),
      seq(|lists|, k requires 0 <= k < |lists| => ListOf(lists[k])),
      seq(|tables|, k requires 0 <= k < |tables| => TableOf(tables[k])))
  }

  /** `processHtml` over the parsed document `doc`, whose root is the
      `html` element cheerio builds. `tables` uses the per-row form
      (`TableOf`); `TableRowsAsWritten` is what the source's `.map` builds. */
  function ProcessHtml(doc: Node): Summary {
    Summary(HeadOf(doc), BodyOf(doc), Stats(|Elements(doc)|, Depth(doc, 0), TagCount(doc)))
  }

  /** `stats`: `totalElements` counts every element; `tagCount` has an entry
      of at least 1 exactly for each tag that occurs and its entries add up
      to `totalElements`; `depth` is the length of the longest chain of
      nested elements below the root. */
  lemma ProcessHtmlStats(doc: Node)
    ensures var st := ProcessHtml(doc).stats;
      && st.totalElements == |Elements(doc)|
      && (forall t :: t in st.tagCount <==> t in TagNames(Elements(doc)))
      && (forall t :: t in st.tagCount ==> st.tagCount[t] >= 1)
      && Counting.SumValues(st.tagCount) == st.totalElements
      && (forall p :: ElementPath(doc, p) ==> |p| <= st.depth)
      && (exists p :: ElementPath(doc, p) && |p| == st.depth)
  {
    TagCountFacts(doc);
    forall p | ElementPath(doc, p) ensures |p| <= Depth(doc, 0) {
      DepthBoundsPaths(doc, 0, p);
    }
    DepthAttained(doc, 0);
  }

  /** One form per `form` element, whose `method` is its attribute when
      non-empty and "GET" otherwise, so never empty. */
  lemma FormMethodDefault(doc: Node)
    ensures var out, forms := ProcessHtml(doc).body.forms, Select(doc, {"form"});
      && |out| == |forms|
      && (forall k :: 0 <= k < |forms| ==>
            out[k].httpMethod == (if Truthy(Attr(forms[k], "method")) then forms[k].attrs["method"] else "GET")
            && out[k].httpMethod != "")
  {
  }

  /** One image per `img` element, whose `alt` is "" when the attribute is
      absent or empty. */
  lemma ImageAltDefault(doc: Node)
    ensures var out, images := ProcessHtml(doc).body.images, Select(doc, {"img"});
      && |out| == |images|
      && (forall k :: 0 <= k < |images| ==>
            out[k].alt == (if Truthy(Attr(images[k], "alt")) then images[k].attrs["alt"] else ""))
  {
  }

  /** Each form lists one control per input, select, textarea or button
      below it; a control's `type` is its non-empty `type` attribute or else
      its lower-cased tag name, and is never empty. */
  lemma ControlTypeDefault(form: Node)
    ensures var controls := WithTag(Descendants(form), FormControlTags);
      var out := FormOf(form).inputs;
      && |out| == |controls|
      && (forall j :: 0 <= j < |controls| ==>
            controls[j].tag in FormControlTags
            && out[j].tag == controls[j].tag
            && out[j].controlType == (if Truthy(Attr(controls[j], "type")) then controls[j].attrs["type"] else ToLowerAscii(controls[j].tag))
            && out[j].controlType != "")
  {
    var controls := WithTag(Descendants(form), FormControlTags);
    forall j | 0 <= j < |controls| ensures |ToLowerAscii(controls[j].tag)| > 0 {
      assert controls[j].tag in FormControlTags;
    }
  }

  /** The number of cells over all rows. */
  function CellCount(rows: seq<seq<string>>): nat {
    if rows == [] then 0 else |rows[0]| + CellCount(rows[1..])
  }

  /** The flat list holds every cell of every row and nothing else ... */
  lemma {:induction false} FlattenLength(rows: seq<seq<string>>)
    ensures |Flatten(rows)| == CellCount(rows)
  {
    if rows != [] {
      FlattenLength(rows[1..]);
    }
  }

  lemma TableRowsAsWrittenLength(table: Node)
    ensures |TableRowsAsWritten(table)| == CellCount(TableOf(table).rows)
  {
    FlattenLength(TableOf(table).rows);
  }

  /** A cell holding one non-blank character: it is its own only element
      and its trimmed text is that character. */
  lemma CellFacts(c: char)
    requires !IsJsSpace(c)
    ensures var cell := Element("td", map[], [Text([c])]);
      Elements(cell) == [cell] && TrimmedText(cell) == [c]
  {
    var cell := Element("td", map[], [Text([c])]);
    assert ElementsOf([Text([c])]) == [] by { assert [Text([c])][1..] == []; }
    assert TextOf(cell) == [c] by { assert TextOfAll([Text([c])]) == [c] + TextOfAll([]); }
  }

  const CellA: Node := Element("td", map[], [Text("a")])
  const CellB: Node := Element("td", map[], [Text("b")])
  const RowAB: Node := Element("tr", map[], [CellA, CellB])
  const RowA: Node := Element("tr", map[], [CellA])
  const RowB: Node := Element("tr", map[], [CellB])
  /** `<table><tr><td>a</td><td>b</td></tr></table>` */
  const OneRowTable: Node := Element("table", map[], [RowAB])
  /** `<table><tr><td>a</td></tr><tr><td>b</td></tr></table>` */
  const TwoRowTable: Node := Element("table", map[], [RowA, RowB])

  /** A run of elements with no elements below them is its own element list. */
  lemma {:induction false} ElementsOfLeaves(ns: seq<Node>)
    requires forall k :: 0 <= k < |ns| ==> Elements(ns[k]) == [ns[k]]
    ensures ElementsOf(ns) == ns
  {
    if ns != [] {
      ElementsOfLeaves(ns[1..]);
      assert ns == [ns[0]] + ns[1..];
    }
  }

  /** The cells are the only elements below the fixture rows. */
  lemma RowElements()
    ensures ElementsOf([CellA, CellB]) == [CellA, CellB]
    ensures ElementsOf([CellA]) == [CellA] && ElementsOf([CellB]) == [CellB]
  {
    CellFacts('a');
    CellFacts('b');
    ElementsOfLeaves([CellA, CellB]);
    ElementsOfLeaves([CellA]);
    ElementsOfLeaves([CellB]);
  }

  /** The fixture cells are all selected as `th, td`. */
  lemma RowCells()
    ensures WithTag([CellA, CellB], {"th", "td"}) == [CellA, CellB]
    ensures WithTag([CellA], {"th", "td"}) == [CellA] && WithTag([CellB], {"th", "td"}) == [CellB]
  {
    var a, b := CellA, CellB;
    assert WithTag([b], {"th", "td"}) == [b] by { assert [b][1..] == []; }
    assert WithTag([a], {"th", "td"}) == [a] by { assert [a][1..] == []; }
    assert [a, b][1..] == [b];
  }

  lemma RowFacts()
    ensures RowOf(RowAB) == ["a", "b"] && RowOf(RowA) == ["a"] && RowOf(RowB) == ["b"]
    ensures Elements(RowAB) == [RowAB, CellA, CellB]
    ensures Elements(RowA) == [RowA, CellA] && Elements(RowB) == [RowB, CellB]
  {
    CellFacts('a');
    CellFacts('b');
    RowElements();
    RowCells();
  }

  lemma NotTr()
    ensures "td" !in {"tr"}
  {
    assert "td"[1] != "tr"[1];
  }

  lemma OneRowTableDescendants()
    ensures Descendants(OneRowTable) == [RowAB, CellA, CellB]
  {
    RowFacts();
    assert [RowAB][1..] == [];
  }

  lemma OneRowTableRowElements()
    ensures WithTag([RowAB, CellA, CellB], {"tr"}) == [RowAB]
  {
    NotTr();
    var rab, a, b := RowAB, CellA, CellB;
    assert [rab, a, b][1..] == [a, b];
    assert [a, b][1..] == [b];
    assert [b][1..] == [];
    assert WithTag([b], {"tr"}) == [];
    assert WithTag([a, b], {"tr"}) == [];
  }

  lemma TwoRowTableDescendants()
    ensures Descendants(TwoRowTable) == [RowA, CellA, RowB, CellB]
  {
    RowFacts();
    assert [RowA, RowB][1..] == [RowB];
    assert ElementsOf([RowB]) == [RowB, CellB] by { assert [RowB][1..] == []; }
  }

  lemma TwoRowTableRowElements()
    ensures WithTag([RowA, CellA, RowB, CellB], {"tr"}) == [RowA, RowB]
  {
    NotTr();
    var ra, rb, a, b := RowA, RowB, CellA, CellB;
    assert [ra, a, rb, b][1..] == [a, rb, b];
    assert [a, rb, b][1..] == [rb, b];
    assert [rb, b][1..] == [b];
    assert [b][1..] == [];
    assert WithTag([b], {"tr"}) == [];
    assert WithTag([rb, b], {"tr"}) == [rb];
    assert WithTag([a, rb, b], {"tr"}) == [rb];
  }

  lemma OneRowTableRows()
    ensures TableOf(OneRowTable).rows == [["a", "b"]]
    ensures TableRowsAsWritten(OneRowTable) == ["a", "b"]
  {
    OneRowTableDescendants();
    OneRowTableRowElements();
    RowFacts();
    assert RowsOf([RowAB]) == [["a", "b"]];
    assert Flatten([["a", "b"]]) == ["a", "b"];
  }

  lemma TwoRowTableRows()
    ensures TableOf(TwoRowTable).rows == [["a"], ["b"]]
    ensures TableRowsAsWritten(TwoRowTable) == ["a", "b"]
  {
    TwoRowTableDescendants();
    TwoRowTableRowElements();
    RowFacts();
    assert RowsOf([RowA, RowB]) == [["a"], ["b"]] by {
      assert [RowA, RowB][1..] == [RowB];
    }
    assert Flatten([["a"], ["b"]]) == ["a", "b"] by {
      assert [["a"], ["b"]][1..] == [["b"]];
      assert Flatten([["b"]]) == ["b"];
    }
  }

  /** ... so it forgets where one row ends: a table with one row of two
      cells and a table with two rows of one cell give the same flat list,
      while their rows differ. */
  lemma TableRowsAsWrittenLosesRows()
    ensures TableRowsAsWritten(OneRowTable) == TableRowsAsWritten(TwoRowTable)
    ensures TableOf(OneRowTable) != TableOf(TwoRowTable)
  {
    OneRowTableRows();
    TwoRowTableRows();
  }
}
