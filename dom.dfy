/**
 * The parsed page as the extractors see it, and the small part of the
 * BeautifulSoup interface they use: walking descendants in document order,
 * `find`, `find_all`, `select("a[href^=...]")` and
 * `get_text(" ", strip=True)`.
 */
module Dom {
  import opened Wrappers
  import opened TextUtils

  /** A node of a parsed page: an element with its tag name, its attributes
      and its children in document order, or a piece of text. The document
      itself is an element too (BeautifulSoup's `[document]`). */
  datatype Node =
    | Element(tag: string, attrs: map<string, string>, children: seq<Node>)
    | Text(content: string)

  /** A node met while walking a tree, with its ancestors nearest first:
      `ancestors[0]` is its `.parent`, and the last ancestor is the node the
      walk started from. */
  datatype Visit = Visit(node: Node, ancestors: seq<Node>)

  /** The proper descendants of `n` in document order (preorder), each with
      its ancestor chain; `above` is the chain above `n` itself. */
  function Visits(n: Node, above: seq<Node>): (vs: seq<Visit>)
    ensures forall k | 0 <= k < |vs| ::
      vs[k].ancestors != [] && vs[k].ancestors[0].Element? && vs[k].node in vs[k].ancestors[0].children
    decreases n, 1
  {
    match n
    case Text(_) => []
    case Element(_, _, _) => VisitsFrom(n, above, 0)
  }

  /** The walk of the children of `n` from child `i` on. */
  function VisitsFrom(n: Node, above: seq<Node>, i: nat): (vs: seq<Visit>)
    requires n.Element? && i <= |n.children|
    ensures forall k | 0 <= k < |vs| ::
      vs[k].ancestors != [] && vs[k].ancestors[0].Element? && vs[k].node in vs[k].ancestors[0].children
    decreases n, 0, |n.children| - i
  {
    if i == |n.children| then []
    else
      var c := n.children[i];
      [Visit(c, [n] + above)] + Visits(c, [n] + above) + VisitsFrom(n, above, i + 1)
  }

  function Nodes(vs: seq<Visit>): (ns: seq<Node>)
    ensures |ns| == |vs| && forall k | 0 <= k < |vs| :: ns[k] == vs[k].node
  {
    seq(|vs|, k requires 0 <= k < |vs| => vs[k].node)
  }

  /** `n.descendants`: every node below `n`, in document order. */
  function Descendants(n: Node): seq<Node> {
    Nodes(Visits(n, []))
  }

  // ---------------------------------------------------------------------
  // Selecting elements
  // ---------------------------------------------------------------------

  /** The element filters the extractors pass to BeautifulSoup. */
  datatype Selector =
    | AttrSearch(attr: string, pattern: string) // attrs={attr: re.compile(pattern, re.I)}
    | TagName(name: string)                     // find(name)
    | LinkHrefPrefix(prefix: string)            // select("a[href^='prefix']")

  function Lower(c: char): char {
    if 'A' <= c <= 'Z' then (c as int + 32) as char else c
  }

  /** The lower-case `pattern` occurs at position `i` of `s`, ignoring case. */
  predicate OccursAt(s: string, pattern: string, i: int) {
    0 <= i && i + |pattern| <= |s| && forall k | 0 <= k < |pattern| :: Lower(s[i + k]) == pattern[k]
  }

  /** `re.search(pattern, s, re.I)` succeeds, for a literal lower-case pattern. */
  predicate ContainsIgnoringCase(s: string, pattern: string) {
    exists i | 0 <= i <= |s| - |pattern| :: OccursAt(s, pattern, i)
  }

  predicate Matches(sel: Selector, n: Node) {
    n.Element? &&
    match sel
    case AttrSearch(attr, pattern) =>
      attr in n.attrs && ContainsIgnoringCase(n.attrs[attr], pattern)
    case TagName(name) =>
      n.tag == name
    case LinkHrefPrefix(prefix) =>
      n.tag == "a" && "href" in n.attrs && prefix <= n.attrs["href"]
  }

  /** The nodes of `ns` that `sel` accepts, in their order. */
  function Filter(sel: Selector, ns: seq<Node>): (r: seq<Node>)
    ensures |r| <= |ns|
    ensures forall m :: m in r <==> m in ns && Matches(sel, m)
  {
    if ns == [] then []
    else (if Matches(sel, ns[0]) then [ns[0]] else []) + Filter(sel, ns[1..])
  }

  /** The position of the first node of `ns` that `sel` accepts. */
  function FirstIndex(sel: Selector, ns: seq<Node>): (r: Option<nat>)
    ensures r.None? <==> forall k | 0 <= k < |ns| :: !Matches(sel, ns[k])
    ensures r.Some? ==> r.value < |ns| && Matches(sel, ns[r.value])
    ensures r.Some? ==> forall j | 0 <= j < r.value :: !Matches(sel, ns[j])
  {
    if ns == [] then None
    else if Matches(sel, ns[0]) then Some(0)
    else match FirstIndex(sel, ns[1..])
      case None => None
      case Some(k) => Some(k + 1)
  }

  /** `n.find_all(...)`: every matching descendant, in document order. */
  function FindAll(n: Node, sel: Selector): (r: seq<Node>)
    ensures forall m :: m in r <==> m in Descendants(n) && Matches(sel, m)
  {
    Filter(sel, Descendants(n))
  }

  /** `n.find(...)`: the first matching descendant in document order. */
  function Find(n: Node, sel: Selector): Option<Node> {
    var ds := Descendants(n);
    match FirstIndex(sel, ds)
    case None => None
    case Some(k) => Some(ds[k])
  }

  /** `find` returns nothing exactly when no descendant matches, and
      otherwise a matching descendant that no earlier descendant precedes. */
  lemma FindSpec(n: Node, sel: Selector)
    ensures Find(n, sel).None? <==> forall m | m in Descendants(n) :: !Matches(sel, m)
    ensures Find(n, sel).Some? ==> exists k | 0 <= k < |Descendants(n)| ::
      Find(n, sel).value == Descendants(n)[k] && Matches(sel, Descendants(n)[k]) &&
      forall j | 0 <= j < k :: !Matches(sel, Descendants(n)[j])
  {
  }

  lemma {:induction false} FirstIndexIsHeadOfFilter(sel: Selector, ns: seq<Node>)
    ensures FirstIndex(sel, ns).None? <==> Filter(sel, ns) == []
    ensures FirstIndex(sel, ns).Some? ==> Filter(sel, ns)[0] == ns[FirstIndex(sel, ns).value]
  {
    if ns != [] && !Matches(sel, ns[0]) {
      FirstIndexIsHeadOfFilter(sel, ns[1..]);
    }
  }

  /** `find` returns what `find_all` lists first. */
  lemma FindIsFirstOfFindAll(n: Node, sel: Selector)
    ensures Find(n, sel) == if FindAll(n, sel) == [] then None else Some(FindAll(n, sel)[0])
  {
    FirstIndexIsHeadOfFilter(sel, Descendants(n));
  }

  /** `select("a[href^='/biz/']")` run on `n`: the matching descendants with
      their ancestor chains, which end at `n`. */
  function Select(n: Node, sel: Selector): (r: seq<Visit>)
    ensures forall k | 0 <= k < |r| :: Matches(sel, r[k].node)
  {
    SelectFrom(sel, Visits(n, []))
  }

  function SelectFrom(sel: Selector, vs: seq<Visit>): (r: seq<Visit>)
    ensures forall k | 0 <= k < |r| :: Matches(sel, r[k].node)
    ensures forall k | 0 <= k < |r| :: r[k] in vs
  {
    if vs == [] then []
    else (if Matches(sel, vs[0].node) then [vs[0]] else []) + SelectFrom(sel, vs[1..])
  }

  /** `select` yields every matching node below `n`, each once and in
      document order: its nodes are exactly what `find_all` returns with the
      same filter, and every matching visit of the walk is among its
      results. */
  lemma SelectSpec(n: Node, sel: Selector)
    ensures Nodes(Select(n, sel)) == FindAll(n, sel)
    ensures forall v | v in Visits(n, []) && Matches(sel, v.node) :: v in Select(n, sel)
  {
    SelectFromNodes(sel, Visits(n, []));
    SelectFromComplete(sel, Visits(n, []));
  }

  lemma {:induction false} SelectFromNodes(sel: Selector, vs: seq<Visit>)
    ensures Nodes(SelectFrom(sel, vs)) == Filter(sel, Nodes(vs))
  {
    if vs != [] {
      SelectFromNodes(sel, vs[1..]);
      var head := if Matches(sel, vs[0].node) then [vs[0]] else [];
      NodesTail(vs);
      NodesAppend(head, SelectFrom(sel, vs[1..]));
    }
  }

  lemma NodesTail(vs: seq<Visit>)
    requires vs != []
    ensures Nodes(vs)[0] == vs[0].node && Nodes(vs)[1..] == Nodes(vs[1..])
  {
  }

  lemma NodesAppend(a: seq<Visit>, b: seq<Visit>)
    ensures Nodes(a + b) == Nodes(a) + Nodes(b)
  {
  }

  lemma {:induction false} SelectFromComplete(sel: Selector, vs: seq<Visit>)
    ensures forall v | v in vs && Matches(sel, v.node) :: v in SelectFrom(sel, vs)
  {
    if vs != [] {
      SelectFromComplete(sel, vs[1..]);
      forall v | v in vs && Matches(sel, v.node) ensures v in SelectFrom(sel, vs) {
        if v != vs[0] { assert v in vs[1..]; }
      }
    }
  }

  // ---------------------------------------------------------------------
  // Text
  // ---------------------------------------------------------------------

  /** The text nodes of `ns`, stripped, with the empty ones left out. */
  function TextPieces(ns: seq<Node>): (ps: seq<string>)
    ensures forall k | 0 <= k < |ps| :: ps[k] != [] && !IsSpace(ps[k][0]) && !IsSpace(ps[k][|ps[k]| - 1])
  {
    if ns == [] then [] else Piece(ns[0]) + TextPieces(ns[1..])
  }

  /** What one node adds to `get_text(strip=True)`: its stripped content,
      when it is a text node that is not whitespace only. */
  function Piece(n: Node): (ps: seq<string>)
    ensures |ps| <= 1 && (ps == [] <==> Blank(n))
    ensures forall k | 0 <= k < |ps| :: ps[k] != [] && !IsSpace(ps[k][0]) && !IsSpace(ps[k][|ps[k]| - 1])
  {
    if n.Text? then
      StripEmptyIff(n.content);
      if Strip(n.content) != "" then [Strip(n.content)] else []
    else []
  }

  /** `sep.join(ps)`. */
  function Join(sep: string, ps: seq<string>): string {
    if ps == [] then ""
    else if |ps| == 1 then ps[0]
    else ps[0] + sep + Join(sep, ps[1..])
  }

  /** `n.get_text(" ", strip=True)`. */
  function GetText(n: Node): string {
    Join(" ", TextPieces(Descendants(n)))
  }

  /** `clean_text(n.get_text(" ", strip=True))`, the form in which every
      extractor reads the text of an element. */
  function CleanedText(n: Node): string {
    CleanText(Some(GetText(n)))
  }

  lemma CleanedTextIsClean(n: Node)
    ensures IsClean(CleanedText(n))
  {
  }

  lemma StripEmptyIff(s: string)
    ensures Strip(s) == "" <==> AllSpace(s)
  {
    var a, b := StripBounds(s);
    if Strip(s) == "" {
      assert a == b;
      forall k | 0 <= k < |s| ensures IsSpace(s[k]) {
        if k < a { assert s[..a][k] == s[k]; } else { assert s[b..][k - b] == s[k]; }
      }
    }
  }

  lemma {:induction false} JoinAllSpaceIff(ps: seq<string>)
    requires forall k | 0 <= k < |ps| :: ps[k] != [] && !IsSpace(ps[k][0])
    ensures AllSpace(Join(" ", ps)) <==> ps == []
  {
    if ps != [] {
      var j := Join(" ", ps);
      assert j[0] == ps[0][0] by {
        if |ps| > 1 { assert j == ps[0] + (" " + Join(" ", ps[1..])); }
      }
    }
  }

  /** A node that contributes no text piece: an element, or whitespace text. */
  predicate Blank(n: Node) {
    n.Text? ==> AllSpace(n.content)
  }

  lemma {:induction false} NoPiecesIff(ns: seq<Node>)
    ensures TextPieces(ns) == [] <==> forall k | 0 <= k < |ns| :: Blank(ns[k])
  {
    if ns != [] {
      NoPiecesIff(ns[1..]);
      assert TextPieces(ns) == Piece(ns[0]) + TextPieces(ns[1..]);
      AllBlankCons(ns);
    }
  }

  lemma AllBlankCons(ns: seq<Node>)
    requires ns != []
    ensures (forall k | 0 <= k < |ns| :: Blank(ns[k])) <==>
            Blank(ns[0]) && forall k | 0 <= k < |ns| - 1 :: Blank(ns[1..][k])
  {
    var rest := ns[1..];
    if Blank(ns[0]) && forall k | 0 <= k < |rest| :: Blank(rest[k]) {
      forall k | 0 < k < |ns| ensures Blank(ns[k]) {
        assert ns[k] == rest[k - 1];
      }
    }
    if forall k | 0 <= k < |ns| :: Blank(ns[k]) {
      forall k | 0 <= k < |rest| ensures Blank(rest[k]) {
        assert rest[k] == ns[k + 1];
      }
    }
  }

  /** The text of an element cleans to `""` exactly when every text node below
      it is whitespace only. */
  lemma CleanedTextEmptyIff(n: Node)
    ensures CleanedText(n) == "" <==> forall m | m in Descendants(n) :: Blank(m)
  {
    var ds := Descendants(n);
    CleanTextEmptyIff(GetText(n));
    JoinAllSpaceIff(TextPieces(ds));
    NoPiecesIff(ds);
  }
}
