/**
 * The detail-page extractors of `yelp_parser`: the business name, the
 * address, the phone number, the overall rating and the top review, and
 * `parse_business_page`, which assembles them into one business record.
 */
module Detail {
  import opened Wrappers
  import opened TextUtils
  import opened Dom
  import opened Values
  import opened Records

  const NameProp: Selector := AttrSearch("itemprop", "name")
  const Heading: Selector := TagName("h1")
  const AddressTestId: Selector := AttrSearch("data-testid", "address")
  const AddressLabel: Selector := AttrSearch("aria-label", "address")
  const AddressTag: Selector := TagName("address")
  const ReviewProp: Selector := AttrSearch("itemprop", "review")
  const ReviewTestId: Selector := AttrSearch("data-testid", "review")
  const AuthorProp: Selector := AttrSearch("itemprop", "author")

  /** `clean_text(node.get_text(" ", strip=True))` for the node `find`
      returns, or `None` when it finds nothing. */
  function FoundText(soup: Node, sel: Selector): (r: Option<string>)
    ensures r.None? <==> Find(soup, sel).None?
  {
    match Find(soup, sel)
    case None => None
    case Some(n) => Some(CleanedText(n))
  }

  // ---------------------------------------------------------------------
  // The first element with text
  // ---------------------------------------------------------------------

  /** The cleaned text of each node. */
  function Texts(ns: seq<Node>): (ts: seq<string>)
    ensures |ts| == |ns|
  {
    seq(|ns|, k requires 0 <= k < |ns| => CleanedText(ns[k]))
  }

  lemma TextsAt(ns: seq<Node>, k: nat)
    requires k < |ns|
    ensures Texts(ns)[k] == CleanedText(ns[k])
  {
  }

  /** The position of the first text that is not empty. */
  function FirstNonEmpty(ts: seq<string>): (r: Option<nat>)
    ensures r.Some? ==> r.value < |ts|
  {
    if ts == [] then None
    else if ts[0] != "" then Some(0)
    else match FirstNonEmpty(ts[1..])
      case None => None
      case Some(k) => Some(k + 1)
  }

  /** `FirstNonEmpty` finds nothing exactly when every text is empty, and
      otherwise a text that is not empty with only empty ones before it. */
  lemma {:induction false} FirstNonEmptySpec(ts: seq<string>)
    ensures FirstNonEmpty(ts).None? <==> forall k | 0 <= k < |ts| :: ts[k] == ""
    ensures FirstNonEmpty(ts).Some? ==>
      ts[FirstNonEmpty(ts).value] != "" && forall j | 0 <= j < FirstNonEmpty(ts).value :: ts[j] == ""
  {
    if ts != [] && ts[0] == "" {
      FirstNonEmptySpec(ts[1..]);
      assert forall k | 1 <= k < |ts| :: ts[k] == ts[1..][k - 1];
    }
  }

  lemma {:induction false} FirstNonEmptyAppend(ts: seq<string>, t: string)
    ensures FirstNonEmpty(ts + [t]) ==
      if FirstNonEmpty(ts).Some? then FirstNonEmpty(ts) else if t != "" then Some(|ts|) else None
  {
    if ts != [] {
      assert (ts + [t])[1..] == ts[1..] + [t];
      FirstNonEmptyAppend(ts[1..], t);
    }
  }

  lemma FirstNonEmptySnoc(ts: seq<string>, n: nat)
    requires n < |ts|
    ensures FirstNonEmpty(ts[..n + 1]) ==
      if FirstNonEmpty(ts[..n]).Some? then FirstNonEmpty(ts[..n]) else if ts[n] != "" then Some(n) else None
  {
    assert ts[..n + 1] == ts[..n] + [ts[n]];
    FirstNonEmptyAppend(ts[..n], ts[n]);
  }

  /** Once a text is found, the texts after it are not looked at. */
  lemma {:induction false} FirstNonEmptyStays(ts: seq<string>, n: nat)
    requires n <= |ts| && FirstNonEmpty(ts[..n]).Some?
    ensures FirstNonEmpty(ts) == FirstNonEmpty(ts[..n])
  {
    if ts[0] == "" {
      assert ts[..n][1..] == ts[1..][..n - 1];
      FirstNonEmptyStays(ts[1..], n - 1);
    }
  }

  /** The text of the first node whose text is not empty. */
  function FirstText(ns: seq<Node>): Option<string> {
    var texts := Texts(ns);
    match FirstNonEmpty(texts)
    case Some(k) => Some(texts[k])
    case None => None
  }

  /** `for elem in elems: text = clean_text(...); if text: return text`. */
  method FindFirstText(elems: seq<Node>) returns (text: Option<string>)
    ensures text == FirstText(elems)
  {
    ghost var texts := Texts(elems);
    for k := 0 to |elems|
      invariant FirstNonEmpty(texts[..k]).None?
    {
      var t := CleanedText(elems[k]);
      TextsAt(elems, k);
      FirstNonEmptySnoc(texts, k);
      if t != "" {
        FirstNonEmptyStays(texts, k + 1);
        return Some(t);
      }
    }
    assert texts[..|elems|] == texts;
    return None;
  }

  /** The first text of the nodes is missing exactly when every node's text
      is empty, and otherwise it is at a node whose text is not empty with
      only text-less nodes before it. */
  lemma FirstNonEmptyTexts(ns: seq<Node>)
    ensures FirstNonEmpty(Texts(ns)).None? <==> forall m | m in ns :: CleanedText(m) == ""
    ensures FirstNonEmpty(Texts(ns)).Some? ==>
      CleanedText(ns[FirstNonEmpty(Texts(ns)).value]) != "" &&
      forall j | 0 <= j < FirstNonEmpty(Texts(ns)).value :: CleanedText(ns[j]) == ""
  {
    var texts := Texts(ns);
    FirstNonEmptySpec(texts);
    match FirstNonEmpty(texts)
    case None =>
      forall m | m in ns ensures CleanedText(m) == "" {
        var i :| 0 <= i < |ns| && ns[i] == m;
        TextsAt(ns, i);
      }
    case Some(k) =>
      TextsAt(ns, k);
      forall j | 0 <= j < k ensures CleanedText(ns[j]) == "" {
        TextsAt(ns, j);
      }
      if forall m | m in ns :: CleanedText(m) == "" {
        assert ns[k] in ns;
      }
  }

  /** The first text is missing exactly when every node's text is empty, and
      otherwise it is the text of a node with only text-less nodes before
      it. */
  lemma FirstTextSpec(ns: seq<Node>) returns (k: nat)
    ensures FirstText(ns).None? <==> forall m | m in ns :: CleanedText(m) == ""
    ensures FirstText(ns).Some? ==>
      k < |ns| && FirstText(ns).value == CleanedText(ns[k]) && CleanedText(ns[k]) != "" &&
      forall j | 0 <= j < k :: CleanedText(ns[j]) == ""
  {
    FirstNonEmptyTexts(ns);
    k := if FirstNonEmpty(Texts(ns)).Some? then FirstNonEmpty(Texts(ns)).value else 0;
    if FirstText(ns).Some? {
      TextsAt(ns, k);
    }
  }

  // ---------------------------------------------------------------------
  // Business name
  // ---------------------------------------------------------------------

  /** The name of `parse_business_page`: the `itemprop` name element's text,
      or, when that is missing or empty, the first `<h1>`'s text; an empty
      name element is kept when there is no `<h1>`. */
  function BusinessName(soup: Node): Option<string> {
    var first := FoundText(soup, NameProp);
    if first.Some? && first.value != "" then first
    else if Find(soup, Heading).Some? then FoundText(soup, Heading)
    else first
  }

  /** The name element wins when it has text; otherwise the heading, when
      there is one; the name is missing only when neither element exists,
      and it is always clean. */
  lemma BusinessNameSpec(soup: Node)
    ensures FoundText(soup, NameProp).Some? && FoundText(soup, NameProp).value != "" ==>
      BusinessName(soup) == FoundText(soup, NameProp)
    ensures (FoundText(soup, NameProp).None? || FoundText(soup, NameProp).value == "") ==>
      BusinessName(soup) == if Find(soup, Heading).Some? then FoundText(soup, Heading) else FoundText(soup, NameProp)
    ensures BusinessName(soup).None? <==> Find(soup, NameProp).None? && Find(soup, Heading).None?
    ensures BusinessName(soup).Some? ==> IsClean(BusinessName(soup).value)
  {
    if Find(soup, NameProp).Some? { CleanedTextIsClean(Find(soup, NameProp).value); }
    if Find(soup, Heading).Some? { CleanedTextIsClean(Find(soup, Heading).value); }
  }

  // ---------------------------------------------------------------------
  // Address
  // ---------------------------------------------------------------------

  /** `_extract_address`: the `data-testid` address element's text, even if
      empty; else the first `aria-label` address element with non-empty
      text; else the first `<address>` element's text. */
  function Address(soup: Node): Option<string> {
    if Find(soup, AddressTestId).Some? then FoundText(soup, AddressTestId)
    else
      var labelled := FirstText(FindAll(soup, AddressLabel));
      if labelled.Some? then labelled else FoundText(soup, AddressTag)
  }

  method ExtractAddress(soup: Node) returns (address: Option<string>)
    ensures address == Address(soup)
  {
    var addressCandidate := Find(soup, AddressTestId);
    if addressCandidate.Some? {
      return Some(CleanedText(addressCandidate.value));
    }
    var text := FindFirstText(FindAll(soup, AddressLabel));
    if text.Some? {
      return text;
    }
    var addrTag := Find(soup, AddressTag);
    if addrTag.Some? {
      return Some(CleanedText(addrTag.value));
    }
    return None;
  }

  /** The address is missing exactly when none of the three kinds of address
      element is on the page with text to offer, and it is always clean. The
      strategies apply in order: a `data-testid` element wins even when its
      text is empty; otherwise the first labelled element with text (at
      index `k`); only when no labelled element has text, the first
      `<address>` element. */
  lemma AddressSpec(soup: Node) returns (k: nat)
    ensures Address(soup).None? <==>
      Find(soup, AddressTestId).None? && Find(soup, AddressTag).None? &&
      forall m | m in FindAll(soup, AddressLabel) :: CleanedText(m) == ""
    ensures Address(soup).Some? ==> IsClean(Address(soup).value)
    ensures Find(soup, AddressTestId).Some? ==>
      Address(soup) == Some(CleanedText(Find(soup, AddressTestId).value))
    ensures Find(soup, AddressTestId).None? && (exists m | m in FindAll(soup, AddressLabel) :: CleanedText(m) != "") ==>
      var labelled := FindAll(soup, AddressLabel);
      k < |labelled| && CleanedText(labelled[k]) != "" &&
      (forall j | 0 <= j < k :: CleanedText(labelled[j]) == "") &&
      Address(soup) == Some(CleanedText(labelled[k]))
    ensures Find(soup, AddressTestId).None? && (forall m | m in FindAll(soup, AddressLabel) :: CleanedText(m) == "") ==>
      Address(soup) == if Find(soup, AddressTag).Some? then Some(CleanedText(Find(soup, AddressTag).value)) else None
  {
    var labelled := FindAll(soup, AddressLabel);
    k := FirstTextSpec(labelled);
    if Find(soup, AddressTestId).Some? {
      CleanedTextIsClean(Find(soup, AddressTestId).value);
    } else if FirstText(labelled).Some? {
      CleanedTextIsClean(labelled[k]);
    } else if Find(soup, AddressTag).Some? {
      CleanedTextIsClean(Find(soup, AddressTag).value);
    }
  }

  // ---------------------------------------------------------------------
  // Phone number
  // ---------------------------------------------------------------------

  /** The two phone patterns, tried in this order:
      `\(\d{3}\)\s*\d{3}-\d{4}` and `\d{3}-\d{3}-\d{4}`. */
  datatype PhoneShape = Parenthesised | Dashed

  const PhonePatterns: seq<PhoneShape> := [Parenthesised, Dashed]

  predicate DigitsAt(t: string, i: int, n: nat) {
    0 <= i && i + n <= |t| && forall k | i <= k < i + n :: IsDigit(t[k])
  }

  /** The end of the run of whitespace that starts at `i`. */
  function SpaceRunEnd(t: string, i: nat): (j: nat)
    requires i <= |t|
    ensures i <= j <= |t|
    decreases |t| - i
  {
    if i == |t| || !IsSpace(t[i]) then i else SpaceRunEnd(t, i + 1)
  }

  lemma {:induction false} SpaceRunEndIs(t: string, i: nat, j: nat)
    requires i <= j < |t| && !IsSpace(t[j]) && forall k | i <= k < j :: IsSpace(t[k])
    ensures SpaceRunEnd(t, i) == j
    decreases j - i
  {
    if i < j {
      SpaceRunEndIs(t, i + 1, j);
    }
  }

  lemma {:induction false} SpaceRunIsSpace(t: string, i: nat)
    requires i <= |t|
    ensures forall k | i <= k < SpaceRunEnd(t, i) :: IsSpace(t[k])
    decreases |t| - i
  {
    if i < |t| && IsSpace(t[i]) {
      SpaceRunIsSpace(t, i + 1);
    }
  }

  /** The end of the match of `shape` that starts at `i`, if there is one;
      `\s*` takes the whole run of whitespace, and giving any back cannot
      help since a digit must follow. */
  function MatchEnd(shape: PhoneShape, t: string, i: nat): (r: Option<nat>)
    requires i <= |t|
    ensures r.Some? ==> i <= r.value <= |t|
  {
    match shape
    case Parenthesised =>
      if i + 5 <= |t| && t[i] == '(' && DigitsAt(t, i + 1, 3) && t[i + 4] == ')' then
        var j := SpaceRunEnd(t, i + 5);
        if DigitsAt(t, j, 3) && j + 3 < |t| && t[j + 3] == '-' && DigitsAt(t, j + 4, 4) then Some(j + 8)
        else None
      else None
    case Dashed =>
      if DigitsAt(t, i, 3) && i + 3 < |t| && t[i + 3] == '-' && DigitsAt(t, i + 4, 3) &&
         i + 7 < |t| && t[i + 7] == '-' && DigitsAt(t, i + 8, 4)
      then Some(i + 12)
      else None
  }

  /** A whole string of the shape, as the regular expression reads it. */
  predicate IsPhoneText(shape: PhoneShape, s: string) {
    match shape
    case Parenthesised =>
      |s| >= 13 && s[0] == '(' && DigitsAt(s, 1, 3) && s[4] == ')' &&
      (forall k | 5 <= k < |s| - 8 :: IsSpace(s[k])) &&
      DigitsAt(s, |s| - 8, 3) && s[|s| - 5] == '-' && DigitsAt(s, |s| - 4, 4)
    case Dashed =>
      |s| == 12 && DigitsAt(s, 0, 3) && s[3] == '-' && DigitsAt(s, 4, 3) && s[7] == '-' && DigitsAt(s, 8, 4)
  }

  /** The match found at `i` ends at `e` exactly when the substring from `i`
      to `e` has the shape. */
  lemma MatchEndIff(shape: PhoneShape, t: string, i: nat, e: nat)
    requires i <= e <= |t|
    ensures MatchEnd(shape, t, i) == Some(e) <==> IsPhoneText(shape, t[i..e])
  {
    if MatchEnd(shape, t, i) == Some(e) {
      if shape == Parenthesised { ParenthesisedMatchIsText(t, i, e); } else { DashedMatchIsText(t, i, e); }
    }
    if IsPhoneText(shape, t[i..e]) {
      if shape == Parenthesised { ParenthesisedTextMatches(t, i, e); } else { DashedTextMatches(t, i, e); }
    }
  }

  /** A run of digits inside `t[i..e]` is the same run in `t`. */
  lemma DigitsAtSlice(t: string, i: nat, e: nat, p: nat, n: nat)
    requires i <= e <= |t| && p + n <= e - i
    ensures DigitsAt(t[i..e], p, n) <==> DigitsAt(t, i + p, n)
  {
    var s := t[i..e];
    if DigitsAt(s, p, n) {
      forall k | i + p <= k < i + p + n ensures IsDigit(t[k]) {
        assert t[k] == s[k - i];
      }
    }
    if DigitsAt(t, i + p, n) {
      forall k | p <= k < p + n ensures IsDigit(s[k]) {
        assert s[k] == t[i + k];
      }
    }
  }

  lemma ParenthesisedTextMatches(t: string, i: nat, e: nat)
    requires i <= e <= |t| && IsPhoneText(Parenthesised, t[i..e])
    ensures MatchEnd(Parenthesised, t, i) == Some(e)
  {
    var s := t[i..e];
    var n := |s|;
    assert t[i] == s[0] && t[i + 4] == s[4] && t[e - 5] == s[n - 5];
    DigitsAtSlice(t, i, e, 1, 3);
    DigitsAtSlice(t, i, e, n - 8, 3);
    DigitsAtSlice(t, i, e, n - 4, 4);
    forall k | i + 5 <= k < e - 8 ensures IsSpace(t[k]) {
      assert t[k] == s[k - i];
    }
    assert !IsSpace(t[e - 8]) by { assert IsDigit(t[i + (n - 8)]); }
    SpaceRunEndIs(t, i + 5, e - 8);
  }

  lemma ParenthesisedMatchIsText(t: string, i: nat, e: nat)
    requires i <= e <= |t| && MatchEnd(Parenthesised, t, i) == Some(e)
    ensures IsPhoneText(Parenthesised, t[i..e])
  {
    var j := SpaceRunEnd(t, i + 5);
    SpaceRunIsSpace(t, i + 5);
    assert e == j + 8;
    var s := t[i..e];
    var n := |s|;
    DigitsAtSlice(t, i, e, 1, 3);
    DigitsAtSlice(t, i, e, n - 8, 3);
    DigitsAtSlice(t, i, e, n - 4, 4);
    assert s[0] == t[i] && s[4] == t[i + 4] && s[n - 5] == t[j + 3];
    forall k | 5 <= k < n - 8 ensures IsSpace(s[k]) {
      assert s[k] == t[i + k];
    }
  }

  lemma DashedTextMatches(t: string, i: nat, e: nat)
    requires i <= e <= |t| && IsPhoneText(Dashed, t[i..e])
    ensures MatchEnd(Dashed, t, i) == Some(e)
  {
    var s := t[i..e];
    assert t[i + 3] == s[3] && t[i + 7] == s[7];
    DigitsAtSlice(t, i, e, 0, 3);
    DigitsAtSlice(t, i, e, 4, 3);
    DigitsAtSlice(t, i, e, 8, 4);
  }

  lemma DashedMatchIsText(t: string, i: nat, e: nat)
    requires i <= e <= |t| && MatchEnd(Dashed, t, i) == Some(e)
    ensures IsPhoneText(Dashed, t[i..e])
  {
    var s := t[i..e];
    assert s[3] == t[i + 3] && s[7] == t[i + 7];
    DigitsAtSlice(t, i, e, 0, 3);
    DigitsAtSlice(t, i, e, 4, 3);
    DigitsAtSlice(t, i, e, 8, 4);
  }

  /** The leftmost match of `shape` starting at `from` or later, as
      `re.search` finds it: its start and end. */
  function SearchFrom(shape: PhoneShape, t: string, from: nat): (r: Option<(nat, nat)>)
    requires from <= |t|
    ensures r.Some? ==> from <= r.value.0 <= r.value.1 <= |t|
    decreases |t| - from
  {
    match MatchEnd(shape, t, from)
    case Some(e) => Some((from, e))
    case None => if from == |t| then None else SearchFrom(shape, t, from + 1)
  }

  lemma {:induction false} SearchFromSpec(shape: PhoneShape, t: string, from: nat)
    requires from <= |t|
    ensures SearchFrom(shape, t, from).Some? ==>
      MatchEnd(shape, t, SearchFrom(shape, t, from).value.0) == Some(SearchFrom(shape, t, from).value.1) &&
      forall i | from <= i < SearchFrom(shape, t, from).value.0 :: MatchEnd(shape, t, i).None?
    ensures SearchFrom(shape, t, from).None? ==> forall i | from <= i <= |t| :: MatchEnd(shape, t, i).None?
    decreases |t| - from
  {
    if MatchEnd(shape, t, from).None? && from < |t| {
      SearchFromSpec(shape, t, from + 1);
    }
  }

  /** `re.search(pattern, text)` for the shape. */
  function Search(shape: PhoneShape, t: string): Option<(nat, nat)> {
    SearchFrom(shape, t, 0)
  }

  /** The leftmost match of the first of `shapes` that matches anywhere. */
  function FirstMatch(shapes: seq<PhoneShape>, text: string): Option<string> {
    if shapes == [] then None
    else match Search(shapes[0], text)
      case Some((i, e)) => Some(text[i..e])
      case None => FirstMatch(shapes[1..], text)
  }

  /** `_extract_phone` on the page text. */
  function Phone(text: string): Option<string> {
    FirstMatch(PhonePatterns, text)
  }

  /** The text holds a substring of the shape. */
  predicate OccursIn(shape: PhoneShape, text: string) {
    exists i, e | 0 <= i <= e <= |text| :: IsPhoneText(shape, text[i..e])
  }

  lemma NotOccurs(shape: PhoneShape, text: string)
    ensures Search(shape, text).None? <==> !OccursIn(shape, text)
  {
    SearchFromSpec(shape, text, 0);
    if Search(shape, text).None? {
      forall i, e | 0 <= i <= e <= |text| ensures !IsPhoneText(shape, text[i..e]) {
        MatchEndIff(shape, text, i, e);
      }
    } else {
      var (i, e) := Search(shape, text).value;
      MatchEndIff(shape, text, i, e);
    }
  }

  lemma Leftmost(shape: PhoneShape, text: string)
    requires Search(shape, text).Some?
    ensures var (i, e) := Search(shape, text).value;
      IsPhoneText(shape, text[i..e]) &&
      forall i', e' | 0 <= i' < i && i' <= e' <= |text| :: !IsPhoneText(shape, text[i'..e'])
  {
    SearchFromSpec(shape, text, 0);
    var (i, e) := Search(shape, text).value;
    MatchEndIff(shape, text, i, e);
    forall i', e' | 0 <= i' < i && i' <= e' <= |text| ensures !IsPhoneText(shape, text[i'..e']) {
      MatchEndIff(shape, text, i', e');
    }
  }

  /** The phone number is missing exactly when neither shape occurs in the
      text; otherwise it is the leftmost substring of the text of the first
      shape that occurs. */
  lemma PhoneSpec(text: string) returns (shape: PhoneShape, i: nat, e: nat)
    ensures Phone(text).None? <==> !OccursIn(Parenthesised, text) && !OccursIn(Dashed, text)
    ensures Phone(text).Some? ==>
      i <= e <= |text| && Phone(text).value == text[i..e] && IsPhoneText(shape, text[i..e]) &&
      (shape == Dashed ==> !OccursIn(Parenthesised, text)) &&
      forall i', e' | 0 <= i' < i && i' <= e' <= |text| :: !IsPhoneText(shape, text[i'..e'])
  {
    shape, i, e := Parenthesised, 0, 0;
    var p := Search(Parenthesised, text);
    var d := Search(Dashed, text);
    assert FirstMatch([], text) == None;
    assert [Dashed][1..] == [];
    assert FirstMatch([Dashed], text) == if d.Some? then Some(text[d.value.0..d.value.1]) else None;
    assert PhonePatterns[1..] == [Dashed];
    assert Phone(text) == if p.Some? then Some(text[p.value.0..p.value.1]) else FirstMatch([Dashed], text);
    NotOccurs(Parenthesised, text);
    NotOccurs(Dashed, text);
    if Search(Parenthesised, text).Some? {
      i, e := Search(Parenthesised, text).value.0, Search(Parenthesised, text).value.1;
      Leftmost(Parenthesised, text);
    } else if Search(Dashed, text).Some? {
      shape, i, e := Dashed, Search(Dashed, text).value.0, Search(Dashed, text).value.1;
      Leftmost(Dashed, text);
    }
  }

  /** `_extract_phone(soup)`: the patterns are tried in order on the page's
      text, and the first that matches gives the number. */
  method ExtractPhone(soup: Node) returns (phone: Option<string>)
    ensures phone == Phone(GetText(soup))
  {
    var text := GetText(soup);
    var patterns := PhonePatterns;
    for k := 0 to |patterns|
      invariant FirstMatch(patterns[k..], text) == Phone(text)
    {
      assert patterns[k..][1..] == patterns[k + 1..];
      var m := Search(patterns[k], text);
      if m.Some? {
        return Some(text[m.value.0..m.value.1]);
      }
    }
    return None;
  }

  lemma PhoneOfParenthesised(t: string)
    requires t == "Call (555) 555-1234 now"
    ensures Phone(t) == Some("(555) 555-1234")
  {
    NoEarlierNumber(t);
    SearchFromSkips(Parenthesised, t, 0, 5);
    NumberAtFive(t);
    assert t[5..19] == "(555) 555-1234";
  }

  lemma NoEarlierNumber(t: string)
    requires t == "Call (555) 555-1234 now"
    ensures forall k | 0 <= k < 5 :: MatchEnd(Parenthesised, t, k).None?
  {
    forall k | 0 <= k < 5 ensures MatchEnd(Parenthesised, t, k).None? {
      assert t[k] != '(';
    }
  }

  lemma NumberAtFive(t: string)
    requires t == "Call (555) 555-1234 now"
    ensures MatchEnd(Parenthesised, t, 5) == Some(19)
  {
    SpaceRunEndIs(t, 10, 11);
    assert t[5] == '(' && t[9] == ')' && t[14] == '-';
    assert DigitsAt(t, 6, 3) by {
      forall k | 6 <= k < 9 ensures IsDigit(t[k]) { assert k == 6 || k == 7 || k == 8; }
    }
    assert DigitsAt(t, 11, 3) by {
      forall k | 11 <= k < 14 ensures IsDigit(t[k]) { assert k == 11 || k == 12 || k == 13; }
    }
    assert DigitsAt(t, 15, 4) by {
      forall k | 15 <= k < 19 ensures IsDigit(t[k]) { assert k == 15 || k == 16 || k == 17 || k == 18; }
    }
  }

  /** Positions where the shape does not match are passed over. */
  lemma {:induction false} SearchFromSkips(shape: PhoneShape, t: string, from: nat, i: nat)
    requires from <= i <= |t| && forall k | from <= k < i :: MatchEnd(shape, t, k).None?
    ensures SearchFrom(shape, t, from) == SearchFrom(shape, t, i)
    decreases i - from
  {
    if from < i {
      SearchFromSkips(shape, t, from + 1, i);
    }
  }

  // ---------------------------------------------------------------------
  // Ratings and the top review
  // ---------------------------------------------------------------------

  /** `_extract_overall_rating`: the first star-rating label of the page. */
  function OverallRating(soup: Node): Option<Decimal> {
    StarRating(soup)
  }

  /** The overall rating is read from the label of the first star-rating
      element in document order (at index `k` of the descendants): it is
      present exactly when that label has a digit, and it is then the number
      that comes first in the label. A page without such an element has no
      rating. */
  lemma OverallRatingSpec(soup: Node) returns (k: nat)
    ensures (forall m | m in Descendants(soup) :: !Matches(StarRatingLabel, m)) ==> OverallRating(soup).None?
    ensures (exists m | m in Descendants(soup) :: Matches(StarRatingLabel, m)) ==>
      var ds := Descendants(soup);
      k < |ds| && Matches(StarRatingLabel, ds[k]) && (forall j | 0 <= j < k :: !Matches(StarRatingLabel, ds[j])) &&
      (var aria := ds[k].attrs["aria-label"];
       (OverallRating(soup).Some? <==> exists i | 0 <= i < |aria| :: IsDigit(aria[i])) &&
       (OverallRating(soup).Some? ==> LeftmostNumber(aria, OverallRating(soup).value)))
  {
    var ds := Descendants(soup);
    FindSpec(soup, StarRatingLabel);
    match FirstIndex(StarRatingLabel, ds)
    case None => k := 0;
    case Some(i) => k := i;
  }

  /** The review blocks: the `itemprop` review elements, or, when there is
      none, the `data-testid` review elements. */
  function ReviewBlocks(soup: Node): seq<Node> {
    var byProp := FindAll(soup, ReviewProp);
    if byProp == [] then FindAll(soup, ReviewTestId) else byProp
  }

  /** The review read from a block. */
  function ReviewOf(block: Node): Review {
    Review(FoundText(block, AuthorProp), StarRating(block), Some(CleanedText(block)))
  }

  /** The review of the first of `blocks` with text. */
  function FirstReview(blocks: seq<Node>): Option<Review> {
    match FirstNonEmpty(Texts(blocks))
    case None => None
    case Some(k) => Some(ReviewOf(blocks[k]))
  }

  /** `_extract_top_review`: the review of the first block with text. */
  function TopReview(soup: Node): Option<Review> {
    FirstReview(ReviewBlocks(soup))
  }

  method ExtractTopReview(soup: Node) returns (review: Option<Review>)
    ensures review == TopReview(soup)
  {
    var reviewBlocks := FindAll(soup, ReviewProp);
    if reviewBlocks == [] {
      reviewBlocks := FindAll(soup, ReviewTestId);
    }
    review := ScanReviews(reviewBlocks);
  }

  /** The loop of `_extract_top_review` over the review blocks. */
  method ScanReviews(reviewBlocks: seq<Node>) returns (review: Option<Review>)
    ensures review == FirstReview(reviewBlocks)
  {
    ghost var texts := Texts(reviewBlocks);
    for k := 0 to |reviewBlocks|
      invariant FirstNonEmpty(texts[..k]).None?
    {
      var block := reviewBlocks[k];
      var text := CleanedText(block);
      TextsAt(reviewBlocks, k);
      FirstNonEmptySnoc(texts, k);
      if text == "" {
        continue;
      }
      FirstNonEmptyStays(texts, k + 1);
      var r := ReadReview(block, text);
      return Some(r);
    }
    assert texts[..|reviewBlocks|] == texts;
    return None;
  }

  /** The body of the loop of `_extract_top_review` once a block with text
      is found: the rating and the author inside the block. */
  method ReadReview(block: Node, text: string) returns (review: Review)
    requires text == CleanedText(block)
    ensures review == ReviewOf(block)
  {
    var ratingVal: Option<Decimal> := None;
    var ratingNode := Find(block, StarRatingLabel);
    if ratingNode.Some? {
      ratingVal := ExtractRatingFromAria(Some(ratingNode.value.attrs["aria-label"]));
    }
    var author: Option<string> := None;
    var authorNode := Find(block, AuthorProp);
    if authorNode.Some? {
      author := Some(CleanedText(authorNode.value));
    }
    review := Review(author, ratingVal, Some(text));
  }

  /** The top review is missing exactly when no review block has text;
      otherwise it comes from the first review block whose text is not
      empty, its text is that block's clean text and its author and rating
      come from inside that block. */
  lemma TopReviewSpec(soup: Node) returns (k: nat)
    ensures TopReview(soup).None? <==> forall b | b in ReviewBlocks(soup) :: CleanedText(b) == ""
    ensures TopReview(soup).Some? ==>
      k < |ReviewBlocks(soup)| && CleanedText(ReviewBlocks(soup)[k]) != "" &&
      (forall j | 0 <= j < k :: CleanedText(ReviewBlocks(soup)[j]) == "") &&
      TopReview(soup).value == ReviewOf(ReviewBlocks(soup)[k]) &&
      IsClean(TopReview(soup).value.text.value)
  {
    var blocks := ReviewBlocks(soup);
    FirstNonEmptyTexts(blocks);
    k := if FirstNonEmpty(Texts(blocks)).Some? then FirstNonEmpty(Texts(blocks)).value else 0;
    if TopReview(soup).Some? {
      CleanedTextIsClean(blocks[k]);
    }
  }

  // ---------------------------------------------------------------------
  // The business page
  // ---------------------------------------------------------------------

  /** The record `parse_business_page` assembles: the overall rating unless
      it is missing, then the top review's rating. */
  function BusinessPage(soup: Node, url: Option<string>): Business {
    var topReview := TopReview(soup);
    var rating := OverallRating(soup);
    Business(
      BusinessName(soup),
      Address(soup),
      Phone(GetText(soup)),
      if rating.Some? then rating else if topReview.Some? then topReview.value.rating else None,
      if topReview.Some? then topReview.value.text else None,
      url)
  }

  /** The page's own rating wins over the top review's; the review text is
      present exactly when a top review is, and is then not empty; the URL
      is the one passed in. */
  lemma BusinessPageSpec(soup: Node, url: Option<string>)
    ensures BusinessPage(soup, url).url == url
    ensures OverallRating(soup).Some? ==> BusinessPage(soup, url).rating == OverallRating(soup)
    ensures OverallRating(soup).None? && TopReview(soup).Some? ==>
      BusinessPage(soup, url).rating == TopReview(soup).value.rating
    ensures OverallRating(soup).None? && TopReview(soup).None? ==> BusinessPage(soup, url).rating.None?
    ensures BusinessPage(soup, url).reviewText.Some? <==> TopReview(soup).Some?
    ensures BusinessPage(soup, url).reviewText.Some? ==> BusinessPage(soup, url).reviewText.value != ""
    ensures BusinessPage(soup, url).reviewText == if TopReview(soup).Some? then TopReview(soup).value.text else None
    ensures BusinessPage(soup, url).businessName == BusinessName(soup)
    ensures BusinessPage(soup, url).address == Address(soup)
    ensures BusinessPage(soup, url).phoneNumber == Phone(GetText(soup))
  {
    var k := TopReviewSpec(soup);
  }

  /** `parse_business_page(html, url)` on the parsed page: the dictionary of
      the assembled record. */
  method ParseBusinessPage(soup: Node, url: Option<string>) returns (d: Value)
    ensures d == ToDict(BusinessPage(soup, url))
  {
    var name := FoundText(soup, NameProp);
    if name.None? || name.value == "" {
      var h1 := Find(soup, Heading);
      if h1.Some? {
        name := Some(CleanedText(h1.value));
      }
    }
    var address := ExtractAddress(soup);
    var phone := ExtractPhone(soup);
    var rating := OverallRating(soup);
    var topReview := ExtractTopReview(soup);
    var business := Business(
      name,
      address,
      phone,
      if rating.Some? then rating else if topReview.Some? then topReview.value.rating else None,
      if topReview.Some? then topReview.value.text else None,
      url);
    d := ToDict(business);
  }
}
