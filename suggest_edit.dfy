/**
 * The text-based search-and-replace helper of src/tools/suggestEdit.ts.
 *
 * The helper escapes the search text so that the global regular expression it
 * builds matches the text literally; it collects the non-overlapping matches
 * in the document's text content (at most 1000 per suggestion), works out the
 * part of each match that is to be replaced, maps that text offset range to
 * document positions by walking the text nodes, and dispatches one
 * replacement per match.
 *
 * The document is its sequence of text nodes in document order; the editor
 * view is a `View` object holding the document and the log of requests
 * dispatched to it. How the editor applies a replacement is a parameter.
 */
module SuggestEdit {
  import opened JsValues

  // ---------------------------------------------------------------------------
  // escapeRegExp
  // ---------------------------------------------------------------------------

  /** The characters `. * + ? ^ $ { } ( ) | [ ] \` that escapeRegExp escapes. */
  predicate IsRegExpSyntax(c: char) {
    c in ".*+?^${}()|[]\\"
  }

  /** The number of characters of s that escapeRegExp escapes. */
  function SyntaxCount(s: string): nat {
    if s == [] then 0 else (if IsRegExpSyntax(s[0]) then 1 else 0) + SyntaxCount(s[1..])
  }

  /** `string.replace(/[.*+?^${}()|[\]\\]/g, "\\$&")` */
  function EscapeRegExp(s: string): (r: string)
    ensures |r| == |s| + SyntaxCount(s)
  {
    if s == [] then ""
    else (if IsRegExpSyntax(s[0]) then ['\\', s[0]] else [s[0]]) + EscapeRegExp(s[1..])
  }

  /**
   * The literal text a regular expression made only of literal characters and
   * escaped syntax characters matches, or None if the pattern holds anything
   * else (an unescaped syntax character, or any other escape).
   */
  function LiteralText(pattern: string): Option<string> {
    if pattern == [] then Some("")
    else if pattern[0] == '\\' then
      if |pattern| >= 2 && IsRegExpSyntax(pattern[1]) then
        match LiteralText(pattern[2..])
        case Some(rest) => Some([pattern[1]] + rest)
        case None => None
      else None
    else if IsRegExpSyntax(pattern[0]) then None
    else
      match LiteralText(pattern[1..])
      case Some(rest) => Some([pattern[0]] + rest)
      case None => None
  }

  /** The escaped pattern is a literal pattern, and the literal it denotes is the input. */
  lemma {:induction false} EscapedPatternIsLiteral(s: string)
    ensures LiteralText(EscapeRegExp(s)) == Some(s)
  {
    if s != [] {
      EscapedPatternIsLiteral(s[1..]);
      var e := EscapeRegExp(s);
      if IsRegExpSyntax(s[0]) {
        assert e[2..] == EscapeRegExp(s[1..]);
      } else {
        assert e[1..] == EscapeRegExp(s[1..]);
      }
      assert s == [s[0]] + s[1..];
    }
  }

  /** Text without syntax characters is its own pattern. */
  lemma {:induction false} EscapePlainText(s: string)
    requires forall i :: 0 <= i < |s| ==> !IsRegExpSyntax(s[i])
    ensures EscapeRegExp(s) == s
  {
    if s != [] {
      EscapePlainText(s[1..]);
      assert s == [s[0]] + s[1..];
    }
  }

  // ---------------------------------------------------------------------------
  // Literal search, as the escaped global regular expression performs it
  // ---------------------------------------------------------------------------

  predicate OccursAt(text: string, pat: string, i: int) {
    0 <= i && i + |pat| <= |text| && text[i..i + |pat|] == pat
  }

  /** `regex.exec(text)` with `lastIndex == from`: the leftmost occurrence at or after from. */
  function NextOccurrence(text: string, pat: string, from: nat): (r: Option<nat>)
    ensures r.Some? ==> from <= r.value && r.value + |pat| <= |text|
    decreases |text| - from
  {
    if from + |pat| > |text| then None
    else if text[from..from + |pat|] == pat then Some(from)
    else NextOccurrence(text, pat, from + 1)
  }

  /** exec finds an occurrence and skips none; when it finds nothing there is none. */
  lemma {:induction false} NextOccurrenceIsLeftmost(text: string, pat: string, from: nat)
    ensures var r := NextOccurrence(text, pat, from);
      && (r.Some? ==> OccursAt(text, pat, r.value))
      && (r.Some? ==> forall j :: from <= j < r.value ==> !OccursAt(text, pat, j))
      && (r.None? ==> forall j :: from <= j ==> !OccursAt(text, pat, j))
    decreases |text| - from
  {
    if from + |pat| <= |text| && text[from..from + |pat|] != pat {
      NextOccurrenceIsLeftmost(text, pat, from + 1);
    }
  }

  /** Every leftmost, non-overlapping occurrence of a non-empty pattern at or after from. */
  function AllMatches(text: string, pat: string, from: nat): seq<nat>
    requires pat != []
    decreases if from <= |text| then |text| - from else 0
  {
    match NextOccurrence(text, pat, from)
    case None => []
    case Some(i) => [i] + AllMatches(text, pat, i + |pat|)
  }

  /** Every collected match is an occurrence, at or after the starting offset. */
  lemma {:induction false} MatchesAreOccurrences(text: string, pat: string, from: nat)
    requires pat != []
    ensures forall k :: 0 <= k < |AllMatches(text, pat, from)| ==>
      from <= AllMatches(text, pat, from)[k] && OccursAt(text, pat, AllMatches(text, pat, from)[k])
    decreases if from <= |text| then |text| - from else 0
  {
    var n := NextOccurrence(text, pat, from);
    NextOccurrenceIsLeftmost(text, pat, from);
    if n.Some? {
      MatchesAreOccurrences(text, pat, n.value + |pat|);
    }
  }

  /** Consecutive matches do not overlap (so they are strictly increasing). */
  lemma {:induction false} MatchesDoNotOverlap(text: string, pat: string, from: nat)
    requires pat != []
    ensures forall k :: 0 <= k < |AllMatches(text, pat, from)| - 1 ==>
      AllMatches(text, pat, from)[k] + |pat| <= AllMatches(text, pat, from)[k + 1]
    decreases if from <= |text| then |text| - from else 0
  {
    var n := NextOccurrence(text, pat, from);
    if n.Some? {
      var next := n.value + |pat|;
      MatchesDoNotOverlap(text, pat, next);
      MatchesAreOccurrences(text, pat, next);
    }
  }

  /** No occurrence is missed: each one at or after from starts inside a collected match. */
  lemma {:induction false} MatchesCoverOccurrences(text: string, pat: string, from: nat, j: nat)
    requires pat != []
    requires from <= j && OccursAt(text, pat, j)
    ensures exists k :: (0 <= k < |AllMatches(text, pat, from)| &&
      AllMatches(text, pat, from)[k] <= j < AllMatches(text, pat, from)[k] + |pat|)
    decreases if from <= |text| then |text| - from else 0
  {
    var all := AllMatches(text, pat, from);
    var n := NextOccurrence(text, pat, from);
    NextOccurrenceIsLeftmost(text, pat, from);
    assert n.Some?;
    var i := n.value;
    assert all[0] == i;
    if j >= i + |pat| {
      var rest := AllMatches(text, pat, i + |pat|);
      MatchesCoverOccurrences(text, pat, i + |pat|, j);
      var k :| 0 <= k < |rest| && rest[k] <= j < rest[k] + |pat|;
      assert all[k + 1] == rest[k];
    }
  }

  /** The safety limit on the matches collected for one suggestion. */
  const MaxMatches: nat := 1000

  /** The first n elements of s, or all of s if it is shorter. */
  function Take<T>(s: seq<T>, n: nat): (r: seq<T>)
    ensures |r| == if |s| <= n then |s| else n
    ensures |r| <= n && |r| <= |s|
    ensures |s| <= n ==> r == s
    ensures r == s[..|r|]
  {
    if |s| <= n then s else s[..n]
  }

  lemma TakeWhole<T>(all: seq<T>, done: seq<T>, rest: seq<T>, n: nat)
    requires all == done + rest && rest == [] && |done| <= n
    ensures Take(all, n) == done
  {
  }

  lemma TakeAtLimit<T>(all: seq<T>, done: seq<T>, rest: seq<T>, n: nat)
    requires all == done + rest && rest != [] && |done| == n
    ensures Take(all, n) == done
  {
    assert all[..n] == done;
  }

  lemma AllMatchesStep(text: string, pat: string, from: nat, i: nat)
    requires pat != [] && NextOccurrence(text, pat, from) == Some(i)
    ensures AllMatches(text, pat, from) == [i] + AllMatches(text, pat, i + |pat|)
    ensures i + |pat| <= |text|
  {
  }

  /**
   * The match loop of suggestEdit: the escaped global regex is run until it
   * finds nothing more or the number of matches passes the limit.
   */
  method CollectMatches(docText: string, searchText: string) returns (matches: seq<nat>)
    requires searchText != []
    ensures matches == Take(AllMatches(docText, searchText, 0), MaxMatches)
  {
    ghost var all := AllMatches(docText, searchText, 0);
    var lastIndex: nat := 0;
    var matchCount: nat := 0;
    matches := [];
    while true
      invariant lastIndex <= |docText|
      invariant matchCount == |matches| <= MaxMatches
      invariant all == matches + AllMatches(docText, searchText, lastIndex)
      decreases |docText| - lastIndex
    {
      var m := NextOccurrence(docText, searchText, lastIndex);
      if m.None? {
        TakeWhole(all, matches, AllMatches(docText, searchText, lastIndex), MaxMatches);
        break;
      }
      var index := m.value;
      ghost var rest := AllMatches(docText, searchText, lastIndex);
      AllMatchesStep(docText, searchText, lastIndex, index);
      // a successful exec moves lastIndex past the match; the guard against
      // zero-length matches never fires, since the pattern is not empty
      lastIndex := index + |searchText|;
      matchCount := matchCount + 1;
      if matchCount > MaxMatches {
        TakeAtLimit(all, matches, rest, MaxMatches);
        break;
      }
      ConcatAssociative(matches, [index], AllMatches(docText, searchText, lastIndex));
      matches := matches + [index];
    }
  }

  // ---------------------------------------------------------------------------
  // Suggestions and the part of a match they replace
  // ---------------------------------------------------------------------------

  /**
   * A TextSuggestion. Absent optional texts are empty strings: the source
   * reads each of them as `x || ""` and tests `reason` for truthiness only.
   */
  datatype TextSuggestion = TextSuggestion(
    textToReplace: string,
    textReplacement: string,
    reason: string,
    textBefore: string,
    textAfter: string)

  /** The complete search text: the context before, the text to replace, the context after. */
  function SearchText(s: TextSuggestion): (r: string)
    ensures s.textToReplace != "" ==> r != ""
  {
    s.textBefore + s.textToReplace + s.textAfter
  }

  /** A replacement planned against the captured text content: [textStart, textEnd) and its suggestion. */
  datatype Planned = Planned(textStart: nat, textEnd: nat, suggestion: TextSuggestion)

  /** The part of the match at `index` that the suggestion replaces. */
  function SpanOfMatch(index: nat, s: TextSuggestion): (p: Planned)
    ensures p.suggestion == s
    ensures p.textEnd - p.textStart == |s.textToReplace|
  {
    var textMatchStart := index + |s.textBefore|;
    Planned(textMatchStart, textMatchStart + |s.textToReplace|, s)
  }

  /**
   * Inside an occurrence of the search text, the replaced part lies within the
   * match, holds exactly the text to replace, and has the two contexts around it.
   */
  lemma SpanInsideMatch(docText: string, index: nat, s: TextSuggestion)
    requires OccursAt(docText, SearchText(s), index)
    ensures var p := SpanOfMatch(index, s);
      && index <= p.textStart <= p.textEnd <= index + |SearchText(s)| <= |docText|
      && docText[p.textStart..p.textEnd] == s.textToReplace
      && docText[index..p.textStart] == s.textBefore
      && docText[p.textEnd..index + |SearchText(s)|] == s.textAfter
  {
    var b, t, a := s.textBefore, s.textToReplace, s.textAfter;
    var p := SpanOfMatch(index, s);
    assert p.textStart == index + |b| && p.textEnd == index + |b| + |t|;
    var hi := index + |SearchText(s)|;
    var whole := docText[index..hi];
    assert whole == b + t + a;
    assert whole[..|b|] == b;
    assert whole[|b|..|b| + |t|] == t;
    assert whole[|b| + |t|..] == a;
    SubSlice(docText, index, hi, 0, |b|);
    SubSlice(docText, index, hi, |b|, |b| + |t|);
    SubSlice(docText, index, hi, |b| + |t|, |whole|);
  }

  /** A slice of a slice is a slice of the whole. */
  lemma SubSlice(text: string, lo: nat, hi: nat, i: nat, j: nat)
    requires lo <= hi <= |text| && i <= j <= hi - lo
    ensures text[lo..hi][i..j] == text[lo + i..lo + j]
  {
    var inner, outer := text[lo..hi][i..j], text[lo + i..lo + j];
    assert |inner| == |outer|;
    forall k | 0 <= k < |inner| ensures inner[k] == outer[k] {
      assert inner[k] == text[lo..hi][i + k] == text[lo + i + k];
    }
  }

  /** The replacements of one suggestion, one per match, in match order. */
  function SpansOf(matches: seq<nat>, s: TextSuggestion): (r: seq<Planned>)
    ensures |r| == |matches|
    ensures forall k :: 0 <= k < |r| ==> r[k] == SpanOfMatch(matches[k], s)
  {
    if matches == [] then [] else SpansOf(matches[..|matches| - 1], s) + [SpanOfMatch(matches[|matches| - 1], s)]
  }

  /** The matches collected for one suggestion in the captured text content. */
  function SuggestionMatches(docText: string, s: TextSuggestion): seq<nat>
    requires s.textToReplace != ""
  {
    Take(AllMatches(docText, SearchText(s), 0), MaxMatches)
  }

  /** The replacements of one suggestion; a suggestion with nothing to replace is skipped. */
  function SuggestionPlan(docText: string, s: TextSuggestion): seq<Planned> {
    if s.textToReplace == "" then [] else SpansOf(SuggestionMatches(docText, s), s)
  }

  /** All replacements, suggestion by suggestion, all computed against one captured text. */
  function Plan(docText: string, suggestions: seq<TextSuggestion>): seq<Planned> {
    if suggestions == [] then []
    else Plan(docText, suggestions[..|suggestions| - 1]) + SuggestionPlan(docText, suggestions[|suggestions| - 1])
  }

  lemma PlanSnoc(docText: string, suggestions: seq<TextSuggestion>, i: nat)
    requires i < |suggestions|
    ensures Plan(docText, suggestions[..i + 1]) == Plan(docText, suggestions[..i]) + SuggestionPlan(docText, suggestions[i])
  {
    assert suggestions[..i + 1][..i] == suggestions[..i];
  }

  /** A suggestion with an empty text to replace contributes no replacement. */
  lemma EmptySuggestionSkipped(docText: string, s: TextSuggestion)
    requires s.textToReplace == ""
    ensures SuggestionPlan(docText, s) == []
  {
  }

  /** At most 1000 replacements per suggestion, all at strictly increasing, non-overlapping matches. */
  lemma SuggestionPlanShape(docText: string, s: TextSuggestion)
    ensures |SuggestionPlan(docText, s)| <= MaxMatches
    ensures forall k :: 0 <= k < |SuggestionPlan(docText, s)| - 1 ==>
      SuggestionPlan(docText, s)[k].textStart + |SearchText(s)| <= SuggestionPlan(docText, s)[k + 1].textStart
  {
    if s.textToReplace != "" {
      var all := AllMatches(docText, SearchText(s), 0);
      MatchesDoNotOverlap(docText, SearchText(s), 0);
      var ms := SuggestionMatches(docText, s);
      assert forall k :: 0 <= k < |ms| ==> ms[k] == all[k];
    }
  }

  /** Every planned replacement covers exactly the text to replace, within its context, in the captured text. */
  lemma {:induction false} PlanTargetsTextToReplace(docText: string, suggestions: seq<TextSuggestion>, k: nat)
    requires k < |Plan(docText, suggestions)|
    ensures var p := Plan(docText, suggestions)[k];
      && p.textStart <= p.textEnd <= |docText|
      && docText[p.textStart..p.textEnd] == p.suggestion.textToReplace
      && p.suggestion.textToReplace != ""
      && p.suggestion in suggestions
  {
    var n := |suggestions|;
    var init := Plan(docText, suggestions[..n - 1]);
    var s := suggestions[n - 1];
    if k < |init| {
      PlanTargetsTextToReplace(docText, suggestions[..n - 1], k);
      assert init[k] == Plan(docText, suggestions)[k];
    } else {
      var ms := SuggestionMatches(docText, s);
      var all := AllMatches(docText, SearchText(s), 0);
      MatchesAreOccurrences(docText, SearchText(s), 0);
      var m := k - |init|;
      assert ms[m] == all[m];
      SpanInsideMatch(docText, ms[m], s);
    }
  }

  /** The number of replacements: per suggestion, its collected matches, or none if it is skipped. */
  function ReplacementTotal(docText: string, suggestions: seq<TextSuggestion>): nat {
    if suggestions == [] then 0
    else
      var s := suggestions[|suggestions| - 1];
      ReplacementTotal(docText, suggestions[..|suggestions| - 1]) +
        (if s.textToReplace == "" then 0 else |SuggestionMatches(docText, s)|)
  }

  lemma {:induction false} PlanSize(docText: string, suggestions: seq<TextSuggestion>)
    ensures |Plan(docText, suggestions)| == ReplacementTotal(docText, suggestions)
    ensures |Plan(docText, suggestions)| <= MaxMatches * |suggestions|
  {
    if suggestions != [] {
      PlanSize(docText, suggestions[..|suggestions| - 1]);
    }
  }

  // ---------------------------------------------------------------------------
  // findDocumentPositions
  // ---------------------------------------------------------------------------

  /** A text node: its document position and its text. */
  datatype TextNode = TextNode(pos: int, text: string)

  /**
   * A document: its text nodes in document order and whether some top-level
   * node carries marks.
   */
  datatype Doc = Doc(textNodes: seq<TextNode>, topLevelMarked: bool)

  datatype Positions = Positions(from: int, to: int)

  /** `doc.textContent`: the texts of the text nodes, concatenated. */
  function TextOf(nodes: seq<TextNode>): string {
    if nodes == [] then "" else nodes[0].text + TextOf(nodes[1..])
  }

  function TextContent(doc: Doc): string {
    TextOf(doc.textNodes)
  }

  /** The text offset at which node k starts: the length of the texts before it. */
  function NodeStart(nodes: seq<TextNode>, k: nat): nat
    requires k <= |nodes|
  {
    if k == 0 then 0 else |nodes[0].text| + NodeStart(nodes[1..], k - 1)
  }

  /**
   * The start test of the walk for node k, `textStart >= nodeTextStart &&
   * textStart < nodeTextEnd`, when the text of the nodes begins at offset acc.
   */
  predicate HoldsStartAt(nodes: seq<TextNode>, k: nat, textStart: int, acc: nat)
    requires k < |nodes|
  {
    acc + NodeStart(nodes, k) <= textStart < acc + NodeStart(nodes, k) + |nodes[k].text|
  }

  /** The end test of the walk for node k, `textEnd > nodeTextStart && textEnd <= nodeTextEnd`. */
  predicate HoldsEndAt(nodes: seq<TextNode>, k: nat, textEnd: int, acc: nat)
    requires k < |nodes|
  {
    acc + NodeStart(nodes, k) < textEnd <= acc + NodeStart(nodes, k) + |nodes[k].text|
  }

  /** The start position found walking nodes whose text begins at offset acc. */
  function FindStart(nodes: seq<TextNode>, textStart: int, acc: nat): Option<int> {
    if nodes == [] then None
    else if acc <= textStart < acc + |nodes[0].text| then Some(nodes[0].pos + (textStart - acc))
    else FindStart(nodes[1..], textStart, acc + |nodes[0].text|)
  }

  /** The end position found walking nodes whose text begins at offset acc. */
  function FindEnd(nodes: seq<TextNode>, textEnd: int, acc: nat): Option<int> {
    if nodes == [] then None
    else if acc < textEnd <= acc + |nodes[0].text| then Some(nodes[0].pos + (textEnd - acc))
    else FindEnd(nodes[1..], textEnd, acc + |nodes[0].text|)
  }

  /** What findDocumentPositions returns on a document. */
  function DocumentPositions(doc: Doc, textStart: int, textEnd: int): Positions {
    var s := FindStart(doc.textNodes, textStart, 0);
    var e := FindEnd(doc.textNodes, textEnd, 0);
    if s.Some? && e.Some? then
      if doc.topLevelMarked then Positions(s.value - 1, e.value - 1) else Positions(s.value, e.value)
    else Positions(textStart, textEnd)
  }

  /** The walk past the first node tests node j + 1 as node j of the rest. */
  lemma HoldsShift(nodes: seq<TextNode>, j: nat, t: int, acc: nat)
    requires j + 1 < |nodes|
    ensures HoldsStartAt(nodes, j + 1, t, acc) == HoldsStartAt(nodes[1..], j, t, acc + |nodes[0].text|)
    ensures HoldsEndAt(nodes, j + 1, t, acc) == HoldsEndAt(nodes[1..], j, t, acc + |nodes[0].text|)
  {
  }

  lemma {:induction false} FindStartFrom(nodes: seq<TextNode>, textStart: int, k: nat, acc: nat)
    requires k < |nodes| && HoldsStartAt(nodes, k, textStart, acc)
    requires forall j :: 0 <= j < k ==> !HoldsStartAt(nodes, j, textStart, acc)
    ensures FindStart(nodes, textStart, acc) == Some(nodes[k].pos + (textStart - acc - NodeStart(nodes, k)))
    decreases k
  {
    if k > 0 {
      assert !HoldsStartAt(nodes, 0, textStart, acc);
      var rest, acc' := nodes[1..], acc + |nodes[0].text|;
      forall j | 0 <= j < k - 1
        ensures !HoldsStartAt(rest, j, textStart, acc')
      {
        HoldsShift(nodes, j, textStart, acc);
      }
      HoldsShift(nodes, k - 1, textStart, acc);
      FindStartFrom(nodes[1..], textStart, k - 1, acc + |nodes[0].text|);
    }
  }

  /** The walk finds the start in the first node whose text range holds textStart, at the matching offset. */
  lemma FindStartIsFirstHolder(nodes: seq<TextNode>, textStart: int, k: nat)
    requires k < |nodes| && HoldsStartAt(nodes, k, textStart, 0)
    requires forall j :: 0 <= j < k ==> !HoldsStartAt(nodes, j, textStart, 0)
    ensures FindStart(nodes, textStart, 0) == Some(nodes[k].pos + (textStart - NodeStart(nodes, k)))
  {
    FindStartFrom(nodes, textStart, k, 0);
  }

  lemma {:induction false} FindEndFrom(nodes: seq<TextNode>, textEnd: int, k: nat, acc: nat)
    requires k < |nodes| && HoldsEndAt(nodes, k, textEnd, acc)
    requires forall j :: 0 <= j < k ==> !HoldsEndAt(nodes, j, textEnd, acc)
    ensures FindEnd(nodes, textEnd, acc) == Some(nodes[k].pos + (textEnd - acc - NodeStart(nodes, k)))
    decreases k
  {
    if k > 0 {
      assert !HoldsEndAt(nodes, 0, textEnd, acc);
      var rest, acc' := nodes[1..], acc + |nodes[0].text|;
      forall j | 0 <= j < k - 1
        ensures !HoldsEndAt(rest, j, textEnd, acc')
      {
        HoldsShift(nodes, j, textEnd, acc);
      }
      HoldsShift(nodes, k - 1, textEnd, acc);
      FindEndFrom(nodes[1..], textEnd, k - 1, acc + |nodes[0].text|);
    }
  }

  /** The walk finds the end in the first node whose text range ends at or after textEnd. */
  lemma FindEndIsFirstHolder(nodes: seq<TextNode>, textEnd: int, k: nat)
    requires k < |nodes| && HoldsEndAt(nodes, k, textEnd, 0)
    requires forall j :: 0 <= j < k ==> !HoldsEndAt(nodes, j, textEnd, 0)
    ensures FindEnd(nodes, textEnd, 0) == Some(nodes[k].pos + (textEnd - NodeStart(nodes, k)))
  {
    FindEndFrom(nodes, textEnd, k, 0);
  }

  lemma {:induction false} NoStartFrom(nodes: seq<TextNode>, textStart: int, acc: nat)
    requires forall j :: 0 <= j < |nodes| ==> !HoldsStartAt(nodes, j, textStart, acc)
    ensures FindStart(nodes, textStart, acc).None?
    decreases |nodes|
  {
    if nodes != [] {
      assert !HoldsStartAt(nodes, 0, textStart, acc);
      var rest, acc' := nodes[1..], acc + |nodes[0].text|;
      forall j | 0 <= j < |nodes| - 1
        ensures !HoldsStartAt(rest, j, textStart, acc')
      {
        HoldsShift(nodes, j, textStart, acc);
      }
      NoStartFrom(nodes[1..], textStart, acc + |nodes[0].text|);
    }
  }

  lemma {:induction false} NoEndFrom(nodes: seq<TextNode>, textEnd: int, acc: nat)
    requires forall j :: 0 <= j < |nodes| ==> !HoldsEndAt(nodes, j, textEnd, acc)
    ensures FindEnd(nodes, textEnd, acc).None?
    decreases |nodes|
  {
    if nodes != [] {
      assert !HoldsEndAt(nodes, 0, textEnd, acc);
      var rest, acc' := nodes[1..], acc + |nodes[0].text|;
      forall j | 0 <= j < |nodes| - 1
        ensures !HoldsEndAt(rest, j, textEnd, acc')
      {
        HoldsShift(nodes, j, textEnd, acc);
      }
      NoEndFrom(nodes[1..], textEnd, acc + |nodes[0].text|);
    }
  }

  /**
   * When no node's text range holds textStart, or none holds textEnd, the
   * offsets come back as they are.
   */
  lemma FallBackToTextOffsets(doc: Doc, textStart: int, textEnd: int)
    requires (forall j :: 0 <= j < |doc.textNodes| ==> !HoldsStartAt(doc.textNodes, j, textStart, 0)) ||
             (forall j :: 0 <= j < |doc.textNodes| ==> !HoldsEndAt(doc.textNodes, j, textEnd, 0))
    ensures DocumentPositions(doc, textStart, textEnd) == Positions(textStart, textEnd)
  {
    if forall j :: 0 <= j < |doc.textNodes| ==> !HoldsStartAt(doc.textNodes, j, textStart, 0) {
      NoStartFrom(doc.textNodes, textStart, 0);
    } else {
      NoEndFrom(doc.textNodes, textEnd, 0);
    }
  }

  /**
   * findDocumentPositions: walk the text nodes, accumulating their lengths,
   * and record the position of the first node holding each end of the range.
   */
  method FindDocumentPositions(doc: Doc, textStart: int, textEnd: int) returns (p: Positions)
    ensures p == DocumentPositions(doc, textStart, textEnd)
  {
    var nodes := doc.textNodes;
    var currentTextPos: nat := 0;
    var startPos: Option<int> := None;
    var endPos: Option<int> := None;
    var i := 0;
    while i < |nodes|
      invariant 0 <= i <= |nodes|
      invariant startPos.None? ==> FindStart(nodes, textStart, 0) == FindStart(nodes[i..], textStart, currentTextPos)
      invariant startPos.Some? ==> FindStart(nodes, textStart, 0) == startPos
      invariant endPos.None? ==> FindEnd(nodes, textEnd, 0) == FindEnd(nodes[i..], textEnd, currentTextPos)
      invariant endPos.Some? ==> FindEnd(nodes, textEnd, 0) == endPos
    {
      if startPos.Some? && endPos.Some? {
        break;
      }
      var node := nodes[i];
      var nodeTextStart := currentTextPos;
      var nodeTextEnd := nodeTextStart + |node.text|;
      assert nodes[i..][1..] == nodes[i + 1..];
      if startPos.None? && textStart >= nodeTextStart && textStart < nodeTextEnd {
        startPos := Some(node.pos + (textStart - nodeTextStart));
      }
      if endPos.None? && textEnd > nodeTextStart && textEnd <= nodeTextEnd {
        endPos := Some(node.pos + (textEnd - nodeTextStart));
      }
      currentTextPos := currentTextPos + |node.text|;
      i := i + 1;
    }
    if startPos.Some? && endPos.Some? {
      if doc.topLevelMarked {
        return Positions(startPos.value - 1, endPos.value - 1);
      }
      return Positions(startPos.value, endPos.value);
    }
    assert startPos.None? ==> FindStart(nodes, textStart, 0).None?;
    assert endPos.None? ==> FindEnd(nodes, textEnd, 0).None?;
    return Positions(textStart, textEnd);
  }

  // ---------------------------------------------------------------------------
  // The editor view and suggestEdit
  // ---------------------------------------------------------------------------

  /**
   * The part of the suggestion-mode plugin's state that suggestEdit reads and
   * restores (that plugin lives in a module that is not part of this model).
   */
  datatype ModeState = ModeState(username: string, data: JsValue, inSuggestionMode: bool)

  /** A transaction dispatched to the view. */
  datatype Request =
    /** a meta-only transaction for the suggestion-mode plugin */
    | ModeMeta(username: string, data: JsValue, inSuggestionMode: bool)
    /** `tr.replaceWith(from, to, text(replacement))`, with the reason as meta data when there is one */
    | Replace(from: int, to: int, replacement: string, reason: Option<string>)

  /**
   * How the editor applies `replaceWith(from, to, text)` to its document: the
   * new document, or None when `replaceWith` throws (positions outside the
   * document, say).
   */
  type Host = (Doc, int, int, string) -> Option<Doc>

  /**
   * The document a request's transaction leaves, or None when building the
   * transaction throws. A meta-only transaction leaves the document as it is;
   * `schema.text("")` throws, since a text node cannot be empty, so a
   * replacement by the empty text never reaches `replaceWith`.
   */
  function Built(doc: Doc, req: Request, host: Host): (r: Option<Doc>)
    ensures req.ModeMeta? ==> r == Some(doc)
    ensures req.Replace? && req.replacement == "" ==> r == None
    ensures req.Replace? && req.replacement != "" ==> r == host(doc, req.from, req.to, req.replacement)
  {
    if req.ModeMeta? then Some(doc)
    else if req.replacement == "" then None
    else host(doc, req.from, req.to, req.replacement)
  }

  /** The reason a suggestion attaches as meta data, when it has one. */
  function ReasonOf(s: TextSuggestion): (r: Option<string>)
    ensures r.Some? <==> s.reason != ""
    ensures r.Some? ==> r.value == s.reason
  {
    if s.reason != "" then Some(s.reason) else None
  }

  /**
   * The request replaceInProsemirror builds for one planned replacement on the
   * current document: the replacement text over the positions of the planned
   * text offsets, with the suggestion's reason.
   */
  function ReplaceRequest(doc: Doc, p: Planned): (r: Request)
    ensures r.Replace? && r.replacement == p.suggestion.textReplacement && r.reason == ReasonOf(p.suggestion)
    ensures Positions(r.from, r.to) == DocumentPositions(doc, p.textStart, p.textEnd)
  {
    var pos := DocumentPositions(doc, p.textStart, p.textEnd);
    Replace(pos.from, pos.to, p.suggestion.textReplacement, ReasonOf(p.suggestion))
  }

  /**
   * The requests dispatched so far, the document they leave, and whether the
   * next replacement threw.
   */
  datatype Replayed = Replayed(requests: seq<Request>, doc: Doc, aborted: bool)

  /**
   * Dispatching the plan one replacement at a time: each replacement's text
   * offsets come from the plan, its positions from the document as the earlier
   * replacements left it. The first replacement whose transaction throws is not
   * dispatched, and nothing after it runs.
   */
  function Replay(doc: Doc, plan: seq<Planned>, host: Host): Replayed {
    if plan == [] then Replayed([], doc, false)
    else
      var before := Replay(doc, plan[..|plan| - 1], host);
      if before.aborted then before
      else
        var req := ReplaceRequest(before.doc, plan[|plan| - 1]);
        match Built(before.doc, req, host)
        case None => Replayed(before.requests, before.doc, true)
        case Some(next) => Replayed(before.requests + [req], next, false)
  }

  lemma ReplaySnoc(doc: Doc, plan: seq<Planned>, p: Planned, host: Host)
    ensures var before := Replay(doc, plan, host);
      var req := ReplaceRequest(before.doc, p);
      Replay(doc, plan + [p], host) ==
        if before.aborted then before
        else match Built(before.doc, req, host)
          case None => Replayed(before.requests, before.doc, true)
          case Some(next) => Replayed(before.requests + [req], next, false)
  {
    assert (plan + [p])[..|plan|] == plan;
  }

  /** Once a replacement has thrown, replaying a longer plan changes nothing. */
  lemma {:induction false} ReplayAbortedPrefix(doc: Doc, p: seq<Planned>, q: seq<Planned>, host: Host)
    requires |p| <= |q| && q[..|p|] == p && Replay(doc, p, host).aborted
    ensures Replay(doc, q, host) == Replay(doc, p, host)
    decreases |q|
  {
    if |q| > |p| {
      var init := q[..|q| - 1];
      assert init[..|p|] == p;
      ReplayAbortedPrefix(doc, p, init, host);
    } else {
      assert q == p;
    }
  }

  lemma SpansOfSnoc(matches: seq<nat>, j: nat, s: TextSuggestion)
    requires j < |matches|
    ensures SpansOf(matches[..j + 1], s) == SpansOf(matches[..j], s) + [SpanOfMatch(matches[j], s)]
  {
    assert matches[..j + 1][..j] == matches[..j];
  }

  /**
   * Replaying a plan dispatches, in plan order, one replacement per planned
   * replacement up to the first that throws, each with its suggestion's
   * (non-empty) replacement text; without a throw, every planned replacement
   * is dispatched.
   */
  lemma {:induction false} ReplayIssuesOneRequestEach(doc: Doc, plan: seq<Planned>, host: Host)
    ensures |Replay(doc, plan, host).requests| <= |plan|
    ensures !Replay(doc, plan, host).aborted ==> |Replay(doc, plan, host).requests| == |plan|
    ensures forall k :: 0 <= k < |Replay(doc, plan, host).requests| ==>
      && Replay(doc, plan, host).requests[k].Replace?
      && Replay(doc, plan, host).requests[k].replacement == plan[k].suggestion.textReplacement
      && Replay(doc, plan, host).requests[k].replacement != ""
  {
    if plan != [] {
      ReplayIssuesOneRequestEach(doc, plan[..|plan| - 1], host);
    }
  }

  /** A planned replacement by the empty text throws, so the replay stops at or before it. */
  lemma {:induction false} ReplayAbortsOnEmptyReplacement(doc: Doc, plan: seq<Planned>, host: Host, k: nat)
    requires k < |plan| && plan[k].suggestion.textReplacement == ""
    ensures Replay(doc, plan, host).aborted
    ensures |Replay(doc, plan, host).requests| <= k
  {
    var init := plan[..|plan| - 1];
    if k < |plan| - 1 {
      assert init[k] == plan[k];
      ReplayAbortsOnEmptyReplacement(doc, init, host, k);
    } else {
      ReplayIssuesOneRequestEach(doc, init, host);
    }
  }

  /** With no empty replacement and a host that accepts every replacement, the whole plan is dispatched. */
  lemma {:induction false} ReplayCompletes(doc: Doc, plan: seq<Planned>, host: Host)
    requires forall k :: 0 <= k < |plan| ==> plan[k].suggestion.textReplacement != ""
    requires forall d, from, to, text :: text != "" ==> host(d, from, to, text).Some?
    ensures !Replay(doc, plan, host).aborted
    ensures |Replay(doc, plan, host).requests| == |plan|
  {
    if plan != [] {
      var init := plan[..|plan| - 1];
      assert forall k :: 0 <= k < |init| ==> init[k] == plan[k];
      ReplayCompletes(doc, init, host);
    }
  }

  /** The number of replacement requests in a log. */
  function ReplaceCount(log: seq<Request>): nat {
    if log == [] then 0 else ReplaceCount(log[..|log| - 1]) + (if log[|log| - 1].Replace? then 1 else 0)
  }

  lemma {:induction false} ReplaceCountAppend(a: seq<Request>, b: seq<Request>)
    ensures ReplaceCount(a + b) == ReplaceCount(a) + ReplaceCount(b)
    decreases |b|
  {
    if b == [] {
      assert a + b == a;
    } else {
      assert (a + b)[..|a + b| - 1] == a + b[..|b| - 1];
      ReplaceCountAppend(a, b[..|b| - 1]);
    }
  }

  /** Every request of a replay is a replacement; without a throw there is one per planned replacement. */
  lemma {:induction false} ReplayReplaceCount(doc: Doc, plan: seq<Planned>, host: Host)
    ensures ReplaceCount(Replay(doc, plan, host).requests) == |Replay(doc, plan, host).requests|
    ensures !Replay(doc, plan, host).aborted ==> ReplaceCount(Replay(doc, plan, host).requests) == |plan|
  {
    ReplayIssuesOneRequestEach(doc, plan, host);
    if plan != [] {
      var before := Replay(doc, plan[..|plan| - 1], host);
      ReplayReplaceCount(doc, plan[..|plan| - 1], host);
      var req := ReplaceRequest(before.doc, plan[|plan| - 1]);
      ReplaceCountAppend(before.requests, [req]);
      assert [req][..0] == [];
    }
  }

  /** The editor view: its document, the suggestion-mode plugin's state and the transactions dispatched. */
  class View {
    var doc: Doc
    var modeState: Option<ModeState>
    var log: seq<Request>

    constructor (doc: Doc, modeState: Option<ModeState>)
      ensures this.doc == doc && this.modeState == modeState && log == []
    {
      this.doc := doc;
      this.modeState := modeState;
      log := [];
    }

    /** `view.dispatch(tr)`, for a transaction that was built. */
    method Dispatch(req: Request, host: Host)
      requires Built(doc, req, host).Some?
      modifies this
      ensures log == old(log) + [req]
      ensures doc == Built(old(doc), req, host).value
      ensures modeState == old(modeState)
    {
      log := log + [req];
      doc := Built(doc, req, host).value;
    }
  }

  /**
   * replaceInProsemirror: build the replacement of [from, to) by the
   * suggestion's text, with its reason, and dispatch it. `thrown` is true when
   * building the transaction throws; then nothing is dispatched.
   */
  method ReplaceInProsemirror(view: View, from: int, to: int, suggestion: TextSuggestion, host: Host)
    returns (thrown: bool)
    modifies view
    ensures var req := Replace(from, to, suggestion.textReplacement, ReasonOf(suggestion));
      && thrown == Built(old(view.doc), req, host).None?
      && (thrown ==> view.log == old(view.log) && view.doc == old(view.doc))
      && (!thrown ==> view.log == old(view.log) + [req] && view.doc == Built(old(view.doc), req, host).value)
    ensures view.modeState == old(view.modeState)
  {
    var reason := if suggestion.reason != "" then Some(suggestion.reason) else None;
    var req := Replace(from, to, suggestion.textReplacement, reason);
    if suggestion.textReplacement == "" {
      // schema.text("") throws before anything is dispatched
      return true;
    }
    var next := host(view.doc, from, to, suggestion.textReplacement);
    if next.None? {
      return true;
    }
    view.Dispatch(req, host);
    return false;
  }

  lemma ConcatAssociative<T>(a: seq<T>, b: seq<T>, c: seq<T>)
    ensures (a + b) + c == a + (b + c)
  {
  }

  lemma PrefixOfConcat<T>(a: seq<T>, b: seq<T>, n: nat)
    requires n <= |b|
    ensures (a + b)[..|a| + n] == a + b[..n]
  {
  }

  lemma SpansOfPrefix(matches: seq<nat>, n: nat, s: TextSuggestion)
    requires n <= |matches|
    ensures SpansOf(matches[..n], s) == SpansOf(matches, s)[..n]
  {
    assert forall k :: 0 <= k < n ==> SpansOf(matches[..n], s)[k] == SpansOf(matches, s)[k];
  }

  /**
   * The `matches.forEach` of suggestEdit: for each match, map the replaced part
   * to positions in the view's current document and dispatch the replacement,
   * stopping when one throws. `done` is the plan dispatched before, `head` the
   * log before that plan.
   */
  method DispatchReplacements(view: View, matches: seq<nat>, suggestion: TextSuggestion, host: Host,
                              ghost doc0: Doc, ghost done: seq<Planned>, ghost head: seq<Request>)
    returns (dispatched: nat, thrown: bool)
    requires view.log == head + Replay(doc0, done, host).requests
    requires view.doc == Replay(doc0, done, host).doc
    requires !Replay(doc0, done, host).aborted
    modifies view
    ensures thrown == Replay(doc0, done + SpansOf(matches, suggestion), host).aborted
    ensures !thrown ==> dispatched == |matches|
    ensures view.log == head + Replay(doc0, done + SpansOf(matches, suggestion), host).requests
    ensures view.doc == Replay(doc0, done + SpansOf(matches, suggestion), host).doc
    ensures view.modeState == old(view.modeState)
  {
    dispatched, thrown := 0, false;
    var j := 0;
    ghost var cur := done;
    assert done + SpansOf(matches[..j], suggestion) == done;
    while j < |matches|
      invariant 0 <= j <= |matches| && dispatched == j
      invariant view.modeState == old(view.modeState)
      invariant cur == done + SpansOf(matches[..j], suggestion)
      invariant !thrown && !Replay(doc0, cur, host).aborted
      invariant view.log == head + Replay(doc0, cur, host).requests
      invariant view.doc == Replay(doc0, cur, host).doc
    {
      var planned := SpanOfMatch(matches[j], suggestion);
      var docPositions := FindDocumentPositions(view.doc, planned.textStart, planned.textEnd);
      ghost var prev := Replay(doc0, cur, host);
      ghost var req := ReplaceRequest(view.doc, planned);
      assert req == Replace(docPositions.from, docPositions.to, suggestion.textReplacement, ReasonOf(suggestion));
      thrown := ReplaceInProsemirror(view, docPositions.from, docPositions.to, suggestion, host);
      ReplaySnoc(doc0, cur, planned, host);
      SpansOfSnoc(matches, j, suggestion);
      ConcatAssociative(done, SpansOf(matches[..j], suggestion), [planned]);
      if thrown {
        SpansOfPrefix(matches, j + 1, suggestion);
        PrefixOfConcat(done, SpansOf(matches, suggestion), j + 1);
        ReplayAbortedPrefix(doc0, cur + [planned], done + SpansOf(matches, suggestion), host);
        return;
      }
      ConcatAssociative(head, prev.requests, [req]);
      cur := cur + [planned];
      dispatched := dispatched + 1;
      j := j + 1;
    }
    assert matches[..j] == matches;
  }

  /** The plan of the first suggestions is a prefix of the plan of them all. */
  lemma {:induction false} PlanPrefix(docText: string, suggestions: seq<TextSuggestion>, i: nat)
    requires i <= |suggestions|
    ensures |Plan(docText, suggestions[..i])| <= |Plan(docText, suggestions)|
    ensures Plan(docText, suggestions)[..|Plan(docText, suggestions[..i])|] == Plan(docText, suggestions[..i])
  {
    if i < |suggestions| {
      var init := suggestions[..|suggestions| - 1];
      assert init[..i] == suggestions[..i];
      PlanPrefix(docText, init, i);
      PrefixOfConcat(Plan(docText, init), SuggestionPlan(docText, suggestions[|suggestions| - 1]), 0);
    } else {
      assert suggestions[..i] == suggestions;
    }
  }

  /** A replacement that throws while the first suggestions are dispatched ends the replay of them all. */
  lemma PlanAborted(doc: Doc, docText: string, suggestions: seq<TextSuggestion>, i: nat, host: Host)
    requires i <= |suggestions| && Replay(doc, Plan(docText, suggestions[..i]), host).aborted
    ensures Replay(doc, Plan(docText, suggestions), host) == Replay(doc, Plan(docText, suggestions[..i]), host)
  {
    PlanPrefix(docText, suggestions, i);
    ReplayAbortedPrefix(doc, Plan(docText, suggestions[..i]), Plan(docText, suggestions), host);
  }

  /**
   * suggestEdit: switch the suggestion-mode plugin to the given user in
   * suggestion mode, dispatch one replacement for every match of every
   * suggestion, restore the plugin's user, data and mode, and return the number
   * of replacements dispatched (`Some`). Without plugin state it does nothing
   * and returns 0. When a replacement throws, the exception ends suggestEdit
   * (`None`): the later replacements and the restoring meta are not dispatched.
   */
  method SuggestEditIn(view: View, suggestions: seq<TextSuggestion>, username: string, host: Host)
    returns (replacementCount: Option<nat>)
    modifies view
    ensures view.modeState == old(view.modeState)
    ensures old(view.modeState).None? ==>
      replacementCount == Some(0) && view.log == old(view.log) && view.doc == old(view.doc)
    ensures old(view.modeState).Some? ==>
      var start := old(view.modeState).value;
      var plan := Plan(TextContent(old(view.doc)), suggestions);
      var replayed := Replay(old(view.doc), plan, host);
      && view.doc == replayed.doc
      && replacementCount == (if replayed.aborted then None else Some(|plan|))
      && view.log == old(view.log) + [ModeMeta(username, start.data, true)] + replayed.requests
                     + (if replayed.aborted then [] else [ModeMeta(start.username, start.data, start.inSuggestionMode)])
  {
    if view.modeState.None? {
      return Some(0);
    }
    var startingState := view.modeState.value;
    ghost var doc0 := view.doc;
    ghost var head := view.log + [ModeMeta(username, startingState.data, true)];
    view.Dispatch(ModeMeta(username, startingState.data, true), host);
    var docText := TextContent(view.doc);
    var count := 0;
    var i := 0;
    while i < |suggestions|
      invariant 0 <= i <= |suggestions|
      invariant view.modeState == Some(startingState) && docText == TextContent(doc0)
      invariant count == |Plan(docText, suggestions[..i])|
      invariant !Replay(doc0, Plan(docText, suggestions[..i]), host).aborted
      invariant view.log == head + Replay(doc0, Plan(docText, suggestions[..i]), host).requests
      invariant view.doc == Replay(doc0, Plan(docText, suggestions[..i]), host).doc
    {
      var suggestion := suggestions[i];
      ghost var done := Plan(docText, suggestions[..i]);
      PlanSnoc(docText, suggestions, i);
      if suggestion.textToReplace == "" {
        // skipped, and not counted
        assert done + SuggestionPlan(docText, suggestion) == done;
      } else {
        var searchText := SearchText(suggestion);
        var matches := CollectMatches(docText, searchText);
        assert SuggestionPlan(docText, suggestion) == SpansOf(matches, suggestion);
        var dispatched, thrown := DispatchReplacements(view, matches, suggestion, host, doc0, done, head);
        if thrown {
          PlanAborted(doc0, docText, suggestions, i + 1, host);
          return None;
        }
        count := count + dispatched;
      }
      i := i + 1;
    }
    assert suggestions[..i] == suggestions;
    view.Dispatch(ModeMeta(startingState.username, startingState.data, startingState.inSuggestionMode), host);
    return Some(count);
  }
}
