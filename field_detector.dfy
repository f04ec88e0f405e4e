/**
 * The heuristic field detector of the generic adapter: every scraped form
 * element gets a CSS selector and a score against the configured pattern
 * set of a field, and the first element with the highest score wins.
 */
module FieldDetector {
  import opened Wrappers
  import opened Strings
  import opened Models
  import Browser

  /** A scraped form element, as the in-page script reports it. */
  datatype FormElement = FormElement(
    tag: string,                     // lower case
    htmlType: Option<string>,
    name: Option<string>,
    id: string,
    className: string,
    placeholder: Option<string>,
    ariaLabel: Option<string>,
    required: bool,
    visible: bool,                   // reported, never used by the detector
    selector: string)

  /** The patterns configured for one field name; each list may be absent. */
  datatype SelectorPatterns = SelectorPatterns(
    attributes: Option<seq<string>>,
    labels: Option<seq<string>>,
    placeholders: Option<seq<string>>,
    tags: Option<seq<string>>,
    text: Option<seq<string>>)

  /** The `commonPatterns` table of the selector configuration, keyed by field name. */
  type SelectorsConfig = map<string, SelectorPatterns>

  /** An absent pattern list is iterated as an empty one. */
  function Listed(o: Option<seq<string>>): seq<string>
  {
    match o
    case Some(ps) => ps
    case None => []
  }

  // ---------------------------------------------------------------- selectors

  /** The non-empty pieces of `parts`, in order (`filter(c => c)`). */
  function NonEmptyPieces(parts: seq<string>): (r: seq<string>)
    ensures forall k :: 0 <= k < |r| ==> r[k] != "" && r[k] in parts
    ensures r == [] <==> AllEmpty(parts)
  {
    if parts == [] then []
    else if parts[0] == "" then NonEmptyPieces(parts[1..])
    else [parts[0]] + NonEmptyPieces(parts[1..])
  }

  /** Filtering works piece by piece: it distributes over concatenation. */
  lemma {:induction false} NonEmptyPiecesAppend(a: seq<string>, b: seq<string>)
    ensures NonEmptyPieces(a + b) == NonEmptyPieces(a) + NonEmptyPieces(b)
    decreases |a|
  {
    if a == [] {
      assert a + b == b;
    } else {
      var x, rest := a[0], a[1..];
      assert a == [x] + rest && a + b == [x] + (rest + b);
      NonEmptyPiecesCons(x, rest);
      NonEmptyPiecesCons(x, rest + b);
      NonEmptyPiecesAppend(rest, b);
    }
  }

  /** One step of the filter. */
  lemma NonEmptyPiecesCons(x: string, rest: seq<string>)
    ensures NonEmptyPieces([x] + rest) == (if x == "" then [] else [x]) + NonEmptyPieces(rest)
  {
    assert ([x] + rest)[0] == x && ([x] + rest)[1..] == rest;
  }

  /** A single piece is kept exactly when it is non-empty. */
  lemma NonEmptyPiecesSingle(x: string)
    ensures NonEmptyPieces([x]) == if x == "" then [] else [x]
  {
    assert [x][1..] == [];
  }

  /** A list of non-empty pieces passes the filter unchanged. */
  lemma {:induction false} NonEmptyPiecesKeepsAll(parts: seq<string>)
    requires forall k :: 0 <= k < |parts| ==> parts[k] != ""
    ensures NonEmptyPieces(parts) == parts
    decreases |parts|
  {
    if parts != [] {
      NonEmptyPiecesKeepsAll(parts[1..]);
    }
  }

  /** Class text written the usual way: no leading, trailing or doubled space. */
  predicate SingleSpaced(c: string)
  {
    c != "" ==> c[0] != ' ' && c[|c| - 1] != ' ' && forall i :: 0 <= i < |c| - 1 ==> !(c[i] == ' ' && c[i + 1] == ' ')
  }

  /** Splitting single-spaced class text at spaces leaves no empty piece. */
  lemma {:induction false} SingleSpacedPieces(c: string)
    requires c != "" && SingleSpaced(c)
    ensures forall k :: 0 <= k < |Split(c, " ")| ==> Split(c, " ")[k] != ""
    decreases |c|
  {
    match IndexOf(c, " ")
    case None =>
    case Some(i) =>
      MatchesAtChar(c, ' ', i);
      if i == 0 {
        assert false;
      }
      var rest := c[i + 1..];
      assert i < |c| - 1;
      assert rest != "" && rest[0] != ' ' by {
        assert rest[0] == c[i + 1];
      }
      assert SingleSpaced(rest) by {
        assert forall j :: 0 <= j < |rest| ==> rest[j] == c[i + 1 + j];
      }
      SingleSpacedPieces(rest);
      assert Split(c, " ") == [c[..i]] + Split(rest, " ");
  }

  /** For single-spaced class text the tokens are its words, all of them and in order. */
  lemma ClassTokensWords(c: string)
    requires SingleSpaced(c)
    ensures Join(ClassTokens(c), " ") == c
  {
    SplitJoin(c, " ");
    if c != "" {
      SingleSpacedPieces(c);
      NonEmptyPiecesKeepsAll(Split(c, " "));
    }
  }

  /**
   * The class names in a `className` attribute: the non-empty pieces
   * between single spaces. None is empty and none contains a space, and
   * there are none exactly when the attribute holds nothing but spaces.
   */
  function ClassTokens(className: string): (r: seq<string>)
    ensures forall k :: 0 <= k < |r| ==> r[k] != "" && forall j :: 0 <= j < |r[k]| ==> r[k][j] != ' '
    ensures r == [] <==> OnlyChar(className, ' ')
  {
    SplitPiecesAvoid(className, ' ');
    SplitAllEmpty(className, ' ');
    NonEmptyPieces(Split(className, [' ']))
  }

  /** `generateSelector`'s last two cases: `tag[name="n"]` when the name attribute is non-empty, else the tag. */
  function TagSelector(d: Browser.DomElement): string
  {
    if Truthy(d.nameAttr) then ToLower(d.tagName) + "[name=\"" + d.nameAttr.value + "\"]"
    else ToLower(d.tagName)
  }

  /**
   * `generateSelector`: the first of `#id`, `.class1.class2`, `tag[name="n"]`
   * and `tag` that applies. A class attribute of spaces alone falls through
   * to the name or tag, and the result is never empty for a named tag.
   */
  function GenerateSelector(d: Browser.DomElement): (r: string)
    ensures d.id != "" ==> r == "#" + d.id
    ensures d.id == "" && !OnlyChar(d.className, ' ') ==>
      r == "." + Join(ClassTokens(d.className), ".") && ClassTokens(d.className) != []
    ensures d.id == "" && OnlyChar(d.className, ' ') ==> r == TagSelector(d)
    ensures d.tagName != "" ==> r != ""
  {
    if d.id != "" then "#" + d.id
    else if d.className != "" && ClassTokens(d.className) != [] then "." + Join(ClassTokens(d.className), ".")
    else TagSelector(d)
  }

  /** One entry of the in-page scrape. */
  function ToFormElement(d: Browser.DomElement): (e: FormElement)
    ensures e.tag == ToLower(d.tagName) && e.selector == GenerateSelector(d)
    ensures e.htmlType == d.typeAttr && e.name == d.nameAttr && e.id == d.id && e.className == d.className
    ensures e.placeholder == d.placeholderAttr && e.ariaLabel == d.ariaLabelAttr
    ensures e.required == d.hasRequired && e.visible == d.visible
  {
    FormElement(ToLower(d.tagName), d.typeAttr, d.nameAttr, d.id, d.className,
      d.placeholderAttr, d.ariaLabelAttr, d.hasRequired, d.visible, GenerateSelector(d))
  }

  /** `analyzeFormStructure`: the scraped elements, in document order. */
  function AnalyzeFormStructure(elements: seq<Browser.DomElement>): (r: seq<FormElement>)
    ensures |r| == |elements|
    ensures forall i :: 0 <= i < |r| ==> r[i] == ToFormElement(elements[i])
  {
    seq(|elements|, i requires 0 <= i < |elements| => ToFormElement(elements[i]))
  }

  // ---------------------------------------------------------------- patterns

  /** `getElementAttribute`: the five attributes a pattern may name; any other name gives null. */
  function GetElementAttribute(e: FormElement, attr: string): (r: Option<string>)
    ensures attr !in {"type", "name", "id", "class", "placeholder"} ==> r.None?
    ensures attr == "type" ==> r == e.htmlType
    ensures attr == "name" ==> r == e.name
    ensures attr == "id" ==> r == Some(e.id)
    ensures attr == "class" ==> r == Some(e.className)
    ensures attr == "placeholder" ==> r == e.placeholder
  {
    match attr
    case "type" => e.htmlType
    case "name" => e.name
    case "id" => Some(e.id)
    case "class" => Some(e.className)
    case "placeholder" => e.placeholder
    case _ => None
  }

  /**
   * `matchesPattern`: `[attr*=value]` is a case-sensitive substring test on
   * a non-empty attribute, `attr=value` an exact comparison; anything else,
   * or more than one separator, does not match.
   */
  function MatchesPattern(e: FormElement, pattern: string): bool
  {
    if Contains(pattern, "*=") then
      var parts := Split(pattern, "*=");
      if |parts| != 2 then false
      else
        var attr := ReplaceFirst(parts[0], "[", "");
        var value := ReplaceFirst(parts[1], "]", "");
        var found := GetElementAttribute(e, attr);
        Truthy(found) && Contains(found.value, value)
    else if Contains(pattern, "=") then
      var parts := Split(pattern, "=");
      if |parts| != 2 then false
      else GetElementAttribute(e, parts[0]) == Some(parts[1])
    else false
  }

  /** A pattern matches only if it has an `=`, and a `*=` match needs a non-empty attribute containing the value. */
  lemma MatchesPatternNeedsEquals(e: FormElement, pattern: string)
    ensures MatchesPattern(e, pattern) ==> Contains(pattern, "=")
    ensures MatchesPattern(e, pattern) && Contains(pattern, "*=") ==>
      var parts := Split(pattern, "*=");
      var found := GetElementAttribute(e, ReplaceFirst(parts[0], "[", ""));
      |parts| == 2 && found.Some? && found.value != ""
  {
    if Contains(pattern, "*=") {
      var i: nat :| i <= |pattern| && MatchesAt(pattern, "*=", i);
      assert pattern[i + 1..i + 2] == "=";
      assert MatchesAt(pattern, "=", i + 1);
    }
  }

  /**
   * A `*=` pattern `a*=v` matches exactly when the attribute named by `a`
   * without its first `[` is non-empty and contains `v` without its first
   * `]`, compared case-sensitively.
   */
  lemma MatchesContainsPattern(e: FormElement, a: string, v: string)
    requires !Contains(a, "*=") && !Contains(v, "*=")
    ensures MatchesPattern(e, a + "*=" + v) <==>
      var found := GetElementAttribute(e, ReplaceFirst(a, "[", ""));
      Truthy(found) && Contains(found.value, ReplaceFirst(v, "]", ""))
  {
    var p := a + "*=" + v;
    forall j: nat | j < |a|
      ensures !MatchesAt(p, "*=", j)
    {
      if j + 2 <= |a| {
        assert p[j..j + 2] == a[j..j + 2];
        assert !MatchesAt(a, "*=", j);
      } else {
        assert p[j + 1] == '*';
      }
    }
    IndexOfJoin(p, a, "*=", v);
    assert Split(p, "*=") == [a, v];
  }

  /**
   * A pattern `a=v` with no `*=` and a single `=` matches exactly when the
   * attribute named by `a` is present and equal to `v`.
   */
  lemma MatchesEqualsPattern(e: FormElement, a: string, v: string)
    requires !Contains(a + "=" + v, "*=")
    requires !Contains(a, "=") && !Contains(v, "=")
    ensures MatchesPattern(e, a + "=" + v) <==> GetElementAttribute(e, a) == Some(v)
  {
    var p := a + "=" + v;
    forall j: nat | j < |a|
      ensures !MatchesAt(p, "=", j)
    {
      assert p[j..j + 1] == a[j..j + 1];
      assert !MatchesAt(a, "=", j);
    }
    IndexOfJoin(p, a, "=", v);
    assert Split(p, "=") == [a, v];
  }

  /** A pattern with two separators of the branch it takes (`*=`, or `=` when there is no `*=`) never matches. */
  lemma TwoSeparatorsNeverMatch(e: FormElement, pattern: string, sep: string, i: nat, j: nat)
    requires sep == "*=" || (sep == "=" && !Contains(pattern, "*="))
    requires MatchesAt(pattern, sep, i) && MatchesAt(pattern, sep, j) && i + |sep| <= j
    ensures !MatchesPattern(e, pattern)
  {
    SplitTwoOccurrences(pattern, sep, i, j);
  }

  /**
   * The `=` branch keeps the brackets: a pattern like `[type=email]` looks
   * up the attribute named `[type`, which does not exist, so it never
   * matches any element.
   */
  lemma BracketedEqualsNeverMatches(e: FormElement, pattern: string)
    requires |pattern| > 0 && pattern[0] == '['
    requires !Contains(pattern, "*=")
    ensures !MatchesPattern(e, pattern)
  {
    if Contains(pattern, "=") {
      var parts := Split(pattern, "=");
      var i := IndexOf(pattern, "=").value;
      assert i != 0 by {
        assert pattern[0..1] == "[";
      }
      assert parts[0] == pattern[..i];
      assert parts[0][0] == '[';
      assert parts[0] !in {"type", "name", "id", "class", "placeholder"};
    }
  }

  // ---------------------------------------------------------------- scoring

  /** The three pattern lists that are matched element by element. */
  datatype Hint = AttributeHint | LabelHint | PlaceholderHint

  /** The lowercased text that label patterns are looked for in: name, id and aria-label, space separated. */
  function LabelText(e: FormElement): string
  {
    ToLower(OrEmpty(e.name) + " " + e.id + " " + OrEmpty(e.ariaLabel))
  }

  /** A label pattern is satisfied when it occurs, case-insensitively, in the label text. */
  predicate LabelHit(e: FormElement, pattern: string)
  {
    Contains(LabelText(e), ToLower(pattern))
  }

  /** A placeholder pattern is satisfied when it occurs, case-insensitively, in a present placeholder. */
  predicate PlaceholderHit(e: FormElement, placeholder: string)
  {
    e.placeholder.Some? && Contains(ToLower(e.placeholder.value), ToLower(placeholder))
  }

  /** Whether one pattern of the given list is satisfied by `e`. */
  predicate Hits(e: FormElement, hint: Hint, pattern: string)
  {
    match hint
    case AttributeHint => MatchesPattern(e, pattern)
    case LabelHint => LabelHit(e, pattern)
    case PlaceholderHint => PlaceholderHit(e, pattern)
  }

  /** How many entries of `patterns` `e` satisfies; a duplicated pattern counts each time. */
  function CountHits(e: FormElement, hint: Hint, patterns: seq<string>): (n: nat)
    ensures n <= |patterns|
  {
    if patterns == [] then 0
    else CountHits(e, hint, patterns[..|patterns| - 1]) + (if Hits(e, hint, patterns[|patterns| - 1]) then 1 else 0)
  }

  lemma {:induction false} CountHitsAppend(e: FormElement, hint: Hint, ps: seq<string>, qs: seq<string>)
    ensures CountHits(e, hint, ps + qs) == CountHits(e, hint, ps) + CountHits(e, hint, qs)
    decreases |qs|
  {
    if qs != [] {
      var q' := qs[..|qs| - 1];
      assert (ps + qs)[..|ps + qs| - 1] == ps + q';
      CountHitsAppend(e, hint, ps, q');
    } else {
      assert ps + qs == ps;
    }
  }

  /** An element that satisfies every pattern another one does counts at least as many hits. */
  lemma {:induction false} CountHitsMonotone(e1: FormElement, e2: FormElement, hint: Hint, patterns: seq<string>)
    requires forall k :: 0 <= k < |patterns| && Hits(e2, hint, patterns[k]) ==> Hits(e1, hint, patterns[k])
    ensures CountHits(e1, hint, patterns) >= CountHits(e2, hint, patterns)
    decreases |patterns|
  {
    if patterns != [] {
      CountHitsMonotone(e1, e2, hint, patterns[..|patterns| - 1]);
    }
  }

  /** The tag bonus: one point when the element's tag is listed. */
  function TagBonus(e: FormElement, patterns: SelectorPatterns): nat
  {
    if patterns.tags.Some? && e.tag in patterns.tags.value then 1 else 0
  }

  /** The score of `e`: 3 per attribute pattern, 2 per label and per placeholder pattern it satisfies, 1 for a listed tag. */
  function Score(e: FormElement, patterns: SelectorPatterns): (s: nat)
    ensures s <= 3 * |Listed(patterns.attributes)| + 2 * |Listed(patterns.labels)| + 2 * |Listed(patterns.placeholders)| + 1
  {
    3 * CountHits(e, AttributeHint, Listed(patterns.attributes))
      + 2 * CountHits(e, LabelHint, Listed(patterns.labels))
      + 2 * CountHits(e, PlaceholderHint, Listed(patterns.placeholders))
      + TagBonus(e, patterns)
  }

  /** An element that satisfies every listed pattern another one does, and gets the tag bonus if it does, scores at least as high. */
  lemma ScoreMonotone(e1: FormElement, e2: FormElement, patterns: SelectorPatterns)
    requires forall k :: 0 <= k < |Listed(patterns.attributes)| && Hits(e2, AttributeHint, Listed(patterns.attributes)[k]) ==>
      Hits(e1, AttributeHint, Listed(patterns.attributes)[k])
    requires forall k :: 0 <= k < |Listed(patterns.labels)| && Hits(e2, LabelHint, Listed(patterns.labels)[k]) ==>
      Hits(e1, LabelHint, Listed(patterns.labels)[k])
    requires forall k :: 0 <= k < |Listed(patterns.placeholders)| && Hits(e2, PlaceholderHint, Listed(patterns.placeholders)[k]) ==>
      Hits(e1, PlaceholderHint, Listed(patterns.placeholders)[k])
    requires TagBonus(e2, patterns) <= TagBonus(e1, patterns)
    ensures Score(e1, patterns) >= Score(e2, patterns)
  {
    CountHitsMonotone(e1, e2, AttributeHint, Listed(patterns.attributes));
    CountHitsMonotone(e1, e2, LabelHint, Listed(patterns.labels));
    CountHitsMonotone(e1, e2, PlaceholderHint, Listed(patterns.placeholders));
  }

  /** Adding one more attribute pattern that the element satisfies raises its score by exactly 3. */
  lemma ScoreExtraAttribute(e: FormElement, patterns: SelectorPatterns, p: string)
    requires MatchesPattern(e, p)
    ensures Score(e, patterns.(attributes := Some(Listed(patterns.attributes) + [p]))) == Score(e, patterns) + 3
  {
    var ps := Listed(patterns.attributes);
    assert (ps + [p])[..|ps + [p]| - 1] == ps;
  }

  /** One more pattern adds `weight` exactly when it is satisfied. */
  lemma WeightedHitsSnoc(e: FormElement, hint: Hint, patterns: seq<string>, i: nat, weight: nat)
    requires i < |patterns|
    ensures Hits(e, hint, patterns[i]) ==>
      weight * CountHits(e, hint, patterns[..i + 1]) == weight * CountHits(e, hint, patterns[..i]) + weight
    ensures !Hits(e, hint, patterns[i]) ==>
      weight * CountHits(e, hint, patterns[..i + 1]) == weight * CountHits(e, hint, patterns[..i])
  {
    var h := Hits(e, hint, patterns[i]);
    var c := CountHits(e, hint, patterns[..i]);
    assert CountHits(e, hint, patterns[..i + 1]) == c + (if h then 1 else 0) by {
      assert patterns[..i + 1][..i] == patterns[..i];
    }
    ScaleCount(weight, c, CountHits(e, hint, patterns[..i + 1]), h);
  }

  lemma ScaleCount(w: nat, c: nat, c': nat, h: bool)
    requires c' == c + (if h then 1 else 0)
    ensures h ==> w * c' == w * c + w
    ensures !h ==> w * c' == w * c
  {
  }

  /** One `forEach` of the scoring: adds `weight` to `score` for every pattern `e` satisfies. */
  method AddHits(e: FormElement, hint: Hint, patterns: seq<string>, weight: nat, score0: nat) returns (score: nat)
    ensures score == score0 + weight * CountHits(e, hint, patterns)
  {
    score := score0;
    for i := 0 to |patterns|
      invariant score == score0 + weight * CountHits(e, hint, patterns[..i])
    {
      WeightedHitsSnoc(e, hint, patterns, i, weight);
      if Hits(e, hint, patterns[i]) {
        score := score + weight;
      }
    }
    assert patterns[..|patterns|] == patterns;
  }

  /** The score accumulation of one element: attribute, label and placeholder patterns in turn, then the tag bonus. */
  method ScoreElement(e: FormElement, patterns: SelectorPatterns) returns (score: nat)
    ensures score == Score(e, patterns)
  {
    score := AddHits(e, AttributeHint, Listed(patterns.attributes), 3, 0);
    score := AddHits(e, LabelHint, Listed(patterns.labels), 2, score);
    score := AddHits(e, PlaceholderHint, Listed(patterns.placeholders), 2, score);
    if patterns.tags.Some? && e.tag in patterns.tags.value {
      score := score + 1;
    }
  }

  // ---------------------------------------------------------------- selection

  /** The scores of a list of elements, in order. */
  function Scores(structure: seq<FormElement>, patterns: SelectorPatterns): (r: seq<nat>)
    ensures |r| == |structure|
    ensures forall i :: 0 <= i < |r| ==> r[i] == Score(structure[i], patterns)
  {
    seq(|structure|, i requires 0 <= i < |structure| => Score(structure[i], patterns))
  }

  /**
   * The head of a stable sort by descending score: the position of the
   * highest score, the first one among equals.
   */
  function FirstMax(scores: seq<nat>): (i: nat)
    requires |scores| > 0
    ensures i < |scores|
    ensures forall j :: 0 <= j < |scores| ==> scores[j] <= scores[i]
    ensures forall j :: 0 <= j < i ==> scores[j] < scores[i]
  {
    if |scores| == 1 then 0
    else
      var k := FirstMax(scores[..|scores| - 1]);
      if scores[|scores| - 1] > scores[k] then |scores| - 1 else k
  }

  /** `mapFieldType`: description and email by name, a native single select by its type, text otherwise. */
  function MapFieldType(fieldName: string, htmlType: Option<string>): (t: FieldType)
    ensures t == Textarea <==> fieldName == "description"
    ensures t == EmailInput <==> fieldName == "email"
    ensures t == Select <==> fieldName != "description" && fieldName != "email" && htmlType == Some("select-one")
    ensures t in {Textarea, EmailInput, Select, TextInput}
  {
    if fieldName == "description" then Textarea
    else if fieldName == "email" then EmailInput
    else if htmlType == Some("select-one") then Select
    else TextInput
  }

  /** `findField` as a function: the specification of the method below. */
  function DetectField(config: SelectorsConfig, fieldName: string, structure: seq<FormElement>): (f: FormField)
    ensures fieldName !in config ==> f == FormField("", TextInput, false)
    ensures fieldName in config && structure == [] ==> f == FormField("", MapFieldType(fieldName, None), false)
    ensures fieldName in config && structure != [] ==>
      exists i :: 0 <= i < |structure|
        && f == FormField(structure[i].selector, MapFieldType(fieldName, structure[i].htmlType), structure[i].required)
        && (forall j :: 0 <= j < |structure| ==> Score(structure[j], config[fieldName]) <= Score(structure[i], config[fieldName]))
        && (forall j :: 0 <= j < i ==> Score(structure[j], config[fieldName]) < Score(structure[i], config[fieldName]))
  {
    if fieldName !in config then FormField("", TextInput, false)
    else if structure == [] then FormField("", MapFieldType(fieldName, None), false)
    else
      var best := structure[FirstMax(Scores(structure, config[fieldName]))];
      FormField(best.selector, MapFieldType(fieldName, best.htmlType), best.required)
  }

  /** With no threshold, any non-empty element list yields a field, even if every score is zero. */
  lemma DetectFieldNeverEmptyOnElements(config: SelectorsConfig, fieldName: string, elements: seq<Browser.DomElement>)
    requires fieldName in config
    requires forall i :: 0 <= i < |elements| ==> elements[i].tagName != ""
    ensures DetectField(config, fieldName, AnalyzeFormStructure(elements)).selector == "" <==> elements == []
  {
  }

  /**
   * `findField`: scores every element, then takes the head of the list
   * stably sorted by descending score.
   */
  method FindField(config: SelectorsConfig, fieldName: string, structure: seq<FormElement>) returns (f: FormField)
    ensures f == DetectField(config, fieldName, structure)
  {
    if fieldName !in config {
      return FormField("", TextInput, false);
    }
    var patterns := config[fieldName];
    var scores: seq<nat> := [];
    for i := 0 to |structure|
      invariant |scores| == i
      invariant forall k :: 0 <= k < i ==> scores[k] == Score(structure[k], patterns)
    {
      var s := ScoreElement(structure[i], patterns);
      scores := scores + [s];
    }
    assert scores == Scores(structure, patterns);
    if |structure| == 0 {
      return FormField("", MapFieldType(fieldName, None), false);
    }
    var best := structure[FirstMax(scores)];
    f := FormField(best.selector, MapFieldType(fieldName, best.htmlType), best.required);
  }
}
