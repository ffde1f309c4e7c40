/** The map page's pure rules: the search box filter over the geocoded
    properties, the property-type code, the badge class and marker colour
    looked up by that code, and the marker geometry. */
module MapView {
  import opened JsStrings
  import opened Sequences

  /** The fields of a geocoded property the page reads. */
  datatype MapProperty = MapProperty(
    propertyId: string, ownerName: string, holderName: string, propertyType: string, ownerCity: string)

  /** The property matches the search term, compared lower-cased: the term
      occurs in its owner name, holder name, property type or owner city. */
  predicate MatchesTerm(p: MapProperty, term: string) {
    var t := Lower(term);
    Includes(Lower(p.ownerName), t) || Includes(Lower(p.holderName), t)
    || Includes(Lower(p.propertyType), t) || Includes(Lower(p.ownerCity), t)
  }

  /** The search effect: a blank term shows every property; any other term
      (matched as typed, without trimming) keeps the matching ones. */
  function FilterProperties(properties: seq<MapProperty>, searchTerm: string): seq<MapProperty> {
    if Trim(searchTerm) == "" then properties
    else Filter(properties, (p: MapProperty) => MatchesTerm(p, searchTerm))
  }

  /** A term of only whitespace shows the whole list. */
  lemma BlankTermKeepsAll(properties: seq<MapProperty>, searchTerm: string)
    requires AllWhitespace(searchTerm)
    ensures FilterProperties(properties, searchTerm) == properties
  {
    TrimFacts(searchTerm);
  }

  /** Any other term keeps exactly the matching properties, never adds or
      reorders one, and the result is the whole list exactly when every
      property matches. */
  lemma FilterKeepsMatches(properties: seq<MapProperty>, searchTerm: string)
    requires !AllWhitespace(searchTerm)
    ensures var r := FilterProperties(properties, searchTerm);
      && (forall p :: p in r <==> p in properties && MatchesTerm(p, searchTerm))
      && IsSubsequence(r, properties)
      && (r == properties <==> forall i :: 0 <= i < |properties| ==> MatchesTerm(properties[i], searchTerm))
  {
    TrimFacts(searchTerm);
    var keep := (p: MapProperty) => MatchesTerm(p, searchTerm);
    FilterMembership(properties, keep);
    FilterIsSubsequence(properties, keep);
    FilterKeepsAll(properties, keep);
  }

  /** Whatever the term, the result is a sub-list of the properties in their
      order. */
  lemma FilterIsSubsequenceOfInput(properties: seq<MapProperty>, searchTerm: string)
    ensures IsSubsequence(FilterProperties(properties, searchTerm), properties)
  {
    if Trim(searchTerm) == "" {
      SubsequenceOfItself(properties);
    } else {
      FilterIsSubsequence(properties, (p: MapProperty) => MatchesTerm(p, searchTerm));
    }
  }

  lemma {:induction false} SubsequenceOfItself<T>(xs: seq<T>)
    ensures IsSubsequence(xs, xs)
  {
    if xs != [] {
      SubsequenceOfItself(xs[1..]);
    }
  }

  lemma LowerTwice(s: string)
    ensures Lower(Lower(s)) == Lower(s)
  {
  }

  /** Lower-casing keeps whitespace and non-whitespace apart. */
  lemma LowerKeepsBlank(s: string)
    ensures AllWhitespace(Lower(s)) <==> AllWhitespace(s)
  {
    assert forall i :: 0 <= i < |s| ==> (IsWhitespace(Lower(s)[i]) <==> IsWhitespace(s[i]));
  }

  /** The search ignores the case of the term. */
  lemma FilterIgnoresTermCase(properties: seq<MapProperty>, searchTerm: string)
    ensures FilterProperties(properties, Lower(searchTerm)) == FilterProperties(properties, searchTerm)
  {
    TrimFacts(searchTerm);
    TrimFacts(Lower(searchTerm));
    LowerKeepsBlank(searchTerm);
    LowerTwice(searchTerm);
    var f := (p: MapProperty) => MatchesTerm(p, searchTerm);
    var g := (p: MapProperty) => MatchesTerm(p, Lower(searchTerm));
    assert forall p :: f(p) == g(p);
    FilterSameTest(properties, f, g);
  }

  lemma {:induction false} FilterSameTest<T>(xs: seq<T>, f: T -> bool, g: T -> bool)
    requires forall x :: f(x) == g(x)
    ensures Filter(xs, f) == Filter(xs, g)
  {
    if xs != [] {
      FilterSameTest(xs[1..], f, g);
    }
  }

  /** The type code of a property type such as `"AC01: Checking Accounts"`:
      the text before the first `:`, or all of it without one. */
  function TypeCode(propertyType: string): (code: string)
    ensures ':' !in code
    ensures StartsWith(propertyType, code)
    ensures |code| < |propertyType| ==> propertyType[|code|] == ':'
  {
    Split(propertyType, ':')[0]
  }

  /** A code written before a `:` is read back whatever follows. */
  lemma TypeCodeOfLabel(code: string, rest: string)
    requires ':' !in code
    ensures TypeCode(code + ":" + rest) == code
    ensures TypeCode(code) == code
  {
    SplitAfterPiece(code, ':', rest);
    SplitNoSeparator(code, ':');
  }

  const DefaultBadgeClass := "bg-gray-100 text-gray-800"
  const DefaultMarkerColor := "#6B7280"

  /** The badge classes of the known type codes. */
  const BadgeClasses: map<string, string> := map[
    "AC01" := "bg-blue-100 text-blue-800",
    "AC02" := "bg-green-100 text-green-800",
    "CK01" := "bg-purple-100 text-purple-800",
    "CK15" := "bg-orange-100 text-orange-800",
    "CK99" := "bg-red-100 text-red-800",
    "MS01" := "bg-yellow-100 text-yellow-800",
    "MS05" := "bg-indigo-100 text-indigo-800",
    "MS09" := "bg-pink-100 text-pink-800",
    "MS11" := "bg-teal-100 text-teal-800",
    "MS16" := "bg-cyan-100 text-cyan-800",
    "SC01" := "bg-emerald-100 text-emerald-800",
    "SC16" := "bg-violet-100 text-violet-800",
    "SC20" := "bg-lime-100 text-lime-800",
    "TR04" := "bg-amber-100 text-amber-800",
    "IN02" := "bg-rose-100 text-rose-800",
    "IN03" := "bg-slate-100 text-slate-800",
    "IN05" := "bg-zinc-100 text-zinc-800",
    "MI02" := "bg-stone-100 text-stone-800"]

  /** The marker colours of the known type codes. */
  const MarkerColors: map<string, string> := map[
    "AC01" := "#3B82F6",
    "AC02" := "#10B981",
    "CK01" := "#8B5CF6",
    "CK15" := "#F59E0B",
    "CK99" := "#EF4444",
    "MS01" := "#EAB308",
    "MS05" := "#6366F1",
    "MS09" := "#EC4899",
    "MS11" := "#14B8A6",
    "MS16" := "#06B6D4",
    "SC01" := "#059669",
    "SC16" := "#7C3AED",
    "SC20" := "#65A30D",
    "TR04" := "#D97706",
    "IN02" := "#F43F5E",
    "IN03" := "#64748B",
    "IN05" := "#71717A",
    "MI02" := "#78716C"]

  /** `getPropertyTypeColor`: the badge class of the type code, grey for an
      unknown code. */
  function PropertyTypeColor(propertyType: string): (c: string)
    ensures c in BadgeClasses.Values || c == DefaultBadgeClass
  {
    var code := TypeCode(propertyType);
    if code in BadgeClasses then BadgeClasses[code] else DefaultBadgeClass
  }

  /** The fill colour `getPropertyIcon` gives the marker, grey for an
      unknown code. */
  function MarkerColor(propertyType: string): (c: string)
    ensures c in MarkerColors.Values || c == DefaultMarkerColor
  {
    var code := TypeCode(propertyType);
    if code in MarkerColors then MarkerColors[code] else DefaultMarkerColor
  }

  /** Both tables know the same codes, and a property gets the grey default
      exactly when its code is not among them. */
  lemma DefaultsExactlyForUnknownCodes(propertyType: string)
    ensures BadgeClasses.Keys == MarkerColors.Keys
    ensures PropertyTypeColor(propertyType) == DefaultBadgeClass <==> TypeCode(propertyType) !in BadgeClasses
    ensures MarkerColor(propertyType) == DefaultMarkerColor <==> TypeCode(propertyType) !in MarkerColors
  {
    assert DefaultBadgeClass !in BadgeClasses.Values;
    assert DefaultMarkerColor !in MarkerColors.Values;
  }

  /** The icon size and the anchor point, in pixels. */
  datatype MarkerGeometry = MarkerGeometry(width: int, height: int, anchorX: int, anchorY: int)

  /** The selected marker is drawn larger. */
  function Geometry(isSelected: bool): MarkerGeometry {
    if isSelected then MarkerGeometry(35, 57, 17, 57) else MarkerGeometry(25, 41, 12, 41)
  }

  /** Either way the anchor is the pin's tip: the middle (rounded down) of
      the bottom edge; the selected marker is larger in both directions. */
  lemma AnchorAtTip(isSelected: bool)
    ensures var g := Geometry(isSelected);
      g.anchorX == g.width / 2 && g.anchorY == g.height
    ensures Geometry(true).width > Geometry(false).width && Geometry(true).height > Geometry(false).height
  {
  }
}
