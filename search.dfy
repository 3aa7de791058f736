/**
 * The model search of the viewer page (wwwroot/js/search.js): a query is
 * normalised and split into an optional attribute and a value, every node
 * of the instance tree is tested against its property list, and the viewer
 * hides everything but the matches. A toggle chooses whether typing or the
 * Enter key starts a search.
 *
 * The viewer is the external 3D viewer: its instance tree (enumerated from
 * the root, recursively) and its property lookup are fixed for the loaded
 * model; what the search changes is which nodes are hidden and where the
 * camera is fitted.
 */
module Search {
  import opened Wrappers
  import opened Text

  /** A node id of the instance tree. */
  type DbId = int

  /** One entry of a node's property list. */
  datatype Property = Property(displayName: string, displayValue: string)

  /** A parsed query: `attribute:value`, or a bare value. */
  datatype Query = Query(attribute: Option<string>, value: string)

  // ---------------------------------------------------------------------
  // Query parsing
  // ---------------------------------------------------------------------

  /** `searchTerm.trim().toLowerCase()`. */
  function Normalize(searchTerm: string): string {
    Lower(Trim(searchTerm))
  }

  /**
   * The query a search term denotes: with a `:` in the normalised term, the
   * trimmed first and second `:`-separated segments; otherwise no attribute
   * and the whole normalised term.
   */
  function ParseQuery(searchTerm: string): Query {
    var term := Normalize(searchTerm);
    if ':' in term then
      SplitHasSeveralParts(term, ':');
      var parts := Split(term, ':');
      Query(Some(Trim(parts[0])), Lower(Trim(parts[1])))
    else
      Query(None, term)
  }

  /** The attribute counts only when it is a non-empty string (JavaScript truthiness). */
  predicate HasAttribute(q: Query) {
    q.attribute.Some? && q.attribute.value != ""
  }

  predicate NoUpper(s: string) {
    forall i :: 0 <= i < |s| ==> !IsUpper(s[i])
  }

  lemma LowerOfNoUpper(s: string)
    requires NoUpper(s)
    ensures Lower(s) == s
  {
  }

  lemma TrimKeepsNoUpper(s: string)
    requires NoUpper(s)
    ensures NoUpper(Trim(s))
  {
    TrimIsInfix(s);
  }

  /** Without a `:` there is no attribute, and the value is the whole trimmed, lower-cased term. */
  lemma ParseWithoutColon(searchTerm: string)
    requires ':' !in Normalize(searchTerm)
    ensures ParseQuery(searchTerm) == Query(None, Normalize(searchTerm))
  {
  }

  lemma SplitHeadBeforeSeparator(v: string, rest: string)
    requires ':' !in v
    requires rest == [] || rest[0] == ':'
    ensures Split(v + rest, ':')[0] == v
  {
    SplitAppend(v, rest, ':');
    if rest != [] {
      assert rest == [':'] + rest[1..];
      SplitAfterSeparator(rest[1..], ':');
    }
  }

  /** The first two parts of `a:v…` split on `:` are `a` and `v`. */
  lemma SplitColonParts(a: string, v: string, rest: string)
    requires ':' !in a && ':' !in v
    requires rest == [] || rest[0] == ':'
    ensures |Split(a + [':'] + v + rest, ':')| >= 2
    ensures Split(a + [':'] + v + rest, ':')[0] == a
    ensures Split(a + [':'] + v + rest, ':')[1] == v
  {
    assert a + [':'] + v + rest == a + ([':'] + (v + rest));
    SplitAppend(a, [':'] + (v + rest), ':');
    SplitAfterSeparator(v + rest, ':');
    SplitHeadBeforeSeparator(v, rest);
    assert a + "" == a;
  }

  lemma InfixNoUpper(s: string, i: int, j: int)
    requires NoUpper(s) && 0 <= i <= j <= |s|
    ensures NoUpper(s[i..j])
  {
    assert forall k :: 0 <= k < j - i ==> s[i..j][k] == s[i + k];
  }

  lemma NormalizedNoUpper(searchTerm: string)
    ensures NoUpper(Normalize(searchTerm))
  {
    LowerHasNoUpper(Trim(searchTerm));
  }

  /**
   * With a `:`, the attribute is the trimmed text before the first `:` and the
   * value the trimmed text between the first and the second `:`; anything from
   * the second `:` on is ignored.
   */
  lemma ParseWithColon(searchTerm: string, a: string, v: string, rest: string)
    requires Normalize(searchTerm) == a + [':'] + v + rest
    requires ':' !in a && ':' !in v
    requires rest == [] || rest[0] == ':'
    ensures ParseQuery(searchTerm) == Query(Some(Trim(a)), Trim(v))
  {
    var term := Normalize(searchTerm);
    assert term[|a|] == ':';
    SplitColonParts(a, v, rest);
    NormalizedNoUpper(searchTerm);
    assert v == term[|a| + 1..|a| + 1 + |v|];
    InfixNoUpper(term, |a| + 1, |a| + 1 + |v|);
    TrimKeepsNoUpper(v);
    LowerOfNoUpper(Trim(v));
  }

  /** A string glued from parts starts with its first part. */
  lemma JoinStartsWithHead(parts: seq<string>, sep: char)
    requires |parts| >= 1
    ensures |parts[0]| <= |Join(parts, sep)| && Join(parts, sep)[..|parts[0]|] == parts[0]
  {
  }

  /** Both parts of a parsed query are trimmed and free of upper-case letters. */
  lemma ParsedQueryIsNormal(searchTerm: string)
    ensures IsTrimmed(ParseQuery(searchTerm).value) && NoUpper(ParseQuery(searchTerm).value)
    ensures ParseQuery(searchTerm).attribute.Some? ==>
      IsTrimmed(ParseQuery(searchTerm).attribute.value) && NoUpper(ParseQuery(searchTerm).attribute.value)
  {
    var term := Normalize(searchTerm);
    if ':' in term {
      SplitHasSeveralParts(term, ':');
      var parts := Split(term, ':');
      var value := Trim(parts[1]);
      TrimIsInfix(parts[1]);
      LowerHasNoUpper(value);
      LowerIsTrimmedWhenTrimmed(value);
      NormalizedNoUpper(searchTerm);
      JoinStartsWithHead(parts, ':');
      InfixNoUpper(term, 0, |parts[0]|);
      TrimKeepsNoUpper(parts[0]);
      TrimIsInfix(parts[0]);
    } else {
      TrimIsInfix(searchTerm);
      LowerIsTrimmedWhenTrimmed(Trim(searchTerm));
      NormalizedNoUpper(searchTerm);
    }
  }

  /** Lower-casing a trimmed string leaves it trimmed. */
  lemma LowerIsTrimmedWhenTrimmed(s: string)
    requires IsTrimmed(s)
    ensures IsTrimmed(Lower(s))
  {
    if s != [] {
      LowerKeepsWhitespace(s[0]);
      LowerKeepsWhitespace(s[|s| - 1]);
    }
  }

  // ---------------------------------------------------------------------
  // Matching
  // ---------------------------------------------------------------------

  /**
   * One property satisfies the query: with an attribute, its trimmed name
   * equals the attribute up to case and its lower-cased value contains the
   * query value; without one, its lower-cased value contains the query value.
   */
  predicate PropertyMatches(p: Property, q: Query) {
    var propName := Trim(p.displayName);
    var propValue := Lower(p.displayValue);
    if HasAttribute(q) then Lower(propName) == Lower(q.attribute.value) && Contains(propValue, q.value)
    else Contains(propValue, q.value)
  }

  /** A node matches when it has a property list and some property in it satisfies the query. */
  predicate NodeMatches(properties: Option<seq<Property>>, q: Query) {
    properties.Some? && exists i :: 0 <= i < |properties.value| && PropertyMatches(properties.value[i], q)
  }

  /** The matching ids of `ids`, in their order: the specification of the search loop. */
  function MatchingIds(ids: seq<DbId>, lookup: DbId -> Option<seq<Property>>, q: Query): seq<DbId> {
    if ids == [] then []
    else
      var last := ids[|ids| - 1];
      MatchingIds(ids[..|ids| - 1], lookup, q) + if NodeMatches(lookup(last), q) then [last] else []
  }

  /** Extending the enumeration by one node extends the result by that node exactly when it matches. */
  lemma MatchingIdsSnoc(ids: seq<DbId>, lookup: DbId -> Option<seq<Property>>, q: Query, k: int)
    requires 0 <= k < |ids|
    ensures MatchingIds(ids[..k + 1], lookup, q)
         == MatchingIds(ids[..k], lookup, q) + if NodeMatches(lookup(ids[k]), q) then [ids[k]] else []
  {
    assert ids[..k + 1][..k] == ids[..k];
  }

  /** An id is in the result exactly when it was enumerated and its node matches. */
  lemma {:induction false} MatchingMembership(ids: seq<DbId>, lookup: DbId -> Option<seq<Property>>, q: Query, x: DbId)
    ensures x in MatchingIds(ids, lookup, q) <==> x in ids && NodeMatches(lookup(x), q)
    decreases |ids|
  {
    if ids != [] {
      var init := ids[..|ids| - 1];
      MatchingMembership(init, lookup, q, x);
      assert ids == init + [ids[|ids| - 1]];
    }
  }

  /** Enumerated each at most once, the matches are each reported at most once. */
  lemma {:induction false} MatchingDistinct(ids: seq<DbId>, lookup: DbId -> Option<seq<Property>>, q: Query)
    requires forall i, j :: 0 <= i < j < |ids| ==> ids[i] != ids[j]
    ensures var r := MatchingIds(ids, lookup, q); forall i, j :: 0 <= i < j < |r| ==> r[i] != r[j]
    decreases |ids|
  {
    if ids != [] {
      var init := ids[..|ids| - 1];
      var last := ids[|ids| - 1];
      MatchingDistinct(init, lookup, q);
      MatchingMembership(init, lookup, q, last);
      assert last !in init;
    }
  }

  /**
   * Where the matches sit in `ids`: strictly increasing positions, one per
   * match, covering every position whose node matches. So the result is an
   * order-preserving subsequence of the enumeration that leaves no match out.
   */
  function MatchPositions(ids: seq<DbId>, lookup: DbId -> Option<seq<Property>>, q: Query): (pos: seq<nat>)
    ensures |pos| == |MatchingIds(ids, lookup, q)|
    ensures forall k :: 0 <= k < |pos| ==> pos[k] < |ids| && ids[pos[k]] == MatchingIds(ids, lookup, q)[k]
    ensures forall k, l :: 0 <= k < l < |pos| ==> pos[k] < pos[l]
  {
    if ids == [] then []
    else
      var init := ids[..|ids| - 1];
      var last := ids[|ids| - 1];
      var before := MatchPositions(init, lookup, q);
      var matched := NodeMatches(lookup(last), q);
      assert MatchingIds(ids, lookup, q) == MatchingIds(init, lookup, q) + if matched then [last] else [];
      assert forall k :: 0 <= k < |before| ==> init[before[k]] == ids[before[k]];
      if matched then before + [|ids| - 1] else before
  }

  /** Every enumerated position whose node matches is among the match positions. */
  lemma {:induction false} MatchPositionsComplete(ids: seq<DbId>, lookup: DbId -> Option<seq<Property>>, q: Query, i: int)
    requires 0 <= i < |ids| && NodeMatches(lookup(ids[i]), q)
    ensures i in MatchPositions(ids, lookup, q)
    decreases |ids|
  {
    var init := ids[..|ids| - 1];
    if i < |ids| - 1 {
      assert init[i] == ids[i];
      MatchPositionsComplete(init, lookup, q, i);
    }
  }

  /** Without an attribute, an empty query value matches every node that has at least one property, and no other. */
  lemma EmptyValueMatchesAll(properties: Option<seq<Property>>, q: Query)
    requires q.value == "" && !HasAttribute(q)
    ensures NodeMatches(properties, q) <==> properties.Some? && |properties.value| > 0
  {
    if properties.Some? && |properties.value| > 0 {
      ContainsEmpty(Lower(properties.value[0].displayValue));
      assert PropertyMatches(properties.value[0], q);
    }
  }

  /** A term without `:` finds exactly the nodes with a property whose lower-cased value contains the normalised term. */
  lemma SearchWithoutColon(searchTerm: string, properties: Option<seq<Property>>)
    requires ':' !in Normalize(searchTerm)
    ensures NodeMatches(properties, ParseQuery(searchTerm)) <==>
      properties.Some? && exists i :: 0 <= i < |properties.value| && Contains(Lower(properties.value[i].displayValue), Normalize(searchTerm))
  {
    ParseWithoutColon(searchTerm);
    if properties.Some? {
      var q := ParseQuery(searchTerm);
      assert forall i :: 0 <= i < |properties.value| ==>
        (PropertyMatches(properties.value[i], q) <==> Contains(Lower(properties.value[i].displayValue), Normalize(searchTerm)));
    }
  }

  /** With a lower-case attribute, a property satisfies the query when its normalised name is the attribute and its value contains the query value. */
  lemma PropertyMatchesAttribute(p: Property, attribute: string, value: string)
    requires attribute != "" && Lower(attribute) == attribute
    ensures PropertyMatches(p, Query(Some(attribute), value)) <==>
      Lower(Trim(p.displayName)) == attribute && Contains(Lower(p.displayValue), value)
  {
  }

  /** The attribute of a normalised `a:…` term is already lower-case. */
  lemma ParsedAttributeIsLower(searchTerm: string, a: string, v: string, rest: string)
    requires Normalize(searchTerm) == a + [':'] + v + rest
    ensures Lower(Trim(a)) == Trim(a)
  {
    var term := Normalize(searchTerm);
    NormalizedNoUpper(searchTerm);
    assert a == term[..|a|];
    InfixNoUpper(term, 0, |a|);
    TrimKeepsNoUpper(a);
    LowerOfNoUpper(Trim(a));
  }

  /**
   * A term `a:v…` with a non-blank attribute finds exactly the nodes with a
   * property whose trimmed name, lower-cased, is the trimmed attribute and
   * whose lower-cased value contains the trimmed `v`.
   */
  lemma SearchWithAttribute(searchTerm: string, a: string, v: string, rest: string, properties: Option<seq<Property>>)
    requires Normalize(searchTerm) == a + [':'] + v + rest
    requires ':' !in a && ':' !in v
    requires rest == [] || rest[0] == ':'
    requires Trim(a) != ""
    ensures NodeMatches(properties, ParseQuery(searchTerm)) <==>
      properties.Some? && exists i :: (0 <= i < |properties.value|
                                        && Lower(Trim(properties.value[i].displayName)) == Trim(a)
                                        && Contains(Lower(properties.value[i].displayValue), Trim(v)))
  {
    ParseWithColon(searchTerm, a, v, rest);
    ParsedAttributeIsLower(searchTerm, a, v, rest);
    if properties.Some? {
      var ps := properties.value;
      forall i | 0 <= i < |ps|
        ensures PropertyMatches(ps[i], Query(Some(Trim(a)), Trim(v))) <==>
          Lower(Trim(ps[i].displayName)) == Trim(a) && Contains(Lower(ps[i].displayValue), Trim(v))
      {
        PropertyMatchesAttribute(ps[i], Trim(a), Trim(v));
      }
    }
  }

  /**
   * A term `a:v…` whose attribute is blank (`":x"`) leaves an empty, hence
   * falsy, attribute: the names are ignored and any property value containing
   * the trimmed `v` makes the node match.
   */
  lemma SearchWithBlankAttribute(searchTerm: string, a: string, v: string, rest: string, properties: Option<seq<Property>>)
    requires Normalize(searchTerm) == a + [':'] + v + rest
    requires ':' !in a && ':' !in v
    requires rest == [] || rest[0] == ':'
    requires Trim(a) == ""
    ensures ParseQuery(searchTerm).attribute == Some("")
    ensures NodeMatches(properties, ParseQuery(searchTerm)) <==>
      properties.Some? && exists i :: 0 <= i < |properties.value| && Contains(Lower(properties.value[i].displayValue), Trim(v))
  {
    ParseWithColon(searchTerm, a, v, rest);
    if properties.Some? {
      var q := ParseQuery(searchTerm);
      assert forall i :: 0 <= i < |properties.value| ==>
        (PropertyMatches(properties.value[i], q) <==> Contains(Lower(properties.value[i].displayValue), Trim(v)));
    }
  }

  /** A blank search term finds every enumerated node that has at least one property. */
  lemma BlankSearchMatchesEveryNodeWithProperties(searchTerm: string, ids: seq<DbId>, lookup: DbId -> Option<seq<Property>>, x: DbId)
    requires Normalize(searchTerm) == ""
    ensures x in MatchingIds(ids, lookup, ParseQuery(searchTerm)) <==>
      x in ids && lookup(x).Some? && |lookup(x).value| > 0
  {
    MatchingMembership(ids, lookup, ParseQuery(searchTerm), x);
    EmptyValueMatchesAll(lookup(x), ParseQuery(searchTerm));
  }

  // ---------------------------------------------------------------------
  // The viewer and the search itself
  // ---------------------------------------------------------------------

  /** The ids of a sequence, as a set. */
  function Elements(ids: seq<DbId>): set<DbId> {
    set x | x in ids
  }

  /**
   * The loaded viewer. `tree` is every node id `enumNodeChildren` reports from
   * the root, recursively, or None when the model has no instance tree;
   * `properties` is the `properties` field `getProperties` reports for an id,
   * None when it is absent. `hidden` is the set of hidden nodes and `fitted`
   * the successive `fitToView` requests.
   */
  class Viewer {
    const tree: Option<seq<DbId>>
    const properties: DbId -> Option<seq<Property>>
    var hidden: set<DbId>
    var fitted: seq<seq<DbId>>

    constructor (tree: Option<seq<DbId>>, properties: DbId -> Option<seq<Property>>)
      ensures this.tree == tree && this.properties == properties
      ensures hidden == {} && fitted == []
    {
      this.tree := tree;
      this.properties := properties;
      hidden := {};
      fitted := [];
    }

    /** `viewer.hide(ids)`. */
    method Hide(ids: seq<DbId>)
      modifies this
      ensures hidden == old(hidden) + Elements(ids)
      ensures fitted == old(fitted)
    {
      hidden := hidden + Elements(ids);
    }

    /** `viewer.show(ids)`. */
    method Show(ids: seq<DbId>)
      modifies this
      ensures hidden == old(hidden) - Elements(ids)
      ensures fitted == old(fitted)
    {
      hidden := hidden - Elements(ids);
    }

    /** `viewer.fitToView(ids)`. */
    method FitToView(ids: seq<DbId>)
      modifies this
      ensures fitted == old(fitted) + [ids]
      ensures hidden == old(hidden)
    {
      fitted := fitted + [ids];
    }
  }

  /**
   * `getMatchingElements`: parse the term, then test every enumerated node in
   * order, scanning its properties until the first that satisfies the query;
   * a missing instance tree gives no match.
   */
  method GetMatchingElements(viewer: Viewer, searchTerm: string) returns (matchingDbIds: seq<DbId>)
    ensures viewer.tree.None? ==> matchingDbIds == []
    ensures viewer.tree.Some? ==> matchingDbIds == MatchingIds(viewer.tree.value, viewer.properties, ParseQuery(searchTerm))
  {
    var q := ParseQuery(searchTerm);
    if viewer.tree.None? {
      return [];
    }
    var allDbIds := viewer.tree.value;
    matchingDbIds := [];
    for k := 0 to |allDbIds|
      invariant matchingDbIds == MatchingIds(allDbIds[..k], viewer.properties, q)
    {
      var dbId := allDbIds[k];
      var data := viewer.properties(dbId);
      MatchingIdsSnoc(allDbIds, viewer.properties, q, k);
      if data.Some? {
        var props := data.value;
        var j := 0;
        while j < |props|
          invariant 0 <= j <= |props|
          invariant forall t :: 0 <= t < j ==> !PropertyMatches(props[t], q)
          invariant matchingDbIds == MatchingIds(allDbIds[..k], viewer.properties, q)
        {
          var prop := props[j];
          var propName := Trim(prop.displayName);
          var propValue := Lower(prop.displayValue);
          if HasAttribute(q) {
            if Lower(propName) == Lower(q.attribute.value) && Contains(propValue, q.value) {
              assert PropertyMatches(props[j], q);
              matchingDbIds := matchingDbIds + [dbId];
              break;
            }
          } else {
            if Contains(propValue, q.value) {
              assert PropertyMatches(props[j], q);
              matchingDbIds := matchingDbIds + [dbId];
              break;
            }
          }
          j := j + 1;
        }
      }
    }
    assert allDbIds[..|allDbIds|] == allDbIds;
  }

  /**
   * `applySearchResults`: with an instance tree, hide every enumerated node,
   * then show the matches and fit the view to them when there are any.
   */
  method ApplySearchResults(viewer: Viewer, matchingDbIds: seq<DbId>, searchTerm: string)
    modifies viewer
    ensures viewer.tree.None? ==> viewer.hidden == old(viewer.hidden) && viewer.fitted == old(viewer.fitted)
    ensures viewer.tree.Some? ==>
      viewer.hidden == (old(viewer.hidden) + Elements(viewer.tree.value)) - Elements(matchingDbIds)
    ensures viewer.tree.Some? ==>
      viewer.fitted == old(viewer.fitted) + if matchingDbIds == [] then [] else [matchingDbIds]
  {
    if viewer.tree.None? {
      return;
    }
    var allDbIds := viewer.tree.value;
    viewer.Hide(allDbIds);
    if |matchingDbIds| > 0 {
      viewer.Show(matchingDbIds);
      viewer.FitToView(matchingDbIds);
    } else {
      assert Elements(matchingDbIds) == {};
    }
  }

  /** When the matches are among the enumerated nodes, the enumerated nodes left visible are exactly the matches. */
  lemma VisibleAreMatches(before: set<DbId>, all: seq<DbId>, matching: seq<DbId>, x: DbId)
    requires Elements(matching) <= Elements(all)
    ensures x in all ==> (x !in (before + Elements(all)) - Elements(matching) <==> x in matching)
    ensures x !in all ==> (x !in (before + Elements(all)) - Elements(matching) <==> x !in before)
  {
  }

  /**
   * `searchModel`: find the matches, then apply them. Afterwards an enumerated
   * node is visible exactly when it matches the query, and the view is fitted
   * to the matches only when there are some.
   */
  method SearchModel(viewer: Viewer, searchTerm: string)
    modifies viewer
    ensures viewer.tree.None? ==> viewer.hidden == old(viewer.hidden) && viewer.fitted == old(viewer.fitted)
    ensures viewer.tree.Some? ==>
      forall x :: x in viewer.tree.value ==>
        (x !in viewer.hidden <==> NodeMatches(viewer.properties(x), ParseQuery(searchTerm)))
    ensures viewer.tree.Some? ==>
      var matching := MatchingIds(viewer.tree.value, viewer.properties, ParseQuery(searchTerm));
      viewer.hidden == (old(viewer.hidden) + Elements(viewer.tree.value)) - Elements(matching)
      && viewer.fitted == old(viewer.fitted) + if matching == [] then [] else [matching]
  {
    var matchingDbIds := GetMatchingElements(viewer, searchTerm);
    ApplySearchResults(viewer, matchingDbIds, searchTerm);
    if viewer.tree.Some? {
      var all := viewer.tree.value;
      var q := ParseQuery(searchTerm);
      forall x | x in all
        ensures x !in viewer.hidden <==> NodeMatches(viewer.properties(x), q)
      {
        MatchingMembership(all, viewer.properties, q, x);
      }
    }
  }

  // ---------------------------------------------------------------------
  // The search box and the live-search toggle
  // ---------------------------------------------------------------------

  /** An event the search box listens to. */
  datatype BoxEvent = Input | KeyPress(key: string)

  /** Whether an event starts a search: typing in live mode, Enter otherwise. */
  predicate StartsSearch(liveSearchActive: bool, event: BoxEvent) {
    match event
    case Input => liveSearchActive
    case KeyPress(key) => !liveSearchActive && key == "Enter"
  }

  /** In either mode exactly one of typing and pressing Enter searches; other keys never do. */
  lemma OneTriggerPerMode(liveSearchActive: bool, key: string)
    ensures StartsSearch(liveSearchActive, Input) != StartsSearch(liveSearchActive, KeyPress("Enter"))
    ensures key != "Enter" ==> !StartsSearch(liveSearchActive, KeyPress(key))
  {
  }

  function ButtonLabel(liveSearchActive: bool): string {
    if liveSearchActive then "Live Search: ON" else "Live Search: OFF"
  }

  /**
   * The search box wired up by `initializeSearch`: the live-search flag, the
   * toggle button's label and "active" class, and the number of clicks so far
   * (ghost), whose parity the flag always reflects.
   */
  class SearchBox {
    const viewer: Viewer
    var liveSearchActive: bool
    var buttonLabel: string
    var buttonActive: bool
    ghost var clicks: nat

    ghost predicate Valid()
      reads this
    {
      liveSearchActive == (clicks % 2 == 1)
    }

    /**
     * `initializeSearch(viewer)` for a defined viewer: live search starts off.
     * The button's label and "active" class before the first click are set by
     * the page's markup, which is not part of this model, so they are given.
     */
    constructor (viewer: Viewer, initialLabel: string, initialActive: bool)
      ensures Valid() && this.viewer == viewer
      ensures !liveSearchActive && clicks == 0
      ensures buttonLabel == initialLabel && buttonActive == initialActive
    {
      this.viewer := viewer;
      liveSearchActive := false;
      buttonLabel := initialLabel;
      buttonActive := initialActive;
      clicks := 0;
    }

    /** The toggle button's click handler. */
    method ToggleLiveSearch()
      requires Valid()
      modifies this
      ensures Valid()
      ensures clicks == old(clicks) + 1
      ensures liveSearchActive == !old(liveSearchActive)
      ensures buttonLabel == ButtonLabel(liveSearchActive) && buttonActive == liveSearchActive
    {
      liveSearchActive := !liveSearchActive;
      clicks := clicks + 1;
      buttonLabel := ButtonLabel(liveSearchActive);
      buttonActive := liveSearchActive;
    }

    /** The `input` handler: searches the box's current text only in live mode. */
    method OnInput(value: string) returns (searched: bool)
      modifies viewer
      ensures searched == StartsSearch(liveSearchActive, Input)
      ensures !searched || viewer.tree.None? ==> viewer.hidden == old(viewer.hidden) && viewer.fitted == old(viewer.fitted)
      ensures searched && viewer.tree.Some? ==>
        forall x :: x in viewer.tree.value ==>
          (x !in viewer.hidden <==> NodeMatches(viewer.properties(x), ParseQuery(value)))
      ensures searched && viewer.tree.Some? ==>
        var matching := MatchingIds(viewer.tree.value, viewer.properties, ParseQuery(value));
        viewer.hidden == (old(viewer.hidden) + Elements(viewer.tree.value)) - Elements(matching)
        && viewer.fitted == old(viewer.fitted) + if matching == [] then [] else [matching]
    {
      searched := liveSearchActive;
      if searched {
        SearchModel(viewer, value);
      }
    }

    /** The `keypress` handler: searches the box's current text on Enter, only outside live mode. */
    method OnKeyPress(key: string, value: string) returns (searched: bool)
      modifies viewer
      ensures searched == StartsSearch(liveSearchActive, KeyPress(key))
      ensures !searched || viewer.tree.None? ==> viewer.hidden == old(viewer.hidden) && viewer.fitted == old(viewer.fitted)
      ensures searched && viewer.tree.Some? ==>
        forall x :: x in viewer.tree.value ==>
          (x !in viewer.hidden <==> NodeMatches(viewer.properties(x), ParseQuery(value)))
      ensures searched && viewer.tree.Some? ==>
        var matching := MatchingIds(viewer.tree.value, viewer.properties, ParseQuery(value));
        viewer.hidden == (old(viewer.hidden) + Elements(viewer.tree.value)) - Elements(matching)
        && viewer.fitted == old(viewer.fitted) + if matching == [] then [] else [matching]
    {
      searched := !liveSearchActive && key == "Enter";
      if searched {
        SearchModel(viewer, value);
      }
    }
  }

  /** `initializeSearch(viewer)`: nothing is wired up when the viewer is undefined. */
  method InitializeSearch(viewer: Viewer?, initialLabel: string, initialActive: bool) returns (box: SearchBox?)
    ensures viewer == null ==> box == null
    ensures viewer != null ==> box != null && fresh(box) && box.viewer == viewer && box.Valid() && !box.liveSearchActive
    ensures viewer != null ==> box.buttonLabel == initialLabel && box.buttonActive == initialActive && box.clicks == 0
  {
    if viewer == null {
      return null;
    }
    box := new SearchBox(viewer, initialLabel, initialActive);
  }
}
