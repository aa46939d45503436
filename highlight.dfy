/** The live search: which role nodes match a search term, and the fill
    colour each drawn node gets for a term. */
module Highlight {
  import opened Wrappers
  import opened JsString
  import opened Hierarchy

  /** `field?.toLowerCase().includes(lower)`: an absent field never matches. */
  predicate FieldIncludes(field: Option<string>, lower: string) {
    field.Some? && Includes(Lower(field.value), lower)
  }

  /** `people?.some(p => p.title?.toLowerCase().includes(lower))`. */
  predicate SomePersonIncludes(people: Option<seq<PageRef>>, lower: string) {
    people.Some? && exists k :: 0 <= k < |people.value| && FieldIncludes(people.value[k].title, lower)
  }

  /** `matchesSearch(roleData, searchTerm)`. */
  predicate MatchesSearch(role: RoleNode, term: string) {
    if term == "" then false
    else
      var lower := Lower(term);
      FieldIncludes(Some(role.name), lower) || FieldIncludes(role.purpose, lower)
      || FieldIncludes(role.responsibilities, lower) || SomePersonIncludes(role.people, lower)
  }

  /** Reference reading of a field match: the lower-cased term occurs in the
      lower-cased field. */
  ghost predicate FieldContains(field: Option<string>, term: string) {
    field.Some? && IsSubstring(Lower(term), Lower(field.value))
  }

  /** The search rule in full: the empty term matches nothing; any other term
      matches exactly when, ignoring ASCII case, it occurs in the name, the
      purpose, the responsibilities or some assigned person's title. */
  lemma {:induction false} MatchesSearchMeaning(role: RoleNode, term: string)
    ensures MatchesSearch(role, term) <==>
      term != "" &&
      (FieldContains(Some(role.name), term) || FieldContains(role.purpose, term)
       || FieldContains(role.responsibilities, term)
       || (role.people.Some? &&
           exists k :: 0 <= k < |role.people.value| && FieldContains(role.people.value[k].title, term)))
  {
    var lower := Lower(term);
    FieldMeaning(Some(role.name), term);
    FieldMeaning(role.purpose, term);
    FieldMeaning(role.responsibilities, term);
    if role.people.Some? {
      var ps := role.people.value;
      forall k | 0 <= k < |ps| ensures FieldIncludes(ps[k].title, lower) <==> FieldContains(ps[k].title, term) {
        FieldMeaning(ps[k].title, term);
      }
    }
  }

  lemma {:induction false} FieldMeaning(field: Option<string>, term: string)
    ensures FieldIncludes(field, Lower(term)) <==> FieldContains(field, term)
  {
    if field.Some? {
      IncludesIsSubstring(Lower(field.value), Lower(term));
    }
  }

  /** Case does not matter: terms equal after lower-casing match the same roles. */
  lemma {:induction false} MatchesSearchIgnoresCase(role: RoleNode, t1: string, t2: string)
    requires Lower(t1) == Lower(t2)
    ensures MatchesSearch(role, t1) == MatchesSearch(role, t2)
  {
    assert |t1| == |Lower(t1)| && |t2| == |Lower(t2)|;
  }

  /** Terms that differ only in the case of ASCII letters, character by
      character, match the same roles. */
  lemma {:induction false} CaseVariantsMatchAlike(role: RoleNode, t1: string, t2: string)
    requires |t1| == |t2| && forall i :: 0 <= i < |t1| ==> SameIgnoringAsciiCase(t1[i], t2[i])
    ensures MatchesSearch(role, t1) == MatchesSearch(role, t2)
  {
    LowerSame(t1, t2);
    MatchesSearchIgnoresCase(role, t1, t2);
  }

  /** Searching for a role's own non-empty name, in any case, finds it. */
  lemma {:induction false} NameFindsItsRole(role: RoleNode, term: string)
    requires role.name != "" && Lower(term) == Lower(role.name)
    ensures MatchesSearch(role, term)
  {
    IncludesSelf(Lower(role.name));
    assert term != "" by { assert |term| == |role.name|; }
  }

  const RootFill: string := "#4f46e5"
  const CircleFill: string := "#10b981"
  const MatchFill: string := "#fbbf24"
  const RoleFill: string := "#f3f4f6"

  /** A node of the laid-out tree, with the data d3 attaches to it. */
  datatype DrawnNode = RootAt(tree: Tree) | CircleAt(circle: CircleNode) | RoleAt(role: RoleNode)
  {
    function Depth(): nat {
      match this
      case RootAt(_) => 0
      case CircleAt(_) => 1
      case RoleAt(_) => 2
    }
  }

  /** The fill given when the circles are first drawn. */
  function InitialFill(d: DrawnNode): string {
    if d.Depth() == 0 then RootFill
    else if d.Depth() == 1 then CircleFill
    else RoleFill
  }

  /** The fill the search box and `updateHighlight` give for `term`. */
  function SearchFill(d: DrawnNode, term: string): string {
    if d.Depth() == 0 then RootFill
    else if d.Depth() == 1 then CircleFill
    else if d.Depth() == 2 && d.RoleAt? && MatchesSearch(d.role, term) then MatchFill
    else RoleFill
  }

  /** The highlight colour differs from the three colours of the first drawing. */
  lemma {:induction false} FillsDistinct()
    ensures RootFill != MatchFill && CircleFill != MatchFill && RoleFill != MatchFill
  {
    assert RootFill[2] != MatchFill[2] && CircleFill[2] != MatchFill[2] && RoleFill[2] != MatchFill[2];
  }

  /** Restyling every drawn node for `term`; the previous fills are
      overwritten. A node is highlighted exactly when it is a role matching
      the term, every other role has the standard role colour, and the
      root and the circles keep their first colours. */
  function Restyle(fills: seq<string>, nodes: seq<DrawnNode>, term: string): (r: seq<string>)
    requires |fills| == |nodes|
    ensures |r| == |nodes|
    ensures forall i :: 0 <= i < |nodes| ==>
      (r[i] == MatchFill <==> nodes[i].RoleAt? && MatchesSearch(nodes[i].role, term))
    ensures forall i :: 0 <= i < |nodes| && nodes[i].Depth() < 2 ==> r[i] == InitialFill(nodes[i])
    ensures forall i :: 0 <= i < |nodes| && nodes[i].RoleAt? && !MatchesSearch(nodes[i].role, term) ==> r[i] == RoleFill
  {
    FillsDistinct();
    seq(|nodes|, i requires 0 <= i < |nodes| => SearchFill(nodes[i], term))
  }

  /** The root and the circles keep their colours whatever the term; a role
      is highlighted exactly when it matches, and has the standard role
      colour otherwise. */
  lemma {:induction false} SearchFillByDepth(d: DrawnNode, term: string)
    ensures d.Depth() == 0 ==> SearchFill(d, term) == RootFill
    ensures d.Depth() == 1 ==> SearchFill(d, term) == CircleFill
    ensures SearchFill(d, term) == MatchFill <==> d.RoleAt? && MatchesSearch(d.role, term)
    ensures d.RoleAt? && !MatchesSearch(d.role, term) ==> SearchFill(d, term) == RoleFill
  {
    FillsDistinct();
  }

  /** Clearing the search restores the colours of the first drawing. */
  lemma {:induction false} EmptyTermRestoresInitial(fills: seq<string>, nodes: seq<DrawnNode>)
    requires |fills| == |nodes|
    ensures Restyle(fills, nodes, "") == seq(|nodes|, i requires 0 <= i < |nodes| => InitialFill(nodes[i]))
  {
  }

  /** The colouring after a term depends on that term alone, not on what was
      shown before; in particular the same term twice colours as once. */
  lemma {:induction false} RestyleForgetsHistory(fills: seq<string>, nodes: seq<DrawnNode>, t1: string, t2: string)
    requires |fills| == |nodes|
    ensures Restyle(Restyle(fills, nodes, t1), nodes, t2) == Restyle(fills, nodes, t2)
    ensures Restyle(Restyle(fills, nodes, t1), nodes, t1) == Restyle(fills, nodes, t1)
  {
  }
}
