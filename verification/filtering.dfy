/**
 * The status selector and search box (app-3.py lines 138-151): the label to
 * category map, and the list comprehension that keeps the agents matching
 * both the category and the search text.
 */
module Filtering {
  import opened Wrappers
  import opened Agents
  import opened Text

  /** The selector's labels, in the order it offers them. */
  const FilterLabels: seq<string> := ["Todos", "En llamada", "En ticket", "Disponibles", "Ausentes"]

  /** The category name meaning "no status restriction". */
  const AllCategory: string := "all"

  const FilterMap: map<string, string> := map[
    "Todos" := "all",
    "En llamada" := "on_call",
    "En ticket" := "busy",
    "Disponibles" := "available",
    "Ausentes" := "away"]

  /**
   * `filter_map[filter_option]`; the selector only ever yields one of its
   * labels, which are exactly the map's keys.
   */
  function SelectedFilter(option: string): (c: string)
    requires option in FilterMap
    ensures c == AllCategory || c in StatusOrder
    ensures c == AllCategory <==> option == FilterLabels[0]
  {
    FilterMap[option]
  }

  /** The map's keys are exactly the five labels the selector offers. */
  lemma FilterMapKeys()
    ensures FilterMap.Keys == set l | l in FilterLabels
  {
  }

  /**
   * The first label selects "all" and the others select the status at the
   * same position of `StatusOrder`.
   */
  lemma FilterMapAligned()
    ensures FilterMap[FilterLabels[0]] == AllCategory
    ensures forall i :: 1 <= i < |FilterLabels| ==> FilterMap[FilterLabels[i]] == StatusOrder[i - 1]
  {
  }

  /** The categories the map reaches are "all" and the four status names. */
  lemma FilterMapValues()
    ensures FilterMap.Values == {AllCategory} + set s | s in StatusOrder
  {
    forall v | v in FilterMap.Values
      ensures v == AllCategory || v in StatusOrder
    {
      var l :| l in FilterMap && FilterMap[l] == v;
    }
    forall v | v == AllCategory || v in StatusOrder
      ensures v in FilterMap.Values
    {
      if v == AllCategory {
        assert FilterMap["Todos"] == v;
      } else if v == StatusOrder[0] {
        assert FilterMap["En llamada"] == v;
      } else if v == StatusOrder[1] {
        assert FilterMap["En ticket"] == v;
      } else if v == StatusOrder[2] {
        assert FilterMap["Disponibles"] == v;
      } else {
        assert FilterMap["Ausentes"] == v;
      }
    }
  }

  /** Different labels select different categories. */
  lemma FilterMapInjective(l1: string, l2: string)
    requires l1 in FilterMap && l2 in FilterMap
    requires FilterMap[l1] == FilterMap[l2]
    ensures l1 == l2
  {
  }

  /**
   * `selected_filter == "all" or a.get("status") == selected_filter`: every
   * agent passes "all"; otherwise exactly the agents whose raw status is the
   * category, that is, whose status classifies the same way.
   */
  function MatchesCategory(a: Agent, category: string): (b: bool)
    ensures category == AllCategory ==> b
    ensures category != AllCategory ==> (b <==> a.status == Classify(Some(category)))
  {
    ClassifyRoundTrip(Some(category), a.status);
    category == AllCategory || RawOf(a.status) == Some(category)
  }

  /**
   * `not search or search.lower() in a.get("name", "").lower()
   *  or search.lower() in a.get("email", "").lower()`: an empty search passes
   * every agent; otherwise the lower-cased search must occur somewhere in the
   * lower-cased name or email, a missing one read as "".
   */
  function MatchesSearch(a: Agent, search: string): (b: bool)
    ensures search == "" ==> b
    ensures search != "" ==>
      (b <==> (|| (exists i :: OccursAt(Lower(a.name.GetOr("")), Lower(search), i))
               || (exists i :: OccursAt(Lower(a.email.GetOr("")), Lower(search), i))))
  {
    SearchScan(a.name.GetOr(""), search);
    SearchScan(a.email.GetOr(""), search);
    search == ""
      || Contains(Lower(a.name.GetOr("")), Lower(search))
      || Contains(Lower(a.email.GetOr("")), Lower(search))
  }

  /** The scan over one field finds the lower-cased search exactly where it occurs. */
  lemma SearchScan(field: string, search: string)
    ensures Contains(Lower(field), Lower(search)) <==> exists i :: OccursAt(Lower(field), Lower(search), i)
  {
    ContainsIffOccurs(Lower(field), Lower(search));
  }

  predicate Matches(a: Agent, category: string, search: string) {
    MatchesCategory(a, category) && MatchesSearch(a, search)
  }

  /** `sub` is `xs` with some elements removed and the rest in their order. */
  predicate IsSubsequence(sub: seq<Agent>, xs: seq<Agent>)
    decreases |xs|
  {
    if sub == [] then true
    else if xs == [] then false
    else if sub[0] == xs[0] then IsSubsequence(sub[1..], xs[1..])
    else IsSubsequence(sub, xs[1..])
  }

  /** The agents shown in the grid. */
  function FilterAgents(agents: seq<Agent>, category: string, search: string): (r: seq<Agent>)
    ensures |r| <= |agents|
    ensures IsSubsequence(r, agents)
    ensures forall i :: 0 <= i < |r| ==> Matches(r[i], category, search)
    ensures forall a :: multiset(r)[a] == if Matches(a, category, search) then multiset(agents)[a] else 0
  {
    if agents == [] then []
    else
      assert agents == [agents[0]] + agents[1..];
      var rest := FilterAgents(agents[1..], category, search);
      if Matches(agents[0], category, search) then [agents[0]] + rest else
        SubsequenceSkip(rest, agents[0], agents[1..]);
        rest
  }

  /** Putting an element in front keeps a subsequence a subsequence. */
  lemma {:induction false} SubsequenceSkip(sub: seq<Agent>, x: Agent, xs: seq<Agent>)
    requires IsSubsequence(sub, xs)
    ensures IsSubsequence(sub, [x] + xs)
    decreases |xs|, 1
  {
    assert ([x] + xs)[1..] == xs;
    if sub != [] && sub[0] == x {
      SubsequenceDropHead(sub, xs);
    }
  }

  lemma {:induction false} SubsequenceDropHead(sub: seq<Agent>, xs: seq<Agent>)
    requires sub != [] && IsSubsequence(sub, xs)
    ensures IsSubsequence(sub[1..], xs)
    decreases |xs|, 0
  {
    if sub[0] == xs[0] {
      SubsequenceSkip(sub[1..], xs[0], xs[1..]);
    } else {
      SubsequenceDropHead(sub, xs[1..]);
      SubsequenceSkip(sub[1..], xs[0], xs[1..]);
    }
    assert [xs[0]] + xs[1..] == xs;
  }

  /** With category "all" and an empty search every agent is shown, in order. */
  lemma {:induction false} FilterAllIsIdentity(agents: seq<Agent>)
    ensures FilterAgents(agents, AllCategory, "") == agents
  {
    if agents != [] {
      FilterAllIsIdentity(agents[1..]);
      assert agents == [agents[0]] + agents[1..];
    }
  }

  /** Filtering an already filtered list changes nothing. */
  lemma {:induction false} FilterIdempotent(agents: seq<Agent>, category: string, search: string)
    ensures var once := FilterAgents(agents, category, search);
      FilterAgents(once, category, search) == once
  {
    if agents != [] {
      FilterIdempotent(agents[1..], category, search);
      var rest := FilterAgents(agents[1..], category, search);
      if Matches(agents[0], category, search) {
        assert ([agents[0]] + rest)[1..] == rest;
      }
    }
  }
}
