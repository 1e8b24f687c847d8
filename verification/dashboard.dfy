/**
 * One run of the script (app-3.py lines 99-190): load the feed, compute the
 * metrics, filter the grid, and resolve the detail panel from the session's
 * selection.
 */
module Dashboard {
  import opened Wrappers
  import opened Agents
  import opened Sorting
  import opened Feed
  import opened Aggregates
  import opened Filtering
  import opened Selection

  /** What one run shows. */
  datatype View = View(
    agents: seq<Agent>,
    error: Option<string>,
    metrics: Metrics,
    shown: seq<Agent>,
    detail: Option<Agent>)

  /**
   * The detail panel is only laid out when the grid is not empty, and then
   * shows the first agent of the full list whose email is the selected one.
   */
  function DetailPanel(agents: seq<Agent>, shown: seq<Agent>, sel: Option<string>): (d: Option<Agent>)
    ensures d.Some? ==>
      && shown != [] && sel.Some?
      && exists i :: (&& 0 <= i < |agents|
                      && agents[i] == d.value
                      && agents[i].email == sel
                      && forall j :: 0 <= j < i ==> agents[j].email != sel)
    ensures shown != [] && sel.Some? && (exists i :: 0 <= i < |agents| && agents[i].email == sel) ==> d.Some?
  {
    if shown == [] then None else Resolve(agents, sel)
  }

  /**
   * The page drawn from one fetch's result: the metrics of its list, the
   * agents passing the selected filter and search, and the detail panel.
   */
  function Present(loaded: Loaded, category: string, search: string, sel: Option<string>): (v: View)
    ensures v.agents == loaded.agents && v.error == loaded.error
    ensures v.metrics == ComputeMetrics(v.agents)
    ensures v.metrics.total == |v.agents|
    ensures v.metrics.active <= v.metrics.total
    ensures v.agents == [] ==> v.metrics == Metrics(0, 0, 0, 0, 0, 0) && v.shown == [] && v.detail.None?
    ensures IsSubsequence(v.shown, v.agents)
    ensures forall i :: 0 <= i < |v.shown| ==> Matches(v.shown[i], category, search)
    ensures forall a :: multiset(v.shown)[a]
                     == if Matches(a, category, search) then multiset(v.agents)[a] else 0
    ensures v.detail.Some? ==>
      && v.shown != [] && sel.Some?
      && exists i :: (&& 0 <= i < |v.agents|
                      && v.agents[i] == v.detail.value
                      && v.agents[i].email == sel
                      && forall j :: 0 <= j < i ==> v.agents[j].email != sel)
    ensures v.shown != [] && sel.Some? && (exists i :: 0 <= i < |v.agents| && v.agents[i].email == sel)
      ==> v.detail.Some?
  {
    var shown := FilterAgents(loaded.agents, category, search);
    View(loaded.agents, loaded.error, ComputeMetrics(loaded.agents), shown,
         DetailPanel(loaded.agents, shown, sel))
  }

  /**
   * One run: fetch the feed, then draw the page with the category of the
   * selected label.
   */
  function Cycle(resp: Response, option: string, search: string, sel: Option<string>): (v: View)
    requires option in FilterMap
    ensures v.agents == GetAgents(resp).agents && v.error == GetAgents(resp).error
    ensures v.metrics == ComputeMetrics(v.agents)
    ensures v.error.None? <==> resp.Received? && AllRecords(Wrap(resp.payload))
    ensures v.error.None? ==> v.agents == BucketOrder(Records(Wrap(resp.payload)))
    ensures resp.Failed? ==> v.error == Some(resp.message)
    ensures v.error.Some? ==> v.agents == [] && v.shown == [] && v.detail.None?
    ensures v.metrics.total == |v.agents|
    ensures v.metrics.active <= v.metrics.total
    ensures v.error.Some? ==> v.metrics == Metrics(0, 0, 0, 0, 0, 0)
    ensures IsSubsequence(v.shown, v.agents)
    ensures forall i :: 0 <= i < |v.shown| ==> Matches(v.shown[i], SelectedFilter(option), search)
    ensures forall a :: multiset(v.shown)[a]
                     == if Matches(a, SelectedFilter(option), search) then multiset(v.agents)[a] else 0
    ensures v.detail.Some? ==>
      && v.shown != [] && sel.Some?
      && exists i :: (&& 0 <= i < |v.agents|
                      && v.agents[i] == v.detail.value
                      && v.agents[i].email == sel
                      && forall j :: 0 <= j < i ==> v.agents[j].email != sel)
    ensures v.shown != [] && sel.Some? && (exists i :: 0 <= i < |v.agents| && v.agents[i].email == sel)
      ==> v.detail.Some?
  {
    LoadedFacts(resp);
    Present(GetAgents(resp), SelectedFilter(option), search, sel)
  }

  /** What a fetch yields, as `Cycle` uses it. */
  lemma LoadedFacts(resp: Response)
    ensures var loaded := GetAgents(resp);
      && (loaded.error.None? <==> resp.Received? && AllRecords(Wrap(resp.payload)))
      && (loaded.error.None? ==> loaded.agents == BucketOrder(Records(Wrap(resp.payload))))
      && (resp.Failed? ==> loaded.error == Some(resp.message))
      && (loaded.error.Some? ==> loaded.agents == [])
  {
    if GetAgents(resp).error.None? {
      GetAgentsIsBucketOrder(resp);
    }
  }

  /**
   * The counts shown after a successful load are those of the feed as it
   * arrived: sorting does not change them.
   */
  lemma MetricsOfFeed(resp: Response, option: string, search: string, sel: Option<string>)
    requires option in FilterMap
    requires resp.Received? && AllRecords(Wrap(resp.payload))
    ensures Cycle(resp, option, search, sel).metrics == ComputeMetrics(Records(Wrap(resp.payload)))
  {
    MetricsPermutation(GetAgents(resp).agents, Records(Wrap(resp.payload)));
  }

  /**
   * The panel does not depend on the filter: any two non-empty grids, however
   * filtered, show the same agent.
   */
  lemma DetailIgnoresFilter(agents: seq<Agent>, shown1: seq<Agent>, shown2: seq<Agent>, sel: Option<string>)
    requires shown1 != [] && shown2 != []
    ensures DetailPanel(agents, shown1, sel) == DetailPanel(agents, shown2, sel)
  {
  }

  const Ana: Agent := Agent(Some("Ana"), Some("ana@x.com"), Away, None, [])
  const Beto: Agent := Agent(Some("Beto"), Some("beto@x.com"), OnCall, None, [])

  lemma ExampleLoad()
    ensures GetAgents(Received(List([Record(Ana), Record(Beto)]))).agents == [Beto, Ana]
  {
    var items := [Record(Ana), Record(Beto)];
    assert AllRecords(items) by {
      assert items[0].Record? && items[1].Record?;
    }
    var feed := Keyed(items).value;
    assert items[0] == Record(feed[0]) && items[1] == Record(feed[1]);
    assert feed == [Ana, Beto];
    assert SortByRank([Beto]) == [Beto];
    assert Insert(Ana, [Beto]) == [Beto, Ana];
  }

  lemma ExampleFilter()
    ensures FilterAgents([Beto, Ana], SelectedFilter("En llamada"), "") == [Beto]
  {
    assert SelectedFilter("En llamada") == "on_call";
    assert !Matches(Ana, "on_call", "");
    assert FilterAgents([Ana], "on_call", "") == [];
    assert [Beto, Ana][1..] == [Ana];
  }

  lemma ExampleResolve()
    ensures Resolve([Beto, Ana], Some("ana@x.com")) == Some(Ana)
  {
    assert "beto@x.com" != "ana@x.com";
    assert Resolve([Ana], Some("ana@x.com")) == Some(Ana);
    assert [Beto, Ana][1..] == [Ana];
  }

  /**
   * The selected agent is shown even when the filter hides its card, as long
   * as some card remains: the panel looks the selection up in the full list,
   * whatever the filter and search.
   */
  lemma DetailMayBeFilteredOut(resp: Response, option: string, search: string, sel: Option<string>, a: Agent)
    requires option in FilterMap
    requires Resolve(GetAgents(resp).agents, sel) == Some(a)
    ensures var v := Cycle(resp, option, search, sel);
      v.shown != [] ==> v.detail == Some(a)
  {
  }

  /**
   * One such run: with Ana away and Beto on a call, filtering on
   * "En llamada" leaves only Beto's card, yet Ana's panel stays open.
   */
  lemma ExampleFilteredOut()
    ensures var v := Cycle(Received(List([Record(Ana), Record(Beto)])), "En llamada", "", Some("ana@x.com"));
      && v.shown == [Beto]
      && v.detail == Some(Ana)
  {
    ExampleLoad();
    ExampleFilter();
    ExampleResolve();
  }
}
