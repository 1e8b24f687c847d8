/**
 * `get_agents` (app-3.py lines 57-70) without its HTTP call: the outcome of
 * the request and of JSON decoding is an input, and the function reproduces
 * the wrapping of a non-list payload, the sort, and the error shape.
 */
module Feed {
  import opened Wrappers
  import opened Agents
  import opened Sorting

  /** One decoded JSON value of the payload: an object, or anything else. */
  datatype Item =
    | Record(agent: Agent)
    /** A JSON value that is not an object; `typeName` is its Python type name. */
    | NonRecord(typeName: string)

  /** The decoded body: a JSON array, or any single other JSON value. */
  datatype Payload = List(items: seq<Item>) | Single(item: Item)

  /** What the request produced: an exception's text, or a decoded payload. */
  datatype Response = Failed(message: string) | Received(payload: Payload)

  /** The pair `get_agents` returns: the agent list and the optional error text. */
  datatype Loaded = Loaded(agents: seq<Agent>, error: Option<string>)

  /**
   * `data if isinstance(data, list) else [data]`: an array is taken as it is,
   * any other value becomes the only element.
   */
  function Wrap(p: Payload): (items: seq<Item>)
    ensures p.List? ==> items == p.items
    ensures p.Single? ==> |items| == 1 && items[0] == p.item
  {
    match p
    case List(xs) => xs
    case Single(x) => [x]
  }

  /** The text of the `AttributeError` raised by calling `.get` on a non-object. */
  function NoGetMessage(typeName: string): string {
    "'" + typeName + "' object has no attribute 'get'"
  }

  /** True when every item is a JSON object. */
  predicate AllRecords(items: seq<Item>) {
    forall i :: 0 <= i < |items| ==> items[i].Record?
  }

  /**
   * Computes the sort key of every item, left to right, as `sorted` does
   * before comparing anything: the agents when all items are objects, or the
   * error raised by the first item that is not.
   */
  function Keyed(items: seq<Item>): (r: Result<seq<Agent>>)
    ensures r.Success? <==> AllRecords(items)
    ensures r.Success? ==>
      && |r.value| == |items|
      && forall i :: 0 <= i < |items| ==> items[i] == Record(r.value[i])
    ensures r.Failure? ==>
      exists i :: (&& 0 <= i < |items|
                   && items[i].NonRecord?
                   && AllRecords(items[..i])
                   && r.error == NoGetMessage(items[i].typeName))
  {
    if items == [] then Success([])
    else
      match items[0]
      case NonRecord(t) =>
        assert AllRecords(items[..0]);
        Failure(NoGetMessage(t))
      case Record(a) =>
        match Keyed(items[1..])
        case Success(rest) => Success([a] + rest)
        case Failure(e) =>
          ghost var j :| 0 <= j < |items[1..]| && items[1..][j].NonRecord?
            && AllRecords(items[1..][..j]) && e == NoGetMessage(items[1..][j].typeName);
          assert items[..j + 1] == [items[0]] + items[1..][..j];
          Failure(e)
  }

  /** The agents of the payload, in feed order, when every item is an object. */
  function Records(items: seq<Item>): (agents: seq<Agent>)
    requires AllRecords(items)
    ensures |agents| == |items|
    ensures forall i :: 0 <= i < |items| ==> items[i] == Record(agents[i])
  {
    Keyed(items).value
  }

  /**
   * The result of one fetch: the sorted agents and no error, or no agents
   * and the exception's text.
   */
  function GetAgents(resp: Response): (r: Loaded)
    ensures r.error.None? <==> resp.Received? && AllRecords(Wrap(resp.payload))
    ensures r.error.Some? ==> r.agents == []
    ensures resp.Failed? ==> r.error == Some(resp.message)
    ensures resp.Received? && !AllRecords(Wrap(resp.payload)) ==>
      var items := Wrap(resp.payload);
      exists i :: (&& 0 <= i < |items|
                   && items[i].NonRecord?
                   && AllRecords(items[..i])
                   && r.error == Some(NoGetMessage(items[i].typeName)))
    ensures r.error.None? ==>
      var feed := Records(Wrap(resp.payload));
      && multiset(r.agents) == multiset(feed)
      && Sorted(r.agents)
      && forall k: nat :: WithRank(r.agents, k) == WithRank(feed, k)
  {
    match resp
    case Failed(m) => Loaded([], Some(m))
    case Received(p) =>
      match Keyed(Wrap(p))
      case Failure(e) => Loaded([], Some(e))
      case Success(feed) =>
        assert forall k: nat :: WithRank(SortByRank(feed), k) == WithRank(feed, k) by {
          forall k: nat
            ensures WithRank(SortByRank(feed), k) == WithRank(feed, k)
          {
            SortIsStable(feed, k);
          }
        }
        Loaded(SortByRank(feed), None)
  }

  /** A successful fetch is the feed's rank buckets, concatenated in order. */
  lemma GetAgentsIsBucketOrder(resp: Response)
    requires resp.Received? && AllRecords(Wrap(resp.payload))
    ensures GetAgents(resp).agents == BucketOrder(Records(Wrap(resp.payload)))
  {
    SortIsBucketOrder(Records(Wrap(resp.payload)));
  }

  /** A single JSON object becomes exactly a one-element agent list. */
  lemma SingleObjectIsOneAgent(a: Agent)
    ensures GetAgents(Received(Single(Record(a)))) == Loaded([a], None)
  {
    var items := Wrap(Single(Record(a)));
    assert items == [Record(a)];
    assert AllRecords(items);
    assert Records(items) == [a];
    assert SortByRank([a]) == [a];
  }

  /**
   * In a successful result every agent with a missing or unrecognised status
   * comes after every agent whose status is `away`.
   */
  lemma UnrankedAfterAway(resp: Response)
    requires resp.Received? && AllRecords(Wrap(resp.payload))
    ensures var xs := GetAgents(resp).agents;
      forall i, j :: 0 <= i < |xs| && 0 <= j < |xs| && !xs[i].status.Recognised() && xs[j].status == Away
        ==> j < i
  {
    var xs := GetAgents(resp).agents;
    assert Sorted(xs);
    forall i, j | 0 <= i < |xs| && 0 <= j < |xs| && !xs[i].status.Recognised() && xs[j].status == Away
      ensures j < i
    {
      assert Rank(xs[i]) == UnrankedRank && Rank(xs[j]) == 3;
    }
  }
}
