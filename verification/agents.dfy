/**
 * The records of the agent-status feed and the classification of their
 * `status` field against the fixed display order (app-3.py lines 10-17).
 */
module Agents {
  import opened Wrappers

  /** One open ticket of an agent; every field may be absent in the feed. */
  datatype Ticket = Ticket(id: Option<string>, kind: Option<string>, subject: Option<string>)

  /**
   * One agent object of the feed. Each optional field holds the value of its
   * JSON key, `None` when the key is absent; `status` holds the classified
   * value of the `status` key.
   */
  datatype Agent = Agent(
    name: Option<string>,
    email: Option<string>,
    status: FeedStatus,
    openTicketsCount: Option<int>,
    openTickets: seq<Ticket>)

  /** The classification of a raw status value. */
  datatype Status = OnCall | Busy | Available | Away | Unknown(raw: string) | Missing {
    predicate Recognised() {
      !Unknown? && !Missing?
    }
  }

  /** The four recognised status names, in display order. */
  const StatusOrder: seq<string> := ["on_call", "busy", "available", "away"]

  /** A classification that some raw value has: `Unknown` never holds one of the four names. */
  type FeedStatus = s: Status | !s.Unknown? || s.raw !in StatusOrder witness Missing

  /** The rank given to a missing or unrecognised status. */
  const UnrankedRank: nat := 99

  /** The status a raw `status` value (absent: `None`) stands for. */
  function Classify(raw: Option<string>): (s: FeedStatus)
    ensures s.Recognised() <==> raw.Some? && raw.value in StatusOrder
    ensures s == Missing <==> raw.None?
  {
    match raw
    case None => Missing
    case Some(v) =>
      if v == "on_call" then OnCall
      else if v == "busy" then Busy
      else if v == "available" then Available
      else if v == "away" then Away
      else Unknown(v)
  }

  /** The raw value a status was read from: Python's `a.get("status")`. */
  function RawOf(s: Status): Option<string> {
    match s
    case OnCall => Some("on_call")
    case Busy => Some("busy")
    case Available => Some("available")
    case Away => Some("away")
    case Unknown(v) => Some(v)
    case Missing => None
  }

  /** Classification loses nothing: it and `RawOf` are mutually inverse. */
  lemma ClassifyRoundTrip(raw: Option<string>, s: FeedStatus)
    ensures RawOf(Classify(raw)) == raw
    ensures Classify(RawOf(s)) == s
  {
  }

  /**
   * The sort key of an agent: the index of its status in `StatusOrder`, or
   * 99 when the status is absent or not one of the four names.
   */
  function Rank(a: Agent): nat {
    match a.status
    case OnCall => 0
    case Busy => 1
    case Available => 2
    case Away => 3
    case _ => UnrankedRank
  }

  /** The values `Rank` can take: 0, 1, 2, 3 and 99. */
  predicate IsRankValue(k: int) {
    k == 0 || k == 1 || k == 2 || k == 3 || k == UnrankedRank
  }

  /**
   * `Rank` is Python's `STATUS_ORDER.index(a.get("status"))` when the status is
   * one of the four names, and 99 otherwise.
   */
  lemma RankIsIndex(a: Agent)
    ensures IsRankValue(Rank(a))
    ensures Rank(a) < |StatusOrder| <==> RawOf(a.status).Some? && RawOf(a.status).value in StatusOrder
    ensures Rank(a) < |StatusOrder| ==> Some(StatusOrder[Rank(a)]) == RawOf(a.status)
    ensures Rank(a) >= |StatusOrder| ==> Rank(a) == UnrankedRank
  {
  }
}
