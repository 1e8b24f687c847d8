/**
 * The metric cards (app-3.py lines 105-111 and 117): one count per
 * recognised status, the active count, and the size of the list.
 */
module Aggregates {
  import opened Agents

  /** `sum(1 for a in agents if a.get("status") == <s>)`. */
  function CountStatus(agents: seq<Agent>, s: Status): (n: nat)
    ensures n <= |agents|
  {
    if agents == [] then 0
    else (if agents[0].status == s then 1 else 0) + CountStatus(agents[1..], s)
  }

  /** Number of agents whose status is missing or not one of the four names. */
  function CountUnrecognised(agents: seq<Agent>): (n: nat)
    ensures n <= |agents|
  {
    if agents == [] then 0
    else (if agents[0].status.Recognised() then 0 else 1) + CountUnrecognised(agents[1..])
  }

  /** The five numbers of the metric row, plus the denominator of "active/total". */
  datatype Metrics = Metrics(onCall: nat, busy: nat, available: nat, away: nat, active: nat, total: nat)

  lemma {:induction false} CountsPartition(agents: seq<Agent>)
    ensures CountStatus(agents, OnCall) + CountStatus(agents, Busy)
          + CountStatus(agents, Available) + CountStatus(agents, Away)
          + CountUnrecognised(agents) == |agents|
  {
    if agents != [] {
      CountsPartition(agents[1..]);
    }
  }

  /**
   * The metric row: each card counts the positions holding exactly its
   * status, active sums the first three, and total is the list length.
   */
  function ComputeMetrics(agents: seq<Agent>): (m: Metrics)
    ensures m.onCall == |PositionsWith(agents, OnCall)|
    ensures m.busy == |PositionsWith(agents, Busy)|
    ensures m.available == |PositionsWith(agents, Available)|
    ensures m.away == |PositionsWith(agents, Away)|
    ensures m.total == |agents|
    ensures m.active == m.onCall + m.busy + m.available
    ensures m.active <= m.total
    ensures m.onCall + m.busy + m.available + m.away <= m.total
    ensures m.total - (m.onCall + m.busy + m.available + m.away) == CountUnrecognised(agents)
  {
    CountsPartition(agents);
    CountIsPositions(agents, OnCall);
    CountIsPositions(agents, Busy);
    CountIsPositions(agents, Available);
    CountIsPositions(agents, Away);
    var onCall := CountStatus(agents, OnCall);
    var busy := CountStatus(agents, Busy);
    var available := CountStatus(agents, Available);
    Metrics(onCall, busy, available, CountStatus(agents, Away),
            onCall + busy + available, |agents|)
  }

  /** The positions of `agents` whose status is `s`. */
  function PositionsWith(agents: seq<Agent>, s: Status): set<int> {
    set i | 0 <= i < |agents| && agents[i].status == s
  }

  lemma CountStatusAppend(a: seq<Agent>, b: seq<Agent>, s: Status)
    ensures CountStatus(a + b, s) == CountStatus(a, s) + CountStatus(b, s)
  {
    if a == [] {
      assert a + b == b;
    } else {
      assert (a + b)[1..] == a[1..] + b;
      CountStatusAppend(a[1..], b, s);
    }
  }

  /** Extending the list by one agent adds its position when its status matches. */
  lemma PositionsSnoc(agents: seq<Agent>, s: Status)
    requires agents != []
    ensures var n := |agents| - 1;
      PositionsWith(agents, s)
        == PositionsWith(agents[..n], s) + (if agents[n].status == s then {n} else {})
  {
    var n := |agents| - 1;
    forall i | 0 <= i < n
      ensures agents[..n][i] == agents[i]
    {
    }
  }

  /** Each count is the number of positions holding an agent of that status. */
  lemma {:induction false} CountIsPositions(agents: seq<Agent>, s: Status)
    ensures CountStatus(agents, s) == |PositionsWith(agents, s)|
    decreases |agents|
  {
    if agents != [] {
      var n := |agents| - 1;
      var init := agents[..n];
      assert agents == init + [agents[n]];
      CountIsPositions(init, s);
      CountStatusAppend(init, [agents[n]], s);
      PositionsSnoc(agents, s);
      assert n !in PositionsWith(init, s);
    }
  }

  lemma RemoveAtMultiset(ys: seq<Agent>, j: int)
    requires 0 <= j < |ys|
    ensures multiset(ys[..j] + ys[j + 1..]) == multiset(ys) - multiset{ys[j]}
  {
    assert ys == ys[..j] + [ys[j]] + ys[j + 1..];
  }

  lemma TailMultiset(xs: seq<Agent>)
    requires xs != []
    ensures multiset(xs[1..]) == multiset(xs) - multiset{xs[0]}
  {
    assert xs == [xs[0]] + xs[1..];
  }

  lemma RemoveAtCount(ys: seq<Agent>, j: int, s: Status)
    requires 0 <= j < |ys|
    ensures CountStatus(ys, s)
         == CountStatus(ys[..j] + ys[j + 1..], s) + (if ys[j].status == s then 1 else 0)
  {
    assert ys == ys[..j] + [ys[j]] + ys[j + 1..];
    CountStatusAppend(ys[..j], [ys[j]], s);
    CountStatusAppend(ys[..j] + [ys[j]], ys[j + 1..], s);
    CountStatusAppend(ys[..j], ys[j + 1..], s);
  }

  /** Counts do not depend on the order of the list. */
  lemma {:induction false} CountStatusPermutation(xs: seq<Agent>, ys: seq<Agent>, s: Status)
    requires multiset(xs) == multiset(ys)
    ensures CountStatus(xs, s) == CountStatus(ys, s)
    decreases |xs|
  {
    if xs == [] {
      assert |ys| == |multiset(ys)| == 0;
    } else {
      assert xs[0] in multiset(ys);
      var j :| 0 <= j < |ys| && ys[j] == xs[0];
      var rest := ys[..j] + ys[j + 1..];
      RemoveAtMultiset(ys, j);
      TailMultiset(xs);
      assert multiset(xs[1..]) == multiset(rest);
      CountStatusPermutation(xs[1..], rest, s);
      RemoveAtCount(ys, j, s);
      assert CountStatus(xs, s) == (if xs[0].status == s then 1 else 0) + CountStatus(xs[1..], s);
    }
  }

  /** The metrics of a reordered list equal those of the original. */
  lemma MetricsPermutation(xs: seq<Agent>, ys: seq<Agent>)
    requires multiset(xs) == multiset(ys)
    ensures ComputeMetrics(xs) == ComputeMetrics(ys)
  {
    CountStatusPermutation(xs, ys, OnCall);
    CountStatusPermutation(xs, ys, Busy);
    CountStatusPermutation(xs, ys, Available);
    CountStatusPermutation(xs, ys, Away);
    assert |xs| == |multiset(xs)| == |multiset(ys)| == |ys|;
  }

  /**
   * The four counts add up to the total exactly when every agent has one of
   * the four recognised statuses.
   */
  lemma {:induction false} CountsSumToTotalIff(agents: seq<Agent>)
    ensures var m := ComputeMetrics(agents);
      m.onCall + m.busy + m.available + m.away == m.total
      <==> forall i :: 0 <= i < |agents| ==> agents[i].status.Recognised()
    decreases |agents|
  {
    if agents != [] {
      CountsSumToTotalIff(agents[1..]);
      var m := ComputeMetrics(agents[1..]);
      assert CountUnrecognised(agents[1..]) == m.total - (m.onCall + m.busy + m.available + m.away);
      if forall i :: 0 <= i < |agents| ==> agents[i].status.Recognised() {
        assert forall i :: 0 <= i < |agents[1..]| ==> agents[1..][i].status.Recognised() by {
          forall i | 0 <= i < |agents[1..]|
            ensures agents[1..][i].status.Recognised()
          {
            assert agents[1..][i] == agents[i + 1];
          }
        }
      } else {
        var i :| 0 <= i < |agents| && !agents[i].status.Recognised();
        if i > 0 {
          assert agents[1..][i - 1] == agents[i];
        }
      }
    }
  }

  /** An empty list gives zero everywhere. */
  lemma EmptyMetrics()
    ensures ComputeMetrics([]) == Metrics(0, 0, 0, 0, 0, 0)
  {
  }
}
