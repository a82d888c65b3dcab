// Metric values grouped by metric ID, one append at a time.
module Grouping {
  import opened Common

  function WithId(all: seq<MetricValue>, id: string): seq<MetricValue> {
    if all == [] then []
    else
      var n := |all| - 1;
      if all[n].id == id then WithId(all[..n], id) + [all[n]] else WithId(all[..n], id)
  }

  function Ids(all: seq<MetricValue>): set<string> {
    set m | m in all :: m.id
  }

  lemma {:induction false} WithIdHasId(all: seq<MetricValue>, id: string)
    ensures forall m | m in WithId(all, id) :: m.id == id
  {
    if all != [] {
      WithIdHasId(all[..|all| - 1], id);
    }
  }

  // A group holds the metrics with its ID, each as often as the list does.
  lemma {:induction false} WithIdCount(all: seq<MetricValue>, id: string, m: MetricValue)
    ensures multiset(WithId(all, id))[m] == if m.id == id then multiset(all)[m] else 0
  {
    if all != [] {
      var n := |all| - 1;
      WithIdCount(all[..n], id, m);
      assert all == all[..n] + [all[n]];
    }
  }

  // The groups of a list, by metric ID.
  ghost predicate Groups(metricsById: map<string, seq<MetricValue>>, all: seq<MetricValue>) {
    && metricsById.Keys == Ids(all)
    && forall id | id in metricsById :: metricsById[id] == WithId(all, id)
  }

  lemma {:induction false} NotThere(all: seq<MetricValue>, id: string)
    requires id !in Ids(all)
    ensures WithId(all, id) == []
  {
    if all != [] {
      assert all[|all| - 1] in all;
      assert forall m | m in all[..|all| - 1] :: m in all;
      NotThere(all[..|all| - 1], id);
    }
  }

  method AddToGroup(metricsById: map<string, seq<MetricValue>>, ghost all: seq<MetricValue>, m: MetricValue)
    returns (metricsById': map<string, seq<MetricValue>>)
    requires Groups(metricsById, all)
    ensures Groups(metricsById', all + [m])
  {
    assert (all + [m])[..|all|] == all;
    assert Ids(all + [m]) == Ids(all) + {m.id};
    metricsById' := metricsById;
    if m.id !in metricsById' {
      NotThere(all, m.id);
      metricsById' := metricsById'[m.id := []];
    }
    metricsById' := metricsById'[m.id := metricsById'[m.id] + [m]];
  }
}
