/**
 Certificate renewal (internal/controller/fabricnetwork_certificate_lifecycle.go): the due
 certificates of the inventory are grouped into one renewal request per workload, and the
 state of each request's Job is written back to the positions it came from.
 */
module Renewal {
  import opened Wrappers

  datatype State = Valid | Expired | RenewalDue | Renewing | RenewalFailed | Missing | Invalid

  /** An inventory entry: what identifies it for the Job's name, and its status. */
  datatype Item = Item(workload: string, renewable: bool, seed: string, state: State)

  datatype Request = Request(workload: string, indices: seq<nat>, jobName: string)

  datatype Status = Status(state: State, jobName: string, message: string)

  predicate Due(item: Item) {
    item.renewable && (item.state == Expired || item.state == RenewalDue)
  }

  predicate Ascending(indices: seq<nat>) {
    forall a, b :: 0 <= a < b < |indices| ==> indices[a] < indices[b]
  }

  /** The request holds exactly the due positions of its workload below `bound`, in order. */
  ghost predicate Collects(items: seq<Item>, bound: nat, workload: string, indices: seq<nat>)
    requires bound <= |items|
  {
    Ascending(indices) && (forall k :: 0 <= k < |indices| ==> indices[k] < bound) &&
    forall i: nat :: i < bound ==> (i in indices <==> Due(items[i]) && items[i].workload == workload)
  }

  /** One request per workload with due certificates: together they partition the due positions. */
  ghost predicate Partition(items: seq<Item>, requests: seq<Request>) {
    (forall r <- requests :: r.indices != [] && Collects(items, |items|, r.workload, r.indices)) &&
    (forall a, b :: 0 <= a < b < |requests| ==> requests[a].workload != requests[b].workload) &&
    (forall i :: 0 <= i < |items| && Due(items[i]) ==> Covers(requests, items[i].workload))
  }

  ghost predicate Covers(requests: seq<Request>, workload: string) {
    exists r <- requests :: r.workload == workload
  }

  /** Every due position is in exactly one request, and no other position is in any. */
  lemma PartitionIsExact(items: seq<Item>, requests: seq<Request>, i: nat)
    requires Partition(items, requests) && i < |items|
    ensures items[i].renewable && (items[i].state == Expired || items[i].state == RenewalDue) <==>
            exists r <- requests :: i in r.indices
    ensures forall a, b :: 0 <= a < b < |requests| ==> !(i in requests[a].indices && i in requests[b].indices)
  {
    if Due(items[i]) {
      var r :| r in requests && r.workload == items[i].workload;
      assert Collects(items, |items|, r.workload, r.indices);
      assert i in r.indices;
    }
    forall r | r in requests && i in r.indices
      ensures Due(items[i]) && r.workload == items[i].workload
    {
      assert Collects(items, |items|, r.workload, r.indices);
    }
  }

  /** The first loop of certificateRenewalRequests, with its map from workload to positions. */
  method GroupByWorkload(items: seq<Item>) returns (groups: map<string, seq<nat>>)
    ensures forall w <- groups :: groups[w] != [] && Collects(items, |items|, w, groups[w])
    ensures forall i :: 0 <= i < |items| && Due(items[i]) ==> items[i].workload in groups
  {
    groups := map[];
    for i := 0 to |items|
      invariant forall w <- groups :: groups[w] != [] && Collects(items, i, w, groups[w])
      invariant forall k :: 0 <= k < i && Due(items[k]) ==> items[k].workload in groups
    {
      if !Due(items[i]) {
        continue;
      }
      var key := items[i].workload;
      var indices := if key in groups then groups[key] else [];
      CollectOneMore(items, i, key, indices);
      groups := groups[key := indices + [i]];
    }
  }

  lemma CollectOneMore(items: seq<Item>, i: nat, workload: string, indices: seq<nat>)
    requires i < |items| && Due(items[i]) && items[i].workload == workload
    requires Collects(items, i, workload, indices) ||
             (indices == [] && forall k :: 0 <= k < i && Due(items[k]) ==> items[k].workload != workload)
    ensures Collects(items, i + 1, workload, indices + [i])
  {
    var longer := indices + [i];
    assert longer[|indices|] == i;
    forall k: nat | k < i + 1
      ensures k in longer <==> Due(items[k]) && items[k].workload == workload
    {
      assert k in longer <==> k in indices || k == i;
    }
  }

  /** certificateRenewalRequests: whatever order the map is iterated in, the requests are a partition. */
  method CertificateRenewalRequests(items: seq<Item>, jobName: (string, seq<nat>) -> string) returns (requests: seq<Request>)
    ensures Partition(items, requests)
    ensures forall r <- requests :: r.jobName == jobName(r.workload, r.indices)
  {
    var groups := GroupByWorkload(items);
    var todo := groups.Keys;
    requests := [];
    while todo != {}
      invariant todo <= groups.Keys
      invariant forall r <- requests :: r.workload in groups.Keys - todo && r.indices == groups[r.workload] &&
                                        r.jobName == jobName(r.workload, r.indices)
      invariant forall w <- groups.Keys - todo :: Covers(requests, w)
      invariant forall a, b :: 0 <= a < b < |requests| ==> requests[a].workload != requests[b].workload
      decreases todo
    {
      var key :| key in todo;
      var request := Request(key, groups[key], jobName(key, groups[key]));
      forall w <- groups.Keys - (todo - {key})
        ensures Covers(requests + [request], w)
      {
        if w == key {
          assert request in requests + [request];
        } else {
          assert Covers(requests, w);
          var r :| r in requests && r.workload == w;
          assert r in requests + [request];
        }
      }
      requests, todo := requests + [request], todo - {key};
    }
  }

  // ------------------------------------------------------------------------------- write-back

  /** certificateRenewalJobState never reports anything that counts as renewed. */
  predicate NeedsRenewal(state: State) {
    state == Expired || state == RenewalDue || state == Renewing || state == RenewalFailed
  }

  datatype JobReport = JobReport(state: State, message: string)

  /** What position i reads after the Jobs of all requests have reported. */
  function After(requests: seq<Request>, report: string -> JobReport, i: nat, before: Status): Status {
    if requests == [] then before
    else
      var last := requests[|requests| - 1];
      if i in last.indices
      then Status(report(last.jobName).state, last.jobName, report(last.jobName).message)
      else After(requests[..|requests| - 1], report, i, before)
  }

  /** setCertificateRenewalJobStatus. */
  method SetRenewalJobStatus(statuses: array<Status>, request: Request, report: JobReport)
    requires forall k :: 0 <= k < |request.indices| ==> request.indices[k] < statuses.Length
    modifies statuses
    ensures forall i :: 0 <= i < statuses.Length ==>
      statuses[i] == if i in request.indices then Status(report.state, request.jobName, report.message) else old(statuses[i])
  {
    for k := 0 to |request.indices|
      invariant forall i :: 0 <= i < statuses.Length ==>
        statuses[i] == if i in request.indices[..k] then Status(report.state, request.jobName, report.message) else old(statuses[i])
    {
      statuses[request.indices[k]] := Status(report.state, request.jobName, report.message);
    }
    assert request.indices[..|request.indices|] == request.indices;
  }

  /** The loop over the requests. */
  method ApplyReports(statuses: array<Status>, requests: seq<Request>, report: string -> JobReport)
    requires forall r <- requests :: forall k :: 0 <= k < |r.indices| ==> r.indices[k] < statuses.Length
    modifies statuses
    ensures forall i :: 0 <= i < statuses.Length ==> statuses[i] == After(requests, report, i, old(statuses[i]))
  {
    for n := 0 to |requests|
      invariant forall i :: 0 <= i < statuses.Length ==> statuses[i] == After(requests[..n], report, i, old(statuses[i]))
    {
      SetRenewalJobStatus(statuses, requests[n], report(requests[n].jobName));
      assert requests[..n + 1][..n] == requests[..n] && requests[..n + 1][n] == requests[n];
    }
    assert requests[..|requests|] == requests;
  }

  /** certificateStatusesNeedRenewal. */
  method StatusesNeedRenewal(statuses: array<Status>) returns (needed: bool)
    ensures needed <==>
      exists i :: 0 <= i < statuses.Length && statuses[i].state in {Expired, RenewalDue, Renewing, RenewalFailed}
  {
    for i := 0 to statuses.Length
      invariant forall k :: 0 <= k < i ==> !NeedsRenewal(statuses[k].state)
    {
      if NeedsRenewal(statuses[i].state) {
        return true;
      }
    }
    return false;
  }

  /** Positions that are not due keep their status; each due one gets the report of its own request. */
  lemma {:induction false} AfterIsItsOwnReport(requests: seq<Request>, report: string -> JobReport, i: nat, before: Status)
    requires forall a, b :: 0 <= a < b < |requests| ==> !(i in requests[a].indices && i in requests[b].indices)
    ensures (forall r <- requests :: i !in r.indices) ==> After(requests, report, i, before) == before
    ensures forall r <- requests :: i in r.indices ==>
      After(requests, report, i, before) == Status(report(r.jobName).state, r.jobName, report(r.jobName).message)
  {
    if requests != [] {
      var init, n := requests[..|requests| - 1], |requests| - 1;
      AfterIsItsOwnReport(init, report, i, before);
      forall r | r in requests && i in r.indices && i !in requests[n].indices
        ensures r in init
      {
        var k :| 0 <= k < |requests| && requests[k] == r;
        assert init[k] == r;
      }
      forall r | r in requests && i in r.indices && i in requests[n].indices
        ensures r == requests[n]
      {
        var k :| 0 <= k < |requests| && requests[k] == r;
      }
    }
  }

  /**
   reconcileCertificateLifecycle from the inventory on. `blocked` stands for identity
   material or a CA that is not ready, and for a registrar rotation in progress.
   */
  method ReconcileCertificateLifecycle(
    items: seq<Item>, statuses: array<Status>, jobName: (string, seq<nat>) -> string, report: string -> JobReport, blocked: bool)
    returns (requests: seq<Request>, required: bool)
    requires statuses.Length == |items| && forall i :: 0 <= i < |items| ==> statuses[i].state == items[i].state
    requires forall name :: NeedsRenewal(report(name).state)
    modifies statuses
    ensures Partition(items, requests)
    ensures forall i :: 0 <= i < |items| && (blocked || !Due(items[i])) ==> statuses[i] == old(statuses[i])
    ensures !blocked ==> forall i, r :: 0 <= i < |items| && r in requests && i in r.indices ==>
      statuses[i] == Status(report(r.jobName).state, r.jobName, report(r.jobName).message)
    ensures requests != [] ==> required
    ensures required <==> exists i :: 0 <= i < |items| && statuses[i].state in {Expired, RenewalDue, Renewing, RenewalFailed}
  {
    requests := CertificateRenewalRequests(items, jobName);
    forall r | r in requests
      ensures forall k :: 0 <= k < |r.indices| ==> r.indices[k] < statuses.Length
    {
      assert Collects(items, |items|, r.workload, r.indices);
    }
    if requests != [] && !blocked {
      ApplyReports(statuses, requests, report);
    }
    forall i: nat | i < |items|
      ensures !Due(items[i]) ==> statuses[i] == old(statuses[i])
      ensures !blocked ==> forall r <- requests :: i in r.indices ==>
        statuses[i] == Status(report(r.jobName).state, r.jobName, report(r.jobName).message)
    {
      PartitionIsExact(items, requests, i);
      AfterIsItsOwnReport(requests, report, i, old(statuses[i]));
    }
    required := StatusesNeedRenewal(statuses);
    if requests != [] {
      assert Collects(items, |items|, requests[0].workload, requests[0].indices);
      var i := requests[0].indices[0];
      assert i in requests[0].indices && NeedsRenewal(statuses[i].state);
    }
  }
}
