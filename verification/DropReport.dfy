/** The sender's aggregated drop reports: one per reason for everything dropped since the
    last one. */
module DropReport {

  datatype Reason = QueueFull | Burst | Backlog | Oversize | Closed

  /** The five counters that are summarised; rejections are reported one by one elsewhere. */
  datatype Drops = Drops(queueFull: nat, burst: nat, backlog: nat, oversize: nat, closed: nat)
  {
    function Of(r: Reason): nat {
      match r
      case QueueFull => queueFull
      case Burst => burst
      case Backlog => backlog
      case Oversize => oversize
      case Closed => closed
    }
  }

  /** A DropError: so many records lost for one reason. */
  datatype Report = Report(reason: Reason, records: nat)

  /** What all reports so far say was lost for a reason. */
  function Reported(reports: seq<Report>, r: Reason): nat {
    if reports == [] then 0
    else
      var last := reports[|reports| - 1];
      Reported(reports[..|reports| - 1], r) + (if last.reason == r then last.records else 0)
  }

  lemma OneMoreReport(reports: seq<Report>, p: Report)
    ensures forall r :: Reported(reports + [p], r) == Reported(reports, r) + (if p.reason == r then p.records else 0)
  {
    assert (reports + [p])[..|reports|] == reports;
  }

  const ORDER: seq<Reason> := [QueueFull, Burst, Backlog, Oversize, Closed]

  function Position(r: Reason): (k: nat)
    ensures k < |ORDER| && ORDER[k] == r
  {
    match r case QueueFull => 0 case Burst => 1 case Backlog => 2 case Oversize => 3 case Closed => 4
  }

  class Reporter {
    var reported: Drops
    var sent: seq<Report>

    constructor ()
      ensures Valid() && sent == []
    {
      reported, sent := Drops(0, 0, 0, 0, 0), [];
    }

    /** The reports add up to the counters as they were last seen: no drop is reported twice,
        none is missed, and no report is empty. */
    ghost predicate Valid()
      reads this
    {
      && (forall r :: Reported(sent, r) == reported.Of(r))
      && (forall p :: p in sent ==> p.records > 0)
    }

    /** ReportDrops, given counters that have only grown. */
    method ReportDrops(cur: Drops)
      requires Valid() && forall r: Reason :: reported.Of(r) <= cur.Of(r)
      modifies this
      ensures Valid() && reported == cur && old(sent) <= sent
      ensures |sent| <= |old(sent)| + 5
      ensures Reported(sent, QueueFull) == cur.queueFull && Reported(sent, Burst) == cur.burst
      ensures Reported(sent, Backlog) == cur.backlog && Reported(sent, Oversize) == cur.oversize
      ensures Reported(sent, Closed) == cur.closed
    {
      var i := 0;
      while i < |ORDER|
        invariant 0 <= i <= |ORDER| && reported == old(reported)
        invariant old(sent) <= sent && |sent| <= |old(sent)| + i
        invariant forall k :: 0 <= k < i ==> Reported(sent, ORDER[k]) == cur.Of(ORDER[k])
        invariant forall k :: i <= k < |ORDER| ==> Reported(sent, ORDER[k]) == reported.Of(ORDER[k])
        invariant forall p :: p in sent ==> p.records > 0
      {
        var r := ORDER[i];
        var delta := cur.Of(r) - reported.Of(r);
        if delta > 0 {
          OneMoreReport(sent, Report(r, delta));
          sent := sent + [Report(r, delta)];
        }
        i := i + 1;
      }
      reported := cur;
      forall r: Reason
        ensures Reported(sent, r) == reported.Of(r)
      {
        assert ORDER[Position(r)] == r;
      }
    }
  }
}
