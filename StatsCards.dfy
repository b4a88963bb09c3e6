/** The four stat cards of src/components/Dashboard/StatsCards.tsx: the hour
    totals, the active crew count with its inactive figure, and the pending
    exception count with its change label and colour. */
module StatsCards {
  import opened Seqs
  import opened Types
  import opened CrewStatus
  import opened ExceptionAlerts

  /** `reduce((sum, e) => sum + e.hoursRegular + e.hoursOvertime, 0)`. */
  function TotalHoursOf(entries: seq<TimeEntry>): (r: real)
    ensures entries == [] ==> r == 0.0
    ensures (forall i :: 0 <= i < |entries| ==> entries[i].hoursRegular >= 0.0 && entries[i].hoursOvertime >= 0.0) ==> r >= 0.0
  {
    if entries == [] then 0.0
    else TotalHoursOf(entries[..|entries| - 1]) + entries[|entries| - 1].hoursRegular + entries[|entries| - 1].hoursOvertime
  }

  /** `reduce((sum, e) => sum + e.hoursRegular, 0)`. */
  function RegularHoursOf(entries: seq<TimeEntry>): (r: real)
    ensures entries == [] ==> r == 0.0
    ensures (forall i :: 0 <= i < |entries| ==> entries[i].hoursRegular >= 0.0) ==> r >= 0.0
  {
    if entries == [] then 0.0 else RegularHoursOf(entries[..|entries| - 1]) + entries[|entries| - 1].hoursRegular
  }

  /** `reduce((sum, e) => sum + e.hoursOvertime, 0)`. */
  function OvertimeHoursOf(entries: seq<TimeEntry>): (r: real)
    ensures entries == [] ==> r == 0.0
    ensures (forall i :: 0 <= i < |entries| ==> entries[i].hoursOvertime >= 0.0) ==> r >= 0.0
  {
    if entries == [] then 0.0 else OvertimeHoursOf(entries[..|entries| - 1]) + entries[|entries| - 1].hoursOvertime
  }

  /** Over exact arithmetic the total is the regular plus the overtime hours. */
  lemma {:induction false} HoursTotalSplit(entries: seq<TimeEntry>)
    ensures TotalHoursOf(entries) == RegularHoursOf(entries) + OvertimeHoursOf(entries)
    decreases |entries|
  {
    if entries != [] {
      HoursTotalSplit(entries[..|entries| - 1]);
    }
  }

  /** The colour class a card's change line takes. */
  datatype ChangeType = Increase | Decrease | Neutral

  /** The Active Crews card: its value and the number in "N inactive". */
  datatype CrewsCard = CrewsCard(activeCount: nat, inactiveCount: int)

  function ActiveCrewsCard(crews: seq<Crew>): (r: CrewsCard)
    ensures r.activeCount <= |crews|
    ensures r.inactiveCount >= 0 && r.inactiveCount == |InactiveCrews(crews)|
    ensures r.activeCount + r.inactiveCount == |crews|
  {
    ActiveInactivePartition(crews);
    var active := |ActiveCrews(crews)|;
    CrewsCard(active, |crews| - active)
  }

  /** The Pending Exceptions card: its value, change text and change colour. */
  datatype ExceptionsCard = ExceptionsCard(pending: nat, change: string, changeType: ChangeType)

  function PendingExceptionsCard(exceptions: seq<Exception>): (r: ExceptionsCard)
    ensures r.pending == |PendingExceptions(exceptions)| <= |exceptions|
    ensures r.change == "Some resolved" || r.change == "New alerts"
    ensures r.changeType != Increase
  {
    var pending := |PendingExceptions(exceptions)|;
    ExceptionsCard(pending,
                   if |exceptions| > pending then "Some resolved" else "New alerts",
                   if pending > 0 then Decrease else Neutral)
  }

  /** "Some resolved" shows exactly when some exception is neither submitted
      nor under review; the change is red exactly when some exception is. */
  lemma PendingCardLabels(exceptions: seq<Exception>)
    ensures var r := PendingExceptionsCard(exceptions);
      r.change == "Some resolved" <==> exists e :: e in exceptions && !IsPending(e)
    ensures var r := PendingExceptionsCard(exceptions);
      r.changeType == Decrease <==> exists e :: e in exceptions && IsPending(e)
  {
    var pending := Filter(IsPending, exceptions);
    FilterKeepsAll(IsPending, exceptions);
    FilterMultiset(IsPending, exceptions);
    if |pending| == 0 {
      forall e | e in exceptions ensures !IsPending(e) {
        assert e !in pending;
      }
    } else {
      assert pending[0] in pending;
    }
    assert "Some resolved"[0] != "New alerts"[0];
  }
}
