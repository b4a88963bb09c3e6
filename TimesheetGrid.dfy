/** The weekly grid of src/components/Timesheets/TimesheetGrid.tsx: the
    shown dates, the grouping of crews by utility, what each cell shows, the
    status and utility style tables, and the right-click menu state. */
module TimesheetGrid {
  import opened Seqs
  import opened TimesheetTypes
  import opened TimesheetData
  import opened TimesheetDataView

  /** displayDates: all seven dates, or only the first five when weekends are hidden. */
  function DisplayDates(weekStart: int, showWeekends: bool): (r: seq<int>)
    ensures |r| == if showWeekends then 7 else 5
    ensures r == WeekDates(weekStart)[..|r|]
  {
    if showWeekends then WeekDates(weekStart) else WeekDates(weekStart)[..5]
  }

  /** Hiding "weekends" on a Wednesday-based week hides Monday and Tuesday;
      Saturday and Sunday stay on screen. */
  lemma HiddenDaysAreMondayAndTuesday(weekStart: int)
    requires DayOfWeek(weekStart) == Wednesday
    ensures var shown := DisplayDates(weekStart, false);
      && weekStart + 5 !in shown && weekStart + 6 !in shown
      && DayOfWeek(weekStart + 5) == Monday && DayOfWeek(weekStart + 6) == Tuesday
      && weekStart + 3 in shown && weekStart + 4 in shown
      && DayOfWeek(weekStart + 3) == Saturday && DayOfWeek(weekStart + 4) == Sunday
  {
    WeekendIndicesAreMondayAndTuesday(weekStart);
    var shown := DisplayDates(weekStart, false);
    assert shown[3] == weekStart + 3 && shown[4] == weekStart + 4;
  }

  /** The crews of one utility, in crew order. */
  function GroupOf(crews: seq<CrewTimesheet>, utility: string): (r: seq<CrewTimesheet>)
    ensures forall i :: 0 <= i < |r| ==> r[i].utilityCompany == utility
  {
    Filter((c: CrewTimesheet) => c.utilityCompany == utility, crews)
  }

  /** Every crew is in the group of its own utility and in no other, and
      each group keeps crew order. */
  lemma GroupsPartitionCrews(crews: seq<CrewTimesheet>, utility: string)
    ensures forall c :: c in GroupOf(crews, utility) <==> c in crews && c.utilityCompany == utility
    ensures IsSubsequence(GroupOf(crews, utility), crews)
  {
    FilterMultiset((c: CrewTimesheet) => c.utilityCompany == utility, crews);
    FilterIsSubsequence((c: CrewTimesheet) => c.utilityCompany == utility, crews);
  }

  /** flattenedData: the `reduce` that pushes each crew onto the list of its
      utility, creating the list on the utility's first appearance. `order`
      is the order in which the utilities became keys. */
  method FlattenByUtility(crews: seq<CrewTimesheet>) returns (order: seq<string>, groups: map<string, seq<CrewTimesheet>>)
    ensures order == AvailableUtilities(crews)
    ensures forall u :: u in groups <==> u in order
    ensures forall u :: u in groups ==> groups[u] == GroupOf(crews, u)
  {
    order := [];
    groups := map[];
    for i := 0 to |crews|
      invariant order == Dedup(Utilities(crews[..i]))
      invariant forall u :: u in groups <==> u in order
      invariant forall u :: u in groups ==> groups[u] == GroupOf(crews[..i], u)
    {
      var crew := crews[i];
      var u := crew.utilityCompany;
      FlattenStep(crews, i);
      if u !in groups {
        GroupOfMissing(crews[..i], u);
        groups := groups[u := []];
        order := order + [u];
      }
      groups := groups[u := groups[u] + [crew]];
    }
    assert crews[..|crews|] == crews;
  }

  /** Taking one more crew appends its utility on first appearance and
      appends the crew to its own utility's group only. */
  lemma FlattenStep(crews: seq<CrewTimesheet>, i: nat)
    requires i < |crews|
    ensures var u := crews[i].utilityCompany;
      Dedup(Utilities(crews[..i + 1])) ==
        if u in Dedup(Utilities(crews[..i])) then Dedup(Utilities(crews[..i]))
        else Dedup(Utilities(crews[..i])) + [u]
    ensures forall v ::
      GroupOf(crews[..i + 1], v) == GroupOf(crews[..i], v) + (if crews[i].utilityCompany == v then [crews[i]] else [])
  {
    var crew := crews[i];
    assert crews[..i + 1] == crews[..i] + [crew];
    assert Utilities(crews[..i + 1])[..i] == Utilities(crews[..i]);
    forall v ensures GroupOf(crews[..i + 1], v) == GroupOf(crews[..i], v) + (if crew.utilityCompany == v then [crew] else []) {
      FilterSnoc((c: CrewTimesheet) => c.utilityCompany == v, crews[..i], crew);
    }
  }

  /** A utility that has not appeared yet has no crews. */
  lemma GroupOfMissing(crews: seq<CrewTimesheet>, u: string)
    requires u !in Dedup(Utilities(crews))
    ensures GroupOf(crews, u) == []
  {
    forall i | 0 <= i < |crews| ensures crews[i].utilityCompany != u {
      assert Utilities(crews)[i] == crews[i].utilityCompany;
    }
    FilterNone((c: CrewTimesheet) => c.utilityCompany == u, crews);
  }

  /** The status a cell shows: the day's status, or missing when the member
      has no data for that date. */
  function ShownStatus(weeklyData: map<int, DayCell>, date: int): (s: DayStatus)
    ensures date !in weeklyData ==> s == Missing
    ensures date in weeklyData ==> s == weeklyData[date].status
  {
    if date in weeklyData then weeklyData[date].status else Missing
  }

  /** The hours in a cell's tooltip: `dayData?.hours || 0`. */
  function ShownHours(weeklyData: map<int, DayCell>, date: int): (h: int)
    ensures date !in weeklyData ==> h == 0
    ensures date in weeklyData && weeklyData[date].hours.Some? ==> h == weeklyData[date].hours.value
    ensures date in weeklyData && weeklyData[date].hours.None? ==> h == 0
  {
    if date in weeklyData && weeklyData[date].hours.Some? then weeklyData[date].hours.value else 0
  }

  /** `dayData?.hours && <badge>`: a badge only for present, non-zero hours. */
  predicate ShowsHoursBadge(weeklyData: map<int, DayCell>, date: int)
  {
    date in weeklyData && weeklyData[date].hours.Some? && weeklyData[date].hours.value != 0
  }

  /** The badge shows exactly the non-zero tooltip hours; for a generated
      cell it shows exactly when the cell has an entry. */
  lemma HoursBadgeRule(weeklyData: map<int, DayCell>, date: int)
    ensures ShowsHoursBadge(weeklyData, date) <==> ShownHours(weeklyData, date) != 0
    ensures date in weeklyData && CellInvariant(weeklyData[date]) ==>
      (ShowsHoursBadge(weeklyData, date) <==> weeklyData[date].hasEntry)
  {
  }

  /** The icons getStatusIcon draws. */
  datatype StatusIcon = GreenCheck | RedCross | YellowClock | BlueFile

  /** getStatusIcon over a status string. */
  function StatusIconOf(status: string): (icon: StatusIcon)
    ensures (status == "approved" || status == "submitted") <==> icon == GreenCheck
    ensures status == "missing" <==> icon == RedCross
    ensures status == "pending" <==> icon == YellowClock
  {
    if status == "approved" || status == "submitted" then GreenCheck
    else if status == "missing" then RedCross
    else if status == "pending" then YellowClock
    else BlueFile
  }

  const GreenCell := "bg-green-50 hover:bg-green-100 border-green-200"
  const RedCell := "bg-red-50 hover:bg-red-100 border-red-200"
  const YellowCell := "bg-yellow-50 hover:bg-yellow-100 border-yellow-200"
  const BlueCell := "bg-blue-50 hover:bg-blue-100 border-blue-200"

  /** getCellBackground over a status string. */
  function CellBackground(status: string): (css: string)
    ensures (status == "approved" || status == "submitted") <==> css == GreenCell
    ensures status == "missing" <==> css == RedCell
    ensures status == "pending" <==> css == YellowCell
  {
    if status == "approved" || status == "submitted" then GreenCell
    else if status == "missing" then RedCell
    else if status == "pending" then YellowCell
    else BlueCell
  }

  /** Icon and background always agree in colour; every status the grid
      produces gets a non-default style; a cell without data looks missing. */
  lemma StatusStylesAgree(status: string, s: DayStatus, weeklyData: map<int, DayCell>, date: int)
    ensures StatusIconOf(status) == GreenCheck <==> CellBackground(status) == GreenCell
    ensures StatusIconOf(status) == RedCross <==> CellBackground(status) == RedCell
    ensures StatusIconOf(status) == YellowClock <==> CellBackground(status) == YellowCell
    ensures StatusIconOf(status) == BlueFile <==> CellBackground(status) == BlueCell
    ensures StatusIconOf(DayStatusText(s)) != BlueFile
    ensures date !in weeklyData ==> CellBackground(DayStatusText(ShownStatus(weeklyData, date))) == RedCell
  {
  }

  /** getUtilityColor's table. */
  function UtilityColor(utility: string): (css: string)
    ensures css == "bg-gray-600" <==>
      utility !in {"AquaTech Water", "ElectriCo Electric", "GasWorks Gas", "PowerCorp Electric", "UtilityMax Multi"}
  {
    if utility == "AquaTech Water" then "bg-blue-600"
    else if utility == "ElectriCo Electric" then "bg-yellow-600"
    else if utility == "GasWorks Gas" then "bg-orange-600"
    else if utility == "PowerCorp Electric" then "bg-purple-600"
    else if utility == "UtilityMax Multi" then "bg-green-600"
    else "bg-gray-600"
  }

  /** The grid's right-click menu state. */
  class ContextMenu {
    var show: bool
    var x: int
    var y: int
    var crewId: string
    var memberId: string
    /** None stands for the empty date string. */
    var date: Option<int>

    predicate Cleared()
      reads this
    {
      !show && x == 0 && y == 0 && crewId == "" && memberId == "" && date == None
    }

    /** The menu as first rendered: hidden, every field cleared. */
    constructor()
      ensures Cleared()
    {
      show, x, y, crewId, memberId, date := false, 0, 0, "", "", None;
    }

    /** handleRightClick: remember the cell and the pointer, show the menu. */
    method RightClick(clientX: int, clientY: int, cellCrewId: string, cellMemberId: string, cellDate: int)
      modifies this
      ensures show && x == clientX && y == clientY
      ensures crewId == cellCrewId && memberId == cellMemberId && date == Some(cellDate)
    {
      show, x, y := true, clientX, clientY;
      crewId, memberId, date := cellCrewId, cellMemberId, Some(cellDate);
    }

    /** handleContextMenuAction: whatever the action, hide the menu and clear it. */
    method MenuAction(action: string)
      modifies this
      ensures Cleared()
    {
      show, x, y, crewId, memberId, date := false, 0, 0, "", "", None;
    }

    /** A click elsewhere while the menu is shown hides it and keeps the rest. */
    method DismissOnClick()
      modifies this
      ensures !show
      ensures x == old(x) && y == old(y) && crewId == old(crewId) && memberId == old(memberId) && date == old(date)
    {
      if show {
        show := false;
      }
    }
  }
}
