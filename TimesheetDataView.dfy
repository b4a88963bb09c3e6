/** The weekly timesheet page of src/components/Timesheets/TimesheetDataView.tsx:
    the utility list and crew filters, the pending/missing counters, and the
    page state its handlers update (the shown week, the generated crews and
    the cell selected for the detail modal). */
module TimesheetDataView {
  import opened Seqs
  import opened Strings
  import opened TimesheetTypes
  import opened TimesheetData

  /** The utility of each crew, in crew order. */
  function Utilities(crews: seq<CrewTimesheet>): (r: seq<string>)
    ensures |r| == |crews| && forall i :: 0 <= i < |crews| ==> r[i] == crews[i].utilityCompany
  {
    seq(|crews|, i requires 0 <= i < |crews| => crews[i].utilityCompany)
  }

  /** `Array.from(new Set(crews.map(crew => crew.utilityCompany)))`. */
  function AvailableUtilities(crews: seq<CrewTimesheet>): (r: seq<string>)
    ensures Distinct(r)
    ensures forall u :: u in r <==> exists i :: 0 <= i < |crews| && crews[i].utilityCompany == u
  {
    var us := Utilities(crews);
    assert forall u :: u in us <==> exists i :: 0 <= i < |crews| && crews[i].utilityCompany == u by {
      forall u | u in us ensures exists i :: 0 <= i < |crews| && crews[i].utilityCompany == u {
        var i :| 0 <= i < |us| && us[i] == u;
      }
    }
    Dedup(us)
  }

  /** The page's view modes. */
  datatype ViewMode = All | PendingOnly | MissingOnly

  /** The crew name or the utility contains the search term, ignoring case. */
  predicate MatchesSearch(crew: CrewTimesheet, searchTerm: string)
  {
    ContainsIgnoringCase(crew.crewName, searchTerm) || ContainsIgnoringCase(crew.utilityCompany, searchTerm)
  }

  /** No utility selected, or the crew's utility is one of those selected. */
  predicate MatchesUtility(crew: CrewTimesheet, selectedUtilities: seq<string>)
  {
    |selectedUtilities| == 0 || crew.utilityCompany in selectedUtilities
  }

  /** Some member of the crew has some cell with status `s`. */
  predicate HasStatus(crew: CrewTimesheet, s: DayStatus)
  {
    exists m | m in crew.members :: exists d | d in m.weeklyData :: m.weeklyData[d].status == s
  }

  predicate MatchesViewMode(crew: CrewTimesheet, viewMode: ViewMode)
  {
    match viewMode
    case All => true
    case PendingOnly => HasStatus(crew, Pending)
    case MissingOnly => HasStatus(crew, Missing)
  }

  /** The `crews.filter` callback. */
  predicate Keep(crew: CrewTimesheet, searchTerm: string, selectedUtilities: seq<string>, viewMode: ViewMode)
  {
    MatchesSearch(crew, searchTerm) && MatchesUtility(crew, selectedUtilities) && MatchesViewMode(crew, viewMode)
  }

  /** filteredCrews. */
  function FilteredCrews(crews: seq<CrewTimesheet>, searchTerm: string, selectedUtilities: seq<string>, viewMode: ViewMode)
    : (r: seq<CrewTimesheet>)
    ensures forall i :: 0 <= i < |r| ==> Keep(r[i], searchTerm, selectedUtilities, viewMode)
  {
    Filter((c: CrewTimesheet) => Keep(c, searchTerm, selectedUtilities, viewMode), crews)
  }

  /** The filter keeps exactly the matching crews, in their order. */
  lemma FilteredCrewsExact(crews: seq<CrewTimesheet>, searchTerm: string, selectedUtilities: seq<string>, viewMode: ViewMode)
    ensures forall c :: c in FilteredCrews(crews, searchTerm, selectedUtilities, viewMode) <==>
      c in crews && Keep(c, searchTerm, selectedUtilities, viewMode)
    ensures IsSubsequence(FilteredCrews(crews, searchTerm, selectedUtilities, viewMode), crews)
  {
    FilterMultiset((c: CrewTimesheet) => Keep(c, searchTerm, selectedUtilities, viewMode), crews);
    FilterIsSubsequence((c: CrewTimesheet) => Keep(c, searchTerm, selectedUtilities, viewMode), crews);
  }

  /** With an empty search, no utility selected and the 'all' view, every
      crew is shown. */
  lemma UnfilteredShowsAll(crews: seq<CrewTimesheet>)
    ensures FilteredCrews(crews, "", [], All) == crews
  {
    forall i | 0 <= i < |crews| ensures Keep(crews[i], "", [], All) {
      ContainsIgnoringCaseEmpty(crews[i].crewName);
    }
    FilterAll((c: CrewTimesheet) => Keep(c, "", [], All), crews);
  }

  /** The dates whose cell has status `s`. */
  function StatusDates(weeklyData: map<int, DayCell>, s: DayStatus): (r: set<int>)
    ensures forall d :: d in r <==> d in weeklyData && weeklyData[d].status == s
  {
    set d | d in weeklyData && weeklyData[d].status == s
  }

  /** `Object.values(weeklyData).filter(day => day.status === s).length`. */
  function StatusCount(weeklyData: map<int, DayCell>, s: DayStatus): (r: nat)
    ensures r <= |weeklyData|
  {
    DisjointUnionSize(StatusDates(weeklyData, s), weeklyData.Keys - StatusDates(weeklyData, s));
    assert StatusDates(weeklyData, s) + (weeklyData.Keys - StatusDates(weeklyData, s)) == weeklyData.Keys;
    |StatusDates(weeklyData, s)|
  }

  /** A member's count is positive exactly when some cell has that status. */
  lemma StatusCountPositive(weeklyData: map<int, DayCell>, s: DayStatus)
    ensures StatusCount(weeklyData, s) > 0 <==> exists d :: d in weeklyData && weeklyData[d].status == s
  {
    var ds := StatusDates(weeklyData, s);
    if exists d :: d in weeklyData && weeklyData[d].status == s {
      var d :| d in weeklyData && weeklyData[d].status == s;
      assert d in ds;
    }
    if |ds| > 0 {
      var d :| d in ds;
    }
  }

  /** Every cell has exactly one of the four statuses, so the four counts add
      up to the number of cells. */
  lemma StatusCountsPartition(weeklyData: map<int, DayCell>)
    ensures StatusCount(weeklyData, Submitted) + StatusCount(weeklyData, Approved) +
            StatusCount(weeklyData, Pending) + StatusCount(weeklyData, Missing) == |weeklyData|
  {
    var a := StatusDates(weeklyData, Submitted);
    var b := StatusDates(weeklyData, Approved);
    var c := StatusDates(weeklyData, Pending);
    var e := StatusDates(weeklyData, Missing);
    DisjointUnionSize(a, b);
    DisjointUnionSize(a + b, c);
    DisjointUnionSize(a + b + c, e);
    StatusDatesCover(weeklyData);
  }

  lemma StatusDatesCover(weeklyData: map<int, DayCell>)
    ensures StatusDates(weeklyData, Submitted) + StatusDates(weeklyData, Approved) +
            StatusDates(weeklyData, Pending) + StatusDates(weeklyData, Missing) == weeklyData.Keys
  {
    var all := StatusDates(weeklyData, Submitted) + StatusDates(weeklyData, Approved) +
               StatusDates(weeklyData, Pending) + StatusDates(weeklyData, Missing);
    forall d | d in weeklyData.Keys ensures d in all {
      match weeklyData[d].status
      case Submitted => assert d in StatusDates(weeklyData, Submitted);
      case Approved => assert d in StatusDates(weeklyData, Approved);
      case Pending => assert d in StatusDates(weeklyData, Pending);
      case Missing => assert d in StatusDates(weeklyData, Missing);
    }
  }

  lemma DisjointUnionSize(x: set<int>, y: set<int>)
    requires forall d :: d in x ==> d !in y
    ensures |x + y| == |x| + |y|
  {
    var none := x * y;
    assert forall d :: d !in none;
    assert none == {};
  }

  /** The inner `members.reduce`: cells with status `s` over the members. */
  function MemberStatusTotal(members: seq<MemberTimesheet>, s: DayStatus): nat
  {
    if members == [] then 0
    else MemberStatusTotal(members[..|members| - 1], s) + StatusCount(members[|members| - 1].weeklyData, s)
  }

  /** The outer `filteredCrews.reduce`: cells with status `s` over the crews. */
  function CrewsStatusTotal(crews: seq<CrewTimesheet>, s: DayStatus): nat
  {
    if crews == [] then 0
    else CrewsStatusTotal(crews[..|crews| - 1], s) + MemberStatusTotal(crews[|crews| - 1].members, s)
  }

  /** pendingReviews and missingEntries. */
  function PendingReviews(filtered: seq<CrewTimesheet>): (r: nat)
    ensures r > 0 <==> exists c :: c in filtered && HasStatus(c, Pending)
  {
    CrewsStatusTotalPositive(filtered, Pending);
    CrewsStatusTotal(filtered, Pending)
  }

  function MissingEntries(filtered: seq<CrewTimesheet>): (r: nat)
    ensures r > 0 <==> exists c :: c in filtered && HasStatus(c, Missing)
  {
    CrewsStatusTotalPositive(filtered, Missing);
    CrewsStatusTotal(filtered, Missing)
  }

  lemma {:induction false} MemberStatusTotalPositive(members: seq<MemberTimesheet>, s: DayStatus)
    ensures MemberStatusTotal(members, s) > 0 <==>
      exists m :: m in members && exists d :: d in m.weeklyData && m.weeklyData[d].status == s
    decreases |members|
  {
    if members != [] {
      var init, last := members[..|members| - 1], members[|members| - 1];
      MemberStatusTotalPositive(init, s);
      StatusCountPositive(last.weeklyData, s);
      assert members == init + [last];
    }
  }

  /** A crew contributes to a counter exactly when it has such a cell. */
  lemma CrewCountPositive(crew: CrewTimesheet, s: DayStatus)
    ensures MemberStatusTotal(crew.members, s) > 0 <==> HasStatus(crew, s)
  {
    MemberStatusTotalPositive(crew.members, s);
  }

  /** The counter is positive exactly when some crew has such a cell. */
  lemma {:induction false} CrewsStatusTotalPositive(crews: seq<CrewTimesheet>, s: DayStatus)
    ensures CrewsStatusTotal(crews, s) > 0 <==> exists c :: c in crews && HasStatus(c, s)
    decreases |crews|
  {
    if crews != [] {
      var init, last := crews[..|crews| - 1], crews[|crews| - 1];
      CrewsStatusTotalPositive(init, s);
      CrewCountPositive(last, s);
      assert crews == init + [last];
    }
  }

  lemma {:induction false} CrewsStatusTotalAtLeastLength(crews: seq<CrewTimesheet>, s: DayStatus)
    requires forall i :: 0 <= i < |crews| ==> HasStatus(crews[i], s)
    ensures CrewsStatusTotal(crews, s) >= |crews|
    decreases |crews|
  {
    if crews != [] {
      CrewsStatusTotalAtLeastLength(crews[..|crews| - 1], s);
      CrewCountPositive(crews[|crews| - 1], s);
    }
  }

  /** In the 'pending' view every shown crew has a pending cell, so there are
      at least as many pending reviews as shown crews; likewise for 'missing'. */
  lemma ViewModeCounts(crews: seq<CrewTimesheet>, searchTerm: string, selectedUtilities: seq<string>)
    ensures PendingReviews(FilteredCrews(crews, searchTerm, selectedUtilities, PendingOnly)) >=
            |FilteredCrews(crews, searchTerm, selectedUtilities, PendingOnly)|
    ensures MissingEntries(FilteredCrews(crews, searchTerm, selectedUtilities, MissingOnly)) >=
            |FilteredCrews(crews, searchTerm, selectedUtilities, MissingOnly)|
  {
    CrewsStatusTotalAtLeastLength(FilteredCrews(crews, searchTerm, selectedUtilities, PendingOnly), Pending);
    CrewsStatusTotalAtLeastLength(FilteredCrews(crews, searchTerm, selectedUtilities, MissingOnly), Missing);
  }

  /** The crew with id `crewId` and, within it, the member with id
      `memberId`, each the first such; none unless both exist. */
  function ResolveCell(crews: seq<CrewTimesheet>, crewId: string, memberId: string)
    : (r: Option<(CrewTimesheet, MemberTimesheet)>)
    ensures r.Some? ==> r.value.0 in crews && r.value.0.id == crewId &&
                        r.value.1 in r.value.0.members && r.value.1.id == memberId
    ensures r.Some? ==> r.value.0 == Find((c: CrewTimesheet) => c.id == crewId, crews).value
    ensures r.Some? ==> r.value.1 == Find((m: MemberTimesheet) => m.id == memberId, r.value.0.members).value
    ensures r.None? <==> Find((c: CrewTimesheet) => c.id == crewId, crews).None? ||
                         forall m :: m in Find((c: CrewTimesheet) => c.id == crewId, crews).value.members ==> m.id != memberId
  {
    var crew := Find((c: CrewTimesheet) => c.id == crewId, crews);
    if crew.None? then None
    else
      var member := Find((m: MemberTimesheet) => m.id == memberId, crew.value.members);
      if member.None? then None else Some((crew.value, member.value))
  }

  /** The page's state. */
  class TimesheetView {
    var currentWeek: int
    var crews: seq<CrewTimesheet>
    var searchTerm: string
    var selectedUtilities: seq<string>
    var viewMode: ViewMode
    var showWeekends: bool
    var selectedCrew: Option<CrewTimesheet>
    var selectedMember: Option<MemberTimesheet>
    /** None stands for the empty date string. */
    var selectedDate: Option<int>
    var showDetailModal: bool

    /** The shown week starts on a Wednesday, and the modal is open only
        with a crew and member selected. */
    predicate Valid()
      reads this
    {
      DayOfWeek(currentWeek) == Wednesday &&
      (showDetailModal ==> selectedCrew.Some? && selectedMember.Some?)
    }

    /** The page as first rendered: the week of 2025-08-13, no crews yet,
        no filters, weekends shown, nothing selected. */
    constructor()
      ensures Valid()
      ensures currentWeek == GetWeekStart(Aug13Of2025) == Aug13Of2025
      ensures crews == [] && searchTerm == "" && selectedUtilities == [] && viewMode == All && showWeekends
      ensures selectedCrew == None && selectedMember == None && selectedDate == None && !showDetailModal
    {
      Aug13Of2025Window();
      currentWeek := GetWeekStart(Aug13Of2025);
      crews := [];
      searchTerm := "";
      selectedUtilities := [];
      viewMode := All;
      showWeekends := true;
      selectedCrew := None;
      selectedMember := None;
      selectedDate := None;
      showDetailModal := false;
    }

    /** The effect run on every week change: regenerate the crews for the
        shown week from the sample tables and fresh draws. */
    method RefreshCrews(sampleCrews: seq<SampleCrew>, roster: seq<SampleMember>, draws: seq<real>)
      modifies this
      requires Valid()
      requires |draws| == 7 * MemberTotal(sampleCrews, roster)
      ensures Valid()
      ensures crews == Project(sampleCrews, roster, currentWeek, draws)
      ensures currentWeek == old(currentWeek) && selectedCrew == old(selectedCrew)
      ensures selectedMember == old(selectedMember) && showDetailModal == old(showDetailModal)
      ensures selectedDate == old(selectedDate)
      ensures searchTerm == old(searchTerm) && selectedUtilities == old(selectedUtilities)
      ensures viewMode == old(viewMode) && showWeekends == old(showWeekends)
    {
      crews := GenerateTimesheetData(sampleCrews, roster, currentWeek, draws);
    }

    /** handleWeekChange: show the week containing `date`. */
    method HandleWeekChange(date: int)
      modifies this
      requires Valid()
      ensures Valid()
      ensures currentWeek == GetWeekStart(date) && currentWeek <= date <= currentWeek + 6
      ensures crews == old(crews) && showDetailModal == old(showDetailModal)
      ensures selectedCrew == old(selectedCrew) && selectedMember == old(selectedMember)
      ensures selectedDate == old(selectedDate)
      ensures searchTerm == old(searchTerm) && selectedUtilities == old(selectedUtilities)
      ensures viewMode == old(viewMode) && showWeekends == old(showWeekends)
    {
      GetWeekStartIsWednesday(date);
      currentWeek := GetWeekStart(date);
    }

    /** handleTodayClick, the clock reading `today` supplied by the caller. */
    method HandleTodayClick(today: int)
      modifies this
      requires Valid()
      ensures Valid()
      ensures currentWeek == GetWeekStart(today) && currentWeek <= today <= currentWeek + 6
      ensures crews == old(crews) && showDetailModal == old(showDetailModal)
      ensures selectedCrew == old(selectedCrew) && selectedMember == old(selectedMember)
      ensures selectedDate == old(selectedDate)
      ensures searchTerm == old(searchTerm) && selectedUtilities == old(selectedUtilities)
      ensures viewMode == old(viewMode) && showWeekends == old(showWeekends)
    {
      HandleWeekChange(today);
    }

    /** handleCellClick: open the modal on the cell when both ids resolve;
        otherwise change nothing. */
    method HandleCellClick(crewId: string, memberId: string, date: int)
      modifies this
      requires Valid()
      ensures Valid()
      ensures var hit := ResolveCell(old(crews), crewId, memberId);
        if hit.Some? then
          selectedCrew == Some(hit.value.0) && selectedMember == Some(hit.value.1) &&
          selectedDate == Some(date) && showDetailModal
        else
          selectedCrew == old(selectedCrew) && selectedMember == old(selectedMember) &&
          selectedDate == old(selectedDate) && showDetailModal == old(showDetailModal)
      ensures crews == old(crews) && currentWeek == old(currentWeek)
      ensures searchTerm == old(searchTerm) && selectedUtilities == old(selectedUtilities)
      ensures viewMode == old(viewMode) && showWeekends == old(showWeekends)
    {
      var crew := Find((c: CrewTimesheet) => c.id == crewId, crews);
      if crew.Some? {
        var member := Find((m: MemberTimesheet) => m.id == memberId, crew.value.members);
        if member.Some? {
          selectedCrew := crew;
          selectedMember := member;
          selectedDate := Some(date);
          showDetailModal := true;
        }
      }
    }

    /** closeDetailModal: hide the modal and clear the selection. */
    method CloseDetailModal()
      modifies this
      requires Valid()
      ensures Valid()
      ensures !showDetailModal && selectedCrew == None && selectedMember == None && selectedDate == None
      ensures crews == old(crews) && currentWeek == old(currentWeek)
      ensures searchTerm == old(searchTerm) && selectedUtilities == old(selectedUtilities)
      ensures viewMode == old(viewMode) && showWeekends == old(showWeekends)
    {
      showDetailModal := false;
      selectedCrew := None;
      selectedMember := None;
      selectedDate := None;
    }
  }
}
