/** The day detail modal of src/components/Timesheets/TimesheetDetailModal.tsx:
    when it renders, which panel it shows, the regular/overtime split of the
    day's hours, the status badge and the footer buttons. */
module TimesheetDetailModal {
  import opened Seqs
  import opened Strings
  import opened TimesheetTypes

  /** `dayData.hours || 0`. */
  function HoursOrZero(hours: Option<int>): int
  {
    if hours.Some? then hours.value else 0
  }

  /** Regular hours: `Math.min(hours, 8)`. */
  function RegularHours(hours: int): (r: int)
    ensures r <= 8 && r <= hours
    ensures r == 8 || r == hours
  {
    if hours < 8 then hours else 8
  }

  /** The overtime row: present only above eight hours, holding the excess. */
  function OvertimeHours(hours: int): (r: Option<int>)
    ensures r.Some? <==> hours > 8
    ensures r.Some? ==> r.value > 0
  {
    if hours > 8 then Some(hours - 8) else None
  }

  /** Regular plus overtime is the day's total, whatever the total. */
  lemma HoursSplit(hours: int)
    ensures RegularHours(hours) + HoursOrZero(OvertimeHours(hours)) == hours
    ensures OvertimeHours(hours).None? ==> RegularHours(hours) == hours
  {
  }

  const GreenBadge := "bg-green-100 text-green-800"
  const RedBadge := "bg-red-100 text-red-800"
  const YellowBadge := "bg-yellow-100 text-yellow-800"
  const BlueBadge := "bg-blue-100 text-blue-800"

  /** getStatusColor over a status string. */
  function StatusColor(status: string): (css: string)
    ensures (status == "approved" || status == "submitted") <==> css == GreenBadge
    ensures status == "missing" <==> css == RedBadge
    ensures status == "pending" <==> css == YellowBadge
    ensures css in {GreenBadge, RedBadge, YellowBadge, BlueBadge}
  {
    if status == "approved" || status == "submitted" then GreenBadge
    else if status == "missing" then RedBadge
    else if status == "pending" then YellowBadge
    else BlueBadge
  }

  /** The badge text: the status with its first letter upper-cased. */
  function StatusLabel(status: string): (text: string)
    ensures |text| == |status|
    ensures status != [] ==> text[0] == UpperChar(status[0]) && text[1..] == status[1..]
  {
    Capitalize(status)
  }

  /** The four statuses read "Submitted", "Approved", "Pending" and "Missing". */
  lemma StatusLabels()
    ensures StatusLabel(DayStatusText(Submitted)) == "Submitted"
    ensures StatusLabel(DayStatusText(Approved)) == "Approved"
    ensures StatusLabel(DayStatusText(Pending)) == "Pending"
    ensures StatusLabel(DayStatusText(Missing)) == "Missing"
  {
  }

  /** The summary of a day that has an entry. */
  datatype EntryPanel = EntryPanel(
    statusLabel: string,
    statusColor: string,
    totalHours: int,
    regularHours: int,
    overtimeHours: Option<int>)

  datatype ModalBody = NoEntryPanel | DetailPanel(panel: EntryPanel)

  /** What the modal renders: its body and whether the Edit Entry and
      Approve buttons appear. */
  datatype ModalView = ModalView(body: ModalBody, showEntryButtons: bool)

  /** The day's data has an entry. */
  predicate HasEntry(member: MemberTimesheet, date: int)
  {
    date in member.weeklyData && member.weeklyData[date].hasEntry
  }

  /** TimesheetDetailModal; None is `return null`. */
  function RenderModal(isOpen: bool, crew: Option<CrewTimesheet>, member: Option<MemberTimesheet>, date: int)
    : (r: Option<ModalView>)
    ensures r.Some? <==> isOpen && crew.Some? && member.Some?
    ensures r.Some? ==> (r.value.body.NoEntryPanel? <==> !HasEntry(member.value, date))
    ensures r.Some? ==> (r.value.showEntryButtons <==> HasEntry(member.value, date))
    ensures r.Some? && r.value.body.DetailPanel? ==>
      var day, p := member.value.weeklyData[date], r.value.body.panel;
      && p.statusLabel == StatusLabel(DayStatusText(day.status))
      && p.statusColor == StatusColor(DayStatusText(day.status))
      && p.totalHours == HoursOrZero(day.hours)
      && p.regularHours == RegularHours(p.totalHours)
      && p.overtimeHours == OvertimeHours(p.totalHours)
      && (p.overtimeHours.Some? <==> p.totalHours > 8)
      && p.regularHours + HoursOrZero(p.overtimeHours) == p.totalHours
      && p.regularHours <= 8
  {
    if !isOpen || crew.None? || member.None? then None
    else
      var m := member.value;
      if !HasEntry(m, date) then Some(ModalView(NoEntryPanel, false))
      else
        var day := m.weeklyData[date];
        var hours := HoursOrZero(day.hours);
        HoursSplit(hours);
        var panel := EntryPanel(StatusLabel(DayStatusText(day.status)), StatusColor(DayStatusText(day.status)),
                                hours, RegularHours(hours), OvertimeHours(hours));
        Some(ModalView(DetailPanel(panel), true))
  }

  /** A generated day with an entry has 16 hours: 8 regular and 8 overtime. */
  lemma GeneratedDayHours(hours: Option<int>)
    requires hours == Some(16)
    ensures RegularHours(HoursOrZero(hours)) == 8 && OvertimeHours(HoursOrZero(hours)) == Some(8)
  {
  }
}
