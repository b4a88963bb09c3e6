/** The weekly attendance generator of src/utils/timesheetData.ts: the
    Wednesday-anchored week window and the crew -> member -> date table of
    attendance cells. Dates are day numbers (day 0 is 1970-01-01, a
    Thursday); the random draws the generator makes are supplied as a
    sequence of reals, consumed in the order the generator asks for them. */
module TimesheetData {
  import opened Seqs
  import opened Strings
  import opened TimesheetTypes

  const Sunday := 0
  const Monday := 1
  const Tuesday := 2
  const Wednesday := 3
  const Saturday := 6

  /** Date.prototype.getDay: 0 is Sunday, ..., 6 is Saturday. */
  function DayOfWeek(d: int): (w: int)
    ensures 0 <= w < 7
  {
    (d + 4) % 7
  }

  /** getWeekStart: rewinds `d` by `(getDay() + 4) % 7` days. */
  function GetWeekStart(d: int): (r: int)
    ensures d - 6 <= r <= d
  {
    d - (DayOfWeek(d) + 4) % 7
  }

  /** The window start is a Wednesday at most six days before `d`. */
  lemma GetWeekStartIsWednesday(d: int)
    ensures DayOfWeek(GetWeekStart(d)) == Wednesday
    ensures GetWeekStart(d) <= d <= GetWeekStart(d) + 6
  {
    var w := DayOfWeek(d);
    var q := (d + 4) / 7;
    assert d + 4 == 7 * q + w;
    if w >= 3 {
      assert GetWeekStart(d) + 4 == 7 * q + 3;
    } else {
      assert GetWeekStart(d) + 4 == 7 * (q - 1) + 3;
    }
  }

  /** There is exactly one such Wednesday: any Wednesday within the six days
      up to `d` is the window start. */
  lemma GetWeekStartUnique(d: int, w: int)
    requires DayOfWeek(w) == Wednesday && w <= d <= w + 6
    ensures GetWeekStart(d) == w
  {
    GetWeekStartIsWednesday(d);
    var r := GetWeekStart(d);
    var qw := (w + 4) / 7;
    var qr := (r + 4) / 7;
    assert w + 4 == 7 * qw + 3;
    assert r + 4 == 7 * qr + 3;
  }

  /** getWeekStart leaves a Wednesday where it is ... */
  lemma GetWeekStartOnWednesday(d: int)
    requires DayOfWeek(d) == Wednesday
    ensures GetWeekStart(d) == d
  {
    GetWeekStartUnique(d, d);
  }

  /** ... and so applying it twice is the same as applying it once. */
  lemma GetWeekStartIdempotent(d: int)
    ensures GetWeekStart(GetWeekStart(d)) == GetWeekStart(d)
  {
    GetWeekStartIsWednesday(d);
    GetWeekStartOnWednesday(GetWeekStart(d));
  }

  /** 2025-08-13, the week the timesheet view opens on. */
  const Aug13Of2025 := 20313

  /** 2025-08-13 is a Wednesday, and 2025-08-15 (a Friday) falls in its week. */
  lemma Aug13Of2025Window()
    ensures DayOfWeek(Aug13Of2025) == Wednesday
    ensures GetWeekStart(Aug13Of2025) == Aug13Of2025
    ensures DayOfWeek(Aug13Of2025 + 2) == 5 && GetWeekStart(Aug13Of2025 + 2) == Aug13Of2025
  {
    GetWeekStartUnique(Aug13Of2025, Aug13Of2025);
    GetWeekStartUnique(Aug13Of2025 + 2, Aug13Of2025);
  }

  /** The seven dates of the window starting at `weekStart`. */
  function WeekDates(weekStart: int): (r: seq<int>)
    ensures |r| == 7 && forall i :: 0 <= i < 7 ==> r[i] == weekStart + i
    ensures forall d :: d in r <==> InWeek(weekStart, d)
  {
    var r := seq(7, i requires 0 <= i < 7 => weekStart + i);
    assert forall d :: InWeek(weekStart, d) ==> d in r by {
      forall d | InWeek(weekStart, d) ensures d in r {
        assert r[d - weekStart] == d;
      }
    }
    r
  }

  /** `d` is one of the seven days from `weekStart` on. */
  predicate InWeek(weekStart: int, d: int)
  {
    weekStart <= d < weekStart + 7
  }

  /** Every date lies in its own window, and every date of that window has
      the same window start. */
  lemma WeekDatesCover(d: int)
    ensures d in WeekDates(GetWeekStart(d))
    ensures forall e :: e in WeekDates(GetWeekStart(d)) ==> GetWeekStart(e) == GetWeekStart(d)
  {
    GetWeekStartIsWednesday(d);
    var ws := GetWeekStart(d);
    assert WeekDates(ws)[d - ws] == d;
    forall e | e in WeekDates(ws) ensures GetWeekStart(e) == ws {
      GetWeekStartUnique(e, ws);
    }
  }

  /** The generator's `isWeekend` test: positions 5 and 6 of the week. */
  predicate IsWeekendIndex(index: int)
  {
    index == 5 || index == 6
  }

  /** Counted from a Wednesday, positions 5 and 6 are Monday and Tuesday;
      Saturday and Sunday are positions 3 and 4. */
  lemma WeekendIndicesAreMondayAndTuesday(weekStart: int)
    requires DayOfWeek(weekStart) == Wednesday
    ensures DayOfWeek(weekStart + 5) == Monday && DayOfWeek(weekStart + 6) == Tuesday
    ensures DayOfWeek(weekStart + 3) == Saturday && DayOfWeek(weekStart + 4) == Sunday
  {
    var q := (weekStart + 4) / 7;
    assert weekStart + 4 == 7 * q + 3;
    assert weekStart + 5 + 4 == 7 * (q + 1) + 1;
    assert weekStart + 6 + 4 == 7 * (q + 1) + 2;
    assert weekStart + 4 + 4 == 7 * (q + 1) + 0;
  }

  /** The attendance-cell invariant: no entry exactly when the status is
      missing, and 16 hours exactly when there is an entry. */
  predicate CellInvariant(c: DayCell)
  {
    (!c.hasEntry <==> c.status == Missing) &&
    c.hours == (if c.hasEntry then Some(16) else None)
  }

  /** The draw below which a cell at `index` is missing. */
  function MissingThreshold(index: int): real
  {
    if IsWeekendIndex(index) then 0.3 else 0.1
  }

  /** The cell the generator makes at week position `index` from draw `r`. */
  function Classify(index: int, r: real): (c: DayCell)
    ensures CellInvariant(c)
    ensures c.status == Missing <==> r < MissingThreshold(index)
  {
    if IsWeekendIndex(index) then
      if r < 0.3 then DayCell(false, Missing, None)
      else if r < 0.7 then DayCell(true, Approved, Some(16))
      else if r < 0.85 then DayCell(true, Submitted, Some(16))
      else DayCell(true, Pending, Some(16))
    else
      if r < 0.1 then DayCell(false, Missing, None)
      else if r < 0.8 then DayCell(true, Approved, Some(16))
      else if r < 0.95 then DayCell(true, Submitted, Some(16))
      else DayCell(true, Pending, Some(16))
  }

  /** Statuses in the order the thresholds hand them out. */
  function StatusRank(s: DayStatus): nat
  {
    match s
    case Missing => 0
    case Approved => 1
    case Submitted => 2
    case Pending => 3
  }

  /** A larger draw never gives a status earlier in that order. */
  lemma ClassifyMonotone(index: int, r1: real, r2: real)
    requires r1 <= r2
    ensures StatusRank(Classify(index, r1).status) <= StatusRank(Classify(index, r2).status)
  {
  }

  /** The week positions 5 and 6 use the 0.3/0.7/0.85 cut points; all others
      0.1/0.8/0.95. */
  lemma ClassifyBands(index: int, r: real)
    ensures IsWeekendIndex(index) ==> var s := Classify(index, r).status;
      (s == Missing <==> r < 0.3) &&
      (s == Approved <==> 0.3 <= r < 0.7) &&
      (s == Submitted <==> 0.7 <= r < 0.85) &&
      (s == Pending <==> 0.85 <= r)
    ensures !IsWeekendIndex(index) ==> var s := Classify(index, r).status;
      (s == Missing <==> r < 0.1) &&
      (s == Approved <==> 0.1 <= r < 0.8) &&
      (s == Submitted <==> 0.8 <= r < 0.95) &&
      (s == Pending <==> 0.95 <= r)
  {
  }

  /** One member's `weeklyData` for the window at `weekStart`, the draw for
      position i being draws[i]. */
  function WeeklyDataOf(weekStart: int, draws: seq<real>): (m: map<int, DayCell>)
    requires |draws| == 7
  {
    map d | d in WeekDates(weekStart) :: Classify(d - weekStart, draws[d - weekStart])
  }

  /** The map has exactly the seven dates of the window as keys, and every
      cell keeps the cell invariant. */
  lemma WeeklyDataShape(weekStart: int, draws: seq<real>)
    requires |draws| == 7
    ensures forall d :: d in WeeklyDataOf(weekStart, draws) <==> d in WeekDates(weekStart)
    ensures |WeeklyDataOf(weekStart, draws)| == 7
    ensures forall d :: d in WeeklyDataOf(weekStart, draws) ==> CellInvariant(WeeklyDataOf(weekStart, draws)[d])
  {
    WeekKeys(WeeklyDataOf(weekStart, draws).Keys, weekStart);
  }

  /** A key set that is exactly the window has seven elements. */
  lemma WeekKeys(keys: set<int>, weekStart: int)
    requires forall d :: d in keys <==> InWeek(weekStart, d)
    ensures |keys| == 7
  {
    var k := {weekStart, weekStart + 1, weekStart + 2, weekStart + 3, weekStart + 4, weekStart + 5, weekStart + 6};
    forall d | d in keys ensures d in k {
      assert d == weekStart || d == weekStart + 1 || d == weekStart + 2 || d == weekStart + 3 ||
             d == weekStart + 4 || d == weekStart + 5 || d == weekStart + 6;
    }
    assert keys == k;
    SevenDays(weekStart);
  }

  /** The seven days from `weekStart` on are seven distinct dates. */
  lemma SevenDays(weekStart: int)
    ensures |{weekStart, weekStart + 1, weekStart + 2, weekStart + 3, weekStart + 4, weekStart + 5, weekStart + 6}| == 7
  {
    var k := {weekStart, weekStart + 1, weekStart + 2, weekStart + 3, weekStart + 4, weekStart + 5, weekStart + 6};
    assert k == {weekStart} + {weekStart + 1, weekStart + 2, weekStart + 3, weekStart + 4, weekStart + 5, weekStart + 6};
  }

  /** The `weekDates.forEach` loop that fills one member's `weeklyData`. */
  method BuildWeeklyData(weekStart: int, draws: seq<real>) returns (weeklyData: map<int, DayCell>)
    requires |draws| == 7
    ensures weeklyData == WeeklyDataOf(weekStart, draws)
  {
    weeklyData := map[];
    for index := 0 to 7
      invariant forall d :: d in weeklyData <==> weekStart <= d < weekStart + index
      invariant forall d :: d in weeklyData ==> weeklyData[d] == Classify(d - weekStart, draws[d - weekStart])
    {
      var date := weekStart + index;
      var isWeekend := index == 5 || index == 6;
      var random := draws[index];
      var status: DayStatus;
      var hasEntry := true;
      var hours: Option<int> := None;
      if isWeekend {
        if random < 0.3 {
          status := Missing;
          hasEntry := false;
        } else if random < 0.7 {
          status := Approved;
          hours := Some(16);
        } else if random < 0.85 {
          status := Submitted;
          hours := Some(16);
        } else {
          status := Pending;
          hours := Some(16);
        }
      } else {
        if random < 0.1 {
          status := Missing;
          hasEntry := false;
        } else if random < 0.8 {
          status := Approved;
          hours := Some(16);
        } else if random < 0.95 {
          status := Submitted;
          hours := Some(16);
        } else {
          status := Pending;
          hours := Some(16);
        }
      }
      weeklyData := weeklyData[date := DayCell(hasEntry, status, hours)];
    }
    assert weeklyData.Keys == WeeklyDataOf(weekStart, draws).Keys;
  }

  /** `crewId + '_' + memberName.replace(/\s+/g, '_').toLowerCase()`. */
  function MemberId(crewId: string, memberName: string): (id: string)
    ensures |id| > |crewId| && id[..|crewId| + 1] == crewId + "_"
  {
    crewId + "_" + ToLower(UnderscoreSpaces(memberName))
  }

  /** A member id starts with the crew id and `_`, and what follows has no
      white space and no upper-case ASCII letter; so the whole id has no
      white space when the crew id has none. */
  lemma MemberIdShape(crewId: string, memberName: string)
    ensures var id := MemberId(crewId, memberName);
      |id| > |crewId| && id[..|crewId| + 1] == crewId + "_" && NoSpace(id[|crewId| + 1..])
    ensures var id := MemberId(crewId, memberName);
      forall i :: |crewId| < i < |id| ==> !('A' <= id[i] <= 'Z')
    ensures NoSpace(crewId) ==> NoSpace(MemberId(crewId, memberName))
  {
    var tail := ToLower(UnderscoreSpaces(memberName));
    ToLowerKeepsSpaces(UnderscoreSpaces(memberName));
    var id := MemberId(crewId, memberName);
    assert id[|crewId| + 1..] == tail;
    forall i | |crewId| < i < |id| ensures !('A' <= id[i] <= 'Z') {
      assert id[i] == tail[i - |crewId| - 1];
    }
    if NoSpace(crewId) {
      forall i | 0 <= i < |id| ensures !IsSpace(id[i]) {
        if i < |crewId| { assert id[i] == crewId[i]; }
        else if i > |crewId| { assert id[i] == tail[i - |crewId| - 1]; }
      }
    }
  }

  /** The roster rows of one crew: `SAMPLE_CREW_MEMBERS.filter(m => m.crewId === crew.id)`. */
  function MembersOf(roster: seq<SampleMember>, crewId: string): (ms: seq<SampleMember>)
  {
    Filter((m: SampleMember) => m.crewId == crewId, roster)
  }

  /** The crew's members are exactly its roster rows, in roster order. */
  lemma MembersOfExact(roster: seq<SampleMember>, crewId: string)
    ensures forall m :: m in MembersOf(roster, crewId) <==> m in roster && m.crewId == crewId
    ensures IsSubsequence(MembersOf(roster, crewId), roster)
    ensures (forall m :: m in roster ==> m.crewId != crewId) ==> MembersOf(roster, crewId) == []
  {
    FilterMultiset((m: SampleMember) => m.crewId == crewId, roster);
    FilterIsSubsequence((m: SampleMember) => m.crewId == crewId, roster);
  }

  /** How many members the generator makes for `crews`, and so how many
      groups of seven draws it consumes. */
  function MemberTotal(crews: seq<SampleCrew>, roster: seq<SampleMember>): nat
  {
    if crews == [] then 0
    else MemberTotal(crews[..|crews| - 1], roster) + |MembersOf(roster, crews[|crews| - 1].id)|
  }

  lemma {:induction false} MemberTotalPrefix(crews: seq<SampleCrew>, roster: seq<SampleMember>, c: nat)
    requires c <= |crews|
    ensures MemberTotal(crews[..c], roster) <= MemberTotal(crews, roster)
    decreases |crews|
  {
    if c < |crews| {
      var init := crews[..|crews| - 1];
      assert crews[..c] == init[..c];
      MemberTotalPrefix(init, roster, c);
    } else {
      assert crews[..c] == crews;
    }
  }

  /** The generated record of one member, given its seven draws. */
  function MemberRecord(m: SampleMember, weekStart: int, draws: seq<real>): MemberTimesheet
    requires |draws| == 7
  {
    MemberTimesheet(MemberId(m.crewId, m.memberName), m.memberName, m.role, WeeklyDataOf(weekStart, draws))
  }

  /** The generated record of one crew, given the draws of all its members. */
  function CrewRecord(crew: SampleCrew, roster: seq<SampleMember>, weekStart: int, draws: seq<real>): CrewTimesheet
    requires |draws| == 7 * |MembersOf(roster, crew.id)|
  {
    var ms := MembersOf(roster, crew.id);
    CrewTimesheet(crew.id, crew.crewName, crew.utilityCompany,
      seq(|ms|, j requires 0 <= j < |ms| => MemberRecord(ms[j], weekStart, draws[7 * j..7 * j + 7])))
  }

  /** What generateTimesheetData returns for the window at `weekStart`. */
  function Project(crews: seq<SampleCrew>, roster: seq<SampleMember>, weekStart: int, draws: seq<real>): (r: seq<CrewTimesheet>)
    requires |draws| == 7 * MemberTotal(crews, roster)
    ensures |r| == |crews|
  {
    if crews == [] then []
    else
      var n := 7 * MemberTotal(crews[..|crews| - 1], roster);
      Project(crews[..|crews| - 1], roster, weekStart, draws[..n]) +
      [CrewRecord(crews[|crews| - 1], roster, weekStart, draws[n..])]
  }

  /** A member's generated week: exactly the seven window dates as keys,
      every cell keeping the cell invariant. */
  ghost predicate WeekShaped(m: map<int, DayCell>, weekStart: int)
  {
    && (forall d :: d in m <==> d in WeekDates(weekStart))
    && |m| == 7
    && forall d :: d in m ==> CellInvariant(m[d])
  }

  /** `record` is what the generator makes for `crew`: id, name and utility
      copied; its members are the crew's roster rows in order, each with the
      generated id and a well-shaped week. */
  ghost predicate RecordFor(record: CrewTimesheet, crew: SampleCrew, roster: seq<SampleMember>, weekStart: int)
  {
    var rows := MembersOf(roster, crew.id);
    && record.id == crew.id
    && record.crewName == crew.crewName
    && record.utilityCompany == crew.utilityCompany
    && |record.members| == |rows|
    && forall j :: 0 <= j < |rows| ==>
         && record.members[j].memberName == rows[j].memberName
         && record.members[j].role == rows[j].role
         && record.members[j].id == MemberId(rows[j].crewId, rows[j].memberName)
         && WeekShaped(record.members[j].weeklyData, weekStart)
  }

  lemma CrewRecordShape(crew: SampleCrew, roster: seq<SampleMember>, weekStart: int, draws: seq<real>)
    requires |draws| == 7 * |MembersOf(roster, crew.id)|
    ensures RecordFor(CrewRecord(crew, roster, weekStart, draws), crew, roster, weekStart)
  {
    var record := CrewRecord(crew, roster, weekStart, draws);
    forall j | 0 <= j < |record.members|
      ensures WeekShaped(record.members[j].weeklyData, weekStart)
    {
      WeeklyDataShape(weekStart, draws[7 * j..7 * j + 7]);
    }
  }

  /** One record per crew, in crew order, each the crew's own record. */
  lemma {:induction false} ProjectShape(crews: seq<SampleCrew>, roster: seq<SampleMember>, weekStart: int, draws: seq<real>)
    requires |draws| == 7 * MemberTotal(crews, roster)
    ensures var r := Project(crews, roster, weekStart, draws);
      forall c :: 0 <= c < |crews| ==> RecordFor(r[c], crews[c], roster, weekStart)
    decreases |crews|
  {
    if crews != [] {
      var init := crews[..|crews| - 1];
      var n := 7 * MemberTotal(init, roster);
      ProjectShape(init, roster, weekStart, draws[..n]);
      CrewRecordShape(crews[|crews| - 1], roster, weekStart, draws[n..]);
      var r, ri := Project(crews, roster, weekStart, draws), Project(init, roster, weekStart, draws[..n]);
      assert r == ri + [CrewRecord(crews[|crews| - 1], roster, weekStart, draws[n..])];
      forall c | 0 <= c < |crews| ensures RecordFor(r[c], crews[c], roster, weekStart) {
        if c < |init| {
          assert RecordFor(ri[c], init[c], roster, weekStart);
          assert r[c] == ri[c] && crews[c] == init[c];
        } else {
          assert r[c] == CrewRecord(crews[|crews| - 1], roster, weekStart, draws[n..]);
        }
      }
    }
  }

  /** Number of attendance cells in a generated table. */
  function CellCount(r: seq<CrewTimesheet>): nat
  {
    if r == [] then 0
    else CellCount(r[..|r| - 1]) + MemberCells(r[|r| - 1].members)
  }

  function MemberCells(ms: seq<MemberTimesheet>): nat
  {
    if ms == [] then 0
    else MemberCells(ms[..|ms| - 1]) + |ms[|ms| - 1].weeklyData|
  }

  lemma {:induction false} MemberCellsOfWeek(ms: seq<MemberTimesheet>)
    requires forall j :: 0 <= j < |ms| ==> |ms[j].weeklyData| == 7
    ensures MemberCells(ms) == 7 * |ms|
    decreases |ms|
  {
    if ms != [] {
      MemberCellsOfWeek(ms[..|ms| - 1]);
    }
  }

  /** The table holds exactly seven cells per generated member: no gaps. */
  lemma {:induction false} ProjectCellCount(crews: seq<SampleCrew>, roster: seq<SampleMember>, weekStart: int, draws: seq<real>)
    requires |draws| == 7 * MemberTotal(crews, roster)
    ensures CellCount(Project(crews, roster, weekStart, draws)) == 7 * MemberTotal(crews, roster)
    decreases |crews|
  {
    if crews != [] {
      var init := crews[..|crews| - 1];
      var n := 7 * MemberTotal(init, roster);
      var r := Project(crews, roster, weekStart, draws);
      ProjectCellCount(init, roster, weekStart, draws[..n]);
      ProjectShape(crews, roster, weekStart, draws);
      assert r[..|r| - 1] == Project(init, roster, weekStart, draws[..n]);
      MemberCellsOfWeek(r[|r| - 1].members);
    }
  }

  /** Unfolding `Project` one crew at the back. */
  lemma ProjectSnoc(crews: seq<SampleCrew>, roster: seq<SampleMember>, weekStart: int, draws: seq<real>, c: nat)
    requires c < |crews|
    requires 7 * MemberTotal(crews[..c + 1], roster) <= |draws|
    ensures var used, next := 7 * MemberTotal(crews[..c], roster), 7 * MemberTotal(crews[..c + 1], roster);
      used + 7 * |MembersOf(roster, crews[c].id)| == next &&
      Project(crews[..c + 1], roster, weekStart, draws[..next]) ==
        Project(crews[..c], roster, weekStart, draws[..used]) + [CrewRecord(crews[c], roster, weekStart, draws[used..next])]
  {
    assert crews[..c + 1][..c] == crews[..c];
    var used, next := 7 * MemberTotal(crews[..c], roster), 7 * MemberTotal(crews[..c + 1], roster);
    assert draws[..next][..used] == draws[..used];
    assert draws[..next][used..] == draws[used..next];
  }

  /** The `crewMembers.map` callback of one crew: its members with their
      seven-day fills, consuming seven draws per member in roster order. */
  method BuildCrewRecord(crew: SampleCrew, roster: seq<SampleMember>, weekStart: int, draws: seq<real>)
    returns (record: CrewTimesheet)
    requires |draws| == 7 * |MembersOf(roster, crew.id)|
    ensures record == CrewRecord(crew, roster, weekStart, draws)
  {
    var crewMembers := MembersOf(roster, crew.id);
    var members: seq<MemberTimesheet> := [];
    for j := 0 to |crewMembers|
      invariant |members| == j
      invariant forall k :: 0 <= k < j ==> members[k] == MemberRecord(crewMembers[k], weekStart, draws[7 * k..7 * k + 7])
    {
      var member := crewMembers[j];
      var weeklyData := BuildWeeklyData(weekStart, draws[7 * j..7 * j + 7]);
      members := members + [MemberTimesheet(MemberId(member.crewId, member.memberName), member.memberName, member.role, weeklyData)];
    }
    record := CrewTimesheet(crew.id, crew.crewName, crew.utilityCompany, members);
  }

  /** generateTimesheetData: one record per sample crew, in crew order. */
  method GenerateTimesheetData(crews: seq<SampleCrew>, roster: seq<SampleMember>, weekStart: int, draws: seq<real>)
    returns (result: seq<CrewTimesheet>)
    requires |draws| == 7 * MemberTotal(crews, roster)
    ensures result == Project(crews, roster, weekStart, draws)
  {
    result := [];
    var used := 0;
    for c := 0 to |crews|
      invariant used == 7 * MemberTotal(crews[..c], roster) <= |draws|
      invariant result == Project(crews[..c], roster, weekStart, draws[..used])
    {
      MemberTotalPrefix(crews, roster, c + 1);
      ProjectSnoc(crews, roster, weekStart, draws, c);
      var next := used + 7 * |MembersOf(roster, crews[c].id)|;
      var record := BuildCrewRecord(crews[c], roster, weekStart, draws[used..next]);
      result := result + [record];
      used := next;
    }
    assert crews[..|crews|] == crews;
    assert draws[..used] == draws;
  }
}
