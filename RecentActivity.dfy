/** The recent activity panel of src/components/Dashboard/RecentActivity.tsx:
    the in-place sort of the entries by recency, the eight most recent, the
    crew name lookup and the status icon and colour tables. */
module RecentActivity {
  import opened Seqs
  import opened Types

  /** `new Date(e.submittedAt || e.date).getTime()`. */
  function RecencyKey(e: TimeEntry): (k: int)
    ensures e.submittedAt.Some? ==> k == e.submittedAt.value
    ensures e.submittedAt.None? ==> k == e.date
  {
    if e.submittedAt.Some? then e.submittedAt.value else e.date
  }

  /** Most recent first. */
  predicate SortedByRecency(s: seq<TimeEntry>)
  {
    forall p, q :: 0 <= p < q < |s| ==> RecencyKey(s[p]) >= RecencyKey(s[q])
  }

  /** `timeEntries.sort((a, b) => key(b) - key(a))`: reorders the array in
      place, most recent first. Each pass sinks the next entry past the
      strictly less recent ones before it, so entries of equal recency keep
      their order, as the stable Array.prototype.sort keeps it. */
  method SortByRecency(a: array<TimeEntry>)
    modifies a
    ensures SortedByRecency(a[..])
    ensures multiset(a[..]) == multiset(old(a[..]))
  {
    var i := 0;
    while i < a.Length
      invariant 0 <= i <= a.Length
      invariant SortedByRecency(a[..i])
      invariant multiset(a[..]) == multiset(old(a[..]))
    {
      SinkEntry(a, i);
      i := i + 1;
    }
    assert a[..a.Length] == a[..];
  }

  /** One insertion pass: the entry at `i` moves down past the strictly less
      recent entries before it. */
  method SinkEntry(a: array<TimeEntry>, i: nat)
    requires i < a.Length && SortedByRecency(a[..i])
    modifies a
    ensures SortedByRecency(a[..i + 1])
    ensures multiset(a[..]) == multiset(old(a[..]))
  {
    var j := i;
    while j > 0 && RecencyKey(a[j - 1]) < RecencyKey(a[j])
      invariant 0 <= j <= i
      invariant SortedExcept(a[..], i, j)
      invariant j < i ==> RecencyKey(a[j]) >= RecencyKey(a[j + 1])
      invariant multiset(a[..]) == multiset(old(a[..]))
    {
      SinkStep(a[..], i, j);
      SwapAdjacent(a, j);
      j := j - 1;
    }
    SinkDone(a[..], i, j);
  }

  /** `a[j - 1]` and `a[j]` change places. */
  method SwapAdjacent(a: array<TimeEntry>, j: nat)
    requires 0 < j < a.Length
    modifies a
    ensures a[..] == Swapped(old(a[..]), j)
  {
    a[j - 1], a[j] := a[j], a[j - 1];
  }

  /** Positions `j - 1` and `j` of `s` exchanged. */
  function Swapped(s: seq<TimeEntry>, j: nat): (r: seq<TimeEntry>)
    requires 0 < j < |s|
    ensures |r| == |s| && r[j - 1] == s[j] && r[j] == s[j - 1]
    ensures forall k :: 0 <= k < |s| && k != j - 1 && k != j ==> r[k] == s[k]
    ensures multiset(r) == multiset(s)
  {
    var r := s[j - 1 := s[j]][j := s[j - 1]];
    assert s[..j - 1] + [s[j - 1], s[j]] + s[j + 1..] == s;
    assert r[..j - 1] + [s[j], s[j - 1]] + s[j + 1..] == r;
    r
  }

  /** The first `i + 1` entries are in recency order, except for pairs
      ending at `j`, the entry still being moved. */
  ghost predicate SortedExcept(s: seq<TimeEntry>, i: nat, j: nat)
  {
    forall p, q :: 0 <= p < q <= i && q < |s| && q != j ==> RecencyKey(s[p]) >= RecencyKey(s[q])
  }

  /** Swapping the moving entry with a less recent one before it keeps the
      order of every other pair. */
  lemma SinkStep(s: seq<TimeEntry>, i: nat, j: nat)
    requires 0 < j <= i < |s|
    requires SortedExcept(s, i, j)
    requires RecencyKey(s[j - 1]) < RecencyKey(s[j])
    ensures SortedExcept(Swapped(s, j), i, j - 1)
  {
    var r := Swapped(s, j);
    forall p, q | 0 <= p < q <= i && q != j - 1
      ensures RecencyKey(r[p]) >= RecencyKey(r[q])
    {
      if p == j - 1 && q > j {
        assert RecencyKey(s[j - 1]) >= RecencyKey(s[q]);
      } else if p == j {
        assert RecencyKey(s[j - 1]) >= RecencyKey(s[q]);
      } else if q == j {
        assert RecencyKey(s[p]) >= RecencyKey(s[j - 1]);
      }
    }
  }

  /** Once the moving entry is no more recent than the one before it, the
      whole prefix is in recency order. */
  lemma SinkDone(s: seq<TimeEntry>, i: nat, j: nat)
    requires j <= i < |s|
    requires SortedExcept(s, i, j)
    requires j > 0 ==> RecencyKey(s[j - 1]) >= RecencyKey(s[j])
    requires j < i ==> RecencyKey(s[j]) >= RecencyKey(s[j + 1])
    ensures SortedByRecency(s[..i + 1])
  {
    var t := s[..i + 1];
    forall p, q | 0 <= p < q < |t|
      ensures RecencyKey(t[p]) >= RecencyKey(t[q])
    {
      if q == j && p < j - 1 {
        assert RecencyKey(s[p]) >= RecencyKey(s[j - 1]);
      } else if p == j && q > j + 1 {
        assert RecencyKey(s[j + 1]) >= RecencyKey(s[q]);
      }
    }
  }

  /** recentEntries: sorts the passed array in place and returns its first
      eight entries, which are the most recent ones. */
  method RecentEntries(a: array<TimeEntry>) returns (recent: seq<TimeEntry>)
    modifies a
    ensures multiset(a[..]) == multiset(old(a[..]))
    ensures SortedByRecency(a[..])
    ensures |recent| == if a.Length < 8 then a.Length else 8
    ensures recent == a[..|recent|]
    ensures forall i, j :: 0 <= i < |recent| <= j < a.Length ==> RecencyKey(recent[i]) >= RecencyKey(a[j])
  {
    SortByRecency(a);
    recent := Take(a[..], 8);
  }

  /** getCrewName: the first crew with that id, by name, or 'Unknown Crew'
      when there is none or its name is empty. */
  function CrewName(crews: seq<Crew>, crewId: string): (name: string)
    ensures (forall i :: 0 <= i < |crews| ==> crews[i].id != crewId) ==> name == "Unknown Crew"
    ensures forall i :: 0 <= i < |crews| && crews[i].id == crewId &&
                        (forall j :: 0 <= j < i ==> crews[j].id != crewId)
                        ==> name == (if crews[i].crewName != "" then crews[i].crewName else "Unknown Crew")
    ensures name == "Unknown Crew" || exists c :: c in crews && c.id == crewId && c.crewName == name
  {
    var crew := Find((c: Crew) => c.id == crewId, crews);
    if crew.Some? && crew.value.crewName != "" then crew.value.crewName else "Unknown Crew"
  }

  /** The icons getStatusIcon draws. */
  datatype ActivityIcon = GreenCheckCircle | RedAlertCircle | BlueClock | GrayClock

  /** getStatusIcon over a status string. */
  function ActivityStatusIcon(status: string): (icon: ActivityIcon)
    ensures icon == GreenCheckCircle <==> status == "approved"
    ensures icon == RedAlertCircle <==> status == "rejected"
    ensures icon == BlueClock <==> status == "submitted"
  {
    if status == "approved" then GreenCheckCircle
    else if status == "rejected" then RedAlertCircle
    else if status == "submitted" then BlueClock
    else GrayClock
  }

  /** getStatusColor over a status string. */
  function ActivityStatusColor(status: string): (css: string)
    ensures css == "text-green-700 bg-green-50" <==> status == "approved"
    ensures css == "text-red-700 bg-red-50" <==> status == "rejected"
    ensures css == "text-blue-700 bg-blue-50" <==> status == "submitted"
  {
    if status == "approved" then "text-green-700 bg-green-50"
    else if status == "rejected" then "text-red-700 bg-red-50"
    else if status == "submitted" then "text-blue-700 bg-blue-50"
    else "text-gray-700 bg-gray-50"
  }

  /** Approved, rejected and submitted entries each get their own icon and
      colour, which agree; a draft gets the gray default of both. */
  lemma ActivityStatusStyles(s: EntryStatus, t: EntryStatus)
    ensures s != Draft && s != t ==>
      ActivityStatusIcon(EntryStatusText(s)) != ActivityStatusIcon(EntryStatusText(t)) &&
      ActivityStatusColor(EntryStatusText(s)) != ActivityStatusColor(EntryStatusText(t))
    ensures ActivityStatusIcon(EntryStatusText(Draft)) == GrayClock
    ensures ActivityStatusColor(EntryStatusText(Draft)) == "text-gray-700 bg-gray-50"
  {
  }
}
