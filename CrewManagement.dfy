/** The crew management page of src/components/Crews/CrewManagement.tsx:
    the crew filter, the summary figures, the collapsed lists, and the page
    state its handlers update (expanded cards, the crew being edited, its
    edit form and the new-item inputs). */
module CrewManagement {
  import opened Seqs
  import opened Strings
  import opened Types
  import opened AppStore
  import opened CrewStatus

  /** The crew name or the supervisor id contains the search term, ignoring case. */
  predicate MatchesSearch(crew: Crew, searchTerm: string)
  {
    ContainsIgnoringCase(crew.crewName, searchTerm) || ContainsIgnoringCase(crew.supervisorId, searchTerm)
  }

  /** 'all' keeps every crew, 'active' and 'inactive' the crews in that
      state, and any other filter value none. */
  predicate MatchesStatus(crew: Crew, statusFilter: string)
  {
    statusFilter == "all" || (statusFilter == "active" && crew.active) || (statusFilter == "inactive" && !crew.active)
  }

  /** filteredCrews. */
  function FilteredCrews(contractCrews: seq<Crew>, searchTerm: string, statusFilter: string): (r: seq<Crew>)
    ensures forall i :: 0 <= i < |r| ==> MatchesSearch(r[i], searchTerm) && MatchesStatus(r[i], statusFilter)
  {
    Filter((c: Crew) => MatchesSearch(c, searchTerm) && MatchesStatus(c, statusFilter), contractCrews)
  }

  /** The filter keeps exactly the matching crews, in their order; with no
      search and 'all' it keeps every crew. */
  lemma FilteredCrewsExact(contractCrews: seq<Crew>, searchTerm: string, statusFilter: string)
    ensures forall c :: c in FilteredCrews(contractCrews, searchTerm, statusFilter) <==>
      c in contractCrews && MatchesSearch(c, searchTerm) && MatchesStatus(c, statusFilter)
    ensures IsSubsequence(FilteredCrews(contractCrews, searchTerm, statusFilter), contractCrews)
    ensures FilteredCrews(contractCrews, "", "all") == contractCrews
  {
    FilterMultiset((c: Crew) => MatchesSearch(c, searchTerm) && MatchesStatus(c, statusFilter), contractCrews);
    FilterIsSubsequence((c: Crew) => MatchesSearch(c, searchTerm) && MatchesStatus(c, statusFilter), contractCrews);
    forall i | 0 <= i < |contractCrews| ensures MatchesSearch(contractCrews[i], "") {
      ContainsIgnoringCaseEmpty(contractCrews[i].crewName);
    }
    FilterAll((c: Crew) => MatchesSearch(c, "") && MatchesStatus(c, "all"), contractCrews);
  }

  /** handleDelete: the crew is deleted only when the user confirms. */
  function HandleDelete(state: AppState, crewId: string, confirmed: bool): (r: AppState)
    ensures !confirmed ==> r == state
    ensures confirmed ==> r == AppReduce(state, DeleteCrew(crewId))
  {
    if confirmed then AppReduce(state, DeleteCrew(crewId)) else state
  }

  /** getSupervisorName: the first member's name of the first crew with that
      supervisor, or 'Unknown' when there is no such crew, member or name. */
  function SupervisorName(crews: seq<Crew>, supervisorId: string): (name: string)
    ensures name == "Unknown" || exists c :: c in crews && c.supervisorId == supervisorId &&
                                             |c.members| > 0 && c.members[0].name == name
    ensures (forall c :: c in crews ==> c.supervisorId != supervisorId) ==> name == "Unknown"
    ensures forall i :: 0 <= i < |crews| && crews[i].supervisorId == supervisorId &&
                        (forall j :: 0 <= j < i ==> crews[j].supervisorId != supervisorId)
                        ==> name == (if |crews[i].members| > 0 && crews[i].members[0].name != ""
                                     then crews[i].members[0].name else "Unknown")
  {
    var crew := Find((c: Crew) => c.supervisorId == supervisorId, crews);
    if crew.Some? && |crew.value.members| > 0 && crew.value.members[0].name != "" then crew.value.members[0].name
    else "Unknown"
  }

  /** The stat cards: total crews, active and inactive crews (see
      CrewStatus) and the total number of members. */
  function TotalMembers(crews: seq<Crew>): (r: nat)
    ensures r == 0 <==> forall i :: 0 <= i < |crews| ==> |crews[i].members| == 0
  {
    if crews == [] then 0 else TotalMembers(crews[..|crews| - 1]) + |crews[|crews| - 1].members|
  }

  /** Total members is the sum over the crews, so it never falls below the
      size of any one crew. */
  lemma {:induction false} TotalMembersBound(crews: seq<Crew>, i: nat)
    requires i < |crews|
    ensures TotalMembers(crews) >= |crews[i].members|
    decreases |crews|
  {
    if i < |crews| - 1 {
      TotalMembersBound(crews[..|crews| - 1], i);
    }
  }

  /** The total over two lists of crews is the sum of their totals. */
  lemma {:induction false} TotalMembersAppend(a: seq<Crew>, b: seq<Crew>)
    ensures TotalMembers(a + b) == TotalMembers(a) + TotalMembers(b)
    decreases |b|
  {
    if b != [] {
      var init := b[..|b| - 1];
      assert (a + b)[..|a + b| - 1] == a + init;
      TotalMembersAppend(a, init);
    } else {
      assert a + b == a;
    }
  }

  /** The text of the expand button under a collapsed list. */
  datatype ToggleLabel = ShowLess | MoreItems(hidden: int)

  /** The items a card lists: all of them when expanded, else the first `limit`. */
  function CollapsedItems<T>(items: seq<T>, expanded: bool, limit: nat): (r: seq<T>)
    ensures |r| == if expanded || |items| <= limit then |items| else limit
    ensures r == items[..|r|]
  {
    if expanded then items else Take(items, limit)
  }

  /** The expand button: only when there are more than `limit` items; it
      offers to show the hidden ones, or to show less when expanded. */
  function ToggleLabelFor(count: int, expanded: bool, limit: int): (r: Option<ToggleLabel>)
    ensures r.Some? <==> count > limit
    ensures r.Some? && !expanded ==> r.value == MoreItems(count - limit) && r.value.hidden > 0
  {
    if count <= limit then None
    else if expanded then Some(ShowLess)
    else Some(MoreItems(count - limit))
  }

  /** Collapsed, a card lists min(3, n) members with "+(n-3) more members"
      exactly when n > 3, and min(2, n) pieces of equipment with
      "+(n-2) more equipment" exactly when n > 2; every item is either
      listed or counted in the button. */
  lemma CollapsedCards(crew: Crew)
    ensures var n := |crew.members|;
      |CollapsedItems(crew.members, false, 3)| == (if n < 3 then n else 3) &&
      (ToggleLabelFor(n, false, 3).Some? <==> n > 3) &&
      (n > 3 ==> |CollapsedItems(crew.members, false, 3)| + ToggleLabelFor(n, false, 3).value.hidden == n)
    ensures var n := |crew.equipmentAssigned|;
      |CollapsedItems(crew.equipmentAssigned, false, 2)| == (if n < 2 then n else 2) &&
      (ToggleLabelFor(n, false, 2).Some? <==> n > 2) &&
      (n > 2 ==> |CollapsedItems(crew.equipmentAssigned, false, 2)| + ToggleLabelFor(n, false, 2).value.hidden == n)
  {
  }

  /** Membership of `x` flips; every other element stays as it was. */
  function Toggle(s: set<string>, x: string): (r: set<string>)
    ensures x in r <==> x !in s
    ensures forall y :: y != x ==> (y in r <==> y in s)
  {
    if x in s then s - {x} else s + {x}
  }

  /** Toggling the same crew twice restores the set. */
  lemma ToggleTwice(s: set<string>, x: string)
    ensures Toggle(Toggle(s, x), x) == s
  {
  }

  /** `filter((_, i) => i !== index)`: drop position `index`, if there is one. */
  function RemoveAt<T>(s: seq<T>, index: int): (r: seq<T>)
    ensures !(0 <= index < |s|) ==> r == s
    ensures 0 <= index < |s| ==> |r| == |s| - 1 && r[..index] == s[..index] && r[index..] == s[index + 1..]
  {
    if 0 <= index < |s| then s[..index] + s[index + 1..] else s
  }

  /** The crew edit form. */
  datatype EditForm = EditForm(crewName: string, active: bool, members: seq<CrewMember>, equipmentAssigned: seq<string>)

  /** The page's state. */
  class CrewManagementView {
    var searchTerm: string
    var statusFilter: string
    var expandedMembers: set<string>
    var expandedEquipment: set<string>
    var selectedCrewForTimesheet: Option<Crew>
    var editingCrew: Option<string>
    var editForm: EditForm
    var newMemberName: string
    var newMemberRole: string
    var newEquipment: string

    /** The page as first rendered. */
    constructor()
      ensures searchTerm == "" && statusFilter == "all"
      ensures expandedMembers == {} && expandedEquipment == {}
      ensures selectedCrewForTimesheet == None && editingCrew == None
      ensures editForm == EditForm("", true, [], [])
      ensures newMemberName == "" && newMemberRole == "" && newEquipment == ""
    {
      searchTerm, statusFilter := "", "all";
      expandedMembers, expandedEquipment := {}, {};
      selectedCrewForTimesheet, editingCrew := None, None;
      editForm := EditForm("", true, [], []);
      newMemberName, newMemberRole, newEquipment := "", "", "";
    }

    /** toggleMembersExpanded. */
    method ToggleMembersExpanded(crewId: string)
      modifies this
      ensures expandedMembers == Toggle(old(expandedMembers), crewId)
      ensures searchTerm == old(searchTerm) && statusFilter == old(statusFilter) && expandedEquipment == old(expandedEquipment)
      ensures selectedCrewForTimesheet == old(selectedCrewForTimesheet) && editingCrew == old(editingCrew) && editForm == old(editForm)
      ensures newMemberName == old(newMemberName) && newMemberRole == old(newMemberRole) && newEquipment == old(newEquipment)
    {
      if crewId in expandedMembers {
        expandedMembers := expandedMembers - {crewId};
      } else {
        expandedMembers := expandedMembers + {crewId};
      }
    }

    /** toggleEquipmentExpanded. */
    method ToggleEquipmentExpanded(crewId: string)
      modifies this
      ensures expandedEquipment == Toggle(old(expandedEquipment), crewId)
      ensures searchTerm == old(searchTerm) && statusFilter == old(statusFilter) && expandedMembers == old(expandedMembers)
      ensures selectedCrewForTimesheet == old(selectedCrewForTimesheet) && editingCrew == old(editingCrew) && editForm == old(editForm)
      ensures newMemberName == old(newMemberName) && newMemberRole == old(newMemberRole) && newEquipment == old(newEquipment)
    {
      if crewId in expandedEquipment {
        expandedEquipment := expandedEquipment - {crewId};
      } else {
        expandedEquipment := expandedEquipment + {crewId};
      }
    }

    /** handleViewTimesheets. */
    method ViewTimesheets(crew: Crew)
      modifies this
      ensures selectedCrewForTimesheet == Some(crew)
      ensures searchTerm == old(searchTerm) && statusFilter == old(statusFilter) && expandedMembers == old(expandedMembers)
      ensures expandedEquipment == old(expandedEquipment) && editingCrew == old(editingCrew) && editForm == old(editForm)
      ensures newMemberName == old(newMemberName) && newMemberRole == old(newMemberRole) && newEquipment == old(newEquipment)
    {
      selectedCrewForTimesheet := Some(crew);
    }

    /** closeTimesheetModal. */
    method CloseTimesheetModal()
      modifies this
      ensures selectedCrewForTimesheet == None
      ensures searchTerm == old(searchTerm) && statusFilter == old(statusFilter) && expandedMembers == old(expandedMembers)
      ensures expandedEquipment == old(expandedEquipment) && editingCrew == old(editingCrew) && editForm == old(editForm)
      ensures newMemberName == old(newMemberName) && newMemberRole == old(newMemberRole) && newEquipment == old(newEquipment)
    {
      selectedCrewForTimesheet := None;
    }

    /** handleEdit: start editing `crew` with a copy of its fields. */
    method Edit(crew: Crew)
      modifies this
      ensures editingCrew == Some(crew.id)
      ensures editForm == EditForm(crew.crewName, crew.active, crew.members, crew.equipmentAssigned)
      ensures searchTerm == old(searchTerm) && statusFilter == old(statusFilter) && expandedMembers == old(expandedMembers)
      ensures expandedEquipment == old(expandedEquipment) && selectedCrewForTimesheet == old(selectedCrewForTimesheet) && newMemberName == old(newMemberName)
      ensures newMemberRole == old(newMemberRole) && newEquipment == old(newEquipment)
    {
      editingCrew := Some(crew.id);
      editForm := EditForm(crew.crewName, crew.active, crew.members, crew.equipmentAssigned);
    }

    /** handleCancelEdit: stop editing and clear the three inputs; the form
        itself is left as it is. */
    method CancelEdit()
      modifies this
      ensures editingCrew == None && newMemberName == "" && newMemberRole == "" && newEquipment == ""
      ensures searchTerm == old(searchTerm) && statusFilter == old(statusFilter) && expandedMembers == old(expandedMembers)
      ensures expandedEquipment == old(expandedEquipment) && selectedCrewForTimesheet == old(selectedCrewForTimesheet) && editForm == old(editForm)
    {
      editingCrew := None;
      newMemberName, newMemberRole, newEquipment := "", "", "";
    }

    /** handleSaveEdit: builds the updated crew (only logged, so `crews` is
        not changed) and then cancels the edit. `logged` is the record that
        would be saved: the edited crew with the form's fields, or none when
        no crew (or one with an empty id) is being edited or it is not found. */
    method SaveEdit(crews: seq<Crew>) returns (logged: Option<Crew>)
      modifies this
      ensures var target := old(editingCrew);
        var found := if target.Some? && target.value != "" then Find((c: Crew) => c.id == target.value, crews) else None;
        logged == (if found.Some? then
                     Some(found.value.(crewName := old(editForm).crewName, active := old(editForm).active,
                                       members := old(editForm).members, equipmentAssigned := old(editForm).equipmentAssigned))
                   else None)
      ensures logged.Some? ==> logged.value.id == old(editingCrew).value
      ensures editingCrew == None && newMemberName == "" && newMemberRole == "" && newEquipment == ""
      ensures searchTerm == old(searchTerm) && statusFilter == old(statusFilter) && expandedMembers == old(expandedMembers)
      ensures expandedEquipment == old(expandedEquipment) && selectedCrewForTimesheet == old(selectedCrewForTimesheet) && editForm == old(editForm)
    {
      logged := None;
      if editingCrew.Some? && editingCrew.value != "" {
        var target := editingCrew.value;
        var crew := Find((c: Crew) => c.id == target, crews);
        if crew.Some? {
          logged := Some(crew.value.(crewName := editForm.crewName, active := editForm.active,
                                     members := editForm.members, equipmentAssigned := editForm.equipmentAssigned));
        }
      }
      CancelEdit();
    }

    /** handleRemoveMember: drop every member with that id, keeping the rest in order. */
    method RemoveMember(memberId: string)
      modifies this
      ensures editForm == old(editForm).(members := Filter((m: CrewMember) => m.id != memberId, old(editForm).members))
      ensures searchTerm == old(searchTerm) && statusFilter == old(statusFilter) && expandedMembers == old(expandedMembers)
      ensures expandedEquipment == old(expandedEquipment) && selectedCrewForTimesheet == old(selectedCrewForTimesheet) && editingCrew == old(editingCrew)
      ensures newMemberName == old(newMemberName) && newMemberRole == old(newMemberRole) && newEquipment == old(newEquipment)
    {
      editForm := editForm.(members := Filter((m: CrewMember) => m.id != memberId, editForm.members));
    }

    /** handleAddMember: with a non-blank name and role, append a new active
        member (trimmed fields, hourly rate 30, id `freshId`) and clear both
        inputs; otherwise change nothing. */
    method AddMember(freshId: string)
      modifies this
      ensures Trim(old(newMemberName)) != "" && Trim(old(newMemberRole)) != "" ==>
        && editForm == old(editForm).(members := old(editForm).members +
             [CrewMember(freshId, Trim(old(newMemberName)), Trim(old(newMemberRole)), Some(30), true)])
        && newMemberName == "" && newMemberRole == ""
      ensures !(Trim(old(newMemberName)) != "" && Trim(old(newMemberRole)) != "") ==>
        editForm == old(editForm) && newMemberName == old(newMemberName) && newMemberRole == old(newMemberRole)
      ensures searchTerm == old(searchTerm) && statusFilter == old(statusFilter) && expandedMembers == old(expandedMembers)
      ensures expandedEquipment == old(expandedEquipment) && selectedCrewForTimesheet == old(selectedCrewForTimesheet) && editingCrew == old(editingCrew)
      ensures newEquipment == old(newEquipment)
    {
      var name := Trim(newMemberName);
      var role := Trim(newMemberRole);
      if name != "" && role != "" {
        var newMember := CrewMember(freshId, name, role, Some(30), true);
        editForm := editForm.(members := editForm.members + [newMember]);
        newMemberName, newMemberRole := "", "";
      }
    }

    /** handleRemoveEquipment: drop position `index` only. */
    method RemoveEquipment(index: int)
      modifies this
      ensures editForm == old(editForm).(equipmentAssigned := RemoveAt(old(editForm).equipmentAssigned, index))
      ensures searchTerm == old(searchTerm) && statusFilter == old(statusFilter) && expandedMembers == old(expandedMembers)
      ensures expandedEquipment == old(expandedEquipment) && selectedCrewForTimesheet == old(selectedCrewForTimesheet) && editingCrew == old(editingCrew)
      ensures newMemberName == old(newMemberName) && newMemberRole == old(newMemberRole) && newEquipment == old(newEquipment)
    {
      editForm := editForm.(equipmentAssigned := RemoveAt(editForm.equipmentAssigned, index));
    }

    /** handleAddEquipment: append the trimmed input if it is not blank, and clear it. */
    method AddEquipment()
      modifies this
      ensures Trim(old(newEquipment)) != "" ==>
        editForm == old(editForm).(equipmentAssigned := old(editForm).equipmentAssigned + [Trim(old(newEquipment))]) &&
        newEquipment == ""
      ensures Trim(old(newEquipment)) == "" ==> editForm == old(editForm) && newEquipment == old(newEquipment)
      ensures searchTerm == old(searchTerm) && statusFilter == old(statusFilter) && expandedMembers == old(expandedMembers)
      ensures expandedEquipment == old(expandedEquipment) && selectedCrewForTimesheet == old(selectedCrewForTimesheet) && editingCrew == old(editingCrew)
      ensures newMemberName == old(newMemberName) && newMemberRole == old(newMemberRole)
    {
      var item := Trim(newEquipment);
      if item != "" {
        editForm := editForm.(equipmentAssigned := editForm.equipmentAssigned + [item]);
        newEquipment := "";
      }
    }
  }

  /** Removing a member leaves none with that id and keeps every other
      member, in order. */
  lemma RemoveMemberKeepsOthers(members: seq<CrewMember>, memberId: string)
    ensures forall m :: m in Filter((m: CrewMember) => m.id != memberId, members) <==> m in members && m.id != memberId
    ensures IsSubsequence(Filter((m: CrewMember) => m.id != memberId, members), members)
  {
    FilterMultiset((m: CrewMember) => m.id != memberId, members);
    FilterIsSubsequence((m: CrewMember) => m.id != memberId, members);
  }
}
