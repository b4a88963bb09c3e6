/** The dashboard page of src/components/Dashboard/Dashboard.tsx: what the
    panels receive once the store is scoped to the selected contract. */
module Dashboard {
  import opened Seqs
  import opened Types
  import opened AppStore

  /** Some crew in `crews` has the entry's crew id. */
  predicate BelongsTo(entry: TimeEntry, crews: seq<Crew>)
  {
    exists i | 0 <= i < |crews| :: crews[i].id == entry.crewId
  }

  /** contractTimeEntries: the entries of the given crews. */
  function ContractTimeEntries(crews: seq<Crew>, entries: seq<TimeEntry>): (r: seq<TimeEntry>)
    ensures forall i :: 0 <= i < |r| ==> BelongsTo(r[i], crews)
  {
    Filter((e: TimeEntry) => BelongsTo(e, crews), entries)
  }

  /** What the panels are given: the contract's crews and time entries, and
      every exception, whatever the contract. */
  datatype DashboardData = DashboardData(crews: seq<Crew>, timeEntries: seq<TimeEntry>, exceptions: seq<Exception>)

  function DashboardDataOf(state: AppState): (r: DashboardData)
    ensures r.crews == ContractCrews(state)
    ensures IsSubsequence(r.timeEntries, state.timeEntries)
  {
    var crews := ContractCrews(state);
    FilterIsSubsequence((e: TimeEntry) => BelongsTo(e, crews), state.timeEntries);
    DashboardData(crews, ContractTimeEntries(crews, state.timeEntries), state.exceptions)
  }

  /** An entry reaches the panels exactly when its crew is in the store and
      runs under the selected contract (any contract when none is
      selected); entries of unknown crews never do; exceptions are not
      scoped. */
  lemma DashboardScoping(state: AppState)
    ensures var d := DashboardDataOf(state);
      forall e :: e in d.timeEntries <==>
        e in state.timeEntries &&
        exists c :: c in state.crews && c.id == e.crewId &&
          (state.selectedContract.None? || c.utilityContractId == state.selectedContract.value.id)
    ensures var d := DashboardDataOf(state);
      forall e :: e in state.timeEntries && (forall c :: c in state.crews ==> c.id != e.crewId) ==> e !in d.timeEntries
    ensures DashboardDataOf(state).exceptions == state.exceptions
  {
    var crews := ContractCrews(state);
    FilterMultiset((e: TimeEntry) => BelongsTo(e, crews), state.timeEntries);
    forall e | e in state.timeEntries
      ensures BelongsTo(e, crews) <==>
        exists c :: c in state.crews && c.id == e.crewId &&
          (state.selectedContract.None? || c.utilityContractId == state.selectedContract.value.id)
    {
      BelongsToContract(state, e);
    }
  }

  /** An entry belongs to the contract's crews exactly when some crew of the
      store with its crew id runs under the selected contract. */
  lemma BelongsToContract(state: AppState, e: TimeEntry)
    ensures BelongsTo(e, ContractCrews(state)) <==>
      exists c :: c in state.crews && c.id == e.crewId &&
        (state.selectedContract.None? || c.utilityContractId == state.selectedContract.value.id)
  {
    var crews := ContractCrews(state);
    ContractCrewsExact(state);
    if BelongsTo(e, crews) {
      var i :| 0 <= i < |crews| && crews[i].id == e.crewId;
      assert crews[i] in crews;
    }
    if exists c :: c in state.crews && c.id == e.crewId &&
        (state.selectedContract.None? || c.utilityContractId == state.selectedContract.value.id) {
      var c :| c in state.crews && c.id == e.crewId &&
        (state.selectedContract.None? || c.utilityContractId == state.selectedContract.value.id);
      assert c in crews;
      var i :| 0 <= i < |crews| && crews[i] == c;
    }
  }
}
