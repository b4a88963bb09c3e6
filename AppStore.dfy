/** The application store of src/contexts/AppContext.tsx: the reducer over
    contracts, crews, time entries, exceptions and users, its initial state,
    the two outcomes of the initial load, and the two lookup helpers. */
module AppStore {
  import opened Seqs
  import opened Types

  datatype AppState = AppState(
    selectedContract: Option<UtilityContract>,
    utilityContracts: seq<UtilityContract>,
    crews: seq<Crew>,
    timeEntries: seq<TimeEntry>,
    exceptions: seq<Exception>,
    users: seq<User>,
    loading: bool)

  /** `Partial<AppState>`: each field may be absent (None). */
  datatype PartialAppState = PartialAppState(
    selectedContract: Option<Option<UtilityContract>>,
    utilityContracts: Option<seq<UtilityContract>>,
    crews: Option<seq<Crew>>,
    timeEntries: Option<seq<TimeEntry>>,
    exceptions: Option<seq<Exception>>,
    users: Option<seq<User>>,
    loading: Option<bool>)

  /** The actions the reducer handles, and any other action type. */
  datatype AppAction =
    | SetSelectedContract(contract: Option<UtilityContract>)
    | SetLoading(isLoading: bool)
    | AddCrew(crew: Crew)
    | UpdateCrew(crew: Crew)
    | DeleteCrew(crewId: string)
    | AddUser(user: User)
    | UpdateUser(user: User)
    | DeleteUser(userId: string)
    | AddTimeEntry(entry: TimeEntry)
    | UpdateTimeEntry(entry: TimeEntry)
    | AddException(exception: Exception)
    | UpdateException(exception: Exception)
    | LoadData(payload: PartialAppState)
    | Unrecognized(actionType: string)

  /** `s.map(x => key(x) === key(item) ? item : x)`. */
  function ReplaceById<T>(s: seq<T>, key: T -> string, item: T): (r: seq<T>)
    ensures |r| == |s|
    ensures forall i :: 0 <= i < |s| ==> key(r[i]) == key(s[i])
    ensures forall i :: 0 <= i < |s| ==> r[i] == s[i] || r[i] == item
  {
    seq(|s|, i requires 0 <= i < |s| => if key(s[i]) == key(item) then item else s[i])
  }

  /** An update whose id matches nothing leaves the list as it was. */
  lemma ReplaceByIdAbsent<T>(s: seq<T>, key: T -> string, item: T)
    requires forall i :: 0 <= i < |s| ==> key(s[i]) != key(item)
    ensures ReplaceById(s, key, item) == s
  {
  }

  /** Applying the same update twice is the same as applying it once. */
  lemma ReplaceByIdIdempotent<T>(s: seq<T>, key: T -> string, item: T)
    ensures ReplaceById(ReplaceById(s, key, item), key, item) == ReplaceById(s, key, item)
  {
  }

  /** After an update, `item` is in the list exactly when some element had its id. */
  lemma ReplaceByIdPresent<T>(s: seq<T>, key: T -> string, item: T)
    ensures (exists i :: 0 <= i < |s| && key(s[i]) == key(item)) ==> item in ReplaceById(s, key, item)
  {
    if exists i :: 0 <= i < |s| && key(s[i]) == key(item) {
      var i :| 0 <= i < |s| && key(s[i]) == key(item);
      assert ReplaceById(s, key, item)[i] == item;
    }
  }

  /** `s.filter(x => key(x) !== id)`. */
  function DeleteById<T>(s: seq<T>, key: T -> string, id: string): (r: seq<T>)
    ensures forall i :: 0 <= i < |r| ==> key(r[i]) != id
  {
    Filter((x: T) => key(x) != id, s)
  }

  /** Deleting keeps every element with another id, in order, and only those. */
  lemma DeleteByIdKeepsOthers<T>(s: seq<T>, key: T -> string, id: string)
    ensures forall x :: x in DeleteById(s, key, id) <==> x in s && key(x) != id
    ensures IsSubsequence(DeleteById(s, key, id), s)
    ensures forall x :: key(x) != id ==> multiset(DeleteById(s, key, id))[x] == multiset(s)[x]
  {
    FilterMultiset((x: T) => key(x) != id, s);
    FilterIsSubsequence((x: T) => key(x) != id, s);
  }

  /** `{ ...state, ...payload }`: the fields the payload carries win. */
  function Merge(state: AppState, p: PartialAppState): (r: AppState)
    ensures p.selectedContract.None? ==> r.selectedContract == state.selectedContract
    ensures p.utilityContracts.None? ==> r.utilityContracts == state.utilityContracts
    ensures p.crews.None? ==> r.crews == state.crews
    ensures p.timeEntries.None? ==> r.timeEntries == state.timeEntries
    ensures p.exceptions.None? ==> r.exceptions == state.exceptions
    ensures p.users.None? ==> r.users == state.users
    ensures p.loading.None? ==> r.loading == state.loading
    ensures p.selectedContract.Some? ==> r.selectedContract == p.selectedContract.value
    ensures p.utilityContracts.Some? ==> r.utilityContracts == p.utilityContracts.value
    ensures p.crews.Some? ==> r.crews == p.crews.value
    ensures p.timeEntries.Some? ==> r.timeEntries == p.timeEntries.value
    ensures p.exceptions.Some? ==> r.exceptions == p.exceptions.value
    ensures p.users.Some? ==> r.users == p.users.value
    ensures p.loading.Some? ==> r.loading == p.loading.value
  {
    AppState(
      if p.selectedContract.Some? then p.selectedContract.value else state.selectedContract,
      if p.utilityContracts.Some? then p.utilityContracts.value else state.utilityContracts,
      if p.crews.Some? then p.crews.value else state.crews,
      if p.timeEntries.Some? then p.timeEntries.value else state.timeEntries,
      if p.exceptions.Some? then p.exceptions.value else state.exceptions,
      if p.users.Some? then p.users.value else state.users,
      if p.loading.Some? then p.loading.value else state.loading)
  }

  /** appReducer. */
  function AppReduce(state: AppState, action: AppAction): (r: AppState)
    ensures !action.LoadData? ==> r.utilityContracts == state.utilityContracts
    ensures !(action.SetSelectedContract? || action.LoadData?) ==> r.selectedContract == state.selectedContract
    ensures !(action.SetLoading? || action.LoadData?) ==> r.loading == state.loading
    ensures !(action.AddCrew? || action.UpdateCrew? || action.DeleteCrew? || action.LoadData?) ==> r.crews == state.crews
    ensures !(action.AddUser? || action.UpdateUser? || action.DeleteUser? || action.LoadData?) ==> r.users == state.users
    ensures !(action.AddTimeEntry? || action.UpdateTimeEntry? || action.LoadData?) ==> r.timeEntries == state.timeEntries
    ensures !(action.AddException? || action.UpdateException? || action.LoadData?) ==> r.exceptions == state.exceptions
  {
    match action
    case SetSelectedContract(contract) => state.(selectedContract := contract)
    case SetLoading(isLoading) => state.(loading := isLoading)
    case AddCrew(crew) => state.(crews := state.crews + [crew])
    case UpdateCrew(crew) => state.(crews := ReplaceById(state.crews, (c: Crew) => c.id, crew))
    case DeleteCrew(crewId) => state.(crews := DeleteById(state.crews, (c: Crew) => c.id, crewId))
    case AddUser(user) => state.(users := state.users + [user])
    case UpdateUser(user) => state.(users := ReplaceById(state.users, (u: User) => u.id, user))
    case DeleteUser(userId) => state.(users := DeleteById(state.users, (u: User) => u.id, userId))
    case AddTimeEntry(entry) => state.(timeEntries := state.timeEntries + [entry])
    case UpdateTimeEntry(entry) => state.(timeEntries := ReplaceById(state.timeEntries, (e: TimeEntry) => e.id, entry))
    case AddException(exception) => state.(exceptions := state.exceptions + [exception])
    case UpdateException(exception) => state.(exceptions := ReplaceById(state.exceptions, (e: Exception) => e.id, exception))
    case LoadData(payload) => Merge(state, payload)
    case Unrecognized(_) => state
  }

  /** The four add actions append the payload at the end of their own list
      and change no other field. */
  lemma AddActionsAppend(state: AppState, crew: Crew, user: User, entry: TimeEntry, exception: Exception)
    ensures AppReduce(state, AddCrew(crew)) == state.(crews := state.crews + [crew])
    ensures AppReduce(state, AddUser(user)) == state.(users := state.users + [user])
    ensures AppReduce(state, AddTimeEntry(entry)) == state.(timeEntries := state.timeEntries + [entry])
    ensures AppReduce(state, AddException(exception)) == state.(exceptions := state.exceptions + [exception])
    ensures var r := AppReduce(state, AddCrew(crew));
      |r.crews| == |state.crews| + 1 && r.crews[|state.crews|] == crew && r.crews[..|state.crews|] == state.crews
  {
  }

  /** `after` is `before` with exactly the elements whose id is `item`'s
      replaced by `item`. */
  ghost predicate ReplacedExactly<T>(before: seq<T>, after: seq<T>, key: T -> string, item: T)
  {
    && |after| == |before|
    && forall i :: 0 <= i < |before| ==>
         (key(before[i]) == key(item) ==> after[i] == item) &&
         (key(before[i]) != key(item) ==> after[i] == before[i])
  }

  /** Each update keeps its list's length and order, replaces exactly the
      elements whose id is the payload's, and changes no other field. */
  lemma UpdateActionsReplace(state: AppState, crew: Crew, user: User, entry: TimeEntry, exception: Exception)
    ensures var r := AppReduce(state, UpdateCrew(crew));
      r == state.(crews := r.crews) && ReplacedExactly(state.crews, r.crews, (c: Crew) => c.id, crew)
    ensures var r := AppReduce(state, UpdateUser(user));
      r == state.(users := r.users) && ReplacedExactly(state.users, r.users, (u: User) => u.id, user)
    ensures var r := AppReduce(state, UpdateTimeEntry(entry));
      r == state.(timeEntries := r.timeEntries) && ReplacedExactly(state.timeEntries, r.timeEntries, (e: TimeEntry) => e.id, entry)
    ensures var r := AppReduce(state, UpdateException(exception));
      r == state.(exceptions := r.exceptions) && ReplacedExactly(state.exceptions, r.exceptions, (e: Exception) => e.id, exception)
  {
  }

  /** An update with an unknown id is a no-op, and updating twice is
      updating once; likewise for users, entries and exceptions. */
  lemma UpdateActionsNoOpAndIdempotent(state: AppState, action: AppAction)
    requires action.UpdateCrew? || action.UpdateUser? || action.UpdateTimeEntry? || action.UpdateException?
    ensures AppReduce(AppReduce(state, action), action) == AppReduce(state, action)
    ensures action.UpdateCrew? && (forall c :: c in state.crews ==> c.id != action.crew.id) ==>
      AppReduce(state, action) == state
    ensures action.UpdateUser? && (forall u :: u in state.users ==> u.id != action.user.id) ==>
      AppReduce(state, action) == state
    ensures action.UpdateTimeEntry? && (forall e :: e in state.timeEntries ==> e.id != action.entry.id) ==>
      AppReduce(state, action) == state
    ensures action.UpdateException? && (forall e :: e in state.exceptions ==> e.id != action.exception.id) ==>
      AppReduce(state, action) == state
  {
    match action
    case UpdateCrew(x) => ReplaceByIdIdempotent(state.crews, (c: Crew) => c.id, x);
    case UpdateUser(x) => ReplaceByIdIdempotent(state.users, (u: User) => u.id, x);
    case UpdateTimeEntry(x) => ReplaceByIdIdempotent(state.timeEntries, (e: TimeEntry) => e.id, x);
    case UpdateException(x) => ReplaceByIdIdempotent(state.exceptions, (e: Exception) => e.id, x);
  }

  /** Deleting a crew or user leaves none with that id, keeps the others in
      order, and changes no other field. */
  lemma DeleteActionsRemove(state: AppState, crewId: string, userId: string)
    ensures var r := AppReduce(state, DeleteCrew(crewId));
      && r == state.(crews := r.crews)
      && (forall c :: c in r.crews <==> c in state.crews && c.id != crewId)
      && IsSubsequence(r.crews, state.crews)
    ensures var r := AppReduce(state, DeleteUser(userId));
      && r == state.(users := r.users)
      && (forall u :: u in r.users <==> u in state.users && u.id != userId)
      && IsSubsequence(r.users, state.users)
  {
    DeleteByIdKeepsOthers(state.crews, (c: Crew) => c.id, crewId);
    DeleteByIdKeepsOthers(state.users, (u: User) => u.id, userId);
  }

  /** LOAD_DATA overwrites exactly the fields the payload carries. */
  lemma LoadDataMerges(state: AppState, p: PartialAppState)
    ensures AppReduce(state, LoadData(p)) == Merge(state, p)
    ensures var r := AppReduce(state, LoadData(p));
      && r.selectedContract == (if p.selectedContract.Some? then p.selectedContract.value else state.selectedContract)
      && r.utilityContracts == (if p.utilityContracts.Some? then p.utilityContracts.value else state.utilityContracts)
      && r.crews == (if p.crews.Some? then p.crews.value else state.crews)
      && r.timeEntries == (if p.timeEntries.Some? then p.timeEntries.value else state.timeEntries)
      && r.exceptions == (if p.exceptions.Some? then p.exceptions.value else state.exceptions)
      && r.users == (if p.users.Some? then p.users.value else state.users)
      && r.loading == (if p.loading.Some? then p.loading.value else state.loading)
    ensures p == PartialAppState(None, None, None, None, None, None, None) ==> AppReduce(state, LoadData(p)) == state
  {
  }

  /** The two setters change only their own field; any other action type
      returns the state as it was. */
  lemma SettersAndDefault(state: AppState, contract: Option<UtilityContract>, isLoading: bool, actionType: string)
    ensures AppReduce(state, SetSelectedContract(contract)) == state.(selectedContract := contract)
    ensures AppReduce(state, SetLoading(isLoading)) == state.(loading := isLoading)
    ensures AppReduce(state, Unrecognized(actionType)) == state
  {
  }

  /** The store before anything has loaded. */
  const InitialAppState := AppState(None, [], [], [], [], [], true)

  /** The LOAD_DATA payload the provider dispatches once every list has arrived. */
  function LoadedPayload(contracts: seq<UtilityContract>, crews: seq<Crew>, timeEntries: seq<TimeEntry>,
                         exceptions: seq<Exception>, users: seq<User>): PartialAppState
  {
    PartialAppState(
      Some(if contracts != [] then Some(contracts[0]) else None),
      Some(contracts), Some(crews), Some(timeEntries), Some(exceptions), Some(users), Some(false))
  }

  /** A successful load selects the first contract (none if there are none),
      installs every list and clears `loading`. */
  lemma LoadSucceeded(state: AppState, contracts: seq<UtilityContract>, crews: seq<Crew>, timeEntries: seq<TimeEntry>,
                      exceptions: seq<Exception>, users: seq<User>)
    ensures var r := AppReduce(state, LoadData(LoadedPayload(contracts, crews, timeEntries, exceptions, users)));
      && r.selectedContract == (if |contracts| > 0 then Some(contracts[0]) else None)
      && r.utilityContracts == contracts && r.crews == crews && r.timeEntries == timeEntries
      && r.exceptions == exceptions && r.users == users && !r.loading
  {
  }

  /** A failed load only clears `loading`: the lists stay empty. */
  lemma LoadFailed()
    ensures AppReduce(InitialAppState, SetLoading(false)) == AppState(None, [], [], [], [], [], false)
  {
  }

  /** getCrewsByContract. */
  function GetCrewsByContract(state: AppState, contractId: string): (r: seq<Crew>)
    ensures forall i :: 0 <= i < |r| ==> r[i].utilityContractId == contractId
  {
    Filter((c: Crew) => c.utilityContractId == contractId, state.crews)
  }

  /** getTimeEntriesByCrew. */
  function GetTimeEntriesByCrew(state: AppState, crewId: string): (r: seq<TimeEntry>)
    ensures forall i :: 0 <= i < |r| ==> r[i].crewId == crewId
  {
    Filter((e: TimeEntry) => e.crewId == crewId, state.timeEntries)
  }

  /** The crews a page works on: those of the selected contract, or every
      crew when none is selected (the Dashboard and crew management pages
      compute it alike). */
  function ContractCrews(state: AppState): (r: seq<Crew>)
    ensures state.selectedContract.None? ==> r == state.crews
    ensures state.selectedContract.Some? ==>
      forall i :: 0 <= i < |r| ==> r[i].utilityContractId == state.selectedContract.value.id
  {
    if state.selectedContract.Some? then GetCrewsByContract(state, state.selectedContract.value.id) else state.crews
  }

  /** The contract's crews are exactly the matching crews, in store order. */
  lemma ContractCrewsExact(state: AppState)
    ensures forall c :: c in ContractCrews(state) <==>
      c in state.crews && (state.selectedContract.None? || c.utilityContractId == state.selectedContract.value.id)
    ensures IsSubsequence(ContractCrews(state), state.crews)
  {
    if state.selectedContract.Some? {
      LookupsAreOrderedSelections(state, state.selectedContract.value.id, "");
    } else {
      SubsequenceRefl(state.crews);
    }
  }

  /** Both lookups return exactly the matching items, in store order. */
  lemma LookupsAreOrderedSelections(state: AppState, contractId: string, crewId: string)
    ensures forall c :: c in GetCrewsByContract(state, contractId) <==> c in state.crews && c.utilityContractId == contractId
    ensures IsSubsequence(GetCrewsByContract(state, contractId), state.crews)
    ensures forall e :: e in GetTimeEntriesByCrew(state, crewId) <==> e in state.timeEntries && e.crewId == crewId
    ensures IsSubsequence(GetTimeEntriesByCrew(state, crewId), state.timeEntries)
  {
    FilterMultiset((c: Crew) => c.utilityContractId == contractId, state.crews);
    FilterIsSubsequence((c: Crew) => c.utilityContractId == contractId, state.crews);
    FilterMultiset((e: TimeEntry) => e.crewId == crewId, state.timeEntries);
    FilterIsSubsequence((e: TimeEntry) => e.crewId == crewId, state.timeEntries);
  }
}
