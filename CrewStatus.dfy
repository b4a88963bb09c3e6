/** The crew status panel of src/components/Dashboard/CrewStatus.tsx: the
    active/inactive split of the crews and how much of each list is shown.
    The crew management page counts crews with the same two filters. */
module CrewStatus {
  import opened Seqs
  import opened Types

  /** `crews.filter(crew => crew.active)`. */
  function ActiveCrews(crews: seq<Crew>): (r: seq<Crew>)
    ensures forall i :: 0 <= i < |r| ==> r[i].active
  {
    Filter((c: Crew) => c.active, crews)
  }

  /** `crews.filter(crew => !crew.active)`. */
  function InactiveCrews(crews: seq<Crew>): (r: seq<Crew>)
    ensures forall i :: 0 <= i < |r| ==> !r[i].active
  {
    Filter((c: Crew) => !c.active, crews)
  }

  /** Active and inactive crews split the crews: each crew is in exactly the
      list its flag says, both lists keep crew order, and the two counts add
      up to the number of crews. */
  lemma ActiveInactivePartition(crews: seq<Crew>)
    ensures |ActiveCrews(crews)| + |InactiveCrews(crews)| == |crews|
    ensures multiset(ActiveCrews(crews)) + multiset(InactiveCrews(crews)) == multiset(crews)
    ensures forall c :: c in ActiveCrews(crews) <==> c in crews && c.active
    ensures forall c :: c in InactiveCrews(crews) <==> c in crews && !c.active
    ensures IsSubsequence(ActiveCrews(crews), crews) && IsSubsequence(InactiveCrews(crews), crews)
  {
    FilterPartition((c: Crew) => c.active, (c: Crew) => !c.active, crews);
    FilterMultiset((c: Crew) => c.active, crews);
    FilterMultiset((c: Crew) => !c.active, crews);
    FilterIsSubsequence((c: Crew) => c.active, crews);
    FilterIsSubsequence((c: Crew) => !c.active, crews);
  }

  /** What the panel renders: the listed active crews, the number behind
      "+N more active crews" if that line appears, and the listed inactive
      crews if the inactive section appears. */
  datatype CrewStatusPanel = CrewStatusPanel(
    activeCount: nat,
    activeShown: seq<Crew>,
    moreActive: Option<int>,
    inactiveSection: Option<seq<Crew>>)

  function RenderCrewStatus(crews: seq<Crew>): (r: CrewStatusPanel)
    ensures r.activeCount == |ActiveCrews(crews)|
    ensures |r.activeShown| <= 5 && |r.activeShown| <= r.activeCount
    ensures r.activeShown == ActiveCrews(crews)[..|r.activeShown|]
    ensures |r.activeShown| == if r.activeCount < 5 then r.activeCount else 5
    ensures r.moreActive.Some? <==> r.activeCount > 5
    ensures r.moreActive.Some? ==> r.moreActive.value == r.activeCount - 5
    ensures r.inactiveSection.Some? ==>
      |r.inactiveSection.value| <= 3 && |r.inactiveSection.value| <= |InactiveCrews(crews)| &&
      r.inactiveSection.value == InactiveCrews(crews)[..|r.inactiveSection.value|]
  {
    var active, inactive := ActiveCrews(crews), InactiveCrews(crews);
    CrewStatusPanel(
      |active|,
      Take(active, 5),
      if |active| > 5 then Some(|active| - 5) else None,
      if |inactive| > 0 then Some(Take(inactive, 3)) else None)
  }

  /** Every active crew is either listed or counted in "+N more"; the more
      line appears exactly when more than five crews are active; the
      inactive section appears exactly when some crew is inactive, and it
      lists min(3, inactive) crews. */
  lemma CrewStatusDisplay(crews: seq<Crew>)
    ensures var r := RenderCrewStatus(crews);
      && (r.moreActive.Some? <==> r.activeCount > 5)
      && |r.activeShown| + (if r.moreActive.Some? then r.moreActive.value else 0) == r.activeCount
      && (r.moreActive.Some? ==> r.moreActive.value > 0)
    ensures var r := RenderCrewStatus(crews);
      (r.inactiveSection.Some? <==> exists c :: c in crews && !c.active)
    ensures var r := RenderCrewStatus(crews);
      r.inactiveSection.Some? ==>
        |r.inactiveSection.value| == if |InactiveCrews(crews)| < 3 then |InactiveCrews(crews)| else 3
  {
    ActiveInactivePartition(crews);
    var inactive := InactiveCrews(crews);
    if |inactive| > 0 {
      assert inactive[0] in inactive;
    }
  }
}
