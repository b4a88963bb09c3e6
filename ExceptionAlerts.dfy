/** The exception alerts panel of src/components/Dashboard/ExceptionAlerts.tsx:
    which exceptions need attention, how many are shown, the per-reason
    icon and colour, the status badge, and the "time ago" text. */
module ExceptionAlerts {
  import opened Seqs
  import opened Strings
  import opened Types

  /** Submitted or under review: still waiting for a decision. */
  predicate IsPending(e: Exception)
  {
    e.status == ExceptionStatus.Submitted || e.status == UnderReview
  }

  /** pendingExceptions. */
  function PendingExceptions(exceptions: seq<Exception>): (r: seq<Exception>)
    ensures forall i :: 0 <= i < |r| ==> IsPending(r[i])
    ensures |r| <= |exceptions|
  {
    Filter(IsPending, exceptions)
  }

  /** The pending exceptions are exactly the submitted and under-review
      ones, in their original order. */
  lemma PendingExact(exceptions: seq<Exception>)
    ensures forall e :: e in PendingExceptions(exceptions) <==> e in exceptions && IsPending(e)
    ensures IsSubsequence(PendingExceptions(exceptions), exceptions)
  {
    FilterMultiset(IsPending, exceptions);
    FilterIsSubsequence(IsPending, exceptions);
  }

  /** What the panel renders: the red count badge, the alerts listed, the
      empty state, and the count on the "View all" button. */
  datatype AlertsPanel = AlertsPanel(
    countBadge: Option<int>,
    shown: seq<Exception>,
    emptyState: bool,
    viewAll: Option<int>)

  function RenderAlerts(exceptions: seq<Exception>): (r: AlertsPanel)
    ensures |r.shown| <= 6 && |r.shown| <= |PendingExceptions(exceptions)|
    ensures r.shown == PendingExceptions(exceptions)[..|r.shown|]
    ensures var n := |PendingExceptions(exceptions)|;
      && |r.shown| == (if n < 6 then n else 6)
      && (r.viewAll.Some? <==> n > 6)
      && (r.viewAll.Some? ==> r.viewAll.value == n)
      && (r.countBadge.Some? <==> n > 0)
      && (r.emptyState <==> n == 0)
  {
    var pending := PendingExceptions(exceptions);
    AlertsPanel(
      if |pending| > 0 then Some(|pending|) else None,
      Take(pending, 6),
      |pending| == 0,
      if |pending| > 6 then Some(|pending|) else None)
  }

  /** The empty state shows exactly when no exception is pending, and then
      neither badge nor list does; "View all" shows exactly when some
      pending alert is not listed, and otherwise every pending exception is
      listed. */
  lemma AlertsDisplay(exceptions: seq<Exception>)
    ensures var r := RenderAlerts(exceptions);
      r.emptyState <==> forall e :: e in exceptions ==> !IsPending(e)
    ensures var r := RenderAlerts(exceptions);
      r.emptyState ==> r.shown == [] && r.countBadge.None? && r.viewAll.None?
    ensures var r := RenderAlerts(exceptions);
      r.viewAll.Some? <==> |r.shown| < |PendingExceptions(exceptions)|
    ensures var r := RenderAlerts(exceptions);
      r.viewAll.None? ==> forall e :: e in exceptions && IsPending(e) ==> e in r.shown
    ensures var r := RenderAlerts(exceptions);
      r.countBadge.Some? ==> r.countBadge.value == |PendingExceptions(exceptions)| > 0
  {
    PendingExact(exceptions);
    var pending := PendingExceptions(exceptions);
    if |pending| > 0 {
      assert pending[0] in pending;
    }
  }

  /** The three reasons the panel knows, and the rest. */
  datatype ReasonKind = ExcessiveOvertime | GpsLocationVariance | RateDiscrepancy | OtherReason

  /** `switch (reason.toLowerCase())`. */
  function ReasonKindOf(reason: string): (k: ReasonKind)
    ensures k == ExcessiveOvertime <==> ToLower(reason) == "excessive overtime"
    ensures k == GpsLocationVariance <==> ToLower(reason) == "gps location variance"
    ensures k == RateDiscrepancy <==> ToLower(reason) == "rate discrepancy"
  {
    var key := ToLower(reason);
    if key == "excessive overtime" then ExcessiveOvertime
    else if key == "gps location variance" then GpsLocationVariance
    else if key == "rate discrepancy" then RateDiscrepancy
    else OtherReason
  }

  /** The icons getExceptionIcon draws. */
  datatype AlertIcon = OrangeClock | RedMapPin | BlueDollar | YellowTriangle

  /** getExceptionIcon. */
  function ExceptionIcon(reason: string): (icon: AlertIcon)
    ensures icon == YellowTriangle <==> ReasonKindOf(reason) == OtherReason
  {
    match ReasonKindOf(reason)
    case ExcessiveOvertime => OrangeClock
    case GpsLocationVariance => RedMapPin
    case RateDiscrepancy => BlueDollar
    case OtherReason => YellowTriangle
  }

  /** getPriorityColor. */
  function PriorityColor(reason: string): (css: string)
    ensures css == "border-l-yellow-500 bg-yellow-50" <==> ReasonKindOf(reason) == OtherReason
  {
    match ReasonKindOf(reason)
    case ExcessiveOvertime => "border-l-orange-500 bg-orange-50"
    case GpsLocationVariance => "border-l-red-500 bg-red-50"
    case RateDiscrepancy => "border-l-blue-500 bg-blue-50"
    case OtherReason => "border-l-yellow-500 bg-yellow-50"
  }

  lemma {:induction false} ToLowerIdempotent(s: string)
    ensures ToLower(ToLower(s)) == ToLower(s)
  {
    assert forall c: char :: LowerChar(LowerChar(c)) == LowerChar(c);
  }

  /** Reason matching ignores case: reasons equal up to ASCII case get the
      same icon and colour, a reason and its lower-case form in particular;
      and icon and border always agree in colour. */
  lemma ReasonStylesIgnoreCase(reason: string, other: string)
    ensures ToLower(reason) == ToLower(other) ==>
      ExceptionIcon(reason) == ExceptionIcon(other) && PriorityColor(reason) == PriorityColor(other)
    ensures ReasonKindOf(ToLower(reason)) == ReasonKindOf(reason)
    ensures ExceptionIcon(reason) == OrangeClock <==> PriorityColor(reason) == "border-l-orange-500 bg-orange-50"
    ensures ExceptionIcon(reason) == RedMapPin <==> PriorityColor(reason) == "border-l-red-500 bg-red-50"
    ensures ExceptionIcon(reason) == BlueDollar <==> PriorityColor(reason) == "border-l-blue-500 bg-blue-50"
  {
    ToLowerIdempotent(reason);
  }

  /** The sample reasons, written in title case, get their own styles. */
  lemma SampleReasonKinds()
    ensures ReasonKindOf("Excessive Overtime") == ExcessiveOvertime
    ensures ReasonKindOf("GPS Location Variance") == GpsLocationVariance
    ensures ReasonKindOf("Rate Discrepancy") == RateDiscrepancy
  {
    assert ToLower("Excessive Overtime") == "excessive overtime";
    assert ToLower("GPS Location Variance") == "gps location variance";
    assert ToLower("Rate Discrepancy") == "rate discrepancy";
  }

  /** `exception.status.replace('_', ' ')`. */
  function StatusLabel(status: ExceptionStatus): (text: string)
    ensures '_' !in ExceptionStatusText(status) ==> text == ExceptionStatusText(status)
  {
    ReplaceFirst(ExceptionStatusText(status), '_', ' ')
  }

  /** The badge reads "under review" for exceptions under review and the
      plain status otherwise. */
  lemma StatusLabels()
    ensures StatusLabel(UnderReview) == "under review"
    ensures StatusLabel(ExceptionStatus.Submitted) == "submitted"
    ensures StatusLabel(Accepted) == "accepted" && StatusLabel(ExceptionStatus.Rejected) == "rejected"
  {
    UnderscoreReplaced(ExceptionStatusText(UnderReview));
    NoUnderscore(ExceptionStatusText(ExceptionStatus.Submitted));
    NoUnderscore(ExceptionStatusText(Accepted));
    NoUnderscore(ExceptionStatusText(ExceptionStatus.Rejected));
  }

  lemma NoUnderscore(text: string)
    requires text in {"submitted", "accepted", "rejected"}
    ensures ReplaceFirst(text, '_', ' ') == text
  {
    assert '_' !in text;
  }

  lemma UnderscoreReplaced(text: string)
    requires text == "under_review"
    ensures ReplaceFirst(text, '_', ' ') == "under review"
  {
    UnderscoreSpliced(text);
    UnderReviewSpliced(text);
  }

  lemma UnderscoreSpliced(text: string)
    requires text == "under_review"
    ensures ReplaceFirst(text, '_', ' ') == text[..5] + [' '] + text[6..]
  {
    assert forall i :: 0 <= i < 5 ==> text[i] != '_';
    ReplaceFirstAt(text, '_', ' ', 5);
  }

  lemma UnderReviewSpliced(text: string)
    requires text == "under_review"
    ensures text[..5] + [' '] + text[6..] == "under review"
  {
  }

  /** Blue for exceptions under review, yellow for any other. */
  function StatusBadgeColor(status: ExceptionStatus): (css: string)
    ensures css == "bg-blue-100 text-blue-800" <==> status == UnderReview
  {
    if status == UnderReview then "bg-blue-100 text-blue-800" else "bg-yellow-100 text-yellow-800"
  }

  const HourMs := 3600000
  const DayMs := 86400000

  /** The three shapes of formatTimeAgo's text. */
  datatype TimeAgo = JustNow | HoursAgo(hours: int) | DaysAgo(days: int)

  /** formatTimeAgo with the clock reading `nowMs` as an input; both
      readings are milliseconds. A timestamp in the future reads "Just now". */
  function FormatTimeAgo(nowMs: int, createdMs: int): (r: TimeAgo)
    ensures r.JustNow? <==> nowMs - createdMs < HourMs
    ensures r.HoursAgo? ==>
      1 <= r.hours < 24 && r.hours * HourMs <= nowMs - createdMs < (r.hours + 1) * HourMs
    ensures r.DaysAgo? ==>
      r.days >= 1 && r.days * DayMs <= nowMs - createdMs < (r.days + 1) * DayMs
    ensures r.HoursAgo? <==> HourMs <= nowMs - createdMs < DayMs
  {
    var diff := nowMs - createdMs;
    if diff < HourMs then JustNow
    else if diff < DayMs then HoursAgo(diff / HourMs)
    else DaysAgo(diff / DayMs)
  }
}
