// KYC review (src/pages/KYC.tsx): approving and rejecting a submission by id,
// the status tabs and the pending badge. The stored submission list is page
// state; the server call each handler tries first always falls through to the
// local update modelled here, and the review time is a parameter.
module Kyc {
  import opened Types
  import opened Text
  import opened Seqs

  /** `sub.id === kycId`. */
  predicate HasId(sub: KycSubmission, id: string) {
    sub.id == id
  }

  /**
   * The list after `handleApprove`: every submission with the id becomes
   * approved, reviewed at `now`; the others stay as they were. The prior status
   * is not checked, and a previous rejection reason is kept.
   */
  function Approve(subs: seq<KycSubmission>, id: string, now: int): (r: seq<KycSubmission>)
    ensures |r| == |subs|
    ensures forall i :: 0 <= i < |subs| && subs[i].id == id ==>
      r[i] == subs[i].(status := Approved, reviewedAt := Some(now))
    ensures forall i :: 0 <= i < |subs| && subs[i].id != id ==> r[i] == subs[i]
  {
    ReplaceWhere(subs, (s: KycSubmission) => HasId(s, id), (s: KycSubmission) => s.(status := Approved, reviewedAt := Some(now)))
  }

  /** `!rejectReason.trim()` is false: the reason has a non-space character. */
  predicate ReasonGiven(reason: string) {
    Trim(reason) != ""
  }

  /**
   * The list after `handleReject` gets past its guard: every submission with the
   * id becomes rejected, reviewed at `now`, with the reason as typed (untrimmed).
   */
  function Reject(subs: seq<KycSubmission>, id: string, reason: string, now: int): (r: seq<KycSubmission>)
    ensures |r| == |subs|
    ensures forall i :: 0 <= i < |subs| && subs[i].id == id ==>
      r[i] == subs[i].(status := Rejected, reviewedAt := Some(now), rejectionReason := Some(reason))
    ensures forall i :: 0 <= i < |subs| && subs[i].id != id ==> r[i] == subs[i]
  {
    ReplaceWhere(subs, (s: KycSubmission) => HasId(s, id),
      (s: KycSubmission) => s.(status := Rejected, reviewedAt := Some(now), rejectionReason := Some(reason)))
  }

  /** The four tabs: `'all'` or one review status. */
  datatype StatusFilter = AllStatuses | Only(status: ReviewStatus)

  predicate Shows(f: StatusFilter, sub: KycSubmission) {
    f.AllStatuses? || sub.status == f.status
  }

  /** `filteredSubmissions`: the submissions the tab shows, in list order; nothing before the data arrives. */
  function FilteredSubmissions(subs: Option<seq<KycSubmission>>, f: StatusFilter): (r: Option<seq<KycSubmission>>)
    ensures subs.None? <==> r.None?
    ensures subs.Some? ==> IsSubsequence(r.value, subs.value)
    ensures subs.Some? ==> forall i :: 0 <= i < |r.value| ==> Shows(f, r.value[i])
    ensures subs.Some? ==> forall i :: 0 <= i < |subs.value| && Shows(f, subs.value[i]) ==> subs.value[i] in r.value
    ensures subs.Some? ==> |r.value| == CountWhere(subs.value, (s: KycSubmission) => Shows(f, s))
    ensures subs.Some? && f.AllStatuses? ==> r == subs
  {
    match subs
    case None => None
    case Some(ss) =>
      var keep := (s: KycSubmission) => Shows(f, s);
      FilterIsSubsequence(ss, keep);
      FilterLength(ss, keep);
      if f.AllStatuses? then
        FilterKeepsAll(ss, keep);
        Some(Filter(ss, keep))
      else
        Some(Filter(ss, keep))
  }

  predicate IsPending(sub: KycSubmission) {
    sub.status == Pending
  }

  /** The badge on the Pending tab: `filter(pending).length || 0`. */
  function PendingCount(subs: Option<seq<KycSubmission>>): (n: nat)
    ensures subs.None? ==> n == 0
    ensures subs.Some? ==> n == CountWhere(subs.value, IsPending)
  {
    if subs.None? then 0
    else
      FilterLength(subs.value, IsPending);
      |Filter(subs.value, IsPending)|
  }

  /** The badge counts exactly what the Pending tab lists. */
  lemma PendingBadgeMatchesTab(subs: seq<KycSubmission>)
    ensures PendingCount(Some(subs)) == |FilteredSubmissions(Some(subs), Only(Pending)).value|
  {
    var keep := (s: KycSubmission) => Shows(Only(Pending), s);
    FilterLength(subs, keep);
    CountSame(subs, keep, IsPending);
  }

  lemma {:induction false} CountSame(s: seq<KycSubmission>, p: KycSubmission -> bool, q: KycSubmission -> bool)
    requires forall x :: p(x) == q(x)
    ensures CountWhere(s, p) == CountWhere(s, q)
  {
    if s != [] { CountSame(s[1..], p, q); }
  }

  predicate UniqueIds(subs: seq<KycSubmission>) {
    forall i, j :: 0 <= i < j < |subs| ==> subs[i].id != subs[j].id
  }

  /** With unique ids, approving a pending submission takes exactly one off the badge. */
  lemma ApprovePendingLowersBadge(subs: seq<KycSubmission>, k: nat, now: int)
    requires UniqueIds(subs) && k < |subs| && subs[k].status == Pending
    ensures PendingCount(Some(Approve(subs, subs[k].id, now))) == PendingCount(Some(subs)) - 1
  {
    var id := subs[k].id;
    var f := (s: KycSubmission) => s.(status := Approved, reviewedAt := Some(now));
    ReplaceOne(subs, (s: KycSubmission) => HasId(s, id), f, k);
    CountWhereUpdate(subs, k, f(subs[k]), IsPending);
  }

  /** With unique ids, rejecting a pending submission takes exactly one off the badge. */
  lemma RejectPendingLowersBadge(subs: seq<KycSubmission>, k: nat, reason: string, now: int)
    requires UniqueIds(subs) && k < |subs| && subs[k].status == Pending
    ensures PendingCount(Some(Reject(subs, subs[k].id, reason, now))) == PendingCount(Some(subs)) - 1
  {
    var id := subs[k].id;
    var f := (s: KycSubmission) => s.(status := Rejected, reviewedAt := Some(now), rejectionReason := Some(reason));
    ReplaceOne(subs, (s: KycSubmission) => HasId(s, id), f, k);
    CountWhereUpdate(subs, k, f(subs[k]), IsPending);
  }

  /**
   * The update itself does not look at the prior status: approving a rejected
   * submission makes it approved and leaves its old rejection reason in place.
   * Only the page's buttons, shown for pending submissions, prevent this.
   */
  lemma ApproveAfterRejectKeepsReason(subs: seq<KycSubmission>, k: nat, reason: string, t1: int, t2: int)
    requires k < |subs|
    ensures var r := Approve(Reject(subs, subs[k].id, reason, t1), subs[k].id, t2);
      r[k].status == Approved && r[k].rejectionReason == Some(reason) && r[k].reviewedAt == Some(t2)
  {
  }

  /** Which dialog is open: the details view or the rejection form. */
  datatype KycViewMode = ViewSubmission | RejectForm

  /** The page's state: the stored submissions, the tab, and the dialog state. */
  class KycPage {
    var submissions: seq<KycSubmission>
    var filter: StatusFilter
    var selected: Option<KycSubmission>
    var viewMode: Option<KycViewMode>
    var rejectReason: string

    constructor(stored: seq<KycSubmission>)
      ensures submissions == stored && filter == AllStatuses && selected == None && viewMode == None
      ensures rejectReason == ""
    {
      submissions := stored;
      filter := AllStatuses;
      selected := None;
      viewMode := None;
      rejectReason := "";
    }

    /**
     * `handleApprove`: approve the id and close the dialog. The page offers the
     * button only on pending submissions; the handler itself does not check.
     */
    method HandleApprove(kycId: string, now: int)
      modifies this
      ensures submissions == Approve(old(submissions), kycId, now)
      ensures selected == None && viewMode == None
      ensures filter == old(filter) && rejectReason == old(rejectReason)
    {
      submissions := Approve(submissions, kycId, now);
      selected := None;
      viewMode := None;
    }

    /**
     * `handleReject`: a blank reason is refused and nothing changes; otherwise
     * the id is rejected with the reason, the reason field is cleared and the
     * dialog closes.
     */
    method HandleReject(kycId: string, now: int) returns (refused: bool)
      modifies this
      ensures refused <==> !ReasonGiven(old(rejectReason))
      ensures refused ==>
        (submissions == old(submissions) && selected == old(selected)
         && viewMode == old(viewMode) && rejectReason == old(rejectReason))
      ensures !refused ==>
        (submissions == Reject(old(submissions), kycId, old(rejectReason), now)
         && selected == None && viewMode == None && rejectReason == "")
      ensures filter == old(filter)
    {
      if Trim(rejectReason) == "" {
        return true;
      }
      submissions := Reject(submissions, kycId, rejectReason, now);
      selected := None;
      rejectReason := "";
      viewMode := None;
      refused := false;
    }
  }
}
