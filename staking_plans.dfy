// Staking plans and active stakes (src/pages/StakingPlans.tsx): the plan list's
// create, update and delete fallbacks with their form check, the plan and stake
// filters, the per-plan stake counts, and the mock stakes built from the user
// list with their whole-day countdown. The clock is a parameter.
module StakingPlans {
  import opened Types
  import opened Text
  import opened Seqs
  import opened Sorting

  /** One day in milliseconds. */
  const DayMs: int := 86400000

  // ---------------------------------------------------------------- stakes

  /** The sort key: the lower-cased user name. */
  function StakeNameKey(s: ActiveStake): string {
    LowerStr(s.userName)
  }

  /** `sortStakesAlphabetically`: a sorted copy; the input list is a value and stays as it was. */
  method SortStakes(stakes: seq<ActiveStake>) returns (r: seq<ActiveStake>)
    ensures multiset(r) == multiset(stakes)
    ensures SortedBy(r, StakeNameKey)
  {
    r := SortByKey(stakes, StakeNameKey);
  }

  /** `Math.ceil(ms / 86400000)`: the least whole number of days covering `ms`. */
  function CeilDays(ms: int): (r: int)
    ensures DayMs * (r - 1) < ms <= DayMs * r
  {
    -((-ms) / DayMs)
  }

  /** `Math.max(0, Math.ceil((endDate - now) / 86400000))`. */
  function DaysRemaining(endDate: int, now: int): (r: int)
    ensures r >= 0
    ensures r == 0 <==> endDate <= now
    ensures endDate > now ==> DayMs * (r - 1) < endDate - now <= DayMs * r
  {
    var days := CeilDays(endDate - now);
    if days < 0 then 0 else days
  }

  /**
   * The stake the mock loop builds for the user at `index`: only users at an
   * index below the number of plans get one, on `plans[index % |plans|]`,
   * started `index` days before `now`, ending the plan's length of days later,
   * and counted down against the second clock reading `readNow`.
   */
  function StakeFor(u: User, index: nat, plans: seq<StakingPlan>, now: int, readNow: int): (r: Option<ActiveStake>)
    ensures r.Some? <==> index < |plans|
    ensures r.Some? ==>
      (var plan := plans[index % |plans|];
       r.value.id == "stake-" + u.id && r.value.userId == u.id && r.value.userName == u.fullName
       && r.value.userEmail == u.email && r.value.planId == plan.id && r.value.planDays == plan.days
       && r.value.eggsStaked == plan.minStake && r.value.rewardPercentage == plan.rewardPercentage
       && r.value.startDate == now - index * DayMs
       && r.value.endDate == r.value.startDate + plan.days * DayMs)
    ensures r.Some? ==> r.value.daysRemaining >= 0 && (r.value.isCompleted <==> r.value.daysRemaining == 0)
  {
    if index < |plans| then
      var plan := plans[index % |plans|];
      var startDate := now - index * DayMs;
      var endDate := startDate + plan.days * DayMs;
      var daysRemaining := DaysRemaining(endDate, readNow);
      Some(ActiveStake("stake-" + u.id, u.id, u.fullName, u.email, plan.id, plan.days, plan.minStake,
                       plan.rewardPercentage, startDate, endDate, daysRemaining, daysRemaining == 0))
    else None
  }

  /**
   * When both clock readings agree, a stake on a plan of `days` days for the user
   * at `index` has `max(0, days - index)` days left, and is completed exactly
   * when the user's index reaches the plan's length.
   */
  lemma SameInstantCountdown(u: User, index: nat, plans: seq<StakingPlan>, now: int)
    requires index < |plans|
    ensures var s := StakeFor(u, index, plans, now, now).value;
      var days := plans[index % |plans|].days;
      s.daysRemaining == (if days - index < 0 then 0 else days - index)
      && (s.isCompleted <==> days <= index)
  {
    var days := plans[index % |plans|].days;
    var s := StakeFor(u, index, plans, now, now).value;
    assert s.endDate - now == (days - index) * DayMs;
    CeilExact(days - index);
  }

  lemma CeilExact(n: int)
    ensures CeilDays(n * DayMs) == n
  {
  }

  /** What the mock loop has pushed after the first `t` users, in user order. */
  function CollectedStakes(users: seq<User>, plans: seq<StakingPlan>, now: int, readNow: int, t: nat)
    : (r: seq<ActiveStake>)
    requires t <= |users|
    ensures |r| <= t
  {
    if t == 0 then []
    else
      var prev := CollectedStakes(users, plans, now, readNow, t - 1);
      match StakeFor(users[t - 1], t - 1, plans, now, readNow)
      case None => prev
      case Some(s) => prev + [s]
  }

  /** The loop gives a stake to exactly the first `min(|users|, |plans|)` users, in order. */
  lemma {:induction false} CollectedStakesPrefix(users: seq<User>, plans: seq<StakingPlan>, now: int, readNow: int,
                                                 t: nat)
    requires t <= |users|
    ensures var c := CollectedStakes(users, plans, now, readNow, t);
      |c| == (if t < |plans| then t else |plans|)
      && forall m :: 0 <= m < |c| ==> c[m] == StakeFor(users[m], m, plans, now, readNow).value
  {
    if t > 0 {
      CollectedStakesPrefix(users, plans, now, readNow, t - 1);
    }
  }

  /**
   * The mock fallback: one pass over the users pushing each user's stake, then
   * the alphabetical sort.
   */
  method MockStakes(users: seq<User>, plans: seq<StakingPlan>, now: int, readNow: int) returns (r: seq<ActiveStake>)
    ensures multiset(r) == multiset(CollectedStakes(users, plans, now, readNow, |users|))
    ensures SortedBy(r, StakeNameKey)
  {
    var pushed: seq<ActiveStake> := [];
    var index := 0;
    while index < |users|
      invariant index <= |users|
      invariant pushed == CollectedStakes(users, plans, now, readNow, index)
    {
      var s := StakeFor(users[index], index, plans, now, readNow);
      if s.Some? {
        pushed := pushed + [s.value];
      }
      assert pushed == CollectedStakes(users, plans, now, readNow, index + 1);
      index := index + 1;
    }
    r := SortStakes(pushed);
  }

  /** `getStakesForPlan(p)` keeps the stakes of plan `p` that are not completed. */
  predicate RunningOn(s: ActiveStake, planId: string) {
    s.planId == planId && !s.isCompleted
  }

  /** `getStakesCount`: the number of running stakes on the plan; zero before the data arrives. */
  function StakesCount(stakes: Option<seq<ActiveStake>>, planId: string): (n: nat)
    ensures stakes.None? ==> n == 0
    ensures stakes.Some? ==> n == CountWhere(stakes.value, (s: ActiveStake) => RunningOn(s, planId))
  {
    if stakes.None? then 0
    else
      var running := (s: ActiveStake) => RunningOn(s, planId);
      FilterLength(stakes.value, running);
      |Filter(stakes.value, running)|
  }

  /** A plan whose stakes have all completed shows a count of zero. */
  lemma StakesCountIgnoresCompleted(stakes: seq<ActiveStake>, planId: string)
    requires forall i :: 0 <= i < |stakes| && stakes[i].planId == planId ==> stakes[i].isCompleted
    ensures StakesCount(Some(stakes), planId) == 0
  {
  }

  /**
   * The stake table's test: a running stake, and with a non-empty term one whose
   * user name, user email, owner's username or plan description (owner and plan
   * looked up with `find`) contains the term.
   */
  predicate StakeShown(s: ActiveStake, users: Option<seq<User>>, plans: Option<seq<StakingPlan>>, term: string) {
    if term == "" then !s.isCompleted
    else
      var user := if users.None? then None else Find(users.value, (u: User) => u.id == s.userId);
      var plan := if plans.None? then None else Find(plans.value, (p: StakingPlan) => p.id == s.planId);
      !s.isCompleted
      && (IncludesCI(s.userName, term) || IncludesCI(s.userEmail, term)
          || (user.Some? && IncludesCI(user.value.username, term))
          || (plan.Some? && IncludesCI(plan.value.description, term)))
  }

  /** `filteredStakes`: the shown stakes, sorted by lower-cased user name. */
  method FilteredStakes(stakes: Option<seq<ActiveStake>>, users: Option<seq<User>>, plans: Option<seq<StakingPlan>>,
                        term: string)
    returns (r: Option<seq<ActiveStake>>)
    ensures stakes.None? <==> r.None?
    ensures r.Some? ==>
      multiset(r.value) == multiset(Filter(stakes.value, (s: ActiveStake) => StakeShown(s, users, plans, term)))
    ensures r.Some? ==> SortedBy(r.value, StakeNameKey)
    ensures r.Some? ==> forall i :: 0 <= i < |r.value| ==> !r.value[i].isCompleted
  {
    if stakes.None? {
      return None;
    }
    var shown := Filter(stakes.value, (s: ActiveStake) => StakeShown(s, users, plans, term));
    var sorted := SortStakes(shown);
    forall i | 0 <= i < |sorted| ensures !sorted[i].isCompleted {
      assert sorted[i] in multiset(shown);
    }
    r := Some(sorted);
  }

  /** With an empty term the table keeps every running stake and nothing else. */
  lemma EmptyTermShowsRunning(stakes: seq<ActiveStake>, users: Option<seq<User>>, plans: Option<seq<StakingPlan>>)
    ensures forall i :: 0 <= i < |stakes| ==>
      (stakes[i] in Filter(stakes, (s: ActiveStake) => StakeShown(s, users, plans, "")) <==> !stakes[i].isCompleted)
  {
  }

  // ---------------------------------------------------------------- plans

  /** `plan.days.toString()` contains the term as typed, or the description contains it ignoring case. */
  predicate StakingPlanMatches(p: StakingPlan, term: string) {
    Contains(IntToString(p.days), term) || IncludesCI(p.description, term)
  }

  /** `filteredPlans`: the matching plans in list order; nothing before the data arrives. */
  function FilteredStakingPlans(plans: Option<seq<StakingPlan>>, term: string): (r: Option<seq<StakingPlan>>)
    ensures plans.None? <==> r.None?
    ensures plans.Some? ==> IsSubsequence(r.value, plans.value)
    ensures plans.Some? ==> forall i :: 0 <= i < |r.value| ==> StakingPlanMatches(r.value[i], term)
    ensures plans.Some? ==> forall i :: 0 <= i < |plans.value| && StakingPlanMatches(plans.value[i], term) ==>
      plans.value[i] in r.value
    ensures plans.Some? ==> |r.value| == CountWhere(plans.value, (p: StakingPlan) => StakingPlanMatches(p, term))
    ensures plans.Some? && term == "" ==> r == plans
  {
    match plans
    case None => None
    case Some(ps) =>
      var keep := (p: StakingPlan) => StakingPlanMatches(p, term);
      FilterIsSubsequence(ps, keep);
      FilterLength(ps, keep);
      if term == "" then
        assert forall i :: 0 <= i < |ps| ==> keep(ps[i]) by {
          forall i | 0 <= i < |ps| ensures keep(ps[i]) { IncludesEmpty(ps[i].description); }
        }
        FilterKeepsAll(ps, keep);
        Some(Filter(ps, keep))
      else
        Some(Filter(ps, keep))
  }

  /** The edit form, a `Partial<StakingPlan>`: a field is `Some` when its key is present. */
  datatype StakingForm = StakingForm(
    id: Option<string>,
    days: Option<int>,
    description: Option<string>,
    rewardPercentage: Option<real>,
    minStake: Option<real>,
    badge: Option<Option<string>>,
    isActive: Option<bool>,
    createdAt: Option<int>,
    updatedAt: Option<int>)

  /** `{}`. */
  function EmptyStakingForm(): StakingForm {
    StakingForm(None, None, None, None, None, None, None, None, None)
  }

  /** The form `handleEdit` fills: every field of the plan. */
  function StakingFormOf(p: StakingPlan): StakingForm {
    StakingForm(Some(p.id), Some(p.days), Some(p.description), Some(p.rewardPercentage), Some(p.minStake),
                Some(p.badge), Some(p.isActive), Some(p.createdAt), Some(p.updatedAt))
  }

  /** The blank form `handleCreate` opens. */
  function NewStakingForm(): StakingForm {
    StakingForm(Some(""), Some(0), Some(""), Some(0.0), Some(0.0), Some(None), Some(true), None, None)
  }

  /**
   * `handleSave`'s check: a non-zero number of days, a non-empty description,
   * and a reward percentage and minimum stake that are present.
   */
  predicate StakingFormComplete(form: StakingForm) {
    form.days.Some? && form.days.value != 0 && Truthy(form.description)
    && form.rewardPercentage.Some? && form.minStake.Some?
  }

  /** The blank create form is refused until the days and the description are filled in. */
  lemma NewStakingFormNeedsDaysAndDescription(days: int, description: string)
    ensures StakingFormComplete(NewStakingForm().(days := Some(days), description := Some(description)))
      <==> days != 0 && description != ""
  {
  }

  /**
   * The plan the create fallback appends: the form's values, with a falsy id
   * replaced by `newId`, missing days and numbers by 0, a missing description
   * by `''`, `isActive` true unless the form says otherwise, and both
   * timestamps `now`.
   */
  function NewStakingPlan(form: StakingForm, newId: string, now: int): (p: StakingPlan)
    ensures p.id == (if Truthy(form.id) then form.id.value else newId)
    ensures p.days == Or(form.days, 0) && p.description == OrStr(form.description, "")
    ensures p.rewardPercentage == Or(form.rewardPercentage, 0.0) && p.minStake == Or(form.minStake, 0.0)
    ensures p.badge == Or(form.badge, None)
    ensures p.isActive == (form.isActive.None? || form.isActive.value)
    ensures p.createdAt == now && p.updatedAt == now
  {
    StakingPlan(OrStr(form.id, newId), Or(form.days, 0), OrStr(form.description, ""), Or(form.rewardPercentage, 0.0),
                Or(form.minStake, 0.0), Or(form.badge, None), Or(form.isActive, true), now, now)
  }

  /** Creating from a completed blank form gives an active plan with the form's days and description. */
  lemma NewStakingPlanFromBlankForm(days: int, description: string, newId: string, now: int)
    ensures var p := NewStakingPlan(NewStakingForm().(days := Some(days), description := Some(description)), newId, now);
      p.id == newId && p.days == days && p.description == description && p.isActive
      && p.rewardPercentage == 0.0 && p.minStake == 0.0 && p.badge == None
  {
  }

  /** `{ ...p, ...editForm, updatedAt: now }`. */
  function ApplyStakingForm(p: StakingPlan, form: StakingForm, now: int): (r: StakingPlan)
    ensures r.id == Or(form.id, p.id) && r.days == Or(form.days, p.days)
    ensures r.description == Or(form.description, p.description)
    ensures r.rewardPercentage == Or(form.rewardPercentage, p.rewardPercentage)
    ensures r.minStake == Or(form.minStake, p.minStake) && r.badge == Or(form.badge, p.badge)
    ensures r.isActive == Or(form.isActive, p.isActive) && r.createdAt == Or(form.createdAt, p.createdAt)
    ensures r.updatedAt == now
  {
    p.(id := Or(form.id, p.id), days := Or(form.days, p.days), description := Or(form.description, p.description),
       rewardPercentage := Or(form.rewardPercentage, p.rewardPercentage), minStake := Or(form.minStake, p.minStake),
       badge := Or(form.badge, p.badge), isActive := Or(form.isActive, p.isActive),
       createdAt := Or(form.createdAt, p.createdAt), updatedAt := now)
  }

  /** Saving the form the edit view was opened with only moves `updatedAt`. */
  lemma UnchangedStakingFormOnlyTouches(p: StakingPlan, now: int)
    ensures ApplyStakingForm(p, StakingFormOf(p), now) == p.(updatedAt := now)
  {
  }

  /** The update fallback: the form applied to the plans whose id is the selected plan's. */
  function UpdateStakingPlan(plans: seq<StakingPlan>, selectedId: string, form: StakingForm, now: int)
    : (r: seq<StakingPlan>)
    ensures |r| == |plans|
    ensures forall i :: 0 <= i < |plans| && plans[i].id == selectedId ==> r[i] == ApplyStakingForm(plans[i], form, now)
    ensures forall i :: 0 <= i < |plans| && plans[i].id != selectedId ==> r[i] == plans[i]
  {
    ReplaceWhere(plans, (p: StakingPlan) => p.id == selectedId, (p: StakingPlan) => ApplyStakingForm(p, form, now))
  }

  /** The delete fallback: every plan with the id removed, the rest kept in order. */
  function DeleteStakingPlan(plans: seq<StakingPlan>, id: string): (r: seq<StakingPlan>)
    ensures forall i :: 0 <= i < |r| ==> r[i].id != id
    ensures forall i :: 0 <= i < |plans| && plans[i].id != id ==> plans[i] in r
    ensures IsSubsequence(r, plans)
    ensures |r| == CountWhere(plans, (p: StakingPlan) => p.id != id)
  {
    var keep := (p: StakingPlan) => p.id != id;
    FilterIsSubsequence(plans, keep);
    FilterLength(plans, keep);
    Filter(plans, keep)
  }

  // ---------------------------------------------------------------- the page

  /** The page's state: the stored plan list, the form and the selection. */
  class StakingPlansPage {
    var plans: seq<StakingPlan>
    var selectedPlan: Option<StakingPlan>
    var isEditing: bool
    var isCreating: bool
    var editForm: StakingForm

    constructor(stored: seq<StakingPlan>)
      ensures plans == stored && selectedPlan == None && !isEditing && !isCreating && editForm == EmptyStakingForm()
    {
      plans := stored;
      selectedPlan := None;
      isEditing := false;
      isCreating := false;
      editForm := EmptyStakingForm();
    }

    /** `handleEdit`: select the plan and fill the form from it. */
    method HandleEdit(p: StakingPlan)
      modifies this
      ensures selectedPlan == Some(p) && editForm == StakingFormOf(p) && isEditing && !isCreating
      ensures plans == old(plans)
    {
      selectedPlan := Some(p);
      editForm := StakingFormOf(p);
      isEditing := true;
      isCreating := false;
    }

    /** `handleCreate`: clear the selection and open the blank form. */
    method HandleCreate()
      modifies this
      ensures selectedPlan == None && editForm == NewStakingForm() && isCreating && !isEditing
      ensures plans == old(plans)
    {
      selectedPlan := None;
      editForm := NewStakingForm();
      isCreating := true;
      isEditing := false;
    }

    /**
     * `handleSave`: an incomplete form is refused and nothing changes; in create
     * mode the new plan is appended; otherwise, with a plan selected, the plans
     * with its id are updated; the form is cleared after either.
     */
    method HandleSave(newId: string, now: int) returns (refused: bool)
      modifies this
      ensures refused <==> !StakingFormComplete(old(editForm))
      ensures refused || (!old(isCreating) && old(selectedPlan).None?) ==>
        (plans == old(plans) && editForm == old(editForm) && isCreating == old(isCreating)
         && isEditing == old(isEditing) && selectedPlan == old(selectedPlan))
      ensures !refused && old(isCreating) ==>
        (plans == old(plans) + [NewStakingPlan(old(editForm), newId, now)] && !isCreating
         && editForm == EmptyStakingForm() && isEditing == old(isEditing) && selectedPlan == old(selectedPlan))
      ensures !refused && !old(isCreating) && old(selectedPlan).Some? ==>
        (plans == UpdateStakingPlan(old(plans), old(selectedPlan).value.id, old(editForm), now) && !isEditing
         && selectedPlan == None && editForm == EmptyStakingForm() && isCreating == old(isCreating))
    {
      if !(editForm.days.Some? && editForm.days.value != 0 && Truthy(editForm.description)
           && editForm.rewardPercentage.Some? && editForm.minStake.Some?) {
        return true;
      }
      refused := false;
      if isCreating {
        plans := plans + [NewStakingPlan(editForm, newId, now)];
        isCreating := false;
        editForm := EmptyStakingForm();
      } else if selectedPlan.Some? {
        plans := UpdateStakingPlan(plans, selectedPlan.value.id, editForm, now);
        isEditing := false;
        selectedPlan := None;
        editForm := EmptyStakingForm();
      }
    }

    /** `handleDelete`: unless the admin cancels, the plans with that id are removed. */
    method HandleDelete(p: StakingPlan, confirmed: bool)
      modifies this
      ensures !confirmed ==> plans == old(plans) && selectedPlan == old(selectedPlan)
      ensures confirmed ==> plans == DeleteStakingPlan(old(plans), p.id) && selectedPlan == None
      ensures editForm == old(editForm) && isEditing == old(isEditing) && isCreating == old(isCreating)
    {
      if !confirmed {
        return;
      }
      plans := DeleteStakingPlan(plans, p.id);
      selectedPlan := None;
    }
  }
}
