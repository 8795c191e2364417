// Investment plans and their activations (src/pages/InvestmentPlans.tsx): the
// plan list's create, update and delete fallbacks with their form checks, the
// feature-list editing, the plan and activation filters, the per-plan counts,
// and the mock activations built from the user list. The clock is a parameter.
module InvestmentPlans {
  import opened Types
  import opened Text
  import opened Seqs
  import opened Sorting

  /** One day in milliseconds. */
  const DayMs: int := 86400000

  // ---------------------------------------------------------------- activations

  /** The sort key: the lower-cased user name. */
  function NameKey(a: PlanActivation): string {
    LowerStr(a.userName)
  }

  /** `sortActivationsAlphabetically`: a sorted copy; the input list is a value and stays as it was. */
  method SortActivations(activations: seq<PlanActivation>) returns (r: seq<PlanActivation>)
    ensures multiset(r) == multiset(activations)
    ensures SortedBy(r, NameKey)
  {
    r := SortByKey(activations, NameKey);
  }

  /**
   * The activation the mock loop builds for the user at `index`: a user with a
   * truthy `activePlanId` gets the first plan with that id, or nothing when no
   * plan has it; any other user at an index below the number of plans gets
   * `plans[index % |plans|]`; the rest get nothing.
   */
  function ActivationFor(u: User, index: nat, plans: seq<InvestmentPlan>, now: int): (r: Option<PlanActivation>)
    ensures Truthy(u.activePlanId) ==>
      (r.Some? <==> exists k :: 0 <= k < |plans| && plans[k].id == u.activePlanId.value)
    ensures Truthy(u.activePlanId) && r.Some? ==> r.value.planId == u.activePlanId.value
    ensures !Truthy(u.activePlanId) ==> (r.Some? <==> index < |plans|)
    ensures !Truthy(u.activePlanId) && r.Some? ==>
      r.value.planId == plans[index % |plans|].id && r.value.planName == plans[index % |plans|].name
    ensures r.Some? ==>
      (r.value.id == "activation-" + u.id && r.value.userId == u.id
       && r.value.userName == u.fullName && r.value.userEmail == u.email
       && r.value.activatedAt == now - index * DayMs && r.value.isActive)
  {
    var chosen :=
      if Truthy(u.activePlanId) then Find(plans, (p: InvestmentPlan) => p.id == u.activePlanId.value)
      else if index < |plans| then Some(plans[index % |plans|])
      else None;
    match chosen
    case None => None
    case Some(plan) =>
      Some(PlanActivation("activation-" + u.id, u.id, u.fullName, u.email, plan.id, plan.name,
                          now - index * DayMs, true))
  }

  /** What the mock loop has pushed after the first `t` users, in user order. */
  function Collected(users: seq<User>, plans: seq<InvestmentPlan>, now: int, t: nat): (r: seq<PlanActivation>)
    requires t <= |users|
    ensures |r| <= t
  {
    if t == 0 then []
    else
      var prev := Collected(users, plans, now, t - 1);
      match ActivationFor(users[t - 1], t - 1, plans, now)
      case None => prev
      case Some(a) => prev + [a]
  }

  /**
   * The mock fallback: one pass over the users pushing each user's activation,
   * then the alphabetical sort.
   */
  method MockActivations(users: seq<User>, plans: seq<InvestmentPlan>, now: int) returns (r: seq<PlanActivation>)
    ensures multiset(r) == multiset(Collected(users, plans, now, |users|))
    ensures SortedBy(r, NameKey)
  {
    var pushed: seq<PlanActivation> := [];
    var index := 0;
    while index < |users|
      invariant index <= |users|
      invariant pushed == Collected(users, plans, now, index)
    {
      var a := ActivationFor(users[index], index, plans, now);
      if a.Some? {
        pushed := pushed + [a.value];
      }
      index := index + 1;
    }
    r := SortActivations(pushed);
  }

  /** The ids of the first `t` users. */
  function IdsUpTo(users: seq<User>, t: nat): set<string>
    requires t <= |users|
  {
    set j | 0 <= j < t :: users[j].id
  }

  /** Every pushed activation belongs to one of the users already visited. */
  lemma {:induction false} CollectedFromVisited(users: seq<User>, plans: seq<InvestmentPlan>, now: int, t: nat)
    requires t <= |users|
    ensures forall m :: 0 <= m < |Collected(users, plans, now, t)| ==>
      Collected(users, plans, now, t)[m].userId in IdsUpTo(users, t)
  {
    if t > 0 {
      CollectedFromVisited(users, plans, now, t - 1);
      assert IdsUpTo(users, t - 1) <= IdsUpTo(users, t);
      assert users[t - 1].id in IdsUpTo(users, t);
    }
  }

  predicate UniqueUserIds(users: seq<User>) {
    forall i, j :: 0 <= i < j < |users| ==> users[i].id != users[j].id
  }

  /** No two activations in the list belong to the same user. */
  predicate OnePerUser(c: seq<PlanActivation>) {
    forall a, b :: 0 <= a < b < |c| ==> c[a].userId != c[b].userId
  }

  /** With unique user ids no user gets more than one activation. */
  lemma {:induction false} OneActivationPerUser(users: seq<User>, plans: seq<InvestmentPlan>, now: int, t: nat)
    requires t <= |users| && UniqueUserIds(users)
    ensures OnePerUser(Collected(users, plans, now, t))
  {
    if t > 0 {
      var prev := Collected(users, plans, now, t - 1);
      OneActivationPerUser(users, plans, now, t - 1);
      var act := ActivationFor(users[t - 1], t - 1, plans, now);
      if act.Some? {
        var c := prev + [act.value];
        assert Collected(users, plans, now, t) == c;
        CollectedFromVisited(users, plans, now, t - 1);
        NotYetVisited(users, t - 1);
        forall a, b | 0 <= a < b < |c| ensures c[a].userId != c[b].userId {
          if b == |prev| {
            assert c[a] == prev[a] && c[b] == act.value;
            assert prev[a].userId in IdsUpTo(users, t - 1);
          } else {
            assert c[a] == prev[a] && c[b] == prev[b];
          }
        }
      }
    }
  }

  lemma NotYetVisited(users: seq<User>, t: nat)
    requires t < |users| && UniqueUserIds(users)
    ensures users[t].id !in IdsUpTo(users, t)
  {
  }

  /** Every user whose activation exists has it in the pushed list. */
  lemma {:induction false} ActivationListed(users: seq<User>, plans: seq<InvestmentPlan>, now: int, j: nat, t: nat)
    requires j < t <= |users|
    requires ActivationFor(users[j], j, plans, now).Some?
    ensures ActivationFor(users[j], j, plans, now).value in Collected(users, plans, now, t)
  {
    if j < t - 1 {
      ActivationListed(users, plans, now, j, t - 1);
    }
  }

  /** `getPlanActivations(p)` keeps the active activations of plan `p`. */
  predicate ActiveOn(a: PlanActivation, planId: string) {
    a.planId == planId && a.isActive
  }

  /** `getActivationCount`: the number of active activations of the plan; zero before the data arrives. */
  function ActivationCount(activations: Option<seq<PlanActivation>>, planId: string): (n: nat)
    ensures activations.None? ==> n == 0
    ensures activations.Some? ==> n == CountWhere(activations.value, (a: PlanActivation) => ActiveOn(a, planId))
  {
    if activations.None? then 0
    else
      var onPlan := (a: PlanActivation) => ActiveOn(a, planId);
      FilterLength(activations.value, onPlan);
      |Filter(activations.value, onPlan)|
  }

  /** The count is zero exactly when no activation of the plan is active. */
  lemma ActivationCountZero(activations: seq<PlanActivation>, planId: string)
    ensures ActivationCount(Some(activations), planId) == 0 <==>
      forall i :: 0 <= i < |activations| ==> !(activations[i].planId == planId && activations[i].isActive)
  {
  }

  /**
   * The activation table's test: an active activation, and with a non-empty term
   * one whose user name, user email, owner's username, plan name or plan
   * description (owner and plan looked up with `find`) contains the term.
   */
  predicate ActivationShown(a: PlanActivation, users: Option<seq<User>>, plans: Option<seq<InvestmentPlan>>,
                            term: string)
  {
    if term == "" then a.isActive
    else
      var user := if users.None? then None else Find(users.value, (u: User) => u.id == a.userId);
      var plan := if plans.None? then None else Find(plans.value, (p: InvestmentPlan) => p.id == a.planId);
      a.isActive
      && (IncludesCI(a.userName, term) || IncludesCI(a.userEmail, term)
          || (user.Some? && IncludesCI(user.value.username, term))
          || IncludesCI(a.planName, term)
          || (plan.Some? && IncludesCI(plan.value.description, term)))
  }

  /** `filteredActivations`: the shown activations, sorted by lower-cased user name. */
  method FilteredActivations(activations: Option<seq<PlanActivation>>, users: Option<seq<User>>,
                             plans: Option<seq<InvestmentPlan>>, term: string)
    returns (r: Option<seq<PlanActivation>>)
    ensures activations.None? <==> r.None?
    ensures r.Some? ==>
      multiset(r.value) == multiset(Filter(activations.value, (a: PlanActivation) => ActivationShown(a, users, plans, term)))
    ensures r.Some? ==> SortedBy(r.value, NameKey)
    ensures r.Some? ==> forall i :: 0 <= i < |r.value| ==> r.value[i].isActive
  {
    if activations.None? {
      return None;
    }
    var shown := Filter(activations.value, (a: PlanActivation) => ActivationShown(a, users, plans, term));
    var sorted := SortByKey(shown, NameKey);
    forall i | 0 <= i < |sorted| ensures sorted[i].isActive {
      assert sorted[i] in multiset(shown);
    }
    r := Some(sorted);
  }

  /** With an empty term the table keeps every active activation and nothing else. */
  lemma EmptyTermShowsActive(activations: seq<PlanActivation>, users: Option<seq<User>>,
                             plans: Option<seq<InvestmentPlan>>)
    ensures forall i :: 0 <= i < |activations| ==>
      (activations[i] in Filter(activations, (a: PlanActivation) => ActivationShown(a, users, plans, ""))
       <==> activations[i].isActive)
  {
  }

  // ---------------------------------------------------------------- plans

  /** `plan.name` or `plan.description` contains the term, ignoring case. */
  predicate PlanMatches(p: InvestmentPlan, term: string) {
    IncludesCI(p.name, term) || IncludesCI(p.description, term)
  }

  /** `filteredPlans`: the matching plans in list order; nothing before the data arrives. */
  function FilteredPlans(plans: Option<seq<InvestmentPlan>>, term: string): (r: Option<seq<InvestmentPlan>>)
    ensures plans.None? <==> r.None?
    ensures plans.Some? ==> IsSubsequence(r.value, plans.value)
    ensures plans.Some? ==> forall i :: 0 <= i < |r.value| ==> PlanMatches(r.value[i], term)
    ensures plans.Some? ==> forall i :: 0 <= i < |plans.value| && PlanMatches(plans.value[i], term) ==>
      plans.value[i] in r.value
    ensures plans.Some? ==> |r.value| == CountWhere(plans.value, (p: InvestmentPlan) => PlanMatches(p, term))
    ensures plans.Some? && term == "" ==> r == plans
  {
    match plans
    case None => None
    case Some(ps) =>
      var keep := (p: InvestmentPlan) => PlanMatches(p, term);
      FilterIsSubsequence(ps, keep);
      FilterLength(ps, keep);
      if term == "" then
        assert forall i :: 0 <= i < |ps| ==> keep(ps[i]) by {
          forall i | 0 <= i < |ps| ensures keep(ps[i]) { IncludesEmpty(ps[i].name); }
        }
        FilterKeepsAll(ps, keep);
        Some(Filter(ps, keep))
      else
        Some(Filter(ps, keep))
  }

  /** The edit form, a `Partial<InvestmentPlan>`: a field is `Some` when its key is present. */
  datatype PlanForm = PlanForm(
    id: Option<string>,
    name: Option<string>,
    description: Option<string>,
    price: Option<real>,
    priceCurrency: Option<string>,
    miningTimeHours: Option<real>,
    eggsPerDay: Option<real>,
    features: Option<seq<string>>,
    badge: Option<Option<string>>,
    isActive: Option<bool>,
    createdAt: Option<int>,
    updatedAt: Option<int>)

  /** `{}`. */
  function EmptyPlanForm(): PlanForm {
    PlanForm(None, None, None, None, None, None, None, None, None, None, None, None)
  }

  /** The form `handleEdit` fills: every field of the plan, the feature list copied. */
  function PlanFormOf(p: InvestmentPlan): PlanForm {
    PlanForm(Some(p.id), Some(p.name), Some(p.description), Some(p.price), Some(p.priceCurrency),
             Some(p.miningTimeHours), Some(p.eggsPerDay), Some(p.features), Some(p.badge), Some(p.isActive),
             Some(p.createdAt), Some(p.updatedAt))
  }

  /** The blank form `handleCreate` opens. */
  function NewPlanForm(): PlanForm {
    PlanForm(Some(""), Some(""), Some(""), Some(0.0), Some("$"), Some(0.0), Some(0.0), Some([]), Some(None),
             Some(true), None, None)
  }

  /**
   * `handleSave`'s check: a non-empty name, a non-empty description and a
   * price that is present.
   */
  predicate PlanFormComplete(form: PlanForm) {
    Truthy(form.name) && Truthy(form.description) && form.price.Some?
  }

  /** The blank create form passes the check exactly when name and description have been filled in. */
  lemma NewPlanFormNeedsNameAndDescription(name: string, description: string)
    ensures PlanFormComplete(NewPlanForm().(name := Some(name), description := Some(description)))
      <==> name != "" && description != ""
  {
  }

  /**
   * The plan the create fallback appends: the form's values, with a falsy id
   * replaced by `newId`, missing text and numbers by `''`, `'$'` and 0, a
   * missing feature list by `[]`, `isActive` true unless the form says otherwise,
   * and both timestamps `now`.
   */
  function NewPlan(form: PlanForm, newId: string, now: int): (p: InvestmentPlan)
    ensures p.id == (if Truthy(form.id) then form.id.value else newId)
    ensures p.name == OrStr(form.name, "") && p.description == OrStr(form.description, "")
    ensures p.priceCurrency == (if Truthy(form.priceCurrency) then form.priceCurrency.value else "$")
    ensures form.price.None? ==> p.price == 0.0
    ensures form.price.Some? ==> p.price == form.price.value
    ensures p.miningTimeHours == Or(form.miningTimeHours, 0.0) && p.eggsPerDay == Or(form.eggsPerDay, 0.0)
    ensures p.features == Or(form.features, []) && p.badge == Or(form.badge, None)
    ensures p.isActive == (form.isActive.None? || form.isActive.value)
    ensures p.createdAt == now && p.updatedAt == now
  {
    InvestmentPlan(
      OrStr(form.id, newId), OrStr(form.name, ""), OrStr(form.description, ""), Or(form.price, 0.0),
      OrStr(form.priceCurrency, "$"), Or(form.miningTimeHours, 0.0), Or(form.eggsPerDay, 0.0),
      Or(form.features, []), Or(form.badge, None), Or(form.isActive, true), now, now)
  }

  /** Creating from the blank form gives an active, free, feature-less plan named by the form. */
  lemma NewPlanFromBlankForm(name: string, description: string, newId: string, now: int)
    ensures var p := NewPlan(NewPlanForm().(name := Some(name), description := Some(description)), newId, now);
      p.id == newId && p.name == name && p.description == description && p.isActive
      && p.price == 0.0 && p.priceCurrency == "$" && p.features == []
  {
  }

  /** `{ ...p, ...editForm, updatedAt: now }`. */
  function ApplyPlanForm(p: InvestmentPlan, form: PlanForm, now: int): (r: InvestmentPlan)
    ensures r.id == Or(form.id, p.id) && r.name == Or(form.name, p.name)
    ensures r.description == Or(form.description, p.description) && r.price == Or(form.price, p.price)
    ensures r.priceCurrency == Or(form.priceCurrency, p.priceCurrency)
    ensures r.miningTimeHours == Or(form.miningTimeHours, p.miningTimeHours)
    ensures r.eggsPerDay == Or(form.eggsPerDay, p.eggsPerDay) && r.features == Or(form.features, p.features)
    ensures r.badge == Or(form.badge, p.badge) && r.isActive == Or(form.isActive, p.isActive)
    ensures r.createdAt == Or(form.createdAt, p.createdAt) && r.updatedAt == now
  {
    p.(id := Or(form.id, p.id), name := Or(form.name, p.name), description := Or(form.description, p.description),
       price := Or(form.price, p.price), priceCurrency := Or(form.priceCurrency, p.priceCurrency),
       miningTimeHours := Or(form.miningTimeHours, p.miningTimeHours), eggsPerDay := Or(form.eggsPerDay, p.eggsPerDay),
       features := Or(form.features, p.features), badge := Or(form.badge, p.badge),
       isActive := Or(form.isActive, p.isActive), createdAt := Or(form.createdAt, p.createdAt), updatedAt := now)
  }

  /** Saving the form the edit view was opened with only moves `updatedAt`. */
  lemma UnchangedFormOnlyTouches(p: InvestmentPlan, now: int)
    ensures ApplyPlanForm(p, PlanFormOf(p), now) == p.(updatedAt := now)
  {
  }

  /** The update fallback: the form applied to the plans whose id is the selected plan's. */
  function UpdatePlan(plans: seq<InvestmentPlan>, selectedId: string, form: PlanForm, now: int)
    : (r: seq<InvestmentPlan>)
    ensures |r| == |plans|
    ensures forall i :: 0 <= i < |plans| && plans[i].id == selectedId ==> r[i] == ApplyPlanForm(plans[i], form, now)
    ensures forall i :: 0 <= i < |plans| && plans[i].id != selectedId ==> r[i] == plans[i]
  {
    ReplaceWhere(plans, (p: InvestmentPlan) => p.id == selectedId, (p: InvestmentPlan) => ApplyPlanForm(p, form, now))
  }

  /** The delete fallback: every plan with the id removed, the rest kept in order. */
  function DeletePlan(plans: seq<InvestmentPlan>, id: string): (r: seq<InvestmentPlan>)
    ensures forall i :: 0 <= i < |r| ==> r[i].id != id
    ensures forall i :: 0 <= i < |plans| && plans[i].id != id ==> plans[i] in r
    ensures IsSubsequence(r, plans)
    ensures |r| == CountWhere(plans, (p: InvestmentPlan) => p.id != id)
  {
    var keep := (p: InvestmentPlan) => p.id != id;
    FilterIsSubsequence(plans, keep);
    FilterLength(plans, keep);
    Filter(plans, keep)
  }

  // ---------------------------------------------------------------- features

  /**
   * `handleAddFeature`: a non-blank entry is trimmed and appended to the form's
   * feature list (an absent list counts as empty); a blank one changes nothing.
   */
  function AddFeature(features: Option<seq<string>>, entry: string): (r: Option<seq<string>>)
    ensures IsBlank(entry) ==> r == features
    ensures !IsBlank(entry) ==> r == Some(Or(features, []) + [Trim(entry)])
  {
    TrimEmptyIffBlank(entry);
    if Trim(entry) != "" then Some(Or(features, []) + [Trim(entry)]) else features
  }

  /** What an added feature looks like: never empty, and no space at either end. */
  lemma AddedFeatureTrimmed(features: Option<seq<string>>, entry: string)
    requires !IsBlank(entry)
    ensures var r := AddFeature(features, entry).value;
      r[..|r| - 1] == Or(features, []) && r[|r| - 1] != "" && !IsSpace(r[|r| - 1][0])
      && !IsSpace(r[|r| - 1][|r[|r| - 1]| - 1])
  {
    TrimEmptyIffBlank(entry);
    TrimEnds(entry);
  }

  lemma TrimEnds(s: string)
    requires Trim(s) != ""
    ensures !IsSpace(Trim(s)[0]) && !IsSpace(Trim(s)[|Trim(s)| - 1])
  {
  }

  /** Where `splice(index, 1)` starts: a negative index counts from the end. */
  function SpliceStart(len: nat, index: int): (k: nat)
    ensures k <= len
  {
    if index < 0 then (if len + index < 0 then 0 else len + index)
    else if index > len then len
    else index
  }

  /** The list `splice(index, 1)` leaves: the entry at the start position removed, if there is one. */
  function Spliced(features: seq<string>, index: int): (r: seq<string>)
    ensures 0 <= index < |features| ==> r == features[..index] + features[index + 1..]
    ensures -|features| <= index < 0 ==> r == features[..|features| + index] + features[|features| + index + 1..]
    ensures index >= |features| ==> r == features
    ensures index < -|features| && features != [] ==> r == features[1..]
  {
    var k := SpliceStart(|features|, index);
    if k < |features| then features[..k] + features[k + 1..] else features
  }

  /**
   * `handleRemoveFeature`: copy the list and `splice(index, 1)` the copy in
   * place, shifting the later entries one place left.
   */
  method RemoveFeature(features: seq<string>, index: int) returns (r: seq<string>)
    ensures r == Spliced(features, index)
  {
    var k := SpliceStart(|features|, index);
    if k >= |features| {
      return features;
    }
    var a := new string[|features|](i requires 0 <= i < |features| => features[i]);
    var j := k;
    while j < a.Length - 1
      invariant k <= j <= a.Length - 1
      invariant forall q :: 0 <= q < k ==> a[q] == features[q]
      invariant forall q :: k <= q < j ==> a[q] == features[q + 1]
      invariant forall q :: j <= q < a.Length ==> a[q] == features[q]
    {
      a[j] := a[j + 1];
      j := j + 1;
    }
    r := a[..a.Length - 1];
    assert forall q :: 0 <= q < |r| ==> r[q] == (features[..k] + features[k + 1..])[q];
  }

  // ---------------------------------------------------------------- the page

  /** The page's state: the stored plan list, the form and the selection. */
  class InvestmentPlansPage {
    var plans: seq<InvestmentPlan>
    var selectedPlan: Option<InvestmentPlan>
    var isEditing: bool
    var isCreating: bool
    var editForm: PlanForm
    var newFeature: string

    constructor(stored: seq<InvestmentPlan>)
      ensures plans == stored && selectedPlan == None && !isEditing && !isCreating
      ensures editForm == EmptyPlanForm() && newFeature == ""
    {
      plans := stored;
      selectedPlan := None;
      isEditing := false;
      isCreating := false;
      editForm := EmptyPlanForm();
      newFeature := "";
    }

    /** `handleEdit`: select the plan and fill the form from it. */
    method HandleEdit(p: InvestmentPlan)
      modifies this
      ensures selectedPlan == Some(p) && editForm == PlanFormOf(p) && isEditing && !isCreating
      ensures plans == old(plans) && newFeature == old(newFeature)
    {
      selectedPlan := Some(p);
      editForm := PlanFormOf(p);
      isEditing := true;
      isCreating := false;
    }

    /** `handleCreate`: clear the selection and open the blank form. */
    method HandleCreate()
      modifies this
      ensures selectedPlan == None && editForm == NewPlanForm() && isCreating && !isEditing
      ensures plans == old(plans) && newFeature == old(newFeature)
    {
      selectedPlan := None;
      editForm := NewPlanForm();
      isCreating := true;
      isEditing := false;
    }

    /**
     * `handleSave`: an incomplete form is refused and nothing changes; in create
     * mode the new plan is appended; otherwise, with a plan selected, the plans
     * with its id are updated; the form is cleared after either.
     */
    method HandleSave(newId: string, now: int) returns (refused: bool)
      modifies this
      ensures refused <==> !PlanFormComplete(old(editForm))
      ensures refused || (!old(isCreating) && old(selectedPlan).None?) ==>
        (plans == old(plans) && editForm == old(editForm) && isCreating == old(isCreating)
         && isEditing == old(isEditing) && selectedPlan == old(selectedPlan))
      ensures !refused && old(isCreating) ==>
        (plans == old(plans) + [NewPlan(old(editForm), newId, now)] && !isCreating
         && editForm == EmptyPlanForm() && isEditing == old(isEditing) && selectedPlan == old(selectedPlan))
      ensures !refused && !old(isCreating) && old(selectedPlan).Some? ==>
        (plans == UpdatePlan(old(plans), old(selectedPlan).value.id, old(editForm), now) && !isEditing
         && selectedPlan == None && editForm == EmptyPlanForm() && isCreating == old(isCreating))
      ensures newFeature == old(newFeature)
    {
      if !(Truthy(editForm.name) && Truthy(editForm.description) && editForm.price.Some?) {
        return true;
      }
      refused := false;
      if isCreating {
        plans := plans + [NewPlan(editForm, newId, now)];
        isCreating := false;
        editForm := EmptyPlanForm();
      } else if selectedPlan.Some? {
        plans := UpdatePlan(plans, selectedPlan.value.id, editForm, now);
        isEditing := false;
        selectedPlan := None;
        editForm := EmptyPlanForm();
      }
    }

    /** `handleDelete`: unless the admin cancels, the plans with that id are removed. */
    method HandleDelete(p: InvestmentPlan, confirmed: bool)
      modifies this
      ensures !confirmed ==> plans == old(plans) && selectedPlan == old(selectedPlan)
      ensures confirmed ==> plans == DeletePlan(old(plans), p.id) && selectedPlan == None
      ensures editForm == old(editForm) && isEditing == old(isEditing) && isCreating == old(isCreating)
      ensures newFeature == old(newFeature)
    {
      if !confirmed {
        return;
      }
      plans := DeletePlan(plans, p.id);
      selectedPlan := None;
    }

    /** `handleAddFeature`: append the trimmed entry and clear it, or do nothing when it is blank. */
    method HandleAddFeature()
      modifies this
      ensures editForm == old(editForm).(features := AddFeature(old(editForm).features, old(newFeature)))
      ensures newFeature == if IsBlank(old(newFeature)) then old(newFeature) else ""
      ensures plans == old(plans) && selectedPlan == old(selectedPlan)
      ensures isEditing == old(isEditing) && isCreating == old(isCreating)
    {
      TrimEmptyIffBlank(newFeature);
      if Trim(newFeature) != "" {
        editForm := editForm.(features := AddFeature(editForm.features, newFeature));
        newFeature := "";
      }
    }

    /** `handleRemoveFeature`: the spliced copy replaces the form's list (an absent list counts as empty). */
    method HandleRemoveFeature(index: int)
      modifies this
      ensures editForm == old(editForm).(features := Some(Spliced(Or(old(editForm).features, []), index)))
      ensures plans == old(plans) && selectedPlan == old(selectedPlan) && newFeature == old(newFeature)
      ensures isEditing == old(isEditing) && isCreating == old(isCreating)
    {
      var remaining := RemoveFeature(Or(editForm.features, []), index);
      editForm := editForm.(features := Some(remaining));
    }
  }
}
