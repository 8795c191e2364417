// The user management page (src/pages/Users.tsx): the create-user checks and
// the list updates behind create, edit, password change, status change and
// delete, plus the search filter. The stored user list is page state; the
// server call each handler tries first always falls through to the local
// update modelled here.
module Users {
  import opened Types
  import opened Text
  import opened Seqs

  // ---------------------------------------------------------------- create

  /** The create-user form. */
  datatype CreateForm = CreateForm(
    fullName: string,
    email: string,
    phone: string,
    username: string,
    password: string,
    referrerCode: string,
    eggBalance: real,
    walletBalance: real)

  function EmptyCreateForm(): CreateForm {
    CreateForm("", "", "", "", "", "", 0.0, 0.0)
  }

  /** Why a create was refused; each comes with its own error message. */
  datatype CreateError = MissingFields | PasswordTooShort | LoginTaken | InvalidReferralCode

  /** The referrer a valid code names: its id and its referral code. */
  datatype Referrer = Referrer(id: string, code: string)

  /** Some user already has this username or this email. */
  predicate LoginInUse(users: seq<User>, username: string, email: string) {
    exists i :: 0 <= i < |users| && (users[i].username == username || users[i].email == email)
  }

  /** `users.find((u) => u.referralCode === code)`: the first user with that referral code. */
  function FindByReferralCode(users: seq<User>, code: string): (r: Option<nat>)
    ensures r.Some? ==> r.value < |users| && users[r.value].referralCode == code
    ensures r.Some? ==> forall j :: 0 <= j < r.value ==> users[j].referralCode != code
    ensures r.None? ==> forall j :: 0 <= j < |users| ==> users[j].referralCode != code
  {
    if users == [] then None
    else if users[0].referralCode == code then Some(0)
    else match FindByReferralCode(users[1..], code)
      case None => None
      case Some(j) => Some(j + 1)
  }

  /** Full name, email, username and password are all non-empty. */
  predicate HasRequiredFields(form: CreateForm) {
    form.fullName != "" && form.email != "" && form.username != "" && form.password != ""
  }

  /** Some user carries the referral code the form names, after upper-casing. */
  predicate CodeKnown(users: seq<User>, form: CreateForm) {
    exists i :: 0 <= i < |users| && users[i].referralCode == UpperStr(form.referrerCode)
  }

  /**
   * The checks `handleCreateUser` makes before building the user, in order:
   * required fields, password length, username/email clash, referral code.
   * Each error holds exactly when the earlier checks pass and its own fails;
   * on success it yields the referrer the code names, if a code was given.
   */
  function ValidateCreate(users: seq<User>, form: CreateForm): (r: Result<Option<Referrer>, CreateError>)
    ensures r == Err(MissingFields) <==> !HasRequiredFields(form)
    ensures r == Err(PasswordTooShort) <==> HasRequiredFields(form) && |form.password| < 6
    ensures r == Err(LoginTaken) <==>
      HasRequiredFields(form) && |form.password| >= 6 && LoginInUse(users, form.username, form.email)
    ensures r == Err(InvalidReferralCode) <==>
      HasRequiredFields(form) && |form.password| >= 6 && !LoginInUse(users, form.username, form.email)
      && form.referrerCode != "" && !CodeKnown(users, form)
    ensures r.Ok? && form.referrerCode == "" ==> r.value == None
    ensures r.Ok? && form.referrerCode != "" ==>
      exists i :: 0 <= i < |users| && users[i].referralCode == UpperStr(form.referrerCode)
        && r.value == Some(Referrer(users[i].id, users[i].referralCode))
  {
    if !HasRequiredFields(form) then
      Err(MissingFields)
    else if |form.password| < 6 then
      Err(PasswordTooShort)
    else if LoginInUse(users, form.username, form.email) then
      Err(LoginTaken)
    else if form.referrerCode != "" then
      match FindByReferralCode(users, UpperStr(form.referrerCode))
      case None => Err(InvalidReferralCode)
      case Some(i) => Ok(Some(Referrer(users[i].id, users[i].referralCode)))
    else
      Ok(None)
  }

  /** The user `handleCreateUser` builds; `newId`, `now` and `suffix` stand for the clock and the random draw. */
  function NewUser(form: CreateForm, referrer: Option<Referrer>, newId: string, now: int, suffix: nat): (u: User)
    requires suffix < 1000
    ensures u.id == newId && u.fullName == form.fullName && u.email == form.email
      && u.username == form.username && u.password == Some(form.password)
    ensures u.phone == if form.phone == "" then None else Some(form.phone)
    ensures u.totalReferrals == 0 && u.eggsFromReferrals == 0
    ensures u.kycStatus == NotSubmitted && u.accountStatus == Active
    ensures referrer.None? ==> u.referrerId == None && u.referrerCode == None
    ensures referrer.Some? ==> u.referrerId == Some(referrer.value.id) && u.referrerCode == Some(referrer.value.code)
    ensures var prefix := UpperStr(form.username)[..if |form.username| < 6 then |form.username| else 6];
      u.referralCode == prefix + NatToString(suffix)
  {
    var upper := UpperStr(form.username);
    User(
      newId, form.email, if form.phone == "" then None else Some(form.phone), form.username, form.fullName,
      Some(form.password), form.eggBalance, form.walletBalance,
      upper[..if |upper| < 6 then |upper| else 6] + NatToString(suffix),
      if referrer.Some? then Some(referrer.value.id) else None,
      if referrer.Some? then Some(referrer.value.code) else None,
      0, 0, None, NotSubmitted, Active, now)
  }

  /** `u.id === referrerId ? { ...u, totalReferrals: u.totalReferrals + 1 } : u` over the whole list. */
  function CreditReferrer(users: seq<User>, referrerId: string): (r: seq<User>)
    ensures |r| == |users|
    ensures forall i :: 0 <= i < |users| && users[i].id == referrerId ==>
      r[i] == users[i].(totalReferrals := users[i].totalReferrals + 1)
    ensures forall i :: 0 <= i < |users| && users[i].id != referrerId ==> r[i] == users[i]
  {
    ReplaceWhere(users, (u: User) => u.id == referrerId, (u: User) => u.(totalReferrals := u.totalReferrals + 1))
  }

  /**
   * The list after `handleCreateUser`: the checks, then the new user appended
   * and, when the referrer's id is truthy, every user with that id credited
   * with one more referral.
   */
  function CreateUser(users: seq<User>, form: CreateForm, newId: string, now: int, suffix: nat)
    : (r: Result<seq<User>, CreateError>)
    requires suffix < 1000
    ensures ValidateCreate(users, form).Err? ==> r == Err(ValidateCreate(users, form).error)
    ensures ValidateCreate(users, form).Ok? ==> r.Ok? && |r.value| == |users| + 1
  {
    match ValidateCreate(users, form)
    case Err(e) => Err(e)
    case Ok(referrer) =>
      var updated := users + [NewUser(form, referrer, newId, now, suffix)];
      if referrer.Some? && referrer.value.id != "" then Ok(CreditReferrer(updated, referrer.value.id))
      else Ok(updated)
  }

  /**
   * A successful create appends exactly one user, built from the form; the
   * earlier users stay in place, and the only change among them is one more
   * referral for the users carrying the referrer's id.
   */
  lemma CreateAppendsOne(users: seq<User>, form: CreateForm, newId: string, now: int, suffix: nat)
    requires suffix < 1000
    requires CreateUser(users, form, newId, now, suffix).Ok?
    ensures var r := CreateUser(users, form, newId, now, suffix).value;
      var referrer := ValidateCreate(users, form).value;
      var credited := referrer.Some? && referrer.value.id != "";
      |r| == |users| + 1
      && (forall i :: 0 <= i < |users| && credited && users[i].id == referrer.value.id ==>
            r[i] == users[i].(totalReferrals := users[i].totalReferrals + 1))
      && (forall i :: 0 <= i < |users| && !(credited && users[i].id == referrer.value.id) ==> r[i] == users[i])
      && (!(credited && newId == referrer.value.id) ==> r[|users|] == NewUser(form, referrer, newId, now, suffix))
  {
  }

  /** No two users share a username, and no two share an email. */
  predicate UniqueLogins(users: seq<User>) {
    forall i, j :: 0 <= i < j < |users| ==> users[i].username != users[j].username && users[i].email != users[j].email
  }

  /** Create keeps usernames and emails unique. */
  lemma CreateKeepsLoginsUnique(users: seq<User>, form: CreateForm, newId: string, now: int, suffix: nat)
    requires suffix < 1000 && UniqueLogins(users)
    requires CreateUser(users, form, newId, now, suffix).Ok?
    ensures UniqueLogins(CreateUser(users, form, newId, now, suffix).value)
  {
    var r := CreateUser(users, form, newId, now, suffix).value;
    CreateAppendsOne(users, form, newId, now, suffix);
    forall i, j | 0 <= i < j < |r| ensures r[i].username != r[j].username && r[i].email != r[j].email {
      if j == |users| {
        assert r[j].username == form.username && r[j].email == form.email;
        assert !(users[i].username == form.username || users[i].email == form.email);
      }
    }
  }

  /** Submitting the same form again after a successful create is refused: the username is now taken. */
  lemma CreateTwiceRefused(users: seq<User>, form: CreateForm, newId: string, now: int, suffix: nat,
                           newId2: string, now2: int, suffix2: nat)
    requires suffix < 1000 && suffix2 < 1000
    requires CreateUser(users, form, newId, now, suffix).Ok?
    ensures CreateUser(CreateUser(users, form, newId, now, suffix).value, form, newId2, now2, suffix2)
      == Err(LoginTaken)
  {
    var r := CreateUser(users, form, newId, now, suffix).value;
    CreateAppendsOne(users, form, newId, now, suffix);
    assert r[|users|].username == form.username;
  }

  /**
   * With unique ids and a fresh id for the new user `nu`, the credit step of
   * a create with referrer `k` raises the sum of all referral counts by
   * exactly one over the old list plus the new user.
   */
  lemma ReferrerCreditedOnce(users: seq<User>, nu: User, k: nat)
    requires k < |users| && forall i, j :: 0 <= i < j < |users| ==> users[i].id != users[j].id
    requires nu.id != users[k].id
    ensures TotalCount(CreditReferrer(users + [nu], users[k].id)) == TotalCount(users) + nu.totalReferrals + 1
  {
    var credited := CreditReferrer(users, users[k].id);
    assert CreditReferrer(users + [nu], users[k].id) == credited + [nu];
    CreditOneOf(users, k);
    TotalCountUpdate(users, k, users[k].totalReferrals + 1);
    TotalCountAppend(credited, nu);
  }

  /** With unique ids, crediting user `k`'s id changes user `k` and nobody else. */
  lemma CreditOneOf(users: seq<User>, k: nat)
    requires k < |users| && forall i, j :: 0 <= i < j < |users| ==> users[i].id != users[j].id
    ensures CreditReferrer(users, users[k].id) == users[k := users[k].(totalReferrals := users[k].totalReferrals + 1)]
  {
  }

  /** The sum of the stored `totalReferrals` fields. */
  function TotalCount(users: seq<User>): int {
    if users == [] then 0 else TotalCount(users[..|users| - 1]) + users[|users| - 1].totalReferrals
  }

  lemma TotalCountAppend(users: seq<User>, u: User)
    ensures TotalCount(users + [u]) == TotalCount(users) + u.totalReferrals
  {
    assert (users + [u])[..|users|] == users;
  }

  lemma {:induction false} TotalCountUpdate(users: seq<User>, k: nat, n: int)
    requires k < |users|
    ensures TotalCount(users[k := users[k].(totalReferrals := n)]) == TotalCount(users) - users[k].totalReferrals + n
  {
    var last := |users| - 1;
    if k < last {
      TotalCountUpdate(users[..last], k, n);
      assert users[k := users[k].(totalReferrals := n)][..last] == users[..last][k := users[k].(totalReferrals := n)];
    } else {
      assert users[k := users[k].(totalReferrals := n)][..last] == users[..last];
    }
  }

  // ---------------------------------------------------------------- edit, password, status, delete

  /** The edit form, a `Partial<User>`: a field is `Some` when its key is present. */
  datatype UserPatch = UserPatch(
    fullName: Option<string>,
    email: Option<string>,
    phone: Option<Option<string>>,
    username: Option<string>,
    eggBalance: Option<real>,
    walletBalance: Option<real>)

  /** `{}`, the form `handleViewUser` leaves. */
  function NoPatch(): UserPatch {
    UserPatch(None, None, None, None, None, None)
  }

  /** The form `handleEditUser` fills from the user's current values. */
  function PatchOf(u: User): UserPatch {
    UserPatch(Some(u.fullName), Some(u.email), Some(u.phone), Some(u.username), Some(u.eggBalance), Some(u.walletBalance))
  }

  /**
   * `{ ...u, ...editForm }`: each field present in the form takes the form's
   * value; every other field, the id included, stays as it was.
   */
  function ApplyPatch(u: User, p: UserPatch): (r: User)
    ensures r.id == u.id && r.password == u.password && r.referralCode == u.referralCode
      && r.referrerId == u.referrerId && r.referrerCode == u.referrerCode
      && r.totalReferrals == u.totalReferrals && r.eggsFromReferrals == u.eggsFromReferrals
      && r.activePlanId == u.activePlanId && r.kycStatus == u.kycStatus
      && r.accountStatus == u.accountStatus && r.createdAt == u.createdAt
    ensures p.fullName.Some? ==> r.fullName == p.fullName.value
    ensures p.fullName.None? ==> r.fullName == u.fullName
    ensures p.email.Some? ==> r.email == p.email.value
    ensures p.email.None? ==> r.email == u.email
    ensures p.phone.Some? ==> r.phone == p.phone.value
    ensures p.phone.None? ==> r.phone == u.phone
    ensures p.username.Some? ==> r.username == p.username.value
    ensures p.username.None? ==> r.username == u.username
    ensures p.eggBalance.Some? ==> r.eggBalance == p.eggBalance.value
    ensures p.eggBalance.None? ==> r.eggBalance == u.eggBalance
    ensures p.walletBalance.Some? ==> r.walletBalance == p.walletBalance.value
    ensures p.walletBalance.None? ==> r.walletBalance == u.walletBalance
  {
    u.(fullName := Or(p.fullName, u.fullName), email := Or(p.email, u.email), phone := Or(p.phone, u.phone),
       username := Or(p.username, u.username), eggBalance := Or(p.eggBalance, u.eggBalance),
       walletBalance := Or(p.walletBalance, u.walletBalance))
  }

  /** Saving the form the edit view was opened with changes nothing. */
  lemma PatchOfIsIdentity(u: User)
    ensures ApplyPatch(u, PatchOf(u)) == u
  {
  }

  /** The list after `handleSaveEdit`: the patch applied to the users with the selected id. */
  function SaveEdit(users: seq<User>, id: string, p: UserPatch): (r: seq<User>)
    ensures |r| == |users|
    ensures forall i :: 0 <= i < |users| ==> r[i].id == users[i].id
    ensures forall i :: 0 <= i < |users| && users[i].id == id ==> r[i] == ApplyPatch(users[i], p)
    ensures forall i :: 0 <= i < |users| && users[i].id != id ==> r[i] == users[i]
  {
    ReplaceWhere(users, (u: User) => u.id == id, (u: User) => ApplyPatch(u, p))
  }

  /** The list after `handleChangePassword`: the new password on the users with the selected id. */
  function SetPassword(users: seq<User>, id: string, password: string): (r: seq<User>)
    ensures |r| == |users|
    ensures forall i :: 0 <= i < |users| && users[i].id == id ==> r[i] == users[i].(password := Some(password))
    ensures forall i :: 0 <= i < |users| && users[i].id != id ==> r[i] == users[i]
  {
    ReplaceWhere(users, (u: User) => u.id == id, (u: User) => u.(password := Some(password)))
  }

  /** The list after `handleStatusChange`: the new account status on the users with that id. */
  function SetStatus(users: seq<User>, id: string, status: AccountStatus): (r: seq<User>)
    ensures |r| == |users|
    ensures forall i :: 0 <= i < |users| && users[i].id == id ==> r[i] == users[i].(accountStatus := status)
    ensures forall i :: 0 <= i < |users| && users[i].id != id ==> r[i] == users[i]
  {
    ReplaceWhere(users, (u: User) => u.id == id, (u: User) => u.(accountStatus := status))
  }

  /** The list after `handleDeleteUser`: every user with the id gone, the rest in their order. */
  function DeleteUser(users: seq<User>, id: string): (r: seq<User>)
    ensures forall i :: 0 <= i < |r| ==> r[i].id != id
    ensures forall i :: 0 <= i < |users| && users[i].id != id ==> users[i] in r
    ensures IsSubsequence(r, users)
    ensures |r| == CountWhere(users, (u: User) => u.id != id)
  {
    var keep := (u: User) => u.id != id;
    FilterIsSubsequence(users, keep);
    FilterLength(users, keep);
    Filter(users, keep)
  }

  /** Why a password change was refused. */
  datatype PasswordError = EmptyPassword | PasswordMismatch | NewPasswordTooShort

  /**
   * The guards of `handleChangePassword`, in order: a blank password (one whose
   * `trim()` is empty), then a mismatch with the confirmation, then fewer than
   * 6 characters.
   */
  function CheckNewPassword(password: string, confirm: string): Option<PasswordError> {
    if IsBlank(password) then Some(EmptyPassword)
    else if password != confirm then Some(PasswordMismatch)
    else if |password| < 6 then Some(NewPasswordTooShort)
    else None
  }

  /** Each outcome of the checks in the source's own terms: the trimmed password, the confirmation, the length. */
  lemma CheckNewPasswordCases(password: string, confirm: string)
    ensures CheckNewPassword(password, confirm) == Some(EmptyPassword) <==> Trim(password) == ""
    ensures CheckNewPassword(password, confirm) == Some(PasswordMismatch) <==> Trim(password) != "" && password != confirm
    ensures CheckNewPassword(password, confirm) == Some(NewPasswordTooShort) <==>
      Trim(password) != "" && password == confirm && |password| < 6
    ensures CheckNewPassword(password, confirm) == None <==> Trim(password) != "" && password == confirm && |password| >= 6
  {
    TrimEmptyIffBlank(password);
  }

  // ---------------------------------------------------------------- search

  /** The search test: username, email, full name or (when present) phone contains the term, ignoring case. */
  predicate UserSearchMatches(u: User, term: string) {
    IncludesCI(u.username, term) || IncludesCI(u.email, term) || IncludesCI(u.fullName, term)
    || (u.phone.Some? && IncludesCI(u.phone.value, term))
  }

  /** `filteredUsers`: the matching users in list order; nothing before the data arrives. */
  function FilteredUsers(users: Option<seq<User>>, term: string): (r: Option<seq<User>>)
    ensures users.None? <==> r.None?
    ensures users.Some? ==> IsSubsequence(r.value, users.value)
    ensures users.Some? ==> forall i :: 0 <= i < |r.value| ==> UserSearchMatches(r.value[i], term)
    ensures users.Some? ==> forall i :: 0 <= i < |users.value| && UserSearchMatches(users.value[i], term) ==>
      users.value[i] in r.value
    ensures users.Some? ==> |r.value| == CountWhere(users.value, (u: User) => UserSearchMatches(u, term))
    ensures users.Some? && term == "" ==> r == users
  {
    match users
    case None => None
    case Some(us) =>
      var keep := (u: User) => UserSearchMatches(u, term);
      FilterIsSubsequence(us, keep);
      FilterLength(us, keep);
      if term == "" then
        assert forall i :: 0 <= i < |us| ==> keep(us[i]) by {
          forall i | 0 <= i < |us| ensures keep(us[i]) { IncludesEmpty(us[i].username); }
        }
        FilterKeepsAll(us, keep);
        Some(Filter(us, keep))
      else
        Some(Filter(us, keep))
  }

  // ---------------------------------------------------------------- the page

  /** Which panel of the user dialog is open. */
  datatype ViewMode = ViewDetails | EditDetails | PasswordChange

  /** The page's state: the stored list and the dialog and form state around it. */
  class UsersPage {
    var users: seq<User>
    var searchTerm: string
    var selectedUser: Option<User>
    var viewMode: Option<ViewMode>
    var editForm: UserPatch
    var newPassword: string
    var confirmPassword: string
    var showCreateModal: bool
    var createForm: CreateForm

    constructor(stored: seq<User>)
      ensures users == stored && searchTerm == "" && selectedUser == None && viewMode == None
      ensures editForm == NoPatch() && newPassword == "" && confirmPassword == ""
      ensures !showCreateModal && createForm == EmptyCreateForm()
    {
      users := stored;
      searchTerm := "";
      selectedUser := None;
      viewMode := None;
      editForm := NoPatch();
      newPassword := "";
      confirmPassword := "";
      showCreateModal := false;
      createForm := EmptyCreateForm();
    }

    /** The rows the table shows. */
    function Shown(): seq<User>
      reads this
    {
      FilteredUsers(Some(users), searchTerm).value
    }

    /** `handleViewUser`: open the details panel with an empty edit form. */
    method HandleViewUser(u: User)
      modifies this
      ensures selectedUser == Some(u) && viewMode == Some(ViewDetails) && editForm == NoPatch()
      ensures users == old(users) && searchTerm == old(searchTerm) && newPassword == old(newPassword)
      ensures confirmPassword == old(confirmPassword) && showCreateModal == old(showCreateModal)
      ensures createForm == old(createForm)
    {
      selectedUser := Some(u);
      viewMode := Some(ViewDetails);
      editForm := NoPatch();
    }

    /** `handleEditUser`: open the edit panel with the form filled from the user. */
    method HandleEditUser(u: User)
      modifies this
      ensures selectedUser == Some(u) && viewMode == Some(EditDetails) && editForm == PatchOf(u)
      ensures users == old(users) && searchTerm == old(searchTerm) && newPassword == old(newPassword)
      ensures confirmPassword == old(confirmPassword) && showCreateModal == old(showCreateModal)
      ensures createForm == old(createForm)
    {
      selectedUser := Some(u);
      editForm := PatchOf(u);
      viewMode := Some(EditDetails);
    }

    /**
     * `handleSaveEdit`: with a user selected, the form is applied to the stored
     * users with that id and to the selection, and the details panel returns.
     */
    method HandleSaveEdit()
      modifies this
      ensures old(selectedUser).None? ==> users == old(users) && viewMode == old(viewMode) && selectedUser == None
      ensures old(selectedUser).Some? ==>
        users == SaveEdit(old(users), old(selectedUser).value.id, editForm)
        && viewMode == Some(ViewDetails)
        && selectedUser == Some(ApplyPatch(old(selectedUser).value, editForm))
      ensures searchTerm == old(searchTerm) && editForm == old(editForm) && newPassword == old(newPassword)
      ensures confirmPassword == old(confirmPassword) && showCreateModal == old(showCreateModal)
      ensures createForm == old(createForm)
    {
      if selectedUser.None? {
        return;
      }
      var sel := selectedUser.value;
      users := SaveEdit(users, sel.id, editForm);
      viewMode := Some(ViewDetails);
      selectedUser := Some(ApplyPatch(sel, editForm));
    }

    /**
     * `handleCreateUser`: a refused form leaves everything as it was and reports
     * why; an accepted one updates the list, closes the dialog and clears the form.
     */
    method HandleCreateUser(newId: string, now: int, suffix: nat) returns (err: Option<CreateError>)
      requires suffix < 1000
      modifies this
      ensures var r := CreateUser(old(users), old(createForm), newId, now, suffix);
        if r.Err? then
          err == Some(r.error) && users == old(users) && showCreateModal == old(showCreateModal)
          && createForm == old(createForm)
        else
          err == None && users == r.value && !showCreateModal && createForm == EmptyCreateForm()
      ensures searchTerm == old(searchTerm) && selectedUser == old(selectedUser) && viewMode == old(viewMode)
      ensures editForm == old(editForm) && newPassword == old(newPassword) && confirmPassword == old(confirmPassword)
    {
      var r := CreateUser(users, createForm, newId, now, suffix);
      if r.Err? {
        return Some(r.error);
      }
      users := r.value;
      showCreateModal := false;
      createForm := EmptyCreateForm();
      err := None;
    }

    /**
     * `handleChangePassword`: with a user selected and the two fields passing
     * the checks, the password is stored on that id, the fields are cleared and
     * the details panel returns; a refused change only reports why.
     */
    method HandleChangePassword() returns (err: Option<PasswordError>)
      modifies this
      ensures err == (if old(selectedUser).None? then None else CheckNewPassword(old(newPassword), old(confirmPassword)))
      ensures var done := old(selectedUser).Some? && err.None?;
        && users == (if done then SetPassword(old(users), old(selectedUser).value.id, old(newPassword)) else old(users))
        && selectedUser == (if done then Some(old(selectedUser).value.(password := Some(old(newPassword)))) else old(selectedUser))
        && viewMode == (if done then Some(ViewDetails) else old(viewMode))
        && newPassword == (if done then "" else old(newPassword))
        && confirmPassword == (if done then "" else old(confirmPassword))
      ensures searchTerm == old(searchTerm) && editForm == old(editForm)
      ensures showCreateModal == old(showCreateModal) && createForm == old(createForm)
    {
      if selectedUser.None? {
        err := None;
      } else {
        err := CheckNewPassword(newPassword, confirmPassword);
        if err.None? {
          var sel := selectedUser.value;
          var password := newPassword;
          users := SetPassword(users, sel.id, password);
          selectedUser := Some(sel.(password := Some(password)));
          newPassword := "";
          confirmPassword := "";
          viewMode := Some(ViewDetails);
        }
      }
    }

    /** `handleStatusChange`: the status is stored on that id, and on the selection when it is that user. */
    method HandleStatusChange(userId: string, status: AccountStatus)
      modifies this
      ensures users == SetStatus(old(users), userId, status)
      ensures old(selectedUser).Some? && old(selectedUser).value.id == userId ==>
        selectedUser == Some(old(selectedUser).value.(accountStatus := status))
      ensures !(old(selectedUser).Some? && old(selectedUser).value.id == userId) ==> selectedUser == old(selectedUser)
      ensures searchTerm == old(searchTerm) && viewMode == old(viewMode) && editForm == old(editForm)
      ensures newPassword == old(newPassword) && confirmPassword == old(confirmPassword)
      ensures showCreateModal == old(showCreateModal) && createForm == old(createForm)
    {
      users := SetStatus(users, userId, status);
      if selectedUser.Some? && selectedUser.value.id == userId {
        selectedUser := Some(selectedUser.value.(accountStatus := status));
      }
    }

    /**
     * `handleDeleteUser`: nothing happens unless the admin confirms; then every
     * user with the id is removed, and the dialog closes if it showed that user.
     */
    method HandleDeleteUser(userId: string, confirmed: bool)
      modifies this
      ensures !confirmed ==> users == old(users) && selectedUser == old(selectedUser) && viewMode == old(viewMode)
      ensures confirmed ==> users == DeleteUser(old(users), userId)
      ensures confirmed && old(selectedUser).Some? && old(selectedUser).value.id == userId ==>
        selectedUser == None && viewMode == None
      ensures !(confirmed && old(selectedUser).Some? && old(selectedUser).value.id == userId) ==>
        selectedUser == old(selectedUser) && viewMode == old(viewMode)
      ensures searchTerm == old(searchTerm) && editForm == old(editForm)
      ensures newPassword == old(newPassword) && confirmPassword == old(confirmPassword)
      ensures showCreateModal == old(showCreateModal) && createForm == old(createForm)
    {
      if !confirmed {
        return;
      }
      users := DeleteUser(users, userId);
      if selectedUser.Some? && selectedUser.value.id == userId {
        selectedUser := None;
        viewMode := None;
      }
    }
  }

  /** After a confirmed delete the id is gone from the list and no search can show it. */
  lemma DeletedNotShown(users: seq<User>, id: string, term: string)
    ensures forall i :: 0 <= i < |FilteredUsers(Some(DeleteUser(users, id)), term).value| ==>
      FilteredUsers(Some(DeleteUser(users, id)), term).value[i].id != id
  {
    var d := DeleteUser(users, id);
    var r := FilteredUsers(Some(d), term).value;
    forall i | 0 <= i < |r| ensures r[i].id != id {
      SubsequenceMembers(r, d, i);
    }
  }
}
