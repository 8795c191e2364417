// Record types shared by the admin panel's pages (src/types/index.ts).
// Timestamps are milliseconds since the epoch (the source stores ISO strings
// derived from them); money, balances and percentages are `real` because the
// pages only copy them.
module Types {

  datatype Option<+T> = None | Some(value: T)

  /** The outcome of a handler that either produces a value or stops with an error message. */
  datatype Result<+T, +E> = Ok(value: T) | Err(error: E)

  /** JavaScript truthiness of an optional string: `undefined` and `''` are falsy. */
  predicate Truthy(s: Option<string>) {
    s.Some? && s.value != ""
  }

  /** `o ?? d`, and `o || d` for a value that is never falsy when present. */
  function Or<T>(o: Option<T>, d: T): T {
    if o.Some? then o.value else d
  }

  /** `o || d` for an optional string: `undefined` and `''` both give `d`. */
  function OrStr(o: Option<string>, d: string): string {
    if Truthy(o) then o.value else d
  }

  /** A type dropdown's test: `typeFilter === 'all' || x.type === typeFilter`. */
  predicate KindSelected(typeFilter: string, kind: string) {
    typeFilter == "all" || kind == typeFilter
  }

  datatype KycStatus = NotSubmitted | KycPending | KycApproved | KycRejected

  datatype AccountStatus = Active | Suspended | Blocked

  /** A platform user (`User`); device and login-trace fields are display-only and not kept. */
  datatype User = User(
    id: string,
    email: string,
    phone: Option<string>,
    username: string,
    fullName: string,
    password: Option<string>,
    eggBalance: real,
    walletBalance: real,
    referralCode: string,
    referrerId: Option<string>,
    referrerCode: Option<string>,
    totalReferrals: int,
    eggsFromReferrals: int,
    activePlanId: Option<string>,
    kycStatus: KycStatus,
    accountStatus: AccountStatus,
    createdAt: int)

  /** `PlanActivation`: one user's activated investment plan. */
  datatype PlanActivation = PlanActivation(
    id: string,
    userId: string,
    userName: string,
    userEmail: string,
    planId: string,
    planName: string,
    activatedAt: int,
    isActive: bool)

  /** The review state of a KYC submission; `'pending' | 'approved' | 'rejected'`. */
  datatype ReviewStatus = Pending | Approved | Rejected

  datatype KycSubmission = KycSubmission(
    id: string,
    userId: string,
    userEmail: string,
    userName: string,
    fullName: string,
    cnic: string,
    status: ReviewStatus,
    submittedAt: int,
    reviewedAt: Option<int>,
    rejectionReason: Option<string>)

  /** `Transaction`; `type` is kept as the string the data source sends. */
  datatype Transaction = Transaction(
    id: string,
    userId: string,
    userName: string,
    kind: string,
    amount: real,
    timestamp: int)

  /** `ActivityLog`; system entries carry no user. */
  datatype ActivityLog = ActivityLog(
    id: string,
    userId: Option<string>,
    userName: Option<string>,
    action: string,
    kind: string,
    timestamp: int)

  datatype InvestmentPlan = InvestmentPlan(
    id: string,
    name: string,
    description: string,
    price: real,
    priceCurrency: string,
    miningTimeHours: real,
    eggsPerDay: real,
    features: seq<string>,
    badge: Option<string>,
    isActive: bool,
    createdAt: int,
    updatedAt: int)

  datatype StakingPlan = StakingPlan(
    id: string,
    days: int,
    description: string,
    rewardPercentage: real,
    minStake: real,
    badge: Option<string>,
    isActive: bool,
    createdAt: int,
    updatedAt: int)

  /** `ActiveStake`, without the floating-point `expectedReward`. */
  datatype ActiveStake = ActiveStake(
    id: string,
    userId: string,
    userName: string,
    userEmail: string,
    planId: string,
    planDays: int,
    eggsStaked: real,
    rewardPercentage: real,
    startDate: int,
    endDate: int,
    daysRemaining: int,
    isCompleted: bool)
}
