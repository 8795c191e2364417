# Egg-mining admin panel: the in-memory rules

This project models the admin panel of an egg-mining platform, a React
single-page application. Under its tables, dialogs and storage calls there is
a set of small, deterministic operations on in-memory lists, strings and sets.
The model covers those operations and proves what they guarantee:

- the referral network: the forest built from `referrerId` links, the
  subtree referral totals, the subtree search, the expand/collapse set and
  the header figures (`referrals.dfy`, `referral_view.dfy`);
- user management: the create-user checks and the list updates behind
  create, edit, password change, status change and delete, plus the user
  search (`users.dfy`);
- KYC review: approve, reject with its reason guard, the status tabs and
  the pending badge (`kyc.dfy`);
- investment plans and their activations: the sorted mock activations, the
  per-plan counts, the plan and activation tables, the save check, the
  create defaults, update and delete, and feature-list editing
  (`investment_plans.dfy`);
- staking plans and active stakes: the mock stakes with their whole-day
  countdown, the counts, the tables, the save check, create, update and
  delete (`staking_plans.dfy`);
- the transaction and activity-log tables and their badge colours
  (`transactions.dfy`, `activity_logs.dfy`);
- the dashboard's buy and sell number pads (`buy_sell.dfy`);
- the admin login store (`auth_store.dfy`).

Shared pieces:

- `types.dfy` holds the records: users, submissions, transactions, logs,
  plans, activations and stakes. It also holds JavaScript truthiness and
  `||` defaults.
- `text.dfy` holds the string operations the pages call. These are
  ASCII `toLowerCase`/`toUpperCase`, `includes`, `trim`, `<` on strings and
  number-to-text.
- `seqs.dfy` holds `filter`, `map` over matching ids, `find` and counting.
- `sorting.dfy` holds the case-insensitive sort. It sorts a copy in place
  in an array.

Each page's state is a class whose fields are the React state the page keeps.
Its handlers are methods. Every list update a handler makes is a function,
so the lemmas can speak about it. Each handler first tries a server call and,
when that fails, falls back to a local update. The model is that local update.
The stored list is a field, and the clock and the random draws are parameters.

The builder's behaviour on cycles, levels and duplicate ids, as the code has it:

- The referral builder breaks no referrer cycles. Users on a cycle end up in
  each other's `children` and are never roots (`Referrals.CycleUnreachable`,
  `Referrals.MutualReferrersHaveNoRoot`).
- The builder never recomputes `level`. A node's stored level is its parent's
  level at the moment the node is attached, plus one. It is therefore wrong
  when a child comes before its parent in the list
  (`Referrals.LevelAsAttached`, `Referrals.LevelIsNotDepth`). The page draws
  depth from its own recursion and never reads the stored level.
- A duplicate id gives two roots that are the same node
  (`Referrals.DuplicateIdListedTwice`).

## Model

| member | source | states |
|---|---|---|
| Referrals.CreateNodes | src/pages/Referrals.tsx:150-153 | the first pass leaves one map entry per distinct id, pointing at the last user carrying it |
| Referrals.IdMapIsLastIndex | src/pages/Referrals.tsx:151-153 | an id is in the map iff some user has it, and it maps to the last such user (later `set` overwrites) |
| Referrals.BuildReferralTree | src/pages/Referrals.tsx:145-173 | the two loops return exactly the roots, the children lists and the levels the step-by-step specification gives after every user |
| Referrals.HandleUser | src/pages/Referrals.tsx:156-169 | handling one user moves roots, children and levels from the state after users `0 .. i-1` to the state after users `0 .. i` |
| Referrals.Attach | src/pages/Referrals.tsx:161-162 | the push changes only the parent's children list, appending the node; the level write changes only the node's level, to the parent's plus one |
| Referrals.StepAttached | src/pages/Referrals.tsx:158-163 | a user whose referrer resolves is pushed onto that parent's children, gets the parent's current level plus one, and adds no root |
| Referrals.StepRoot | src/pages/Referrals.tsx:164-169 | a user with no referrer, or one naming an unknown id, is pushed onto the roots and changes no children and no level |
| Referrals.ResolvesIffNotRoot | src/pages/Referrals.tsx:158-160 | a referrer resolves exactly when the user is not a root user |
| Referrals.ParentIffReferredBy | src/pages/Referrals.tsx:159-162 | with unique ids, the map lookup finds user p iff the user's truthy referrerId is p's id |
| Referrals.NodeIsSelf | src/pages/Referrals.tsx:157 | with unique ids, `userMap.get(user.id)` is that user's own node |
| Referrals.RootsAreRootUsers | src/pages/Referrals.tsx:156-169 | with unique ids, the roots are exactly the users with a falsy or unresolved referrer, in input order |
| Referrals.ChildrenAreReferred | src/pages/Referrals.tsx:159-162 | with unique ids, a node's children are exactly the users naming it as referrer, in input order |
| Referrals.EachUserPlacedOnce | src/pages/Referrals.tsx:156-172 | every handled user is pushed exactly once, either onto the roots or onto one children list |
| Referrals.NoRootsIffAllResolve | src/pages/Referrals.tsx:156-172 | the forest has no roots exactly when every user's referrer resolves |
| Referrals.LevelWrittenOnce | src/pages/Referrals.tsx:163 | with unique ids a node's level is 0 until its own user's turn and never written after it |
| Referrals.LevelAsAttached | src/pages/Referrals.tsx:152-163 | roots keep level 0; an attached node's final level is its parent's level at attachment plus one, which is 1 when the parent comes later in the list |
| Referrals.AncestorCompose | src/pages/Referrals.tsx:158-163 | following a links and then b more is following a+b referrer links |
| Referrals.CycleChainEndless | src/pages/Referrals.tsx:156-172 | a user on a referrer cycle has a referrer chain of every length |
| Referrals.DownPathRetraced | src/pages/Referrals.tsx:159-162 | with unique ids, walking up the referrer links from the end of a downward path gets back to its start |
| Referrals.CycleUnreachable | src/pages/Referrals.tsx:156-172 | with unique ids, no node reachable from a root lies on a referrer cycle; the build breaks no cycles and roots none of their users |
| Referrals.MutualReferrersHaveNoRoot | src/pages/Referrals.tsx:156-172 | two users naming each other give no roots, and each is the other's only child |
| Referrals.LevelIsNotDepth | src/pages/Referrals.tsx:163 | for the list c→b, b→a, a the stored levels are 1, 1, 0 although c is at depth 2 |
| Referrals.DuplicateIdListedTwice | src/pages/Referrals.tsx:151-168 | two root users with the same id give two roots that are one and the same node |
| ReferralView.BuiltWellFormed | src/pages/Referrals.tsx:145-173 | every root and child the builder produces names a user of its input |
| ReferralView.ReferralTree | src/pages/Referrals.tsx:337 | no users means no roots; otherwise one node object per built root |
| ReferralView.DownPathDistinct | src/pages/Referrals.tsx:176-184 | with unique ids a downward path from a root never visits a node twice |
| ReferralView.DownPathBounded | src/pages/Referrals.tsx:176-184 | with unique ids no downward path from a root is longer than the user list, so the recursive walks end |
| ReferralView.UnfoldMirrors | src/pages/Referrals.tsx:176-184 | the nested node object of any node reachable from a root carries that node's user, its level and all its children, recursively |
| ReferralView.UnfoldComplete | src/pages/Referrals.tsx:337 | with unique ids every root node object carries its complete built subtree |
| ReferralView.SumReferralsAppend | src/pages/Referrals.tsx:367 | the referral sum of two lists put together is the sum of their sums |
| ReferralView.Total | src/pages/Referrals.tsx:176-184 | a leaf's total is its own stored `totalReferrals` |
| ReferralView.CalculateTotalReferrals | src/pages/Referrals.tsx:176-184 | the accumulating loop returns the node's own count plus its children's totals |
| ReferralView.TotalIsSubtreeSum | src/pages/Referrals.tsx:176-184 | a node's total is the sum of the stored counts of every user in its subtree |
| ReferralView.ChildTotalsIsSum | src/pages/Referrals.tsx:196 | the reduce over the children is the sum of the stored counts of every user below the node |
| ReferralView.SubReferrals | src/pages/Referrals.tsx:196 | the "Sub" figure is the node's total less its own count, which is the sum over all users below it |
| ReferralView.SomeMatchAppend | src/pages/Referrals.tsx:347-359 | a match in two lists put together is a match in either |
| ReferralView.MatchesIffSomeUser | src/pages/Referrals.tsx:347-359 | `matchesChildren` is true exactly when some user of the subtree matches the term |
| ReferralView.AnyMatchesIffSomeUser | src/pages/Referrals.tsx:355-357 | `children.some(matchesChildren)` is true exactly when some user below the node matches |
| ReferralView.FilteredTree | src/pages/Referrals.tsx:338-364 | an empty term returns the forest; otherwise an order-preserving subsequence of roots with a matching user in their subtree, holding every such root and as many entries as there are such roots, duplicates included |
| ReferralView.Toggled | src/pages/Referrals.tsx:317-325 | toggling flips membership of the one id and of no other |
| ReferralView.ToggleTwice | src/pages/Referrals.tsx:317-325 | toggling the same id twice restores the set |
| ReferralView.AllIds | src/pages/Referrals.tsx:327-331 | expand-all's set holds exactly the ids of the loaded users |
| ReferralView.Header | src/pages/Referrals.tsx:366-368 | the header shows the number of users, the sum of their stored counts and the number of roots, which is at most the number of users; all zero before the data arrives |
| ReferralView.ReferralsPage.constructor | src/pages/Referrals.tsx:301-303 | the page starts with an empty search and nothing expanded |
| ReferralView.ReferralsPage.ToggleNode | src/pages/Referrals.tsx:317-325 | the expanded set becomes the toggled set; nothing else changes |
| ReferralView.ReferralsPage.ExpandAll | src/pages/Referrals.tsx:327-331 | before the data arrives nothing changes; afterwards every user id is expanded |
| ReferralView.ReferralsPage.CollapseAll | src/pages/Referrals.tsx:333-335 | the expanded set becomes empty |
| Users.FindByReferralCode | src/pages/Users.tsx:201 | finds the first user carrying the code, or reports that none does |
| Users.ValidateCreate | src/pages/Users.tsx:178-209 | each refusal (missing field, short password, taken username or email, unknown referral code) happens exactly when the earlier checks pass and its own fails; success yields the user named by the upper-cased code |
| Users.NewUser | src/pages/Users.tsx:212-229 | the new user copies the form, starts with 0 referrals, `not_submitted` KYC and `active` status, takes the referrer's id and code, and gets the upper-cased first six username letters plus the draw as its code |
| Users.CreditReferrer | src/pages/Users.tsx:241-244 | the users with the referrer's id gain one referral; every other user is unchanged |
| Users.CreateUser | src/pages/Users.tsx:177-244 | a refused form yields its error; an accepted one yields a list one longer |
| Users.CreateAppendsOne | src/pages/Users.tsx:236-244 | a successful create appends the new user at the end and changes only the referrer's count among the earlier users |
| Users.CreateKeepsLoginsUnique | src/pages/Users.tsx:189-195 | when usernames and emails were unique they stay unique after a create |
| Users.CreateTwiceRefused | src/pages/Users.tsx:189-195 | submitting the same form again after a successful create is refused as a taken login |
| Users.ReferrerCreditedOnce | src/pages/Users.tsx:241-244 | with unique ids the sum of all referral counts grows by exactly one beyond the new user's own count |
| Users.CreditOneOf | src/pages/Users.tsx:241-244 | with unique ids the credit changes the referrer's record and nobody else's |
| Users.TotalCountUpdate | src/pages/Users.tsx:241-244 | changing one user's count changes the total by the difference |
| Users.ApplyPatch | src/pages/Users.tsx:160-162 | each field present in the edit form is replaced; every other field, the id included, is kept |
| Users.PatchOfIsIdentity | src/pages/Users.tsx:136-147 | saving the form the edit view was opened with changes nothing |
| Users.SaveEdit | src/pages/Users.tsx:160-162 | same length and ids; the users with the selected id get the patch, the others are unchanged |
| Users.SetPassword | src/pages/Users.tsx:297-299 | the users with the id get the new password; the others are unchanged |
| Users.SetStatus | src/pages/Users.tsx:325-327 | the users with the id get the new status; the others are unchanged |
| Seqs.FilterUnique | src/pages/Users.tsx:371-377 | a subsequence that keeps only passing elements and as many as pass is the filter itself; so every filter and delete contract that states the count fixes its result, duplicates included |
| Users.DeleteUser | src/pages/Users.tsx:354 | every user with the id is gone, every other user is kept in order, and the length is the number of those others |
| Users.CheckNewPasswordCases | src/pages/Users.tsx:274-287 | a change is refused for a blank trimmed password, else for a mismatch, else for fewer than 6 characters, and accepted exactly when all three pass |
| Users.FilteredUsers | src/pages/Users.tsx:371-377 | an order-preserving subsequence of the users whose username, email, full name or phone contains the term, holding every such user and as many entries as the list has; an empty term keeps all |
| Users.DeletedNotShown | src/pages/Users.tsx:343-377 | after a delete no search shows a user with the deleted id |
| Users.UsersPage.constructor | src/pages/Users.tsx:98-115 | the page starts with no selection, empty forms and the dialog closed |
| Users.UsersPage.HandleViewUser | src/pages/Users.tsx:130-134 | the user is selected, the details view opens and the edit form is emptied |
| Users.UsersPage.HandleEditUser | src/pages/Users.tsx:136-147 | the user is selected, the edit view opens and the form holds the user's values |
| Users.UsersPage.HandleSaveEdit | src/pages/Users.tsx:149-175 | without a selection nothing changes; otherwise the stored list and the selection get the patch and the details view returns |
| Users.UsersPage.HandleCreateUser | src/pages/Users.tsx:177-269 | a refused form changes nothing and reports why; an accepted one stores the new list, closes the dialog and clears the form |
| Users.UsersPage.HandleChangePassword | src/pages/Users.tsx:271-314 | the outcome is the check's; on success the password is stored on that id and the selection, the fields clear and the details view returns; otherwise nothing changes |
| Users.UsersPage.HandleStatusChange | src/pages/Users.tsx:316-341 | the status is stored on that id, and on the selection when it is that user |
| Users.UsersPage.HandleDeleteUser | src/pages/Users.tsx:343-369 | nothing happens unless confirmed; then the id is deleted and the dialog closes if it showed that user |
| Kyc.Approve | src/pages/KYC.tsx:67-75 | same length; the submissions with the id become approved and reviewed now; the others are unchanged |
| Kyc.Reject | src/pages/KYC.tsx:108-117 | same length; the submissions with the id become rejected, reviewed now, with the reason; the others are unchanged |
| Kyc.FilteredSubmissions | src/pages/KYC.tsx:136-138 | an order-preserving subsequence of the submissions the tab shows, holding every such submission and as many entries as the list has; `'all'` keeps the list as it is |
| Kyc.PendingCount | src/pages/KYC.tsx:166 | the badge is the number of pending submissions, and 0 before the data arrives |
| Kyc.PendingBadgeMatchesTab | src/pages/KYC.tsx:136-166 | the badge equals the length of the Pending tab's list |
| Kyc.CountSame | src/pages/KYC.tsx:166 | two tests that agree everywhere count the same submissions |
| Kyc.ApprovePendingLowersBadge | src/pages/KYC.tsx:67-75 | with unique ids, approving a pending submission lowers the badge by exactly one |
| Kyc.RejectPendingLowersBadge | src/pages/KYC.tsx:108-117 | with unique ids, rejecting a pending submission lowers the badge by exactly one |
| Kyc.ApproveAfterRejectKeepsReason | src/pages/KYC.tsx:67-75 | the updates ignore the prior status: approving a rejected submission makes it approved and keeps the old reason |
| Kyc.KycPage.constructor | src/pages/KYC.tsx:37-40 | the page starts on the `'all'` tab with no dialog and an empty reason |
| Kyc.KycPage.HandleApprove | src/pages/KYC.tsx:57-91 | the stored list is approved for the id and the dialog closes |
| Kyc.KycPage.HandleReject | src/pages/KYC.tsx:93-134 | refused exactly when the reason trims to nothing, changing nothing; otherwise the id is rejected with the reason, the reason clears and the dialog closes |
| Sorting.SortByKey | src/pages/InvestmentPlans.tsx:139-147 | the result is a permutation of the input, sorted by the key |
| InvestmentPlans.SortActivations | src/pages/InvestmentPlans.tsx:139-147 | a permutation of the activations sorted by lower-cased user name |
| InvestmentPlans.ActivationFor | src/pages/InvestmentPlans.tsx:174-202 | a user with a truthy plan id gets an activation iff a plan has that id, on that plan; any other user gets one iff its index is below the number of plans, on `plans[index % n]`; each is active and dated `index` days back |
| InvestmentPlans.MockActivations | src/pages/InvestmentPlans.tsx:172-206 | the loop's result is the pushed activations, sorted by lower-cased user name |
| InvestmentPlans.CollectedFromVisited | src/pages/InvestmentPlans.tsx:174-203 | every pushed activation belongs to a user already visited |
| InvestmentPlans.OneActivationPerUser | src/pages/InvestmentPlans.tsx:174-203 | with unique user ids no user gets more than one activation |
| InvestmentPlans.NotYetVisited | src/pages/InvestmentPlans.tsx:174 | with unique ids a user's id is not among the ids visited before it |
| InvestmentPlans.ActivationListed | src/pages/InvestmentPlans.tsx:174-203 | every user who qualifies for an activation has it among the pushed ones |
| InvestmentPlans.ActivationCount | src/pages/InvestmentPlans.tsx:215-221 | the count is the number of active activations of the plan, and 0 before the data arrives |
| InvestmentPlans.ActivationCountZero | src/pages/InvestmentPlans.tsx:215-221 | the count is 0 exactly when no activation of the plan is active |
| InvestmentPlans.FilteredActivations | src/pages/InvestmentPlans.tsx:385-407 | a permutation of the activations the table's test keeps, sorted by lower-cased user name, all of them active |
| InvestmentPlans.EmptyTermShowsActive | src/pages/InvestmentPlans.tsx:387 | with an empty term an activation is kept exactly when it is active |
| InvestmentPlans.FilteredPlans | src/pages/InvestmentPlans.tsx:378-382 | an order-preserving subsequence of the plans whose name or description contains the term, holding every such plan and as many entries as the list has; an empty term keeps all |
| InvestmentPlans.NewPlanFormNeedsNameAndDescription | src/pages/InvestmentPlans.tsx:320-342 | the blank create form passes the save check exactly when name and description are filled in |
| InvestmentPlans.NewPlan | src/pages/InvestmentPlans.tsx:265-278 | the new plan takes the form's values, a falsy id replaced by the fresh one, `'$'`, 0 and `[]` for missing values, active unless the form says otherwise, stamped now |
| InvestmentPlans.NewPlanFromBlankForm | src/pages/InvestmentPlans.tsx:265-278 | a plan created from the blank form is active, free, in dollars, without features, under the fresh id |
| InvestmentPlans.ApplyPlanForm | src/pages/InvestmentPlans.tsx:239 | each field present in the form is replaced, the others kept, and `updatedAt` becomes now |
| InvestmentPlans.UnchangedFormOnlyTouches | src/pages/InvestmentPlans.tsx:238-240 | saving the form the editor was opened with moves only `updatedAt` |
| InvestmentPlans.UpdatePlan | src/pages/InvestmentPlans.tsx:238-240 | same length; the plans with the selected id get the form; the others are unchanged |
| InvestmentPlans.DeletePlan | src/pages/InvestmentPlans.tsx:301 | every plan with the id is gone, every other plan is kept in order, and the length is the number of those others |
| InvestmentPlans.AddFeature | src/pages/InvestmentPlans.tsx:359-367 | a blank entry changes nothing; otherwise the trimmed entry is appended to the list |
| InvestmentPlans.AddedFeatureTrimmed | src/pages/InvestmentPlans.tsx:360-363 | the earlier features are kept and the added one is non-empty with no space at either end |
| InvestmentPlans.SpliceStart | src/pages/InvestmentPlans.tsx:371 | `splice` starts within the list |
| InvestmentPlans.Spliced | src/pages/InvestmentPlans.tsx:369-376 | the entry at the index is removed, a negative index counting from the end; an index past the end removes nothing, and one before the start removes the first entry |
| InvestmentPlans.RemoveFeature | src/pages/InvestmentPlans.tsx:369-376 | the in-place shift on the copy leaves exactly the spliced list |
| InvestmentPlans.InvestmentPlansPage.constructor | src/pages/InvestmentPlans.tsx:105-111 | the page starts with no selection, no editor open and an empty form |
| InvestmentPlans.InvestmentPlansPage.HandleEdit | src/pages/InvestmentPlans.tsx:310-318 | the plan is selected, the form holds its values and edit mode opens |
| InvestmentPlans.InvestmentPlansPage.HandleCreate | src/pages/InvestmentPlans.tsx:320-336 | the selection clears, the blank form opens and create mode opens |
| InvestmentPlans.InvestmentPlansPage.HandleSave | src/pages/InvestmentPlans.tsx:338-349 | refused exactly when the form fails the check, changing nothing; in create mode the new plan is appended; otherwise the selected plan is updated; the form clears after either |
| InvestmentPlans.InvestmentPlansPage.HandleDelete | src/pages/InvestmentPlans.tsx:351-357 | nothing changes unless confirmed; then the plan's id is deleted and the selection clears |
| InvestmentPlans.InvestmentPlansPage.HandleAddFeature | src/pages/InvestmentPlans.tsx:359-367 | the form's list gets the added feature and the entry clears, or nothing changes for a blank entry |
| InvestmentPlans.InvestmentPlansPage.HandleRemoveFeature | src/pages/InvestmentPlans.tsx:369-376 | the form's list becomes the spliced list |
| StakingPlans.SortStakes | src/pages/StakingPlans.tsx:94-102 | a permutation of the stakes sorted by lower-cased user name |
| StakingPlans.CeilDays | src/pages/StakingPlans.tsx:131 | the least whole number of days covering the span |
| StakingPlans.DaysRemaining | src/pages/StakingPlans.tsx:131 | never negative; 0 exactly when the end is not after now; otherwise the least number of days covering the time left |
| StakingPlans.StakeFor | src/pages/StakingPlans.tsx:127-148 | a user gets a stake iff its index is below the number of plans, on `plans[index % n]`, started `index` days back, ending the plan's days later; completed iff no days remain |
| StakingPlans.SameInstantCountdown | src/pages/StakingPlans.tsx:129-131 | read at the same instant, `max(0, days - index)` days remain and the stake is completed iff `days <= index` |
| StakingPlans.CeilExact | src/pages/StakingPlans.tsx:131 | a whole number of days rounds up to itself |
| StakingPlans.CollectedStakesPrefix | src/pages/StakingPlans.tsx:126-150 | exactly the first `min(users, plans)` users get a stake, in order |
| StakingPlans.MockStakes | src/pages/StakingPlans.tsx:124-152 | the loop's result is the pushed stakes, sorted by lower-cased user name |
| StakingPlans.StakesCount | src/pages/StakingPlans.tsx:284-290 | the count is the number of uncompleted stakes on the plan, and 0 before the data arrives |
| StakingPlans.StakesCountIgnoresCompleted | src/pages/StakingPlans.tsx:284-290 | a plan whose stakes are all completed counts 0 |
| StakingPlans.FilteredStakes | src/pages/StakingPlans.tsx:299-319 | a permutation of the stakes the table's test keeps, sorted by lower-cased user name, none of them completed |
| StakingPlans.EmptyTermShowsRunning | src/pages/StakingPlans.tsx:301 | with an empty term a stake is kept exactly when it is not completed |
| StakingPlans.FilteredStakingPlans | src/pages/StakingPlans.tsx:292-296 | an order-preserving subsequence of the plans whose day count contains the term as typed or whose description contains it ignoring case, holding every such plan and as many entries as the list has; an empty term keeps all |
| StakingPlans.NewStakingFormNeedsDaysAndDescription | src/pages/StakingPlans.tsx:248-267 | the blank create form passes the save check exactly when days are non-zero and a description is given |
| StakingPlans.NewStakingPlan | src/pages/StakingPlans.tsx:200-210 | the new plan takes the form's values, a falsy id replaced by the fresh one, 0 for missing numbers, active unless the form says otherwise, stamped now |
| StakingPlans.NewStakingPlanFromBlankForm | src/pages/StakingPlans.tsx:200-210 | a plan created from the blank form is active with the typed days and description under the fresh id |
| StakingPlans.ApplyStakingForm | src/pages/StakingPlans.tsx:175 | each field present in the form is replaced, the others kept, and `updatedAt` becomes now |
| StakingPlans.UnchangedStakingFormOnlyTouches | src/pages/StakingPlans.tsx:175 | saving the form the editor was opened with moves only `updatedAt` |
| StakingPlans.UpdateStakingPlan | src/pages/StakingPlans.tsx:174-176 | same length; the plans with the selected id get the form; the others are unchanged |
| StakingPlans.DeleteStakingPlan | src/pages/StakingPlans.tsx:232 | every plan with the id is gone, every other plan is kept in order, and the length is the number of those others |
| StakingPlans.StakingPlansPage.constructor | src/pages/StakingPlans.tsx:61-66 | the page starts with no selection, no editor open and an empty form |
| StakingPlans.StakingPlansPage.HandleEdit | src/pages/StakingPlans.tsx:241-246 | the plan is selected, the form holds its values and edit mode opens |
| StakingPlans.StakingPlansPage.HandleCreate | src/pages/StakingPlans.tsx:248-261 | the selection clears, the blank form opens and create mode opens |
| StakingPlans.StakingPlansPage.HandleSave | src/pages/StakingPlans.tsx:263-274 | refused exactly when the form fails the check, changing nothing; in create mode the new plan is appended; otherwise the selected plan is updated; the form clears after either |
| StakingPlans.StakingPlansPage.HandleDelete | src/pages/StakingPlans.tsx:276-282 | nothing changes unless confirmed; then the plan's id is deleted and the selection clears |
| Transactions.FilteredTransactions | src/pages/Transactions.tsx:59-69 | an order-preserving subsequence with no mining entry, of the transactions whose user name or id contains the term and whose type is selected, holding every such transaction and as many entries as the list has |
| Transactions.ListedIffShown | src/pages/Transactions.tsx:59-69 | a transaction is listed exactly when it is in the list and passes the table's test |
| Transactions.EmptySearchShowsAllButMining | src/pages/Transactions.tsx:59-69 | an empty search with `'all'` lists every non-mining transaction, in order |
| Transactions.EmptySearchFilter | src/pages/Transactions.tsx:64-68 | with an empty search and `'all'`, the table's test is the same filter as "not mining" |
| Transactions.TypeColor | src/pages/Transactions.tsx:42-57 | the gray badge is given exactly to the types outside the five listed |
| Transactions.KnownKindsDistinct | src/pages/Transactions.tsx:42-57 | each of the five listed types has a colour no other type has |
| ActivityLogs.FilteredLogs | src/pages/ActivityLogs.tsx:62-69 | an order-preserving subsequence of the logs whose action, user name or id contains the term and whose type is selected, holding every such log and as many entries as the list has; an empty term with `'all'` keeps all |
| ActivityLogs.LogListedIffShown | src/pages/ActivityLogs.tsx:62-69 | a log is listed exactly when it is in the list and passes the table's test |
| ActivityLogs.NoUserSearchesActionOrId | src/pages/ActivityLogs.tsx:63-66 | a log without a user name matches only through its action or its id |
| ActivityLogs.LogTypeColor | src/pages/ActivityLogs.tsx:45-60 | the gray badge is given exactly to the types other than the four coloured ones |
| ActivityLogs.SystemLooksUnknown | src/pages/ActivityLogs.tsx:55-58 | `'system'` and every unlisted type share one badge |
| BuySell.PadStep | src/components/Dashboard/BuySellSection.tsx:12-20 | `C` empties the buffer, `B` drops the last character of a non-empty buffer and keeps an empty one empty, any other key is appended |
| BuySell.PadKeyKeepsDigits | src/components/Dashboard/BuySellSection.tsx:12-20 | a pad key applied to a buffer of digits leaves a buffer of digits |
| BuySell.ReachableBuffersAreDigits | src/components/Dashboard/BuySellSection.tsx:12-20 | every buffer the pad keys reach from a buffer of digits, the empty one included, holds digits only |
| BuySell.BackspaceUndoesDigit | src/components/Dashboard/BuySellSection.tsx:15-18 | a digit key followed by `B` restores the buffer |
| BuySell.NumberPads.constructor | src/components/Dashboard/BuySellSection.tsx:9-10 | both buffers start empty |
| BuySell.NumberPads.HandleNumberPad | src/components/Dashboard/BuySellSection.tsx:85-124 | a key on one pad steps that pad's buffer and leaves the other buffer alone |
| AuthStore.DefaultCredentials | src/store/authStore.ts:22-25 | with neither variable set, exactly `admin@eggmining.com` / `admin123` is accepted |
| AuthStore.EmptyVariableFallsBack | src/store/authStore.ts:22-23 | an empty variable counts as unset |
| AuthStore.Store.constructor | src/store/authStore.ts:17-18 | the store starts signed out with no user |
| AuthStore.Store.Login | src/store/authStore.ts:19-36 | success iff the credentials match; on success signed in as "Admin User" under the given email; otherwise "Invalid credentials" and nothing changes; signed in iff a user is recorded is kept |
| AuthStore.Store.Logout | src/store/authStore.ts:37-42 | whatever the state, signed out with no user |

## Left out

- Storage and I/O are not modelled. This covers `localStorage` reads and writes, JSON, react-query caching and invalidation, and the server calls each handler tries first. Every handler is modelled as its local fallback, acting on a list held as page state.
- Some pages read the query cache and write the stored list, which can differ in the program. Example: `handleCreateUser` checks against the query's users but appends to the stored list. The model has one list per page.
- `src/lib/api.ts` (the HTTP client) and `server.js` (static file serving) are not part of this model. They are network and file I/O.
- The clock and random draws are parameters:
  - `Date.now()` values and ISO timestamps (as integers of milliseconds);
  - `Date.now().toString()` ids (`newId`);
  - the random referral-code suffix (`suffix`, below 1000).
- MockActivations and MockStakes take one clock reading for the whole loop (MockStakes takes one for the start dates and one for the countdown). The source calls `Date.now()` again on every iteration, so the dates of users handled at different instants can drift apart by the loop's running time. The model does not capture that drift.
- Date-to-text formatting is left out.
- Floating-point arithmetic is left out:
  - `expectedReward = Math.round(minStake * rewardPercentage / 100)` is not a field of the modelled stake;
  - prices and balances are `real` values that are only copied;
  - price validation, price-times-amount and chart data are UI.
- `toLowerCase`/`toUpperCase` are ASCII-only case maps, and strings are sequences of characters. Unicode case rules and UTF-16 code units are not modelled.
- StakingPlans.StakingPlanMatches: `days.toString()` is written for integer day counts only.
- Sorting.SortByKey: states sortedness and permutation but not stability. `Array.prototype.sort` keeps equal names in input order; the insertion sort does too, but that is not proved.
- InvestmentPlans.MockActivations: states the multiset of pushed activations and the order by name, not the position of activations with equal names.
- StakingPlans.MockStakes: the same, for stakes.
- InvestmentPlans.FilteredActivations: the same, for the filtered table.
- StakingPlans.FilteredStakes: the same, for the filtered table.
- ReferralView.ReferralTree: the nested node objects are unfolded from the built forest with a depth bound equal to the number of users. `UnfoldComplete` proves that, with unique ids, the bound is never reached from a root. With duplicate ids a node can be its own descendant, and the page's own recursion would not end there. The model cuts such a tree off at the bound instead.
- The rendered tree, its indentation and which nodes are drawn expanded are presentation.
- The plan pages' delete fallback filters by `selectedPlan?.id`, which `handleDelete` sets just before calling the mutation. The model deletes the id of the plan passed to `handleDelete`. Which value the failure callback's closure actually sees depends on when the library reads it, and that is not modelled.
- Toasts, `confirm()` dialogs (a `confirmed` parameter), `showPassword`, the modal flags other than the user-create dialog, and the mock data sets are left out. They are presentation or fixed sample data.
- Persisting the auth store across reloads (`persist` middleware) is left out.
- The environment variables are parameters. The store's `throw` is an `Err` result.
- Pages and components outside the listed operations are not part of this model: the dashboard cards and charts, the market price page, the login page layout, the sidebar, the header and the navigation.
