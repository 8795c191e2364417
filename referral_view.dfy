// What the referral network page does with the built forest
// (src/pages/Referrals.tsx): the nested node objects it renders, the
// recursive referral totals, the subtree search, the expand/collapse set and
// the header figures.
module ReferralView {
  import opened Types
  import opened Text
  import opened Seqs
  import opened Referrals

  // ---------------------------------------------------------------- nested nodes

  /** A `ReferralTreeNode` as the page sees it: a user, the stored level and the child nodes. */
  datatype TreeNode = TreeNode(user: User, level: int, children: seq<TreeNode>)

  /** Every node index the forest mentions names a user. */
  predicate WellFormed(users: seq<User>, f: Forest) {
    |f.children| == |users| && |f.level| == |users|
    && (forall j :: 0 <= j < |f.roots| ==> f.roots[j] < |users|)
    && forall p, j :: 0 <= p < |users| && 0 <= j < |f.children[p]| ==> f.children[p][j] < |users|
  }

  lemma {:induction false} ChildrenInRange(users: seq<User>, t: nat, p: nat)
    requires t <= |users|
    ensures forall j :: 0 <= j < |ChildrenUpTo(users, t, p)| ==> ChildrenUpTo(users, t, p)[j] < |users|
  {
    if t > 0 { ChildrenInRange(users, t - 1, p); }
  }

  lemma {:induction false} RootsInRange(users: seq<User>, t: nat)
    requires t <= |users|
    ensures forall j :: 0 <= j < |RootsUpTo(users, t)| ==> RootsUpTo(users, t)[j] < |users|
  {
    if t > 0 { RootsInRange(users, t - 1); }
  }

  /** The forest the builder returns only ever names users of its input. */
  lemma BuiltWellFormed(users: seq<User>)
    ensures WellFormed(users, Built(users))
  {
    RootsInRange(users, |users|);
    forall p | 0 <= p < |users| {
      ChildrenInRange(users, |users|, p);
    }
  }

  /**
   * The node object for node `k`, followed through `children` at most `fuel`
   * levels deep. With unique ids the page never needs the bound (see
   * `UnfoldComplete`); with duplicate ids a node can be its own descendant and
   * the page's recursion would not end.
   */
  function Unfold(users: seq<User>, f: Forest, k: nat, fuel: nat): TreeNode
    requires WellFormed(users, f) && k < |users|
    decreases fuel
  {
    TreeNode(users[k], f.level[k],
      if fuel == 0 then []
      else seq(|f.children[k]|, i requires 0 <= i < |f.children[k]| => Unfold(users, f, f.children[k][i], fuel - 1)))
  }

  /** `users ? buildReferralTree(users) : []`: the root node objects. */
  function ReferralTree(users: Option<seq<User>>): (tree: seq<TreeNode>)
    ensures users.Some? ==> |tree| == |RootsUpTo(users.value, |users.value|)|
    ensures users.None? ==> tree == []
  {
    match users
    case None => []
    case Some(us) =>
      BuiltWellFormed(us);
      var f := Built(us);
      seq(|f.roots|, j requires 0 <= j < |f.roots| => Unfold(us, f, f.roots[j], |us|))
  }

  /** `t` is the node object of node `k`: its user, its stored level and, recursively, all its children. */
  ghost predicate Mirrors(users: seq<User>, f: Forest, k: nat, t: TreeNode)
    requires WellFormed(users, f)
    decreases t
  {
    k < |users| && t.user == users[k] && t.level == f.level[k]
    && |t.children| == |f.children[k]|
    && forall i :: 0 <= i < |t.children| ==> Mirrors(users, f, f.children[k][i], t.children[i])
  }

  predicate Distinct(s: seq<nat>) {
    forall i, j :: 0 <= i < j < |s| ==> s[i] != s[j]
  }

  lemma {:induction false} DistinctCard(s: seq<nat>)
    requires Distinct(s)
    ensures |set i | 0 <= i < |s| :: s[i]| == |s|
  {
    if s != [] {
      var rest := s[1..];
      DistinctCard(rest);
      var a := set i | 0 <= i < |s| :: s[i];
      var b := set i | 0 <= i < |rest| :: rest[i];
      assert a == {s[0]} + b by {
        forall x | x in a ensures x in {s[0]} + b {
          var i :| 0 <= i < |s| && s[i] == x;
          if i > 0 { assert rest[i - 1] == x; }
        }
      }
      assert s[0] !in b;
    }
  }

  lemma {:induction false} BoundedCard(a: set<nat>, n: nat)
    requires forall x :: x in a ==> x < n
    ensures |a| <= n
  {
    if n == 0 {
      assert a == {};
    } else {
      BoundedCard(a - {n - 1}, n - 1);
    }
  }

  lemma DownPathSlice(users: seq<User>, path: seq<nat>, i: nat, j: nat)
    requires DownPath(users, path) && i < j <= |path|
    ensures DownPath(users, path[i..j])
  {
    var s := path[i..j];
    forall a | 0 <= a < |s| - 1 ensures s[a + 1] in ChildrenUpTo(users, |users|, s[a]) {
      assert s[a] == path[i + a] && s[a + 1] == path[i + a + 1];
    }
  }

  lemma DownPathExtend(users: seq<User>, path: seq<nat>, c: nat)
    requires DownPath(users, path) && c < |users| && c in ChildrenUpTo(users, |users|, path[|path| - 1])
    ensures DownPath(users, path + [c]) && (path + [c])[0] == path[0] && (path + [c])[|path|] == c
  {
    var s := path + [c];
    forall a | 0 <= a < |s| - 1 ensures s[a + 1] in ChildrenUpTo(users, |users|, s[a]) {
      if a < |path| - 1 {
        assert s[a] == path[a] && s[a + 1] == path[a + 1];
      }
    }
  }

  /** A downward path that starts at a root never visits a node twice (unique ids). */
  lemma DownPathDistinct(users: seq<User>, path: seq<nat>)
    requires UniqueIds(users) && DownPath(users, path) && path[0] in RootsUpTo(users, |users|)
    ensures Distinct(path)
  {
    forall i, j | 0 <= i < j < |path| ensures path[i] != path[j] {
      NoRepeat(users, path, i, j);
    }
  }

  /** One pair of positions of `DownPathDistinct`: a repeat would put its node on a cycle reached from a root. */
  lemma NoRepeat(users: seq<User>, path: seq<nat>, i: nat, j: nat)
    requires UniqueIds(users) && DownPath(users, path) && path[0] in RootsUpTo(users, |users|)
    requires i < j < |path|
    ensures path[i] != path[j]
  {
    WalkBack(users, path, i, j);
    PrefixOffCycle(users, path, j);
  }

  /** Walking up `j - i` links from position `j` of a downward path reaches position `i`. */
  lemma WalkBack(users: seq<User>, path: seq<nat>, i: nat, j: nat)
    requires UniqueIds(users) && DownPath(users, path) && i < j < |path|
    ensures Ancestor(users, path[j], j - i) == Some(path[i])
  {
    var loop := path[i..j + 1];
    assert |loop| - 1 == j - i && loop[j - i] == path[j] && loop[0] == path[i];
    DownPathSlice(users, path, i, j + 1);
    DownPathRetraced(users, loop);
  }

  /** No node on a downward path from a root lies on a referrer cycle. */
  lemma PrefixOffCycle(users: seq<User>, path: seq<nat>, j: nat)
    requires UniqueIds(users) && DownPath(users, path) && path[0] in RootsUpTo(users, |users|)
    requires j < |path|
    ensures !OnCycle(users, path[j])
  {
    var prefix := path[..j + 1];
    assert prefix[|prefix| - 1] == path[j];
    assert DownPath(users, prefix) by { DownPathSlice(users, path, 0, j + 1); }
    assert prefix[0] in RootsUpTo(users, |users|) by { assert prefix[0] == path[0]; }
    CycleUnreachable(users, prefix);
  }

  /** With unique ids no downward path from a root is longer than the user list. */
  lemma DownPathBounded(users: seq<User>, path: seq<nat>)
    requires UniqueIds(users) && DownPath(users, path) && path[0] in RootsUpTo(users, |users|)
    ensures |path| <= |users|
  {
    DownPathDistinct(users, path);
    DistinctCard(path);
    BoundedCard(set i | 0 <= i < |path| :: path[i], |users|);
  }

  /**
   * With unique ids, unfolding a node reached from a root by `path` with fuel
   * enough for the nodes not yet on the path reproduces its whole subtree.
   */
  lemma {:induction false} UnfoldMirrors(users: seq<User>, path: seq<nat>, fuel: nat)
    requires UniqueIds(users) && DownPath(users, path) && path[0] in RootsUpTo(users, |users|)
    requires |path| + fuel >= |users|
    ensures WellFormed(users, Built(users))
    ensures Mirrors(users, Built(users), path[|path| - 1], Unfold(users, Built(users), path[|path| - 1], fuel))
    decreases fuel
  {
    BuiltWellFormed(users);
    var f := Built(users);
    var k := path[|path| - 1];
    var t := Unfold(users, f, k, fuel);
    if fuel == 0 {
      if f.children[k] != [] {
        var c := f.children[k][0];
        ChildrenInRange(users, |users|, k);
        DownPathExtend(users, path, c);
        DownPathBounded(users, path + [c]);
        assert false;
      }
    } else {
      forall i | 0 <= i < |t.children|
        ensures Mirrors(users, f, f.children[k][i], t.children[i])
      {
        var c := f.children[k][i];
        ChildrenInRange(users, |users|, k);
        DownPathExtend(users, path, c);
        UnfoldMirrors(users, path + [c], fuel - 1);
      }
    }
  }

  /** With unique ids every root node object carries its complete subtree. */
  lemma UnfoldComplete(users: seq<User>, j: nat)
    requires UniqueIds(users) && j < |RootsUpTo(users, |users|)|
    ensures |ReferralTree(Some(users))| == |RootsUpTo(users, |users|)|
    ensures WellFormed(users, Built(users))
    ensures Mirrors(users, Built(users), RootsUpTo(users, |users|)[j], ReferralTree(Some(users))[j])
  {
    BuiltWellFormed(users);
    var r := RootsUpTo(users, |users|)[j];
    RootsInRange(users, |users|);
    assert DownPath(users, [r]);
    UnfoldMirrors(users, [r], |users|);
  }

  // ---------------------------------------------------------------- subtree contents

  /** The users of a subtree in pre-order: the node, then each child's subtree in turn. */
  function Flatten(t: TreeNode): seq<User> {
    [t.user] + FlattenAll(t.children)
  }

  function FlattenAll(ts: seq<TreeNode>): seq<User> {
    if ts == [] then [] else FlattenAll(ts[..|ts| - 1]) + Flatten(ts[|ts| - 1])
  }

  /** The sum of the stored `totalReferrals` of a list of users. */
  function SumReferrals(us: seq<User>): int {
    if us == [] then 0 else SumReferrals(us[..|us| - 1]) + us[|us| - 1].totalReferrals
  }

  lemma {:induction false} SumReferralsAppend(a: seq<User>, b: seq<User>)
    ensures SumReferrals(a + b) == SumReferrals(a) + SumReferrals(b)
    decreases |b|
  {
    if b != [] {
      SumReferralsAppend(a, b[..|b| - 1]);
      assert (a + b)[..|a + b| - 1] == a + b[..|b| - 1];
    } else {
      assert a + b == a;
    }
  }

  // ---------------------------------------------------------------- referral totals

  /** `calculateTotalReferrals(node)`: the node's own count plus its children's totals. */
  function Total(t: TreeNode): (r: int)
    ensures t.children == [] ==> r == t.user.totalReferrals
  {
    t.user.totalReferrals + ChildTotals(t.children)
  }

  /** `children.reduce((sum, child) => sum + calculateTotalReferrals(child), 0)`. */
  function ChildTotals(ts: seq<TreeNode>): int {
    if ts == [] then 0 else ChildTotals(ts[..|ts| - 1]) + Total(ts[|ts| - 1])
  }

  /** `calculateTotalReferrals`: accumulates the children's totals into `total` in a loop. */
  method CalculateTotalReferrals(node: TreeNode) returns (total: int)
    ensures total == Total(node)
    decreases node
  {
    total := node.user.totalReferrals;
    var i := 0;
    while i < |node.children|
      invariant 0 <= i <= |node.children|
      invariant total == node.user.totalReferrals + ChildTotals(node.children[..i])
    {
      assert node.children[..i + 1][..i] == node.children[..i];
      var sub := CalculateTotalReferrals(node.children[i]);
      total := total + sub;
      i := i + 1;
    }
    assert node.children[..|node.children|] == node.children;
  }

  /** The "Sub" figure of a node: its children's totals, which is its own total less its own count. */
  function SubReferrals(t: TreeNode): (r: int)
    ensures r == Total(t) - t.user.totalReferrals
    ensures r == SumReferrals(FlattenAll(t.children))
  {
    TotalIsSubtreeSum(t);
    SumReferralsAppend([t.user], FlattenAll(t.children));
    ChildTotals(t.children)
  }

  /** A node's total is the sum of the stored counts over every user in its subtree. */
  lemma {:induction false} TotalIsSubtreeSum(t: TreeNode)
    ensures Total(t) == SumReferrals(Flatten(t))
    ensures ChildTotals(t.children) == SumReferrals(FlattenAll(t.children))
    decreases t, 1
  {
    ChildTotalsIsSum(t.children);
    SumReferralsAppend([t.user], FlattenAll(t.children));
  }

  lemma {:induction false} ChildTotalsIsSum(ts: seq<TreeNode>)
    ensures ChildTotals(ts) == SumReferrals(FlattenAll(ts))
    decreases ts, 0
  {
    if ts != [] {
      var last := ts[|ts| - 1];
      ChildTotalsIsSum(ts[..|ts| - 1]);
      TotalIsSubtreeSum(last);
      SumReferralsAppend(FlattenAll(ts[..|ts| - 1]), Flatten(last));
    }
  }

  // ---------------------------------------------------------------- search

  /** The search test on one node: full name, email, username or referral code contains the term, ignoring case. */
  predicate UserMatches(u: User, term: string) {
    IncludesCI(u.fullName, term) || IncludesCI(u.email, term)
    || IncludesCI(u.username, term) || IncludesCI(u.referralCode, term)
  }

  /** `matchesChildren(node)`: the node matches, or some child's subtree does. */
  predicate MatchesChildren(t: TreeNode, term: string) {
    UserMatches(t.user, term) || AnyMatches(t.children, term)
  }

  /** `children.some(matchesChildren)`. */
  predicate AnyMatches(ts: seq<TreeNode>, term: string) {
    ts != [] && (AnyMatches(ts[..|ts| - 1], term) || MatchesChildren(ts[|ts| - 1], term))
  }

  /** Some user of the list passes the search test. */
  predicate SomeMatch(us: seq<User>, term: string) {
    exists i :: 0 <= i < |us| && UserMatches(us[i], term)
  }

  lemma SomeMatchAppend(a: seq<User>, b: seq<User>, term: string)
    ensures SomeMatch(a + b, term) <==> SomeMatch(a, term) || SomeMatch(b, term)
  {
    if SomeMatch(a + b, term) {
      var i :| 0 <= i < |a + b| && UserMatches((a + b)[i], term);
      if i >= |a| { assert b[i - |a|] == (a + b)[i]; }
    }
    if SomeMatch(b, term) {
      var i :| 0 <= i < |b| && UserMatches(b[i], term);
      assert (a + b)[|a| + i] == b[i];
    }
    if SomeMatch(a, term) {
      var i :| 0 <= i < |a| && UserMatches(a[i], term);
      assert (a + b)[i] == a[i];
    }
  }

  /** The recursive search finds a match exactly when some user of the subtree matches. */
  lemma {:induction false} MatchesIffSomeUser(t: TreeNode, term: string)
    ensures MatchesChildren(t, term) <==> SomeMatch(Flatten(t), term)
    decreases t, 1
  {
    AnyMatchesIffSomeUser(t.children, term);
    SomeMatchAppend([t.user], FlattenAll(t.children), term);
    assert UserMatches(t.user, term) <==> SomeMatch([t.user], term) by {
      if UserMatches(t.user, term) { assert [t.user][0] == t.user; }
    }
  }

  lemma {:induction false} AnyMatchesIffSomeUser(ts: seq<TreeNode>, term: string)
    ensures AnyMatches(ts, term) <==> SomeMatch(FlattenAll(ts), term)
    decreases ts, 0
  {
    if ts != [] {
      AnyMatchesIffSomeUser(ts[..|ts| - 1], term);
      MatchesIffSomeUser(ts[|ts| - 1], term);
      SomeMatchAppend(FlattenAll(ts[..|ts| - 1]), Flatten(ts[|ts| - 1]), term);
    }
  }

  /** The test `filteredTree` applies to a root: `matchesRoot || matchesChildren(root)`. */
  predicate KeepRoot(root: TreeNode, term: string) {
    UserMatches(root.user, term) || MatchesChildren(root, term)
  }

  /**
   * `filteredTree`: an empty term shows the forest as it is; otherwise the
   * roots whose subtree holds a matching user, in their original order.
   */
  function FilteredTree(tree: seq<TreeNode>, term: string): (r: seq<TreeNode>)
    ensures term == "" ==> r == tree
    ensures IsSubsequence(r, tree)
    ensures term != "" ==> forall i :: 0 <= i < |r| ==> SomeMatch(Flatten(r[i]), term)
    ensures term != "" ==> forall i :: 0 <= i < |tree| && SomeMatch(Flatten(tree[i]), term) ==> tree[i] in r
    ensures term != "" ==> |r| == CountWhere(tree, (root: TreeNode) => KeepRoot(root, term))
  {
    if term == "" then
      SubsequenceRefl(tree);
      tree
    else
      var keep := (root: TreeNode) => KeepRoot(root, term);
      FilterIsSubsequence(tree, keep);
      FilterLength(tree, keep);
      forall root: TreeNode ensures KeepRoot(root, term) <==> SomeMatch(Flatten(root), term) {
        MatchesIffSomeUser(root, term);
      }
      Filter(tree, keep)
  }

  // ---------------------------------------------------------------- expand / collapse

  /** The set after `toggleNode(id)`: `id` is removed if present and added otherwise. */
  function Toggled(s: set<string>, id: string): (r: set<string>)
    ensures id in r <==> id !in s
    ensures forall x :: x != id ==> (x in r <==> x in s)
  {
    if id in s then s - {id} else s + {id}
  }

  /** Toggling the same node twice restores the set. */
  lemma ToggleTwice(s: set<string>, id: string)
    ensures Toggled(Toggled(s, id), id) == s
  {
  }

  /** `new Set(users.map((u) => u.id))`. */
  function AllIds(users: seq<User>): (r: set<string>)
    ensures forall x :: x in r <==> exists i :: 0 <= i < |users| && users[i].id == x
  {
    set i | 0 <= i < |users| :: users[i].id
  }

  // ---------------------------------------------------------------- header

  datatype HeaderTotals = HeaderTotals(totalUsers: int, totalReferrals: int, rootUsers: int)

  /**
   * The three header figures: the number of users, the sum of their stored
   * referral counts and the number of roots; all zero before the data arrives.
   */
  function Header(users: Option<seq<User>>): (h: HeaderTotals)
    ensures users.None? ==> h == HeaderTotals(0, 0, 0)
    ensures users.Some? ==> h.totalUsers == |users.value| && h.totalReferrals == SumReferrals(users.value)
    ensures h.rootUsers == |ReferralTree(users)| && 0 <= h.rootUsers <= h.totalUsers
  {
    match users
    case None => HeaderTotals(0, 0, 0)
    case Some(us) =>
      EachUserPlacedOnce(us, |us|);
      HeaderTotals(|us|, SumReferrals(us), |ReferralTree(users)|)
  }

  /** The page state: the loaded users, the search box and the set of expanded node ids. */
  class ReferralsPage {
    var users: Option<seq<User>>
    var searchTerm: string
    var expandedNodes: set<string>

    constructor (users: Option<seq<User>>)
      ensures this.users == users && searchTerm == "" && expandedNodes == {}
    {
      this.users := users;
      searchTerm := "";
      expandedNodes := {};
    }

    /** The roots on screen: the forest narrowed by the search box. */
    function Shown(): seq<TreeNode>
      reads this
    {
      FilteredTree(ReferralTree(users), searchTerm)
    }

    method ToggleNode(id: string)
      modifies this
      ensures expandedNodes == Toggled(old(expandedNodes), id)
      ensures users == old(users) && searchTerm == old(searchTerm)
    {
      var next := expandedNodes;
      if id in next {
        next := next - {id};
      } else {
        next := next + {id};
      }
      expandedNodes := next;
    }

    /** Expands every user's node once the data has arrived; before that it does nothing. */
    method ExpandAll()
      modifies this
      ensures users.None? ==> expandedNodes == old(expandedNodes)
      ensures users.Some? ==> expandedNodes == AllIds(users.value)
      ensures users == old(users) && searchTerm == old(searchTerm)
    {
      if users.None? {
        return;
      }
      expandedNodes := AllIds(users.value);
    }

    method CollapseAll()
      modifies this
      ensures expandedNodes == {}
      ensures users == old(users) && searchTerm == old(searchTerm)
    {
      expandedNodes := {};
    }
  }
}
