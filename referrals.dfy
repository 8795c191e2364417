// The referral network page (src/pages/Referrals.tsx): the forest built from
// `referrerId` links, the per-subtree referral totals, the search over whole
// subtrees, the expand/collapse set and the header figures.
//
// The builder fills an id -> node map and then pushes node objects onto
// `roots` or onto a parent's `children`, writing `level` on the shared node.
// Here a node is named by the index of the user it was made from (the map
// holds indices), the node fields `children` and `level` are two arrays
// indexed by node, and the result is returned as a `Forest` value. The
// functions `RootsUpTo`, `ChildrenUpTo` and `LevelAt` describe the state
// after the first `t` users of the second pass; the lemmas below say what
// that state means.
module Referrals {
  import opened Types
  import opened Text
  import opened Seqs

  // ---------------------------------------------------------------- the id map

  /** `userMap` after the first pass: `Map.set` for every user in turn. */
  function IdMap(users: seq<User>): map<string, nat>
  {
    if users == [] then map[]
    else IdMap(users[..|users| - 1])[users[|users| - 1].id := |users| - 1]
  }

  /** The index of the last user carrying `id`, or -1 when there is none. */
  function LastIndex(users: seq<User>, id: string): (r: int)
    ensures -1 <= r < |users|
    ensures r >= 0 ==> users[r].id == id
  {
    if users == [] then -1
    else if users[|users| - 1].id == id then |users| - 1
    else LastIndex(users[..|users| - 1], id)
  }

  /** No user after the one `LastIndex` finds carries the id, and it finds one whenever one exists. */
  lemma {:induction false} LastIndexIsLast(users: seq<User>, id: string, j: nat)
    requires j < |users| && users[j].id == id
    ensures j <= LastIndex(users, id)
  {
    if j < |users| - 1 && users[|users| - 1].id != id {
      LastIndexIsLast(users[..|users| - 1], id, j);
    }
  }

  lemma {:induction false} LastIndexAbsent(users: seq<User>, id: string)
    requires LastIndex(users, id) == -1
    ensures forall j :: 0 <= j < |users| ==> users[j].id != id
  {
    forall j | 0 <= j < |users| ensures users[j].id != id {
      if users[j].id == id { LastIndexIsLast(users, id, j); }
    }
  }

  /**
   * The map the first pass builds holds exactly the ids of the users, each
   * mapped to the last user carrying it: a later duplicate overwrites.
   */
  lemma {:induction false} IdMapIsLastIndex(users: seq<User>)
    ensures forall id :: id in IdMap(users) <==> LastIndex(users, id) >= 0
    ensures forall id :: id in IdMap(users) ==> IdMap(users)[id] == LastIndex(users, id)
  {
    if users != [] {
      IdMapIsLastIndex(users[..|users| - 1]);
    }
  }

  /** No two users share an id. */
  predicate UniqueIds(users: seq<User>) {
    forall i, j :: 0 <= i < j < |users| ==> users[i].id != users[j].id
  }

  /** The node `userMap.get(user.id)` that the second pass handles for user `j`. */
  function NodeOf(users: seq<User>, j: nat): (k: nat)
    requires j < |users|
    ensures j <= k < |users| && users[k].id == users[j].id
  {
    LastIndexIsLast(users, users[j].id, j);
    LastIndex(users, users[j].id)
  }

  /** User `j` has a truthy `referrerId` that names a node. */
  predicate Resolves(users: seq<User>, j: nat)
    requires j < |users|
  {
    Truthy(users[j].referrerId) && LastIndex(users, users[j].referrerId.value) >= 0
  }

  /** The node `userMap.get(user.referrerId)` for a user whose referrer resolves. */
  function ParentOf(users: seq<User>, j: nat): (p: nat)
    requires j < |users| && Resolves(users, j)
    ensures p < |users| && users[p].id == users[j].referrerId.value
  {
    LastIndex(users, users[j].referrerId.value)
  }

  // ---------------------------------------------------------------- the state of the second pass

  /** `roots` after the second pass has handled users `0 .. t-1`. */
  function RootsUpTo(users: seq<User>, t: nat): seq<nat>
    requires t <= |users|
  {
    if t == 0 then []
    else RootsUpTo(users, t - 1) + (if Resolves(users, t - 1) then [] else [NodeOf(users, t - 1)])
  }

  /** `children` of node `p` after the second pass has handled users `0 .. t-1`. */
  function ChildrenUpTo(users: seq<User>, t: nat, p: nat): seq<nat>
    requires t <= |users|
  {
    if t == 0 then []
    else
      ChildrenUpTo(users, t - 1, p)
      + (if Resolves(users, t - 1) && ParentOf(users, t - 1) == p then [NodeOf(users, t - 1)] else [])
  }

  /** `level` of node `k` after the second pass has handled users `0 .. t-1`. */
  function LevelAt(users: seq<User>, t: nat, k: nat): int
    requires t <= |users|
  {
    if t == 0 then 0
    else if Resolves(users, t - 1) && NodeOf(users, t - 1) == k then
      LevelAt(users, t - 1, ParentOf(users, t - 1)) + 1
    else LevelAt(users, t - 1, k)
  }

  /** The built forest: the root nodes, and per node its children and its stored level. */
  datatype Forest = Forest(roots: seq<nat>, children: seq<seq<nat>>, level: seq<int>)

  /** The first pass of `buildReferralTree`: one map entry per user, in input order. */
  method CreateNodes(users: seq<User>) returns (userMap: map<string, nat>)
    ensures userMap == IdMap(users)
  {
    userMap := map[];
    var i := 0;
    while i < |users|
      invariant 0 <= i <= |users|
      invariant userMap == IdMap(users[..i])
    {
      assert users[..i + 1][..i] == users[..i];
      userMap := userMap[users[i].id := i];
      i := i + 1;
    }
    assert users[..|users|] == users;
  }

  /** The `children` field of every node after the second pass has handled users `0 .. t-1`. */
  function ChildLists(users: seq<User>, t: nat): (cs: seq<seq<nat>>)
    requires t <= |users|
    ensures |cs| == |users|
    ensures forall p :: 0 <= p < |users| ==> cs[p] == ChildrenUpTo(users, t, p)
  {
    seq(|users|, p requires 0 <= p < |users| => ChildrenUpTo(users, t, p))
  }

  /** The `level` field of every node after the second pass has handled users `0 .. t-1`. */
  function Levels(users: seq<User>, t: nat): (ls: seq<int>)
    requires t <= |users|
    ensures |ls| == |users|
    ensures forall k :: 0 <= k < |users| ==> ls[k] == LevelAt(users, t, k)
  {
    seq(|users|, k requires 0 <= k < |users| => LevelAt(users, t, k))
  }

  /** The forest the second pass leaves behind once every user is handled. */
  function Built(users: seq<User>): Forest {
    Forest(RootsUpTo(users, |users|), ChildLists(users, |users|), Levels(users, |users|))
  }

  /** `buildReferralTree(users)`, with the node fields it writes. */
  method BuildReferralTree(users: seq<User>) returns (f: Forest)
    ensures f.roots == RootsUpTo(users, |users|)
    ensures f.children == ChildLists(users, |users|)
    ensures f.level == Levels(users, |users|)
  {
    var userMap := CreateNodes(users);

    // Build the tree.
    var children := new seq<nat>[|users|](_ => []);
    var level := new int[|users|](_ => 0);
    var roots: seq<nat> := [];
    var i := 0;
    while i < |users|
      invariant 0 <= i <= |users|
      invariant roots == RootsUpTo(users, i)
      invariant children[..] == ChildLists(users, i)
      invariant level[..] == Levels(users, i)
    {
      roots := HandleUser(users, userMap, i, roots, children, level);
      i := i + 1;
    }
    f := Forest(roots, children[..], level[..]);
  }

  /** One turn of the second pass: user `i` becomes a child of its referrer's node or a root. */
  method HandleUser(users: seq<User>, userMap: map<string, nat>, i: nat, roots: seq<nat>,
                    children: array<seq<nat>>, level: array<int>) returns (roots': seq<nat>)
    requires userMap == IdMap(users) && i < |users|
    requires roots == RootsUpTo(users, i)
    requires children[..] == ChildLists(users, i) && level[..] == Levels(users, i)
    modifies children, level
    ensures roots' == RootsUpTo(users, i + 1)
    ensures children[..] == ChildLists(users, i + 1) && level[..] == Levels(users, i + 1)
  {
      var user := users[i];
      IdMapAt(users, user.id);
      LastIndexIsLast(users, user.id, i);
      var node := userMap[user.id];
      assert node == NodeOf(users, i);
      var attached := false;
      if Truthy(user.referrerId) {
        IdMapAt(users, user.referrerId.value);
        attached := user.referrerId.value in userMap;
      }
      assert attached == Resolves(users, i);
      if attached {
        var parent := userMap[user.referrerId.value];
        assert parent == ParentOf(users, i);
        StepAttached(users, i);
        Attach(children, level, parent, node);
        roots' := roots;
      } else {
        StepRoot(users, i);
        roots' := roots + [node];
      }
  }

  /** One user's map entry, as `IdMapIsLastIndex` states it for every id. */
  lemma IdMapAt(users: seq<User>, id: string)
    ensures id in IdMap(users) <==> LastIndex(users, id) >= 0
    ensures id in IdMap(users) ==> IdMap(users)[id] == LastIndex(users, id)
  {
    IdMapIsLastIndex(users);
  }

  /** `parent.children.push(node); node.level = parent.level + 1`. */
  method Attach(children: array<seq<nat>>, level: array<int>, parent: nat, node: nat)
    requires parent < children.Length && node < level.Length && parent < level.Length
    modifies children, level
    ensures children[..] == old(children[..])[parent := old(children[parent]) + [node]]
    ensures level[..] == old(level[..])[node := old(level[parent]) + 1]
  {
    children[parent] := children[parent] + [node];
    level[node] := level[parent] + 1;
  }

  /** What handling user `i` does when its referrer resolves. */
  lemma StepAttached(users: seq<User>, i: nat)
    requires i < |users| && Resolves(users, i)
    ensures RootsUpTo(users, i + 1) == RootsUpTo(users, i)
    ensures ChildLists(users, i + 1)
      == ChildLists(users, i)[ParentOf(users, i) := ChildLists(users, i)[ParentOf(users, i)] + [NodeOf(users, i)]]
    ensures Levels(users, i + 1)
      == Levels(users, i)[NodeOf(users, i) := Levels(users, i)[ParentOf(users, i)] + 1]
  {
    var cs := ChildLists(users, i);
    var expected := cs[ParentOf(users, i) := cs[ParentOf(users, i)] + [NodeOf(users, i)]];
    forall p | 0 <= p < |users| ensures ChildLists(users, i + 1)[p] == expected[p] {
      assert ChildLists(users, i + 1)[p] == ChildrenUpTo(users, i + 1, p);
    }
  }

  /** What handling user `i` does when it has no resolving referrer. */
  lemma StepRoot(users: seq<User>, i: nat)
    requires i < |users| && !Resolves(users, i)
    ensures RootsUpTo(users, i + 1) == RootsUpTo(users, i) + [NodeOf(users, i)]
    ensures ChildLists(users, i + 1) == ChildLists(users, i)
    ensures Levels(users, i + 1) == Levels(users, i)
  {
    forall p | 0 <= p < |users| ensures ChildLists(users, i + 1)[p] == ChildLists(users, i)[p] {
      assert ChildLists(users, i + 1)[p] == ChildrenUpTo(users, i + 1, p);
    }
  }

  // ---------------------------------------------------------------- what the forest means

  /** User `c` names user `p` as referrer: a truthy `referrerId` equal to `p`'s id. */
  predicate ReferredBy(users: seq<User>, c: nat, p: nat)
    requires c < |users| && p < |users|
  {
    Truthy(users[c].referrerId) && users[c].referrerId.value == users[p].id
  }

  /** User `j` has no referrer, or one whose id belongs to nobody. */
  predicate IsRootUser(users: seq<User>, j: nat)
    requires j < |users|
  {
    !Truthy(users[j].referrerId) || forall p :: 0 <= p < |users| ==> users[p].id != users[j].referrerId.value
  }

  predicate Increasing(s: seq<nat>) {
    forall a, b :: 0 <= a < b < |s| ==> s[a] < s[b]
  }

  /** A referrer resolves exactly when the user is not a root user. */
  lemma ResolvesIffNotRoot(users: seq<User>, j: nat)
    requires j < |users|
    ensures Resolves(users, j) <==> !IsRootUser(users, j)
  {
    if Truthy(users[j].referrerId) && LastIndex(users, users[j].referrerId.value) == -1 {
      LastIndexAbsent(users, users[j].referrerId.value);
    }
  }

  /** With unique ids the map resolves a referrer to the very user it names. */
  lemma ParentIffReferredBy(users: seq<User>, c: nat, p: nat)
    requires UniqueIds(users) && c < |users| && p < |users|
    ensures (Resolves(users, c) && ParentOf(users, c) == p) <==> ReferredBy(users, c, p)
  {
    if ReferredBy(users, c, p) {
      LastIndexIsLast(users, users[p].id, p);
    }
  }

  /** With unique ids every user is its own node. */
  lemma NodeIsSelf(users: seq<User>, j: nat)
    requires UniqueIds(users) && j < |users|
    ensures NodeOf(users, j) == j
  {
  }

  /** Appending an index above every element keeps a sequence increasing. */
  lemma AppendIncreasing(s: seq<nat>, x: nat)
    requires Increasing(s) && forall j :: j in s ==> j < x
    ensures Increasing(s + [x])
  {
    forall a, b | 0 <= a < b < |s| + 1 ensures (s + [x])[a] < (s + [x])[b] {
      if b == |s| { assert s[a] in s; }
    }
  }

  /**
   * With unique ids the roots are exactly the root users, each once and in
   * input order.
   */
  lemma {:induction false} RootsAreRootUsers(users: seq<User>, t: nat)
    requires UniqueIds(users) && t <= |users|
    ensures forall j: nat :: j in RootsUpTo(users, t) <==> j < t && IsRootUser(users, j)
    ensures Increasing(RootsUpTo(users, t))
  {
    if t > 0 {
      RootsAreRootUsers(users, t - 1);
      ResolvesIffNotRoot(users, t - 1);
      NodeIsSelf(users, t - 1);
      if !Resolves(users, t - 1) {
        AppendIncreasing(RootsUpTo(users, t - 1), t - 1);
      }
    }
  }

  /**
   * With unique ids the children of user `p` are exactly the users that name
   * `p` as referrer, each once and in input order.
   */
  lemma {:induction false} ChildrenAreReferred(users: seq<User>, t: nat, p: nat)
    requires UniqueIds(users) && t <= |users| && p < |users|
    ensures forall c: nat :: c in ChildrenUpTo(users, t, p) <==> c < t && ReferredBy(users, c, p)
    ensures Increasing(ChildrenUpTo(users, t, p))
  {
    if t > 0 {
      ChildrenAreReferred(users, t - 1, p);
      ParentIffReferredBy(users, t - 1, p);
      NodeIsSelf(users, t - 1);
      if Resolves(users, t - 1) && ParentOf(users, t - 1) == p {
        AppendIncreasing(ChildrenUpTo(users, t - 1, p), t - 1);
      }
    }
  }

  // ---------------------------------------------------------------- every user placed once

  /** The number of nodes pushed onto the children of nodes `0 .. q-1`. */
  function ChildCount(users: seq<User>, t: nat, q: nat): nat
    requires t <= |users|
  {
    if q == 0 then 0 else ChildCount(users, t, q - 1) + |ChildrenUpTo(users, t, q - 1)|
  }

  lemma {:induction false} ChildCountStep(users: seq<User>, t: nat, q: nat)
    requires t < |users|
    ensures ChildCount(users, t + 1, q)
      == ChildCount(users, t, q) + (if Resolves(users, t) && ParentOf(users, t) < q then 1 else 0)
  {
    if q > 0 {
      ChildCountStep(users, t, q - 1);
    }
  }

  lemma {:induction false} ChildCountEmpty(users: seq<User>, q: nat)
    ensures ChildCount(users, 0, q) == 0
  {
    if q > 0 { ChildCountEmpty(users, q - 1); }
  }

  /**
   * The second pass pushes exactly one node per user, onto the roots or onto
   * one parent's children; this holds with duplicate ids as well.
   */
  lemma {:induction false} EachUserPlacedOnce(users: seq<User>, t: nat)
    requires t <= |users|
    ensures |RootsUpTo(users, t)| + ChildCount(users, t, |users|) == t
  {
    if t > 0 {
      EachUserPlacedOnce(users, t - 1);
      ChildCountStep(users, t - 1, |users|);
      var pushed := if Resolves(users, t - 1) then 1 else 0;
      assert ChildCount(users, t, |users|) == ChildCount(users, t - 1, |users|) + pushed;
      assert |RootsUpTo(users, t)| == |RootsUpTo(users, t - 1)| + 1 - pushed;
    } else {
      ChildCountEmpty(users, |users|);
    }
  }

  /** There are no roots exactly when every user's referrer resolves. */
  lemma {:induction false} NoRootsIffAllResolve(users: seq<User>, t: nat)
    requires t <= |users|
    ensures RootsUpTo(users, t) == [] <==> forall j :: 0 <= j < t ==> Resolves(users, j)
  {
    if t > 0 {
      NoRootsIffAllResolve(users, t - 1);
    }
  }

  // ---------------------------------------------------------------- levels

  /** With unique ids a node's level is written only on its own user's turn. */
  lemma {:induction false} LevelWrittenOnce(users: seq<User>, t: nat, k: nat)
    requires UniqueIds(users) && t <= |users| && k < |users|
    ensures t <= k ==> LevelAt(users, t, k) == 0
    ensures k < t ==> LevelAt(users, t, k) == LevelAt(users, k + 1, k)
  {
    if t > 0 {
      LevelWrittenOnce(users, t - 1, k);
      NodeIsSelf(users, t - 1);
    }
  }

  /**
   * With unique ids a root user keeps level 0, and a referred user's level is
   * its referrer's level at the moment it was attached, plus one. When the
   * referrer comes first that is the referrer's final level plus one; when it
   * comes later it is 1, whatever the depth. (A referrer resolves exactly
   * when the user is not a root user, `ResolvesIffNotRoot`.)
   */
  lemma LevelAsAttached(users: seq<User>, k: nat)
    requires UniqueIds(users) && k < |users|
    ensures IsRootUser(users, k) ==> LevelAt(users, |users|, k) == 0
    ensures Resolves(users, k) ==>
      LevelAt(users, |users|, k) == LevelAt(users, k, ParentOf(users, k)) + 1
    ensures Resolves(users, k) && ParentOf(users, k) < k ==>
      LevelAt(users, |users|, k) == LevelAt(users, |users|, ParentOf(users, k)) + 1
    ensures Resolves(users, k) && k <= ParentOf(users, k) ==> LevelAt(users, |users|, k) == 1
  {
    ResolvesIffNotRoot(users, k);
    LevelWrittenOnce(users, |users|, k);
    LevelWrittenOnce(users, k, k);
    NodeIsSelf(users, k);
    if Resolves(users, k) {
      var p := ParentOf(users, k);
      LevelWrittenOnce(users, k, p);
      LevelWrittenOnce(users, |users|, p);
    }
  }

  // ---------------------------------------------------------------- cycles

  /** The node reached from `k` by following `m` resolving referrer links, if the chain is that long. */
  function Ancestor(users: seq<User>, k: nat, m: nat): (r: Option<nat>)
    requires k < |users|
    ensures r.Some? ==> r.value < |users|
    decreases m
  {
    if m == 0 then Some(k)
    else if Resolves(users, k) then Ancestor(users, ParentOf(users, k), m - 1)
    else None
  }

  /** Following referrer links from `k` leads back to `k`. */
  ghost predicate OnCycle(users: seq<User>, k: nat)
    requires k < |users|
  {
    exists m: nat :: m > 0 && Ancestor(users, k, m) == Some(k)
  }

  /** Walking `a` links and then `b` more is walking `a + b` links. */
  lemma {:induction false} AncestorCompose(users: seq<User>, k: nat, a: nat, b: nat)
    requires k < |users|
    ensures Ancestor(users, k, a).Some? ==>
      Ancestor(users, k, a + b) == Ancestor(users, Ancestor(users, k, a).value, b)
    ensures Ancestor(users, k, a).None? ==> Ancestor(users, k, a + b).None?
    decreases a
  {
    if a > 0 && Resolves(users, k) {
      AncestorCompose(users, ParentOf(users, k), a - 1, b);
    }
  }

  /** The referrer chain of a user on a cycle never ends. */
  lemma {:induction false} CycleChainEndless(users: seq<User>, k: nat, m: nat, j: nat)
    requires k < |users| && m > 0 && Ancestor(users, k, m) == Some(k)
    ensures Ancestor(users, k, j).Some?
    decreases j
  {
    if j < m {
      AncestorCompose(users, k, j, m - j);
    } else {
      CycleChainEndless(users, k, m, j - m);
      AncestorCompose(users, k, m, j - m);
    }
  }

  /** `path` walks down the built forest: each step goes from a node to one of its children. */
  ghost predicate DownPath(users: seq<User>, path: seq<nat>) {
    |path| > 0
    && (forall i :: 0 <= i < |path| ==> path[i] < |users|)
    && forall i {:trigger ChildrenUpTo(users, |users|, path[i])} :: 0 <= i < |path| - 1 ==> path[i + 1] in ChildrenUpTo(users, |users|, path[i])
  }

  /** With unique ids, walking up from the end of a downward path retraces it. */
  lemma {:induction false} DownPathRetraced(users: seq<User>, path: seq<nat>)
    requires UniqueIds(users) && DownPath(users, path)
    ensures Ancestor(users, path[|path| - 1], |path| - 1) == Some(path[0])
    decreases |path|
  {
    if |path| > 1 {
      var init := path[..|path| - 1];
      assert DownPath(users, init);
      DownPathRetraced(users, init);
      var c, p := path[|path| - 1], path[|path| - 2];
      ChildrenAreReferred(users, |users|, p);
      ParentIffReferredBy(users, c, p);
      AncestorCompose(users, c, 1, |path| - 2);
    }
  }

  /**
   * With unique ids a user on a referrer cycle lies in no root's subtree:
   * the builder attaches such users to each other and never reaches them
   * from a root.
   */
  lemma CycleUnreachable(users: seq<User>, path: seq<nat>)
    requires UniqueIds(users) && DownPath(users, path)
    requires path[0] in RootsUpTo(users, |users|)
    ensures !OnCycle(users, path[|path| - 1])
  {
    var k := path[|path| - 1];
    var r := path[0];
    DownPathRetraced(users, path);
    RootsAreRootUsers(users, |users|);
    assert IsRootUser(users, r);
    ResolvesIffNotRoot(users, r);
    assert Ancestor(users, r, 1) == None;
    AncestorCompose(users, k, |path| - 1, 1);
    assert Ancestor(users, k, |path|) == None;
    if OnCycle(users, k) {
      var m: nat :| m > 0 && Ancestor(users, k, m) == Some(k);
      CycleChainEndless(users, k, m, |path|);
      assert false;
    }
  }

  // ---------------------------------------------------------------- small cases

  /** A user with the given id and referrer id (`""` for none); the other fields are fixed. */
  function Person(id: string, referrer: string): User {
    User(id, id + "@example.com", None, id, id, None, 0.0, 0.0, id, if referrer == "" then None else Some(referrer),
      None, 0, 0, None, NotSubmitted, Active, 0)
  }

  /** Two users naming each other: no roots, and each is the other's only child. */
  lemma MutualReferrersHaveNoRoot()
    ensures var users := [Person("a", "b"), Person("b", "a")];
      RootsUpTo(users, 2) == [] && ChildrenUpTo(users, 2, 0) == [1] && ChildrenUpTo(users, 2, 1) == [0]
      && OnCycle(users, 0)
  {
    var users := [Person("a", "b"), Person("b", "a")];
    assert LastIndex(users, "b") == 1;
    assert LastIndex(users, "a") == 0 by {
      assert LastIndex(users[..1], "a") == 0;
    }
    assert Ancestor(users, 0, 2) == Some(0);
  }

  /**
   * A user listed before its referrer keeps the level its referrer had at
   * that moment: `c` (referred by `b`, referred by root `a`) ends at level 1,
   * the same as `b`.
   */
  lemma LevelIsNotDepth()
    ensures var users := [Person("c", "b"), Person("b", "a"), Person("a", "")];
      ParentOf(users, 0) == 1 && LevelAt(users, 3, 1) == 1 && LevelAt(users, 3, 0) == 1
  {
    var users := [Person("c", "b"), Person("b", "a"), Person("a", "")];
    assert LastIndex(users, "a") == 2;
    assert LastIndex(users, "b") == 1 by {
      assert LastIndex(users[..2], "b") == 1;
    }
    assert LastIndex(users, "c") == 0 by {
      assert LastIndex(users[..2], "c") == 0 by {
        assert LastIndex(users[..1], "c") == 0;
      }
    }
  }

  /**
   * Two users with one id: both turns push the node of the later one, so it
   * is listed twice and the earlier user not at all.
   */
  lemma DuplicateIdListedTwice()
    ensures var users := [Person("a", ""), Person("a", "")];
      RootsUpTo(users, 2) == [1, 1]
  {
    var users := [Person("a", ""), Person("a", "")];
    assert LastIndex(users, "a") == 1;
  }
}
