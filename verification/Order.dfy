/** brain_builder/src/Order.cpp: the suggested execution order, Kahn's algorithm with a cycle branch. */
module Order {
  import opened Prelude
  import opened Wiring

  /** Successor sets by module index: `b in succ[a]` is a forward link from a to b. */
  type Digraph = seq<set<nat>>

  // ---------------------------------------------------------------- the link graph

  /** `index[name] = i` in a loop over the modules keeps the last module of that name. */
  ghost predicate Owns(ids: seq<string>, name: string, i: nat) {
    i < |ids| && ids[i] == name && forall j :: i < j < |ids| ==> ids[j] != name
  }

  ghost predicate Joins(ids: seq<string>, l: Link, a: nat, b: nat) {
    !l.feedback && Owns(ids, l.fromNode, a) && Owns(ids, l.toNode, b)
  }

  ghost predicate HasEdge(ids: seq<string>, links: seq<Link>, a: nat, b: nat) {
    a != b && exists k :: 0 <= k < |links| && Joins(ids, links[k], a, b)
  }

  ghost function Successors(ids: seq<string>, links: seq<Link>, a: nat): set<nat> {
    set b | 0 <= b < |ids| && HasEdge(ids, links, a, b)
  }

  ghost function Adjacency(ids: seq<string>, links: seq<Link>): Digraph {
    seq(|ids|, a requires 0 <= a < |ids| => Successors(ids, links, a))
  }

  // ---------------------------------------------------------------- the placing rule

  ghost function Unplaced(succ: Digraph, done: set<nat>): set<nat> {
    set v | 0 <= v < |succ| && v !in done
  }

  /** The unplaced modules that still feed v. */
  ghost function Blockers(succ: Digraph, done: set<nat>, v: nat): set<nat> {
    set a | 0 <= a < |succ| && a !in done && v in succ[a]
  }

  ghost function Ready(succ: Digraph, done: set<nat>): set<nat> {
    set v | v in Unplaced(succ, done) && Blockers(succ, done, v) == {}
  }

  /** The cycle branch runs: something is unplaced and nothing is ready. */
  ghost predicate Stuck(succ: Digraph, done: set<nat>) {
    Unplaced(succ, done) != {} && Ready(succ, done) == {}
  }

  ghost predicate IsMin(u: nat, s: set<nat>) {
    u in s && forall v :: v in s ==> u <= v
  }

  /** u is what one turn of the loop places after `done`. */
  ghost predicate Places(succ: Digraph, done: set<nat>, u: nat) {
    IsMin(u, if Ready(succ, done) == {} then Unplaced(succ, done) else Ready(succ, done))
  }

  ghost predicate IsRun(succ: Digraph, order: seq<nat>) {
    forall k :: 0 <= k < |order| ==> Places(succ, SetOf(order[..k]), order[k])
  }

  /** `order` is the complete output of the loop on `succ`. */
  ghost predicate IsSorted(succ: Digraph, order: seq<nat>) {
    |order| == |succ| && IsRun(succ, order)
  }

  // ---------------------------------------------------------------- what the order means

  ghost predicate IsPermutation(order: seq<nat>, n: nat) {
    && |order| == n
    && (forall k :: 0 <= k < n ==> order[k] < n)
    && (forall j, k :: 0 <= j < k < n ==> order[j] != order[k])
  }

  ghost predicate IsEdge(succ: Digraph, a: nat, b: nat) {
    a < |succ| && b < |succ| && b in succ[a]
  }

  /** Every forward link runs from an earlier position to a later one. */
  ghost predicate IsTopological(succ: Digraph, order: seq<nat>) {
    IsPermutation(order, |succ|) &&
    forall i, j :: 0 <= i < |order| && 0 <= j < |order| && IsEdge(succ, order[i], order[j]) ==> i < j
  }

  ghost predicate LexLeq(s: seq<nat>, t: seq<nat>) {
    s == t || exists k :: 0 <= k < |s| && k < |t| && s[..k] == t[..k] && s[k] < t[k]
  }

  ghost predicate IsWalk(succ: Digraph, w: seq<nat>) {
    forall i :: 0 <= i < |w| - 1 ==> IsEdge(succ, w[i], w[i + 1])
  }

  /** A directed cycle, written as a walk that returns to its start. */
  ghost predicate IsCycle(succ: Digraph, w: seq<nat>) {
    |w| >= 2 && w[0] == w[|w| - 1] && IsWalk(succ, w)
  }

  // ---------------------------------------------------------------- basic facts

  lemma InPrefix(order: seq<nat>, k: nat, v: nat)
    requires k <= |order|
    ensures v in SetOf(order[..k]) <==> exists i :: 0 <= i < k && order[i] == v
  {
  }

  lemma MinIsUnique(u: nat, v: nat, s: set<nat>)
    requires IsMin(u, s) && IsMin(v, s)
    ensures u == v
  {
  }

  lemma NonEmptyHasMin(s: set<nat>) returns (u: nat)
    requires s != {}
    ensures IsMin(u, s)
  {
    u :| u in s;
    if s != {u} {
      var m := NonEmptyHasMin(s - {u});
      assert forall v :: v in s ==> v == u || v in s - {u};
      u := if m < u then m else u;
    }
  }

  /** Every index placed so far is a module, placed once. */
  lemma RunIsInjective(succ: Digraph, order: seq<nat>)
    requires IsRun(succ, order)
    ensures forall k :: 0 <= k < |order| ==> order[k] < |succ|
    ensures forall j, k :: 0 <= j < k < |order| ==> order[j] != order[k]
  {
    forall k | 0 <= k < |order|
      ensures order[k] in Unplaced(succ, SetOf(order[..k]))
    {
      assert Places(succ, SetOf(order[..k]), order[k]);
    }
    forall j, k | 0 <= j < k < |order|
      ensures order[j] != order[k]
    {
      assert order[..k][j] == order[j];
    }
  }

  lemma SortedIsPermutation(succ: Digraph, order: seq<nat>)
    requires IsSorted(succ, order)
    ensures IsPermutation(order, |succ|)
  {
    RunIsInjective(succ, order);
  }

  lemma BoundedSetSize(s: set<nat>, n: nat)
    requires forall x :: x in s ==> x < n
    ensures |s| <= n
  {
    if n > 0 {
      BoundedSetSize(s - {n - 1}, n - 1);
    } else {
      assert s == {};
    }
  }

  lemma InjectiveSetSize(order: seq<nat>)
    requires forall j, k :: 0 <= j < k < |order| ==> order[j] != order[k]
    ensures |SetOf(order)| == |order|
  {
    if order != [] {
      var n := |order| - 1;
      InjectiveSetSize(order[..n]);
      assert order == order[..n] + [order[n]];
      assert SetOf(order) == SetOf(order[..n]) + {order[n]};
    } else {
      assert SetOf(order) == {};
    }
  }

  /** A permutation reaches every index. */
  lemma PermutationCovers(order: seq<nat>, n: nat, v: nat) returns (i: nat)
    requires IsPermutation(order, n) && v < n
    ensures i < n && order[i] == v
  {
    if v !in order {
      InjectiveSetSize(order + [v]);
      BoundedSetSize(SetOf(order + [v]), n);
    }
    i :| 0 <= i < |order| && order[i] == v;
  }

  /** The rule leaves no choice: two complete runs are the same run. */
  lemma SortedIsUnique(succ: Digraph, s: seq<nat>, t: seq<nat>)
    requires IsSorted(succ, s) && IsSorted(succ, t)
    ensures s == t
  {
    if s != t {
      var k := FirstDifference(s, t);
      SameChoice(succ, s, t, k);
    }
  }

  lemma SameChoice(succ: Digraph, s: seq<nat>, t: seq<nat>, k: nat)
    requires IsRun(succ, s) && IsRun(succ, t) && k < |s| && k < |t| && s[..k] == t[..k]
    ensures s[k] == t[k]
  {
    var done := SetOf(s[..k]);
    assert Places(succ, done, s[k]) && Places(succ, done, t[k]);
    MinIsUnique(s[k], t[k], if Ready(succ, done) == {} then Unplaced(succ, done) else Ready(succ, done));
  }

  lemma {:induction false} FirstDifference(s: seq<nat>, t: seq<nat>) returns (k: nat)
    requires |s| == |t| && s != t
    ensures k < |s| && s[..k] == t[..k] && s[k] != t[k]
  {
    if s[0] != t[0] {
      k := 0;
    } else {
      assert s == [s[0]] + s[1..] && t == [t[0]] + t[1..];
      k := FirstDifference(s[1..], t[1..]);
      k := k + 1;
      assert s[..k] == [s[0]] + s[1..][..k - 1] && t[..k] == [t[0]] + t[1..][..k - 1];
    }
  }

  // ---------------------------------------------------------------- where a link is violated

  /** A link that the order runs backwards ends at a module placed by the cycle branch. */
  lemma ViolatedLinkEndsAtCycleBranch(succ: Digraph, order: seq<nat>)
    requires IsSorted(succ, order)
    ensures forall i, j :: 0 <= i < |order| && 0 <= j <= i && IsEdge(succ, order[i], order[j]) ==>
              Stuck(succ, SetOf(order[..j]))
  {
    RunIsInjective(succ, order);
    forall i, j | 0 <= i < |order| && 0 <= j <= i && IsEdge(succ, order[i], order[j])
      ensures Stuck(succ, SetOf(order[..j]))
    {
      var done := SetOf(order[..j]);
      assert Places(succ, done, order[j]);
      assert order[i] in Blockers(succ, done, order[j]);
    }
  }

  /** With nothing ready, every unplaced module has an unplaced feeder; following feeders from
      u gives a walk of any length that ends at u. */
  lemma {:induction false} WalkBack(succ: Digraph, done: set<nat>, u: nat, len: nat) returns (w: seq<nat>)
    requires Stuck(succ, done) && u in Unplaced(succ, done)
    decreases len
    ensures |w| == len + 1 && w[len] == u && IsWalk(succ, w)
    ensures forall x :: x in w ==> x in Unplaced(succ, done)
  {
    if len == 0 {
      w := [u];
    } else {
      assert u !in Ready(succ, done);
      var a :| a in Blockers(succ, done, u);
      var w' := WalkBack(succ, done, a, len - 1);
      w := w' + [u];
    }
  }

  lemma Pigeonhole(w: seq<nat>, n: nat) returns (i: nat, j: nat)
    requires |w| > n && forall x :: x in w ==> x < n
    ensures i < j < |w| && w[i] == w[j]
  {
    if forall a, b :: 0 <= a < b < |w| ==> w[a] != w[b] {
      InjectiveSetSize(w);
      BoundedSetSize(SetOf(w), n);
      assert false;
    }
    i, j :| 0 <= i < j < |w| && w[i] == w[j];
  }

  /** The cycle branch runs only when the unplaced modules hold a directed cycle, and that cycle
      leads, through unplaced modules, into the module the branch places. */
  lemma CycleBranchNeedsCycle(succ: Digraph, done: set<nat>, u: nat) returns (cycle: seq<nat>, tail: seq<nat>)
    requires Stuck(succ, done) && u in Unplaced(succ, done)
    ensures IsCycle(succ, cycle) && IsWalk(succ, tail)
    ensures |tail| >= 1 && tail[0] == cycle[0] && tail[|tail| - 1] == u
    ensures forall x :: x in cycle || x in tail ==> x in Unplaced(succ, done)
  {
    var w := WalkBack(succ, done, u, |succ|);
    var i, j := Pigeonhole(w, |succ|);
    cycle, tail := w[i..j + 1], w[j..];
  }

  /** u lies on a directed cycle of unplaced modules. */
  ghost predicate OnCycle(succ: Digraph, done: set<nat>, u: nat) {
    exists w :: IsCycle(succ, w) && u in w && forall x :: x in w ==> x in Unplaced(succ, done)
  }

  ghost predicate Fed(succ: Digraph, r: set<nat>, v: nat) {
    exists a :: a in r && IsEdge(succ, a, v)
  }

  /** The round after r. */
  ghost function Onwards(succ: Digraph, done: set<nat>, r: set<nat>): set<nat> {
    r + set v | v in Unplaced(succ, done) && Fed(succ, r, v)
  }

  /** The unplaced modules that at most k forward links lead to from u, through unplaced ones. */
  ghost function Reach(succ: Digraph, done: set<nat>, u: nat, k: nat): set<nat> {
    if k == 0 then {u} * Unplaced(succ, done)
    else Onwards(succ, done, Reach(succ, done, u, k - 1))
  }

  ghost predicate Closed(succ: Digraph, done: set<nat>, r: set<nat>) {
    forall v :: v in Unplaced(succ, done) && Fed(succ, r, v) ==> v in r
  }

  lemma Larger(r: set<nat>, more: set<nat>, v: nat)
    requires r <= more && v in more && v !in r
    ensures |more| > |r|
  {
    assert more == r + (more - r) && v in more - r;
    assert |more| == |r| + |more - r|;
  }

  lemma NextRound(succ: Digraph, done: set<nat>, r: set<nat>)
    requires r <= Unplaced(succ, done)
    ensures r <= Onwards(succ, done, r) <= Unplaced(succ, done)
    ensures if Closed(succ, done, r) then Onwards(succ, done, r) == r else |Onwards(succ, done, r)| > |r|
  {
    var more := Onwards(succ, done, r);
    if Closed(succ, done, r) {
      assert more == r;
    } else {
      var v :| v in Unplaced(succ, done) && Fed(succ, r, v) && v !in r;
      Larger(r, more, v);
    }
  }

  /** Each round reaches one more module, or there are none left to reach. */
  lemma {:induction false} ReachGrows(succ: Digraph, done: set<nat>, u: nat, k: nat)
    requires u in Unplaced(succ, done)
    ensures u in Reach(succ, done, u, k) && Reach(succ, done, u, k) <= Unplaced(succ, done)
    ensures Closed(succ, done, Reach(succ, done, u, k)) || |Reach(succ, done, u, k)| > k
  {
    if k > 0 {
      var r := Reach(succ, done, u, k - 1);
      ReachGrows(succ, done, u, k - 1);
      NextRound(succ, done, r);
      assert Reach(succ, done, u, k) == Onwards(succ, done, r);
    } else {
      assert Reach(succ, done, u, 0) == {u};
    }
  }

  lemma ReachIsClosed(succ: Digraph, done: set<nat>, u: nat)
    requires u in Unplaced(succ, done)
    ensures Closed(succ, done, Reach(succ, done, u, |succ|))
  {
    ReachGrows(succ, done, u, |succ|);
    BoundedSetSize(Reach(succ, done, u, |succ|), |succ|);
  }

  lemma {:induction false} WalkTo(succ: Digraph, done: set<nat>, u: nat, k: nat, v: nat) returns (w: seq<nat>)
    requires u in Unplaced(succ, done) && v in Reach(succ, done, u, k)
    ensures w != [] && w[0] == u && w[|w| - 1] == v && IsWalk(succ, w)
    ensures forall x :: x in w ==> x in Unplaced(succ, done)
  {
    if k == 0 {
      w := [u];
    } else if v in Reach(succ, done, u, k - 1) {
      w := WalkTo(succ, done, u, k - 1, v);
    } else {
      var a :| a in Reach(succ, done, u, k - 1) && IsEdge(succ, a, v);
      w := WalkTo(succ, done, u, k - 1, a);
      w := w + [v];
    }
  }

  /** A walk through unplaced modules that starts in a closed set stays in it. */
  lemma {:induction false} WalkStaysInside(succ: Digraph, done: set<nat>, r: set<nat>, w: seq<nat>, i: nat, j: nat)
    requires Closed(succ, done, r) && IsWalk(succ, w) && i <= j < |w| && w[i] in r
    requires forall x :: x in w ==> x in Unplaced(succ, done)
    ensures w[j] in r
  {
    if i < j {
      WalkStaysInside(succ, done, r, w, i, j - 1);
      assert IsEdge(succ, w[j - 1], w[j]) && w[j] in w;
    }
  }

  lemma ReachedFeederClosesACycle(succ: Digraph, done: set<nat>, u: nat, a: nat)
    requires u in Unplaced(succ, done) && a in Blockers(succ, done, u) && a in Reach(succ, done, u, |succ|)
    ensures OnCycle(succ, done, u)
  {
    var w := WalkTo(succ, done, u, |succ|, a);
    var cycle := w + [u];
    assert forall i :: 0 <= i < |w| - 1 ==> IsEdge(succ, w[i], w[i + 1]);
    assert IsEdge(succ, a, u);
    assert IsCycle(succ, cycle) && u in cycle;
  }

  lemma CycleReachesAFeeder(succ: Digraph, done: set<nat>, u: nat, w: seq<nat>) returns (a: nat)
    requires IsCycle(succ, w) && u in w && forall x :: x in w ==> x in Unplaced(succ, done)
    ensures a in Blockers(succ, done, u) && a in Reach(succ, done, u, |succ|)
  {
    var r := Reach(succ, done, u, |succ|);
    ReachIsClosed(succ, done, u);
    ReachGrows(succ, done, u, |succ|);
    var i :| 0 <= i < |w| && w[i] == u;
    WalkStaysInside(succ, done, r, w, i, |w| - 1);
    var j := if i == 0 then |w| - 1 else i;
    WalkStaysInside(succ, done, r, w, 0, j - 1);
    assert IsEdge(succ, w[j - 1], w[j]) && w[j - 1] in w;
    a := w[j - 1];
  }

  /** A module is on a cycle of unplaced modules if and only if, within as many rounds as there are modules, the search
      along its forward links comes to one of its own unplaced feeders. */
  lemma OnCycleIffAFeederIsReached(succ: Digraph, done: set<nat>, u: nat)
    requires u in Unplaced(succ, done)
    ensures OnCycle(succ, done, u) <==> exists a :: a in Blockers(succ, done, u) && a in Reach(succ, done, u, |succ|)
  {
    if a :| a in Blockers(succ, done, u) && a in Reach(succ, done, u, |succ|) {
      ReachedFeederClosesACycle(succ, done, u, a);
    }
    if w :| IsCycle(succ, w) && u in w && forall x :: x in w ==> x in Unplaced(succ, done) {
      var a := CycleReachesAFeeder(succ, done, u, w);
    }
  }

  // ---------------------------------------------------------------- acyclic graphs

  /** A topological order leaves no room for a cycle. */
  lemma {:induction false} TopologicalHasNoCycle(succ: Digraph, order: seq<nat>, w: seq<nat>)
    requires IsTopological(succ, order)
    ensures !IsCycle(succ, w)
  {
    if IsCycle(succ, w) {
      assert IsEdge(succ, w[0], w[1]);
      var i := PermutationCovers(order, |succ|, w[0]);
      var j := WalkClimbs(succ, order, w, i);
    }
  }

  lemma {:induction false} WalkClimbs(succ: Digraph, order: seq<nat>, w: seq<nat>, i: nat) returns (j: nat)
    requires IsTopological(succ, order) && IsWalk(succ, w) && |w| >= 2
    requires i < |order| && order[i] == w[0]
    ensures i < j < |order| && order[j] == w[|w| - 1]
  {
    assert IsEdge(succ, w[0], w[1]);
    j := PermutationCovers(order, |succ|, w[1]);
    if |w| > 2 {
      assert IsWalk(succ, w[1..]) by {
        forall m | 0 <= m < |w[1..]| - 1 ensures IsEdge(succ, w[1..][m], w[1..][m + 1]) {
          assert IsEdge(succ, w[m + 1], w[m + 2]);
        }
      }
      j := WalkClimbs(succ, order, w[1..], j);
    }
  }

  /** The suggestion is a topological order exactly when there is one to find, that is when
      the forward links hold no directed cycle. */
  lemma TopologicalIffAcyclic(succ: Digraph, order: seq<nat>)
    requires IsSorted(succ, order)
    ensures IsTopological(succ, order) <==> !exists w :: IsCycle(succ, w)
    ensures IsTopological(succ, order) <==> forall k :: 0 <= k < |order| ==> !Stuck(succ, SetOf(order[..k]))
  {
    SortedIsPermutation(succ, order);
    if IsTopological(succ, order) {
      forall w ensures !IsCycle(succ, w) {
        TopologicalHasNoCycle(succ, order, w);
      }
    }
    if k :| 0 <= k < |order| && Stuck(succ, SetOf(order[..k])) {
      assert Places(succ, SetOf(order[..k]), order[k]);
      var cycle, _ := CycleBranchNeedsCycle(succ, SetOf(order[..k]), order[k]);
    } else {
      forall i, j | 0 <= i < |order| && 0 <= j < |order| && IsEdge(succ, order[i], order[j])
        ensures i < j
      {
        if j <= i {
          ViolatedLinkEndsAtCycleBranch(succ, order);
        }
      }
    }
  }

  /** Among all topological orders the suggestion is the lexicographically least. */
  lemma SortedIsLexLeast(succ: Digraph, order: seq<nat>, other: seq<nat>)
    requires IsSorted(succ, order) && IsTopological(succ, other)
    ensures IsTopological(succ, order) && LexLeq(order, other)
  {
    forall w ensures !IsCycle(succ, w) {
      TopologicalHasNoCycle(succ, other, w);
    }
    TopologicalIffAcyclic(succ, order);
    if order != other {
      var k := FirstDifference(order, other);
      var done := SetOf(order[..k]);
      assert Places(succ, done, order[k]);
      assert other[k] in Ready(succ, done) by {
        assert other[k] in Unplaced(succ, done);
        forall a | 0 <= a < |succ| && other[k] in succ[a] ensures a in done {
          var i := PermutationCovers(other, |succ|, a);
          assert IsEdge(succ, other[i], other[k]);
          assert order[..k][i] == a;
        }
      }
    }
  }

  // ---------------------------------------------------------------- sorting twice

  /** `moved` is `succ` after `Graph::reorder(order)`: new index i stands for old index order[i]. */
  ghost predicate IsRelabelling(succ: Digraph, order: seq<nat>, moved: Digraph) {
    && IsPermutation(order, |succ|)
    && |moved| == |succ|
    && (forall a, b :: 0 <= a < |succ| && b in moved[a] ==> b < |succ|)
    && (forall a, b :: 0 <= a < |succ| && 0 <= b < |succ| ==> (b in moved[a] <==> order[b] in succ[order[a]]))
  }

  /** Position k of the identity: the ready set is the old one under its new names. */
  lemma ReadyIsRelabelled(succ: Digraph, order: seq<nat>, moved: Digraph, k: nat, done: set<nat>, v: nat)
    requires IsRelabelling(succ, order, moved) && k <= |succ| && v < |succ|
    requires forall i: nat :: i in done <==> i < k
    ensures v in Ready(moved, done) <==> order[v] in Ready(succ, SetOf(order[..k]))
  {
    var before := SetOf(order[..k]);
    forall i | 0 <= i < |succ| ensures i in done <==> order[i] in before {
      InPrefix(order, k, order[i]);
    }
    if a :| a in Blockers(moved, done, v) {
      assert order[a] in Blockers(succ, before, order[v]);
    }
    if a :| a in Blockers(succ, before, order[v]) {
      var i := PermutationCovers(order, |succ|, a);
      assert i in Blockers(moved, done, v);
    }
  }

  lemma SortedOnceMoreStays(succ: Digraph, order: seq<nat>, moved: Digraph)
    requires IsSorted(succ, order) && IsRelabelling(succ, order, moved)
    ensures IsSorted(moved, Identity(|succ|))
  {
    var id := Identity(|succ|);
    forall k | 0 <= k < |id| ensures Places(moved, SetOf(id[..k]), id[k]) {
      var done := SetOf(id[..k]);
      forall i: nat ensures i in done <==> i < k {
        if i < k {
          assert id[..k][i] == i;
        }
      }
      assert Places(succ, SetOf(order[..k]), order[k]);
      ReadyIsRelabelled(succ, order, moved, k, done, k);
      if Ready(succ, SetOf(order[..k])) == {} {
        forall v | 0 <= v < |succ| ensures v !in Ready(moved, done) {
          ReadyIsRelabelled(succ, order, moved, k, done, v);
        }
      }
    }
  }

  function Identity(n: nat): seq<nat> {
    seq(n, i => i)
  }

  function Reordered<T>(mods: seq<T>, order: seq<nat>): seq<T>
    requires forall k :: 0 <= k < |order| ==> order[k] < |mods|
  {
    seq(|order|, k requires 0 <= k < |order| => mods[order[k]])
  }

  lemma ReorderRelabels(ids: seq<string>, links: seq<Link>, order: seq<nat>)
    requires Distinct(ids) && IsPermutation(order, |ids|)
    ensures IsRelabelling(Adjacency(ids, links), order, Adjacency(Reordered(ids, order), links))
  {
    var moved := Reordered(ids, order);
    forall name, i | 0 <= i < |ids| ensures Owns(moved, name, i) <==> Owns(ids, name, order[i]) {
    }
    forall a, b | 0 <= a < |ids| && 0 <= b < |ids|
      ensures HasEdge(moved, links, a, b) <==> HasEdge(ids, links, order[a], order[b])
    {
      if k :| 0 <= k < |links| && Joins(ids, links[k], order[a], order[b]) {
        assert Joins(moved, links[k], a, b);
      }
      if k :| 0 <= k < |links| && Joins(moved, links[k], a, b) {
        assert Joins(ids, links[k], order[a], order[b]);
      }
    }
  }

  /** Sorting is idempotent on every graph, cyclic ones included: on distinct ids the suggestion
      is an order `Graph::reorder` accepts, and on the reordered modules the only possible
      suggestion is to change nothing. */
  lemma SortIsIdempotent(ids: seq<string>, links: seq<Link>, order: seq<nat>, again: seq<nat>)
    requires Distinct(ids) && IsSorted(Adjacency(ids, links), order)
    ensures IsPermutation(order, |ids|)
    ensures IsSorted(Adjacency(Reordered(ids, order), links), again) <==> again == Identity(|ids|)
  {
    var succ, moved := Adjacency(ids, links), Adjacency(Reordered(ids, order), links);
    SortedIsPermutation(succ, order);
    ReorderRelabels(ids, links, order);
    SortedOnceMoreStays(succ, order, moved);
    if IsSorted(moved, again) {
      SortedIsUnique(moved, again, Identity(|ids|));
    }
  }

  // ---------------------------------------------------------------- the notes

  /** The unplaced modules with mutual links to u, in index order, joined by ", ". */
  function MutualLinks(ids: seq<string>, succ: Digraph, done: set<nat>, u: nat, upto: nat): string
    requires |succ| == |ids| && upto <= |ids| && u < |ids|
  {
    if upto == 0 then ""
    else
      var others := MutualLinks(ids, succ, done, u, upto - 1);
      var v := upto - 1;
      if v in succ[u] && v !in done && u in succ[v]
      then others + (if others == "" then "" else ", ") + ids[v]
      else others
  }

  function CycleNote(ids: seq<string>, succ: Digraph, done: set<nat>, u: nat): string
    requires |succ| == |ids| && u < |ids|
  {
    var others := MutualLinks(ids, succ, done, u, |ids|);
    "cycle: " + ids[u] +
    if others == "" then " stays where it is" else " kept before " + others + " (mutual links, last-value reads)"
  }

  /** One note for each turn of the cycle branch, in order. */
  ghost function CycleNotes(ids: seq<string>, succ: Digraph, order: seq<nat>): seq<string>
    requires |succ| == |ids| && forall k :: 0 <= k < |order| ==> order[k] < |ids|
  {
    if order == [] then []
    else
      var k := |order| - 1;
      CycleNotes(ids, succ, order[..k]) +
      if Stuck(succ, SetOf(order[..k])) then [CycleNote(ids, succ, SetOf(order[..k]), order[k])] else []
  }

  lemma {:induction false} MutualLinksAre(ids: seq<string>, succ: Digraph, done: set<nat>, u: nat, upto: nat)
    requires |succ| == |ids| && upto <= |ids| && u < |ids|
    ensures MutualLinks(ids, succ, done, u, upto) != "" ==>
              exists v :: 0 <= v < upto && v in succ[u] && v !in done && u in succ[v]
    ensures "" !in ids && (exists v :: 0 <= v < upto && v in succ[u] && v !in done && u in succ[v]) ==>
              MutualLinks(ids, succ, done, u, upto) != ""
  {
    if upto > 0 {
      MutualLinksAre(ids, succ, done, u, upto - 1);
      assert ids[upto - 1] in ids;
    }
  }

  /** A note that says "kept before" names a module on a cycle of two; with no empty id every module on a cycle of two
      unplaced ones gets such a note. */
  lemma KeptBeforeNamesACycle(ids: seq<string>, succ: Digraph, done: set<nat>, u: nat)
    requires |succ| == |ids| && u in Unplaced(succ, done)
    ensures MutualLinks(ids, succ, done, u, |ids|) != "" ==>
              OnCycle(succ, done, u) && exists v :: IsCycle(succ, [u, v, u]) && v in Unplaced(succ, done)
    ensures "" !in ids && (exists v :: IsCycle(succ, [u, v, u]) && v in Unplaced(succ, done)) ==>
              MutualLinks(ids, succ, done, u, |ids|) != ""
  {
    MutualLinksAre(ids, succ, done, u, |ids|);
    if MutualLinks(ids, succ, done, u, |ids|) != "" {
      var v :| 0 <= v < |ids| && v in succ[u] && v !in done && u in succ[v];
      assert IsCycle(succ, [u, v, u]) && v in Unplaced(succ, done);
    }
    if v :| IsCycle(succ, [u, v, u]) && v in Unplaced(succ, done) {
      var w := [u, v, u];
      assert IsEdge(succ, w[0], w[1]) && IsEdge(succ, w[1], w[2]);
    }
  }

  /** The names joined by ", ". */
  function Listed(names: seq<string>): string {
    if names == [] then ""
    else if |names| == 1 then names[0]
    else Listed(names[..|names| - 1]) + ", " + names[|names| - 1]
  }

  predicate IsMutual(succ: Digraph, done: set<nat>, u: nat, v: nat) {
    u < |succ| && v < |succ| && v in succ[u] && v !in done && u in succ[v]
  }

  /** The indices below `upto` of the unplaced modules with mutual links to u. */
  function Mutuals(succ: Digraph, done: set<nat>, u: nat, upto: nat): seq<nat> {
    if upto == 0 then []
    else
      var before := Mutuals(succ, done, u, upto - 1);
      if IsMutual(succ, done, u, upto - 1) then before + [upto - 1] else before
  }

  lemma {:induction false} MutualsAre(succ: Digraph, done: set<nat>, u: nat, upto: nat, v: nat)
    ensures v in Mutuals(succ, done, u, upto) <==> v < upto && IsMutual(succ, done, u, v)
  {
    if upto > 0 {
      MutualsAre(succ, done, u, upto - 1, v);
    }
  }

  ghost predicate Rises(vs: seq<nat>, n: nat) {
    (forall k :: 0 <= k < |vs| ==> vs[k] < n) && forall i, j :: 0 <= i < j < |vs| ==> vs[i] < vs[j]
  }

  lemma RisesFurther(vs: seq<nat>, n: nat)
    requires Rises(vs, n)
    ensures Rises(vs, n + 1) && Rises(vs + [n], n + 1)
  {
  }

  /** They are in index order. */
  lemma {:induction false} MutualsRise(succ: Digraph, done: set<nat>, u: nat, upto: nat)
    ensures Rises(Mutuals(succ, done, u, upto), upto)
  {
    if upto > 0 {
      MutualsRise(succ, done, u, upto - 1);
      RisesFurther(Mutuals(succ, done, u, upto - 1), upto - 1);
    }
  }

  lemma {:induction false} MutualLinksAreListed(ids: seq<string>, succ: Digraph, done: set<nat>, u: nat, upto: nat)
    requires |succ| == |ids| && upto <= |ids| && u < |ids| && "" !in ids
    ensures forall k :: 0 <= k < |Mutuals(succ, done, u, upto)| ==> Mutuals(succ, done, u, upto)[k] < |ids|
    ensures MutualLinks(ids, succ, done, u, upto) == Listed(Reordered(ids, Mutuals(succ, done, u, upto)))
  {
    MutualsRise(succ, done, u, upto);
    if upto > 0 {
      var n := upto - 1;
      MutualLinksAreListed(ids, succ, done, u, n);
      ListGrows(ids, Mutuals(succ, done, u, n), n, MutualLinks(ids, succ, done, u, n), IsMutual(succ, done, u, n));
      NextMutualLink(ids, succ, done, u, n);
    }
  }

  lemma ListGrows(ids: seq<string>, vs: seq<nat>, n: nat, others: string, more: bool)
    requires "" !in ids && n < |ids| && (forall k :: 0 <= k < |vs| ==> vs[k] < |ids|)
    requires others == Listed(Reordered(ids, vs))
    ensures Listed(Reordered(ids, if more then vs + [n] else vs))
         == if !more then others else if others == "" then ids[n] else others + ", " + ids[n]
  {
    ListedIsEmpty(ids, vs);
    ListOneMore(ids, vs, n);
  }

  lemma NextMutualLink(ids: seq<string>, succ: Digraph, done: set<nat>, u: nat, n: nat)
    requires |succ| == |ids| && n < |ids| && u < |ids|
    ensures var others := MutualLinks(ids, succ, done, u, n);
            MutualLinks(ids, succ, done, u, n + 1) ==
            if !IsMutual(succ, done, u, n) then others else if others == "" then ids[n] else others + ", " + ids[n]
  {
    assert "" + "" + ids[n] == ids[n];
  }

  lemma ListOneMore(ids: seq<string>, vs: seq<nat>, v: nat)
    requires v < |ids| && forall k :: 0 <= k < |vs| ==> vs[k] < |ids|
    ensures Listed(Reordered(ids, vs + [v]))
         == if vs == [] then ids[v] else Listed(Reordered(ids, vs)) + ", " + ids[v]
  {
    assert Reordered(ids, vs + [v])[..|vs|] == Reordered(ids, vs);
  }

  lemma ListedIsEmpty(ids: seq<string>, vs: seq<nat>)
    requires "" !in ids && forall k :: 0 <= k < |vs| ==> vs[k] < |ids|
    ensures Listed(Reordered(ids, vs)) == "" <==> vs == []
  {
    if |vs| == 1 {
      assert ids[vs[0]] in ids;
    }
  }

  /** What a note says: it names the module, and then, in index order, the unplaced modules it has mutual links with, or
      that it stays where it is when there are none. */
  lemma CycleNoteSays(ids: seq<string>, succ: Digraph, done: set<nat>, u: nat)
    requires |succ| == |ids| && u < |ids| && "" !in ids
    ensures forall v: nat :: v in Mutuals(succ, done, u, |ids|) <==> v < |ids| && IsMutual(succ, done, u, v)
    ensures forall k :: 0 <= k < |Mutuals(succ, done, u, |ids|)| ==> Mutuals(succ, done, u, |ids|)[k] < |ids|
    ensures CycleNote(ids, succ, done, u) ==
            if Mutuals(succ, done, u, |ids|) == [] then "cycle: " + ids[u] + " stays where it is"
            else "cycle: " + ids[u] + " kept before " + Listed(Reordered(ids, Mutuals(succ, done, u, |ids|)))
                 + " (mutual links, last-value reads)"
  {
    forall v: nat ensures v in Mutuals(succ, done, u, |ids|) <==> v < |ids| && IsMutual(succ, done, u, v) {
      MutualsAre(succ, done, u, |ids|, v);
    }
    MutualLinksAreListed(ids, succ, done, u, |ids|);
    ListedIsEmpty(ids, Mutuals(succ, done, u, |ids|));
  }

  function ForwardLink(a: string, b: string): Link {
    Link(0, 0, a, b, "", false, true)
  }

  lemma EdgesOfTheBystander(ids: seq<string>, links: seq<Link>, reader: string, a: string, b: string)
    requires ids == [reader, a, b] && Distinct(ids)
    requires links == [ForwardLink(a, b), ForwardLink(b, a), ForwardLink(a, reader)]
    ensures Adjacency(ids, links) == [{}, {0, 2}, {1}]
  {
    assert ids[0] != ids[1] && ids[0] != ids[2] && ids[1] != ids[2];
    assert Owns(ids, reader, 0) && Owns(ids, a, 1) && Owns(ids, b, 2);
    assert Joins(ids, links[0], 1, 2) && Joins(ids, links[1], 2, 1) && Joins(ids, links[2], 1, 0);
    assert Successors(ids, links, 0) == {} && Successors(ids, links, 1) == {0, 2} && Successors(ids, links, 2) == {1};
  }

  /** The cycle branch places the reader, then a; b is ready after that. */
  lemma BystanderTurn(succ: Digraph, done: set<nat>, k: nat)
    requires succ == [{}, {0, 2}, {1}] && k < 3 && forall v: nat :: v in done <==> v < k
    ensures Places(succ, done, k) && (Stuck(succ, done) <==> k < 2)
  {
    assert k in Unplaced(succ, done);
    if k == 0 {
      assert 1 in Blockers(succ, done, 0) && 2 in Blockers(succ, done, 1) && 1 in Blockers(succ, done, 2);
    } else if k == 1 {
      assert 2 in Blockers(succ, done, 1) && 1 in Blockers(succ, done, 2);
    } else {
      assert Blockers(succ, done, 2) == {};
    }
  }

  lemma BystanderIsOnNoCycle(succ: Digraph)
    requires succ == [{}, {0, 2}, {1}]
    ensures !OnCycle(succ, {}, 0) && OnCycle(succ, {}, 1)
  {
    assert IsCycle(succ, [1, 2, 1]) && 1 in [1, 2, 1];
    forall w | IsCycle(succ, w) ensures 0 !in w {
      forall i | 0 <= i < |w| - 1 ensures w[i] != 0 {
        assert IsEdge(succ, w[i], w[i + 1]);
      }
    }
  }

  lemma OneMoreNote(ids: seq<string>, succ: Digraph, order: seq<nat>, k: nat)
    requires |succ| == |ids| && k < |order| && forall k :: 0 <= k < |order| ==> order[k] < |ids|
    ensures k == |order| - 1 ==> order[..k + 1] == order
    ensures CycleNotes(ids, succ, order[..k + 1]) ==
            CycleNotes(ids, succ, order[..k]) +
            if Stuck(succ, SetOf(order[..k])) then [CycleNote(ids, succ, SetOf(order[..k]), order[k])] else []
  {
    assert order[..k + 1][..k] == order[..k];
  }

  lemma BystanderTurns(succ: Digraph, order: seq<nat>)
    requires succ == [{}, {0, 2}, {1}] && order == [0, 1, 2]
    ensures IsSorted(succ, order)
    ensures forall k :: 0 <= k < 3 ==> (Stuck(succ, SetOf(order[..k])) <==> k < 2)
  {
    forall k | 0 <= k < 3
      ensures Places(succ, SetOf(order[..k]), order[k]) && (Stuck(succ, SetOf(order[..k])) <==> k < 2)
    {
      forall v: nat ensures v in SetOf(order[..k]) <==> v < k {
        if v < k {
          assert order[..k][v] == v;
        }
      }
      BystanderTurn(succ, SetOf(order[..k]), k);
    }
  }

  lemma TwoNotes(ids: seq<string>, succ: Digraph, order: seq<nat>)
    requires |ids| == |succ| == |order| == 3 && forall k :: 0 <= k < 3 ==> order[k] < 3
    requires forall k :: 0 <= k < 3 ==> (Stuck(succ, SetOf(order[..k])) <==> k < 2)
    ensures |CycleNotes(ids, succ, order)| == 2
    ensures CycleNotes(ids, succ, order)[0] == CycleNote(ids, succ, {}, order[0])
  {
    OneMoreNote(ids, succ, order, 0);
    OneMoreNote(ids, succ, order, 1);
    OneMoreNote(ids, succ, order, 2);
    assert order[..0] == [] && order[..3] == order && SetOf(order[..0]) == {};
  }

  lemma StaysWhereItIs(ids: seq<string>, succ: Digraph)
    requires |ids| == |succ| == 3 && succ[0] == {}
    ensures CycleNote(ids, succ, {}, 0) == "cycle: " + ids[0] + " stays where it is"
  {
    MutualLinksAre(ids, succ, {}, 0, 3);
  }

  /** A note that says "stays where it is" may name a module on no cycle: a and b feed each other, the reader only reads
      a, and the first note is about the reader. */
  lemma CycleNoteMayNameABystander(ids: seq<string>, links: seq<Link>, reader: string, a: string, b: string)
    requires ids == [reader, a, b] && Distinct(ids)
    requires links == [ForwardLink(a, b), ForwardLink(b, a), ForwardLink(a, reader)]
    ensures var succ, order := Adjacency(ids, links), [0, 1, 2];
            && IsSorted(succ, order)
            && |CycleNotes(ids, succ, order)| == 2
            && CycleNotes(ids, succ, order)[0] == "cycle: " + reader + " stays where it is"
            && !OnCycle(succ, {}, 0) && OnCycle(succ, {}, 1)
  {
    EdgesOfTheBystander(ids, links, reader, a, b);
    var succ, order := Adjacency(ids, links), [0, 1, 2];
    BystanderTurns(succ, order);
    TwoNotes(ids, succ, order);
    BystanderIsOnNoCycle(succ);
    StaysWhereItIs(ids, succ);
  }

  // ---------------------------------------------------------------- which links count

  function WithoutFeedback(links: seq<Link>): seq<Link> {
    if links == [] then []
    else
      var l := links[|links| - 1];
      WithoutFeedback(links[..|links| - 1]) + if l.feedback then [] else [l]
  }

  lemma {:induction false} WithoutFeedbackHas(links: seq<Link>, l: Link)
    ensures l in WithoutFeedback(links) <==> l in links && !l.feedback
  {
    if links != [] {
      WithoutFeedbackHas(links[..|links| - 1], l);
      assert links == links[..|links| - 1] + [links[|links| - 1]];
    }
  }

  /** The links of `some` that count are among those of `all`. */
  lemma EdgesStay(ids: seq<string>, some: seq<Link>, all: seq<Link>, a: nat, b: nat)
    requires forall l :: l in some && !l.feedback ==> l in all
    ensures HasEdge(ids, some, a, b) ==> HasEdge(ids, all, a, b)
  {
    if HasEdge(ids, some, a, b) {
      var k :| 0 <= k < |some| && Joins(ids, some[k], a, b);
      assert some[k] in all;
      var j :| 0 <= j < |all| && all[j] == some[k];
      assert Joins(ids, all[j], a, b);
    }
  }

  lemma SameForwardLinksSameGraph(ids: seq<string>, links: seq<Link>, again: seq<Link>)
    requires forall l :: l in links && !l.feedback ==> l in again
    requires forall l :: l in again && !l.feedback ==> l in links
    ensures Adjacency(ids, links) == Adjacency(ids, again)
  {
    forall a, b ensures HasEdge(ids, links, a, b) <==> HasEdge(ids, again, a, b) {
      EdgesStay(ids, links, again, a, b);
      EdgesStay(ids, again, links, a, b);
    }
    forall a | 0 <= a < |ids| ensures Successors(ids, links, a) == Successors(ids, again, a) {
    }
  }

  /** What `topological_order` answers. */
  ghost predicate IsSuggestion(ids: seq<string>, links: seq<Link>, order: seq<nat>, notes: seq<string>, changed: bool) {
    var succ := Adjacency(ids, links);
    && IsPermutation(order, |ids|) && IsSorted(succ, order)
    && (changed <==> order != Identity(|ids|))
    && notes == CycleNotes(ids, succ, order) + if changed then [] else ["already in a topological order"]
  }

  /** Feedback links do not count: taken out of any list, they leave the order, the notes and the changed flag as
      they were. */
  lemma FeedbackDoesNotCount(ids: seq<string>, links: seq<Link>, order: seq<nat>, notes: seq<string>, changed: bool)
    ensures IsSuggestion(ids, links, order, notes, changed)
       <==> IsSuggestion(ids, WithoutFeedback(links), order, notes, changed)
  {
    forall l ensures l in WithoutFeedback(links) <==> l in links && !l.feedback {
      WithoutFeedbackHas(links, l);
    }
    SameForwardLinksSameGraph(ids, links, WithoutFeedback(links));
  }

  /** A link that counts: not feedback, between two different modules of the document. */
  ghost predicate Counts(ids: seq<string>, links: seq<Link>, l: Link) {
    l in links && !l.feedback && l.fromNode in ids && l.toNode in ids && l.fromNode != l.toNode
  }

  /** Links that count, each from where the one before leads, the first from where the last does. */
  ghost predicate IsLinkCycle(ids: seq<string>, links: seq<Link>, c: seq<Link>) {
    && c != [] && (forall i :: 0 <= i < |c| ==> Counts(ids, links, c[i]))
    && (forall i :: 0 <= i < |c| - 1 ==> c[i].toNode == c[i + 1].fromNode)
    && c[|c| - 1].toNode == c[0].fromNode
  }

  /** The link's producer is earlier in the order than its consumer. */
  ghost predicate RunsForward(ids: seq<string>, order: seq<nat>, l: Link)
    requires IsPermutation(order, |ids|)
  {
    exists i, j :: 0 <= i < j < |order| && ids[order[i]] == l.fromNode && ids[order[j]] == l.toNode
  }

  lemma CountingLinkIsAnEdge(ids: seq<string>, links: seq<Link>, l: Link, a: nat, b: nat)
    requires Distinct(ids) && a < |ids| && b < |ids|
    requires Counts(ids, links, l) && l.fromNode == ids[a] && l.toNode == ids[b]
    ensures IsEdge(Adjacency(ids, links), a, b)
  {
    var k :| 0 <= k < |links| && links[k] == l;
    assert Joins(ids, links[k], a, b);
  }

  lemma EdgeIsACountingLink(ids: seq<string>, links: seq<Link>, a: nat, b: nat) returns (l: Link)
    requires Distinct(ids) && IsEdge(Adjacency(ids, links), a, b)
    ensures a < |ids| && b < |ids| && a != b
    ensures Counts(ids, links, l) && l.fromNode == ids[a] && l.toNode == ids[b]
  {
    var k :| 0 <= k < |links| && Joins(ids, links[k], a, b);
    l := links[k];
  }

  ghost predicate IsLinkOf(ids: seq<string>, links: seq<Link>, a: nat, b: nat, l: Link)
    requires a < |ids| && b < |ids|
  {
    Counts(ids, links, l) && l.fromNode == ids[a] && l.toNode == ids[b]
  }

  /** A link that makes the edge. */
  ghost function LinkOn(ids: seq<string>, links: seq<Link>, a: nat, b: nat): (l: Link)
    requires Distinct(ids) && a < |ids| && b < |ids| && IsEdge(Adjacency(ids, links), a, b)
    ensures IsLinkOf(ids, links, a, b, l)
  {
    assert exists l :: IsLinkOf(ids, links, a, b, l) by {
      var l := EdgeIsACountingLink(ids, links, a, b);
      assert IsLinkOf(ids, links, a, b, l);
    }
    var l :| IsLinkOf(ids, links, a, b, l);
    l
  }

  ghost predicate IsInside(w: seq<nat>, n: nat) {
    forall i :: 0 <= i < |w| ==> w[i] < n
  }

  /** c is a link for each step of the walk. */
  ghost predicate LiesAlong(ids: seq<string>, links: seq<Link>, w: seq<nat>, c: seq<Link>)
    requires IsInside(w, |ids|)
  {
    |c| == |w| - 1 && forall i :: 0 <= i < |c| ==> IsLinkOf(ids, links, w[i], w[i + 1], c[i])
  }

  lemma WalkIsInside(succ: Digraph, w: seq<nat>)
    requires |w| >= 2 && IsWalk(succ, w)
    ensures IsInside(w, |succ|)
  {
    forall i | 0 <= i < |w| ensures w[i] < |succ| {
      assert if i > 0 then IsEdge(succ, w[i - 1], w[i]) else IsEdge(succ, w[0], w[1]);
    }
  }

  lemma {:induction false} LinksAlong(ids: seq<string>, links: seq<Link>, w: seq<nat>) returns (c: seq<Link>)
    requires Distinct(ids) && w != [] && IsInside(w, |ids|) && IsWalk(Adjacency(ids, links), w)
    ensures LiesAlong(ids, links, w, c)
  {
    if |w| == 1 {
      c := [];
    } else {
      var n := |w| - 1;
      WalkPrefix(Adjacency(ids, links), w, n);
      c := LinksAlong(ids, links, w[..n]);
      c := c + [LinkOn(ids, links, w[n - 1], w[n])];
    }
  }

  lemma WalkPrefix(succ: Digraph, w: seq<nat>, n: nat)
    requires IsWalk(succ, w) && 0 < n < |w|
    ensures IsWalk(succ, w[..n]) && IsEdge(succ, w[n - 1], w[n])
  {
    assert IsEdge(succ, w[n - 1], w[n - 1 + 1]);
    forall i | 0 <= i < n - 1 ensures IsEdge(succ, w[..n][i], w[..n][i + 1]) {
      assert IsEdge(succ, w[i], w[i + 1]);
    }
  }

  lemma CycleIsALinkCycle(ids: seq<string>, links: seq<Link>, w: seq<nat>) returns (c: seq<Link>)
    requires Distinct(ids) && IsCycle(Adjacency(ids, links), w)
    ensures IsLinkCycle(ids, links, c)
  {
    WalkIsInside(Adjacency(ids, links), w);
    c := LinksAlong(ids, links, w);
    AlongACycle(ids, links, w, c);
  }

  lemma AlongACycle(ids: seq<string>, links: seq<Link>, w: seq<nat>, c: seq<Link>)
    requires |w| >= 2 && w[0] == w[|w| - 1] && IsInside(w, |ids|) && LiesAlong(ids, links, w, c)
    ensures IsLinkCycle(ids, links, c)
  {
    assert IsLinkOf(ids, links, w[0], w[1], c[0]);
    forall i | 0 <= i < |c| ensures Counts(ids, links, c[i]) && c[i].toNode == ids[w[i + 1]] {
      assert IsLinkOf(ids, links, w[i], w[i + 1], c[i]);
    }
    forall i | 0 <= i < |c| - 1 ensures c[i].toNode == c[i + 1].fromNode {
      assert IsLinkOf(ids, links, w[i + 1], w[i + 2], c[i + 1]);
    }
  }

  /** The place of an id. */
  ghost function PlaceOf(ids: seq<string>, name: string): (i: nat)
    requires name in ids
    ensures i < |ids| && ids[i] == name
  {
    var i :| 0 <= i < |ids| && ids[i] == name;
    i
  }

  lemma LinkCycleIsACycle(ids: seq<string>, links: seq<Link>, c: seq<Link>) returns (w: seq<nat>)
    requires Distinct(ids) && IsLinkCycle(ids, links, c)
    ensures IsCycle(Adjacency(ids, links), w)
  {
    var starts := seq(|c|, i requires 0 <= i < |c| => assert Counts(ids, links, c[i]); PlaceOf(ids, c[i].fromNode));
    w := starts + [starts[0]];
    forall i | 0 <= i < |w| - 1 ensures IsEdge(Adjacency(ids, links), w[i], w[i + 1]) {
      assert Counts(ids, links, c[i]);
      CountingLinkIsAnEdge(ids, links, c[i], w[i], w[i + 1]);
    }
  }

  lemma BackwardIsNotForward(ids: seq<string>, order: seq<nat>, l: Link, i: nat, j: nat)
    requires Distinct(ids) && IsPermutation(order, |ids|) && j <= i < |order|
    requires ids[order[i]] == l.fromNode && ids[order[j]] == l.toNode
    ensures !RunsForward(ids, order, l)
  {
    forall p, k | 0 <= p < |order| && 0 <= k < |order| && ids[order[p]] == ids[order[k]] ensures p == k {
      assert order[p] == order[k];
    }
  }

  lemma ForwardRunsAreTopological(ids: seq<string>, links: seq<Link>, order: seq<nat>)
    requires Distinct(ids) && IsPermutation(order, |ids|)
    ensures IsTopological(Adjacency(ids, links), order)
       <==> forall l :: Counts(ids, links, l) ==> RunsForward(ids, order, l)
  {
    var succ := Adjacency(ids, links);
    if IsTopological(succ, order) {
      forall l | Counts(ids, links, l) ensures RunsForward(ids, order, l) {
        var a, b := PlaceOf(ids, l.fromNode), PlaceOf(ids, l.toNode);
        CountingLinkIsAnEdge(ids, links, l, a, b);
        var i := PermutationCovers(order, |ids|, a);
        var j := PermutationCovers(order, |ids|, b);
        assert i < j;
      }
    } else {
      var i, j :| 0 <= i < |order| && 0 <= j < |order| && IsEdge(succ, order[i], order[j]) && j <= i;
      var l := EdgeIsACountingLink(ids, links, order[i], order[j]);
      BackwardIsNotForward(ids, order, l, i, j);
    }
  }

  /** With distinct ids the suggestion has the producer of every link that counts before its consumer exactly when
      those links form no cycle; feedback links and links of a module to itself never do. */
  lemma LinksRunForward(ids: seq<string>, links: seq<Link>, order: seq<nat>)
    requires Distinct(ids) && IsSorted(Adjacency(ids, links), order)
    ensures IsPermutation(order, |ids|)
    ensures (forall l :: Counts(ids, links, l) ==> RunsForward(ids, order, l))
       <==> !exists c :: IsLinkCycle(ids, links, c)
  {
    var succ := Adjacency(ids, links);
    SortedIsPermutation(succ, order);
    TopologicalIffAcyclic(succ, order);
    ForwardRunsAreTopological(ids, links, order);
    if c :| IsLinkCycle(ids, links, c) {
      var w := LinkCycleIsACycle(ids, links, c);
    }
    if w :| IsCycle(succ, w) {
      var c := CycleIsALinkCycle(ids, links, w);
    }
  }

  // ---------------------------------------------------------------- the loop

  lemma OneMoreLink(ids: seq<string>, links: seq<Link>, k: nat, a: nat, b: nat)
    requires k < |links|
    ensures HasEdge(ids, links[..k + 1], a, b)
       <==> HasEdge(ids, links[..k], a, b) || (a != b && Joins(ids, links[k], a, b))
  {
    if HasEdge(ids, links[..k + 1], a, b) {
      var m :| 0 <= m < k + 1 && Joins(ids, links[..k + 1][m], a, b);
      if m < k {
        assert Joins(ids, links[..k][m], a, b);
      }
    }
    if HasEdge(ids, links[..k], a, b) {
      var m :| 0 <= m < k && Joins(ids, links[..k][m], a, b);
      assert Joins(ids, links[..k + 1][m], a, b);
    }
    if Joins(ids, links[k], a, b) {
      assert Joins(ids, links[..k + 1][k], a, b);
    }
  }

  method IndexByName(ids: seq<string>) returns (index: map<string, nat>)
    ensures forall name :: name in index <==> name in ids
    ensures forall name :: name in index ==> Owns(ids, name, index[name])
    ensures forall name, i :: Owns(ids, name, i) ==> name in index && index[name] == i
  {
    index := map[];
    for i := 0 to |ids|
      invariant forall name :: name in index <==> name in ids[..i]
      invariant forall name :: name in index ==> Owns(ids[..i], name, index[name])
    {
      index := index[ids[i] := i];
    }
    assert ids[..|ids|] == ids;
  }

  lemma NoNewEdge(ids: seq<string>, links: seq<Link>, k: nat)
    requires k < |links| && forall a, b :: a != b ==> !Joins(ids, links[k], a, b)
    ensures Adjacency(ids, links[..k + 1]) == Adjacency(ids, links[..k])
  {
    forall a, b | 0 <= a < |ids| && 0 <= b < |ids|
      ensures HasEdge(ids, links[..k + 1], a, b) <==> HasEdge(ids, links[..k], a, b)
    {
      OneMoreLink(ids, links, k, a, b);
    }
    forall a | 0 <= a < |ids|
      ensures Successors(ids, links[..k + 1], a) == Successors(ids, links[..k], a)
    {
    }
  }

  lemma NewEdge(ids: seq<string>, links: seq<Link>, k: nat, a: nat, b: nat)
    requires k < |links| && a != b && Joins(ids, links[k], a, b)
    ensures Adjacency(ids, links[..k + 1])
         == Adjacency(ids, links[..k])[a := Adjacency(ids, links[..k])[a] + {b}]
  {
    forall c | 0 <= c < |ids|
      ensures Successors(ids, links[..k + 1], c) == Successors(ids, links[..k], c) + if c == a then {b} else {}
    {
      forall d | 0 <= d < |ids|
        ensures HasEdge(ids, links[..k + 1], c, d) <==> HasEdge(ids, links[..k], c, d) || (c == a && d == b)
      {
        OneMoreLink(ids, links, k, c, d);
      }
    }
    var grown := Adjacency(ids, links[..k])[a := Adjacency(ids, links[..k])[a] + {b}];
    forall c | 0 <= c < |ids| ensures Adjacency(ids, links[..k + 1])[c] == grown[c] {
    }
  }

  lemma BlockersGrow(succ: Digraph, a: nat, b: nat, v: nat)
    requires a < |succ| && b !in succ[a]
    ensures |Blockers(succ[a := succ[a] + {b}], {}, v)| == |Blockers(succ, {}, v)| + if v == b then 1 else 0
  {
    assert Blockers(succ[a := succ[a] + {b}], {}, v) == Blockers(succ, {}, v) + if v == b then {a} else {};
  }

  /** The successor sets and the in-degree array, one link at a time. */
  method LinkUp(ids: seq<string>, links: seq<Link>) returns (succ: Digraph, indeg: array<int>)
    ensures succ == Adjacency(ids, links)
    ensures fresh(indeg) && indeg.Length == |ids|
    ensures forall v :: 0 <= v < |ids| ==> indeg[v] == |Blockers(succ, {}, v)|
  {
    var n := |ids|;
    var index := IndexByName(ids);
    succ := seq(n, _ => {});
    indeg := new int[n](_ => 0);
    assert forall v :: 0 <= v < n ==> Blockers(succ, {}, v) == {};
    assert forall a :: 0 <= a < n ==> Successors(ids, links[..0], a) == {};
    for k := 0 to |links|
      invariant succ == Adjacency(ids, links[..k])
      invariant forall v :: 0 <= v < n ==> indeg[v] == |Blockers(succ, {}, v)|
    {
      var l := links[k];
      if !l.feedback && l.fromNode in index && l.toNode in index && index[l.fromNode] != index[l.toNode] {
        var a, b := index[l.fromNode], index[l.toNode];
        NewEdge(ids, links, k, a, b);
        if b !in succ[a] {
          forall v: nat | v < n
            ensures |Blockers(succ[a := succ[a] + {b}], {}, v)| == |Blockers(succ, {}, v)| + if v == b then 1 else 0
          {
            BlockersGrow(succ, a, b, v);
          }
          succ := succ[a := succ[a] + {b}];
          indeg[b] := indeg[b] + 1;
        } else {
          assert succ[a] + {b} == succ[a];
        }
      } else {
        NoNewEdge(ids, links, k);
      }
    }
    assert links[..|links|] == links;
  }

  lemma PlacingUnblocks(succ: Digraph, done: set<nat>, u: nat, v: nat)
    requires u < |succ| && u !in done
    ensures |Blockers(succ, done, v)| == |Blockers(succ, done + {u}, v)| + if v in succ[u] then 1 else 0
    ensures v !in succ[u] ==> Blockers(succ, done, v) == Blockers(succ, done + {u}, v)
    ensures v in succ[u] ==> u in Blockers(succ, done, v)
  {
    assert Blockers(succ, done, v) == Blockers(succ, done + {u}, v) + if v in succ[u] then {u} else {};
  }

  lemma QueueAfterPlacing(succ: Digraph, done: set<nat>, u: nat)
    requires u < |succ| && u !in done
    ensures Ready(succ, done) - {u} == Ready(succ, done + {u}) - succ[u]
  {
    forall v ensures v in Ready(succ, done) - {u} <==> v in Ready(succ, done + {u}) - succ[u] {
      PlacingUnblocks(succ, done, u, v);
    }
  }

  /** What the loop's arrays and queue say about the modules placed so far. */
  ghost predicate Tracks(succ: Digraph, done: set<nat>, placed: seq<bool>, indeg: seq<int>, ready: set<nat>) {
    && |placed| == |indeg| == |succ|
    && (forall v :: 0 <= v < |succ| ==> (placed[v] <==> v in done))
    && (forall v :: v in Unplaced(succ, done) ==> indeg[v] == |Blockers(succ, done, v)|)
    && ready == Ready(succ, done)
  }

  /** The successors of the module placed, one by one: `waiting` is what the in-degrees come down to, `free` the modules
      that then wait for none. */
  method Release(succ: set<nat>, ghost waiting: map<nat, nat>, ghost free: set<nat>, placed: array<bool>,
                 indeg: array<int>, queue: set<nat>) returns (ready: set<nat>)
    requires placed.Length == indeg.Length && forall v :: v in succ ==> v < placed.Length
    requires forall v: nat :: v < placed.Length ==> (placed[v] <==> v !in waiting)
    requires forall v :: v in waiting ==> v < indeg.Length && indeg[v] == waiting[v] + if v in succ then 1 else 0
    requires forall v :: v in free <==> v in waiting && waiting[v] == 0
    requires queue == free - succ
    modifies indeg
    ensures ready == free && forall v :: v in waiting ==> indeg[v] == waiting[v]
  {
    ready := queue;
    var todo := succ;
    while todo != {}
      invariant todo <= succ
      invariant forall v :: v in waiting ==> indeg[v] == waiting[v] + if v in todo then 1 else 0
      invariant ready == free - todo
    {
      var v :| v in todo;
      todo := todo - {v};
      if !placed[v] {
        indeg[v] := indeg[v] - 1;
        if indeg[v] == 0 {
          ready := ready + {v};
        }
      }
    }
  }

  /** u is placed, so each unplaced successor loses one blocker. */
  method Place(succ: Digraph, ghost done: set<nat>, u: nat, placed: array<bool>, indeg: array<int>, queue: set<nat>)
    returns (ready: set<nat>)
    requires placed.Length == indeg.Length == |succ|
    requires Tracks(succ, done, placed[..], indeg[..], queue)
    requires u < |succ| && u !in done && forall v :: v in succ[u] ==> v < |succ|
    modifies placed, indeg
    ensures Tracks(succ, done + {u}, placed[..], indeg[..], ready)
  {
    if queue == {} {
      indeg[u] := 0;
    }
    placed[u] := true;
    ghost var after := done + {u};
    QueueAfterPlacing(succ, done, u);
    forall v: nat | v in Unplaced(succ, after)
      ensures indeg[v] == |Blockers(succ, after, v)| + if v in succ[u] then 1 else 0
    {
      PlacingUnblocks(succ, done, u, v);
    }
    ghost var waiting := map v | v in Unplaced(succ, after) :: |Blockers(succ, after, v)|;
    ready := Release(succ[u], waiting, Ready(succ, after), placed, indeg, queue - {u});
  }

  /** The top of the queue, or the earliest unplaced module when nothing is ready. */
  method PickNext(succ: Digraph, ghost done: set<nat>, placed: array<bool>, ready: set<nat>) returns (u: nat)
    requires placed.Length == |succ| && Unplaced(succ, done) != {}
    requires forall v :: 0 <= v < |succ| ==> (placed[v] <==> v in done)
    requires ready == Ready(succ, done)
    ensures Places(succ, done, u) && u < |succ| && u !in done
  {
    if ready == {} {
      u := 0;
      while u < |succ| && placed[u]
        invariant u <= |succ| && forall v :: 0 <= v < u ==> placed[v]
      {
        u := u + 1;
      }
    } else {
      ghost var m := NonEmptyHasMin(ready);
      u :| u in ready && forall v :: v in ready ==> u <= v;
    }
  }

  lemma ExtendRun(succ: Digraph, order: seq<nat>, u: nat)
    requires IsRun(succ, order) && Places(succ, SetOf(order), u)
    ensures IsRun(succ, order + [u]) && SetOf(order + [u]) == SetOf(order) + {u}
    ensures (order + [u])[..|order|] == order
  {
    var longer := order + [u];
    assert longer[..|order|] == order;
    forall k | 0 <= k < |longer| ensures Places(succ, SetOf(longer[..k]), longer[k]) {
      if k < |order| {
        assert longer[..k] == order[..k];
      }
    }
  }

  method InitialQueue(succ: Digraph, indeg: array<int>) returns (ready: set<nat>)
    requires indeg.Length == |succ|
    requires forall v :: 0 <= v < |succ| ==> indeg[v] == |Blockers(succ, {}, v)|
    ensures ready == Ready(succ, {})
  {
    ready := {};
    for i := 0 to |succ|
      invariant forall v :: v in ready <==> 0 <= v < i && Blockers(succ, {}, v) == {}
    {
      if indeg[i] == 0 {
        ready := ready + {i};
      }
    }
  }

  method IsMoved(order: seq<nat>) returns (changed: bool)
    ensures changed <==> order != Identity(|order|)
  {
    for i := 0 to |order|
      invariant forall k :: 0 <= k < i ==> order[k] == k
    {
      if order[i] != i {
        assert order[i] != Identity(|order|)[i];
        return true;
      }
    }
    return false;
  }

  lemma SubsetSize<T>(a: set<T>, b: set<T>)
    requires a <= b
    ensures |a| <= |b|
  {
    assert b == a + (b - a);
  }

  lemma UnplacedRemains(succ: Digraph, order: seq<nat>)
    requires IsRun(succ, order) && |order| < |succ|
    ensures Unplaced(succ, SetOf(order)) != {}
  {
    var all, done := SetOf(Identity(|succ|)), SetOf(order);
    RunIsInjective(succ, order);
    InjectiveSetSize(order);
    InjectiveSetSize(Identity(|succ|));
    if all <= done {
      SubsetSize(all, done);
    }
    var v :| v in all && v !in done;
    assert v in Unplaced(succ, done);
  }

  /** One turn of the main loop, after `order`: the module placed, and the note if the cycle branch ran. */
  method Turn(ids: seq<string>, succ: Digraph, order: seq<nat>, placed: array<bool>, indeg: array<int>,
              queue: set<nat>)
    returns (u: nat, ready: set<nat>, note: seq<string>)
    requires placed.Length == indeg.Length == |succ| == |ids|
    requires forall a, b :: 0 <= a < |succ| && b in succ[a] ==> b < |succ|
    requires IsRun(succ, order) && |order| < |succ|
    requires Tracks(succ, SetOf(order), placed[..], indeg[..], queue)
    modifies placed, indeg
    ensures u < |ids| && IsRun(succ, order + [u])
    ensures Tracks(succ, SetOf(order + [u]), placed[..], indeg[..], ready)
    ensures note == if Stuck(succ, SetOf(order)) then [CycleNote(ids, succ, SetOf(order), u)] else []
  {
    UnplacedRemains(succ, order);
    // A queued module is never placed already, so the source's re-check of `done` never fires.
    u := PickNext(succ, SetOf(order), placed, queue);
    ExtendRun(succ, order, u);
    note := if queue == {} then [CycleNote(ids, succ, SetOf(order), u)] else [];
    ready := Place(succ, SetOf(order), u, placed, indeg, queue);
  }

  /** The main loop. */
  method PlaceAll(ids: seq<string>, succ: Digraph, indeg: array<int>) returns (order: seq<nat>, notes: seq<string>)
    requires |succ| == |ids| == indeg.Length
    requires forall a, b :: 0 <= a < |succ| && b in succ[a] ==> b < |succ|
    requires forall v :: 0 <= v < |succ| ==> indeg[v] == |Blockers(succ, {}, v)|
    modifies indeg
    ensures IsSorted(succ, order) && IsPermutation(order, |ids|) && notes == CycleNotes(ids, succ, order)
  {
    var n := |ids|;
    var placed := new bool[n](_ => false);
    var ready := InitialQueue(succ, indeg);
    order, notes := [], [];
    var remaining := n;
    assert SetOf(order) == {};
    while remaining > 0
      invariant |order| + remaining == n && IsRun(succ, order)
      invariant Tracks(succ, SetOf(order), placed[..], indeg[..], ready)
      invariant forall k :: 0 <= k < |order| ==> order[k] < n
      invariant notes == CycleNotes(ids, succ, order)
    {
      var u, note;
      u, ready, note := Turn(ids, succ, order, placed, indeg, ready);
      OneMoreNote(ids, succ, order + [u], |order|);
      assert (order + [u])[..|order|] == order;
      notes := notes + note;
      order := order + [u];
      remaining := remaining - 1;
    }
    SortedIsPermutation(succ, order);
  }

  method TopologicalOrder(ids: seq<string>, links: seq<Link>)
    returns (order: seq<nat>, notes: seq<string>, changed: bool)
    ensures IsSuggestion(ids, links, order, notes, changed)
  {
    var succ, indeg := LinkUp(ids, links);
    order, notes := PlaceAll(ids, succ, indeg);
    changed := IsMoved(order);
    if !changed {
      notes := notes + ["already in a topological order"];
    }
  }
}
