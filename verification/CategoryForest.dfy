/** The category collection as a parent relation: chains of parents, subtrees, cycles. */
module CategoryForest {
  import opened Wrappers

  type Id = nat

  datatype Kind = Header | Category | Subcategory

  datatype Node = Node(kind: Kind, parent: Option<Id>)

  type Forest = map<Id, Node>

  /** The parent of x, or None at a root and for an id that is not stored. */
  function Parent(f: Forest, x: Id): Option<Id> { if x in f then f[x].parent else None }

  /** The ancestor n steps above x. */
  ghost function Above(f: Forest, x: Id, n: nat): Option<Id>
  {
    if n == 0 then Some(x)
    else
      var p := Above(f, x, n - 1);
      if p.None? then None else Parent(f, p.value)
  }

  lemma {:induction false} AboveAdds(f: Forest, x: Id, m: nat, n: nat)
    requires Above(f, x, m).Some?
    ensures Above(f, x, m + n) == Above(f, Above(f, x, m).value, n)
  {
    if n != 0 { AboveAdds(f, x, m, n - 1); }
  }

  ghost predicate Acyclic(f: Forest) {
    forall x: Id, n: nat :: n > 0 ==> Above(f, x, n) != Some(x)
  }

  /** x is not on a cycle of parents. */
  ghost predicate OffCycle(f: Forest, x: Id) { forall n: nat :: n > 0 ==> Above(f, x, n) != Some(x) }

  ghost predicate Under(f: Forest, x: Id, root: Id) { exists n: nat :: Above(f, x, n) == Some(root) }

  /** The stored categories of the subtree at root. */
  ghost function Subtree(f: Forest, root: Id): set<Id> { set x | x in f && Under(f, x, root) }

  function Children(f: Forest, p: Id): set<Id> { set x | x in f && f[x].parent == Some(p) }

  lemma UnderChild(f: Forest, x: Id, root: Id)
    requires Under(f, x, root) && x != root
    ensures exists c :: c in Children(f, root) && Under(f, x, c)
  {
    var n: nat :| Above(f, x, n) == Some(root);
    var c := Above(f, x, n - 1).value;
    assert Parent(f, c) == Some(root);
    assert c in Children(f, root) && Under(f, x, c);
  }

  lemma UnderTransitive(f: Forest, x: Id, y: Id, z: Id)
    requires Under(f, x, y) && Under(f, y, z)
    ensures Under(f, x, z)
  {
    var m: nat :| Above(f, x, m) == Some(y);
    var n: nat :| Above(f, y, n) == Some(z);
    AboveAdds(f, x, m, n);
  }

  lemma ChildUnder(f: Forest, c: Id, p: Id)
    requires c in Children(f, p)
    ensures Under(f, c, p)
  {
    assert Above(f, c, 0) == Some(c);
    assert Above(f, c, 1) == Some(p);
  }

  lemma SubtreeOfChild(f: Forest, p: Id, c: Id)
    requires OffCycle(f, p) && c in Children(f, p)
    ensures OffCycle(f, c)
    ensures c in Subtree(f, c) && Subtree(f, c) <= Subtree(f, p) && p !in Subtree(f, c)
  {
    ChildUnder(f, c, p);
    assert Above(f, c, 0) == Some(c);
    forall x | x in Subtree(f, c) ensures x in Subtree(f, p) { UnderTransitive(f, x, c, p); }
    forall n: nat ensures Above(f, p, n) != Some(c) {
      assert Above(f, p, n + 1) != Some(p);
    }
    forall n: nat | n > 0 ensures Above(f, c, n) != Some(c) {
      if Above(f, c, n) == Some(c) { AboveAdds(f, c, 1, n - 1); }
    }
  }

  /** The recursion through children comes back to a category exactly when that is on a cycle. */
  lemma RecursionEndsIff(f: Forest, p: Id)
    ensures OffCycle(f, p) <==> forall c :: c in Children(f, p) ==> !Under(f, p, c)
  {
    forall c | c in Children(f, p) && Under(f, p, c) ensures !OffCycle(f, p) {
      var n: nat :| Above(f, p, n) == Some(c);
      assert Above(f, p, n + 1) == Some(p);
    }
    if n: nat :| n > 0 && Above(f, p, n) == Some(p) {
      var c := Above(f, p, n - 1).value;
      assert c in Children(f, p) && Under(f, p, c);
    }
  }

  /** Subtrees of different children of one category share no node. */
  lemma SiblingsDisjoint(f: Forest, p: Id, c: Id, d: Id)
    requires OffCycle(f, p) && c in Children(f, p) && d in Children(f, p) && c != d
    ensures Subtree(f, c) !! Subtree(f, d)
  {
    forall x | x in Subtree(f, c) ensures x !in Subtree(f, d) {
      var m: nat :| Above(f, x, m) == Some(c);
      forall n: nat ensures Above(f, x, n) != Some(d) {
        NotThroughSibling(f, x, p, c, d, m, n);
      }
    }
  }

  /** A chain that passes through c does not pass through its sibling d as well. */
  lemma NotThroughSibling(f: Forest, x: Id, p: Id, c: Id, d: Id, m: nat, n: nat)
    requires OffCycle(f, p) && c in Children(f, p) && d in Children(f, p) && c != d
    requires Above(f, x, m) == Some(c)
    ensures Above(f, x, n) != Some(d)
  {
    if Above(f, x, n) == Some(d) && m != n {
      var low, high := if m < n then m else n, if m < n then n else m;
      assert Above(f, x, low + 1) == Some(p) && Above(f, x, high + 1) == Some(p);
      AboveAdds(f, x, low + 1, high - low);
    }
  }

  /** A subtree is its root, when stored, and the subtrees of its children. */
  lemma SubtreeUnfolds(f: Forest, root: Id)
    ensures Subtree(f, root)
         == (if root in f then {root} else {}) + set x, c | c in Children(f, root) && x in Subtree(f, c) :: x
  {
    assert root in f ==> Above(f, root, 0) == Some(root);
    forall x | x in Subtree(f, root) && x != root ensures exists c :: c in Children(f, root) && x in Subtree(f, c) {
      UnderChild(f, x, root);
    }
    forall x, c | c in Children(f, root) && x in Subtree(f, c) ensures x in Subtree(f, root) {
      ChildUnder(f, c, root);
      UnderTransitive(f, x, c, root);
    }
  }

  // ---------- removing nodes ----------

  /** With every node its subtree is gone as well. */
  ghost predicate ClosedDown(f: Forest, gone: set<Id>) {
    forall x :: x in f && f[x].parent.Some? && f[x].parent.value in gone ==> x in gone
  }

  lemma {:induction false} ClosedDownChain(f: Forest, gone: set<Id>, x: Id, n: nat)
    requires ClosedDown(f, gone) && x in f && x !in gone && Above(f, x, n).Some?
    ensures Above(f - gone, x, n) == Above(f, x, n) && Above(f, x, n).value !in gone
  {
    if n != 0 { ClosedDownChain(f, gone, x, n - 1); }
  }

  lemma {:induction false} ChainInSmaller(f: Forest, gone: set<Id>, x: Id, n: nat)
    requires Above(f - gone, x, n).Some?
    ensures Above(f, x, n) == Above(f - gone, x, n)
  {
    if n != 0 { ChainInSmaller(f, gone, x, n - 1); }
  }

  /** In what is left, a subtree is what is left of it. */
  lemma SubtreeAfterRemoval(f: Forest, gone: set<Id>, root: Id)
    requires ClosedDown(f, gone)
    ensures Subtree(f - gone, root) == Subtree(f, root) - gone
  {
    forall x | x in Subtree(f, root) && x !in gone ensures x in Subtree(f - gone, root) {
      var n: nat :| Above(f, x, n) == Some(root);
      ClosedDownChain(f, gone, x, n);
    }
    forall x | x in Subtree(f - gone, root) ensures x in Subtree(f, root) {
      var n: nat :| Above(f - gone, x, n) == Some(root);
      ChainInSmaller(f, gone, x, n);
    }
  }

  lemma SubtreeClosedDown(f: Forest, root: Id)
    ensures ClosedDown(f, Subtree(f, root))
  {
    forall x | x in f && f[x].parent.Some? && f[x].parent.value in Subtree(f, root) ensures x in Subtree(f, root) {
      var p := f[x].parent.value;
      ChildUnder(f, x, p);
      UnderTransitive(f, x, p, root);
    }
  }

  lemma RemovalKeepsOffCycle(f: Forest, gone: set<Id>, x: Id)
    requires OffCycle(f, x)
    ensures OffCycle(f - gone, x)
  {
    forall n: nat | n > 0 ensures Above(f - gone, x, n) != Some(x) {
      if Above(f - gone, x, n) == Some(x) { ChainInSmaller(f, gone, x, n); }
    }
  }

  // ---------- moving nodes ----------

  lemma {:induction false} ChainMissing(f: Forest, g: Forest, id: Id, x: Id, n: nat)
    requires forall y :: y != id ==> Parent(g, y) == Parent(f, y)
    requires forall k: nat :: k < n ==> Above(f, x, k) != Some(id)
    ensures Above(g, x, n) == Above(f, x, n)
  {
    if n != 0 { ChainMissing(f, g, id, x, n - 1); }
  }

  /** The least step at which a chain reaches id. */
  lemma FirstVisit(f: Forest, x: Id, id: Id, n: nat) returns (k: nat)
    requires Above(f, x, n) == Some(id)
    ensures k <= n && Above(f, x, k) == Some(id) && forall j: nat :: j < k ==> Above(f, x, j) != Some(id)
  {
    k := 0;
    while Above(f, x, k) != Some(id)
      invariant k <= n && forall j: nat :: j < k ==> Above(f, x, j) != Some(id)
      decreases n - k
    {
      k := k + 1;
    }
  }

  /** Giving one category a new parent keeps the forest acyclic exactly when that parent is not in its subtree. */
  lemma ReparentAcyclicIff(f: Forest, id: Id, node: Node)
    requires Acyclic(f)
    ensures Acyclic(f[id := node]) <==> (node.parent.Some? ==> !Under(f, node.parent.value, id))
  {
    var g := f[id := node];
    if node.parent.Some? && Under(f, node.parent.value, id) {
      var p := node.parent.value;
      var n: nat :| Above(f, p, n) == Some(id);
      var k := FirstVisit(f, p, id, n);
      ChainMissing(f, g, id, p, k);
      assert Above(g, id, 0) == Some(id) && Above(g, id, 1) == Some(p);
      AboveAdds(g, id, 1, k);
      assert Above(g, id, k + 1) == Some(id);
    } else {
      forall x: Id, n: nat | n > 0 && Above(g, x, n) == Some(x) ensures false {
        CycleMeetsMoved(f, g, id, x, n);
      }
    }
  }

  lemma CycleMeetsMoved(f: Forest, g: Forest, id: Id, x: Id, n: nat)
    requires Acyclic(f) && id in g && forall y :: y != id ==> Parent(g, y) == Parent(f, y)
    requires n > 0 && Above(g, x, n) == Some(x)
    ensures g[id].parent.Some? && Under(f, g[id].parent.value, id)
  {
    if m: nat :| m < n && Above(g, x, m) == Some(id) {
      // the cycle runs through id: from its new parent the chain comes back to id
      AboveAdds(g, x, m, n - m);
      AboveAdds(g, x, n, m);
      AboveAdds(g, id, n - m, m);
      assert Above(g, id, n) == Some(id);
      assert Above(g, id, 0) == Some(id);
      assert Above(g, id, 1).Some? by { ChainNeverBreaks(g, id, 1, n); }
      var p := g[id].parent.value;
      AboveAdds(g, id, 1, n - 1);
      var k := FirstVisit(g, p, id, n - 1);
      ChainMissing(g, f, id, p, k);
      assert Above(f, p, k) == Some(id);
    } else {
      ChainMissing(g, f, id, x, n);
    }
  }

  lemma {:induction false} ChainNeverBreaks(f: Forest, x: Id, m: nat, n: nat)
    requires m <= n && Above(f, x, n).Some?
    ensures Above(f, x, m).Some?
    decreases n - m
  {
    if m < n { ChainNeverBreaks(f, x, m, n - 1); }
  }
}
