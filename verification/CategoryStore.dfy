/** categoryController.js: creating, moving and deleting categories next to the products that refer to them. */
module CategoryStore {
  import opened Wrappers
  import opened CategoryForest

  datatype Product = Product(headerId: Id, categoryId: Id, subcategoryId: Id)

  /** An id as sent by the client. */
  datatype RawId = Malformed | ObjectId(id: Id)

  datatype Reply = BadRequest | NotFound | Linked(count: nat) | Done

  /** Which categories deleteAllCategories starts from; a parent narrows two of the choices. */
  datatype Filter = Everything | Headers | Categories(under: Option<Id>) | Subcategories(under: Option<Id>)

  function AsSet(ids: seq<Id>): set<Id> { set x | x in ids }

  predicate NoDuplicates(ids: seq<Id>) { forall i, j :: 0 <= i < j < |ids| ==> ids[i] != ids[j] }

  // ---------- what is deleted, as sets ----------

  /** The root of a deletion with everything below it; the root itself need not be stored. */
  ghost function Branch(f: Forest, root: Id): set<Id> { {root} + Subtree(f, root) }

  ghost function Branches(f: Forest, roots: seq<Id>): set<Id> {
    if roots == [] then {} else Branches(f, roots[..|roots| - 1]) + Branch(f, roots[|roots| - 1])
  }

  ghost function Subtrees(f: Forest, roots: seq<Id>): set<Id> {
    if roots == [] then {} else Subtrees(f, roots[..|roots| - 1]) + Subtree(f, roots[|roots| - 1])
  }

  lemma {:induction false} SubtreesHave(f: Forest, roots: seq<Id>, x: Id)
    ensures x in Subtrees(f, roots) <==> exists r :: r in roots && x in Subtree(f, r)
    ensures x in Branches(f, roots) <==> x in Subtrees(f, roots) || x in roots
  {
    if roots != [] {
      SubtreesHave(f, roots[..|roots| - 1], x);
      assert roots == roots[..|roots| - 1] + [roots[|roots| - 1]];
    }
  }

  lemma {:induction false} SubtreesClosedDown(f: Forest, roots: seq<Id>)
    ensures ClosedDown(f, Subtrees(f, roots))
  {
    if roots != [] {
      SubtreesClosedDown(f, roots[..|roots| - 1]);
      SubtreeClosedDown(f, roots[|roots| - 1]);
    }
  }

  /** One more subtree removed from a forest that has lost the subtrees before it. */
  lemma RemoveNext(f: Forest, roots: seq<Id>, i: nat)
    requires i < |roots| && OffCycle(f, roots[i])
    ensures var now := f - Subtrees(f, roots[..i]);
            && OffCycle(now, roots[i]) && ClosedDown(f, Subtrees(f, roots[..i]))
            && Subtree(now, roots[i]) <= Subtree(f, roots[i])
            && now - Subtree(now, roots[i]) == f - Subtrees(f, roots[..i + 1])
  {
    var gone := Subtrees(f, roots[..i]);
    SubtreesClosedDown(f, roots[..i]);
    SubtreeAfterRemoval(f, gone, roots[i]);
    RemovalKeepsOffCycle(f, gone, roots[i]);
    assert roots[..i + 1][..i] == roots[..i];
  }

  /** A subtree is the subtrees of its root's children, in any order, and the root. */
  lemma ChildrenCover(f: Forest, root: Id, kids: seq<Id>)
    requires forall c :: c in kids <==> c in Children(f, root)
    ensures f - Subtrees(f, kids) - {root} == f - Subtree(f, root)
  {
    SubtreeUnfolds(f, root);
    forall x ensures x in Subtrees(f, kids) <==> exists c :: c in kids && x in Subtree(f, c) {
      SubtreesHave(f, kids, x);
    }
  }

  ghost function SubtreesOf(f: Forest, roots: set<Id>): set<Id> { set x, r | r in roots && x in Subtree(f, r) :: x }

  ghost function BranchesOf(f: Forest, roots: set<Id>): set<Id> { roots + SubtreesOf(f, roots) }

  /** Order, repeated ids and ids nested below others make no difference to what a list of roots stands for. */
  lemma {:induction false} RootsAsSet(f: Forest, roots: seq<Id>)
    ensures Subtrees(f, roots) == SubtreesOf(f, AsSet(roots)) && Branches(f, roots) == BranchesOf(f, AsSet(roots))
  {
    forall x
      ensures x in Subtrees(f, roots) <==> x in SubtreesOf(f, AsSet(roots))
      ensures x in Branches(f, roots) <==> x in BranchesOf(f, AsSet(roots))
    {
      SubtreesHave(f, roots, x);
    }
  }

  /** A later state of the collection in which no category has lost its parent since `before`. */
  ghost predicate NothingOrphaned(before: Forest, now: Forest) {
    forall x :: x in now ==>
      && x in before && now[x] == before[x]
      && (now[x].parent.Some? && now[x].parent.value in before ==> now[x].parent.value in now)
  }

  /** `now` continues the history `was`, and in none of its new states a category has lost its parent since f. */
  ghost predicate NoneOrphanedSince(f: Forest, was: seq<Forest>, now: seq<Forest>) {
    was <= now && forall i :: |was| <= i < |now| ==> NothingOrphaned(f, now[i])
  }

  /** What no step orphaned in a forest already shrunk by a closed set, it did not orphan in the whole forest. */
  lemma HistoryCompose(f: Forest, gone: set<Id>, first: seq<Forest>, mid: seq<Forest>, last: seq<Forest>)
    requires ClosedDown(f, gone)
    requires NoneOrphanedSince(f, first, mid) && NoneOrphanedSince(f - gone, mid, last)
    ensures NoneOrphanedSince(f, first, last)
  {
    forall i | |first| <= i < |last| ensures NothingOrphaned(f, last[i]) {
      if i < |mid| {
        assert last[i] == mid[i];
      } else {
        assert NothingOrphaned(f - gone, last[i]);
      }
    }
  }

  /** Taking away a set of categories orphans nothing exactly when their children are taken away as well. */
  lemma OrphansNothingIff(f: Forest, gone: set<Id>)
    requires gone <= f.Keys
    ensures NothingOrphaned(f, f - gone) <==> ClosedDown(f, gone)
  {
    if NothingOrphaned(f, f - gone) {
      forall x | x in f && f[x].parent.Some? && f[x].parent.value in gone ensures x in gone {
        assert x in gone || x in f - gone;
      }
    }
  }

  // ---------- products ----------

  predicate RefersTo(p: Product, ids: set<Id>) { p.headerId in ids || p.categoryId in ids || p.subcategoryId in ids }

  function LinkedCount(products: seq<Product>, ids: set<Id>): nat {
    if products == [] then 0
    else LinkedCount(products[..|products| - 1], ids) + if RefersTo(products[|products| - 1], ids) then 1 else 0
  }

  lemma {:induction false} NoneLinked(products: seq<Product>, ids: set<Id>)
    ensures LinkedCount(products, ids) == 0 <==>
      forall p :: p in products ==> p.headerId !in ids && p.categoryId !in ids && p.subcategoryId !in ids
  {
    if products != [] {
      NoneLinked(products[..|products| - 1], ids);
      assert products == products[..|products| - 1] + [products[|products| - 1]];
    }
  }

  /** The count is the number of places in the list that hold a product of one of the ids. */
  lemma {:induction false} CountIs(products: seq<Product>, ids: set<Id>)
    ensures LinkedCount(products, ids) == |LinkedPlaces(products, ids)|
  {
    if products != [] {
      var n := |products| - 1;
      CountIs(products[..n], ids);
      assert LinkedPlaces(products, ids)
          == LinkedPlaces(products[..n], ids) + if RefersTo(products[n], ids) then {n} else {};
    }
  }

  ghost function LinkedPlaces(products: seq<Product>, ids: set<Id>): set<nat> {
    set i | 0 <= i < |products| &&
            (products[i].headerId in ids || products[i].categoryId in ids || products[i].subcategoryId in ids)
  }

  /** Every product reference that led to a category before still does. */
  ghost predicate ReferencesKept(products: seq<Product>, before: Forest, now: Forest) {
    forall p :: p in products ==>
      && (p.headerId in before ==> p.headerId in now)
      && (p.categoryId in before ==> p.categoryId in now)
      && (p.subcategoryId in before ==> p.subcategoryId in now)
  }

  // ---------- the type check on parents ----------

  predicate ParentAllowed(f: Forest, kind: Kind, parent: Option<Id>) {
    kind == Header || parent.None? ||
    (parent.value in f && f[parent.value].kind in {Header, Category})
  }

  /** The check looks at types only: moving a category below its own child passes it and closes a cycle. */
  lemma TypeCheckAllowsCycle()
    ensures var f := map[0 := Node(Header, None), 1 := Node(Category, Some(0)), 2 := Node(Category, Some(1))];
            && Acyclic(f) && ParentAllowed(f, Category, Some(2)) && !Acyclic(f[1 := Node(Category, Some(2))])
  {
    var f0: Forest := map[];
    forall x: Id, n: nat | n > 0 ensures Above(f0, x, n) != Some(x) { RootsOnly(f0, x, n); }
    var f1 := f0[0 := Node(Header, None)];
    ReparentAcyclicIff(f0, 0, Node(Header, None));
    NewLeafAcyclic(f1, 1, Node(Category, Some(0)));
    var f2 := f1[1 := Node(Category, Some(0))];
    NewLeafAcyclic(f2, 2, Node(Category, Some(1)));
    var f := f2[2 := Node(Category, Some(1))];
    assert f == map[0 := Node(Header, None), 1 := Node(Category, Some(0)), 2 := Node(Category, Some(1))];
    ChildUnder(f, 2, 1);
    ReparentAcyclicIff(f, 1, Node(Category, Some(2)));
  }

  lemma RootsOnly(f: Forest, x: Id, n: nat)
    requires f == map[] && n > 0
    ensures Above(f, x, n) == None
  {
    if n > 1 { RootsOnly(f, x, n - 1); }
  }

  /** A category under a fresh id, which no stored category names as its parent, closes no cycle. */
  lemma NewLeafAcyclic(f: Forest, id: Id, node: Node)
    requires Acyclic(f) && id !in f && node.parent != Some(id)
    requires forall x :: x in f ==> f[x].parent != Some(id)
    ensures Acyclic(f[id := node])
  {
    if node.parent.Some? {
      forall n: nat ensures Above(f, node.parent.value, n) != Some(id) { }
    }
    ReparentAcyclicIff(f, id, node);
  }

  // ---------- the deleteMany shortcut ----------

  predicate Matches(f: Forest, x: Id, filter: Filter)
    requires x in f
  {
    match filter
    case Everything => true
    case Headers => f[x].kind == Header
    case Categories(under) => f[x].kind == Category && (under.Some? ==> f[x].parent == under)
    case Subcategories(under) => f[x].kind == Subcategory && (under.Some? ==> f[x].parent == under)
  }

  function Matching(f: Forest, filter: Filter): set<Id> { set x | x in f && Matches(f, x, filter) }

  /** What deleteAllCategories removes: subcategories alone, anything else with everything below it. */
  ghost function Removed(f: Forest, filter: Filter): set<Id> {
    if filter.Subcategories? then Matching(f, filter) else SubtreesOf(f, Matching(f, filter))
  }

  /**
   * Which stored categories go, told by types and parents alone: all of them, what is under some header, what is under
   * some category - of the given parent, if one is given - or just the subcategories themselves.
   */
  lemma RemovedIff(f: Forest, x: Id, under: Option<Id>)
    requires x in f
    ensures x in Removed(f, Everything)
    ensures x in Removed(f, Headers) <==> exists r :: r in f && f[r].kind == Header && Under(f, x, r)
    ensures x in Removed(f, Categories(under)) <==>
      exists r :: r in f && f[r].kind == Category && (under.None? || f[r].parent == under) && Under(f, x, r)
    ensures x in Removed(f, Subcategories(under)) <==>
      f[x].kind == Subcategory && (under.None? || f[x].parent == under)
  {
    assert Above(f, x, 0) == Some(x);
    assert x in Subtree(f, x) && x in Matching(f, Everything);
    forall r | r in f && f[r].kind == Header && Under(f, x, r) ensures x in Removed(f, Headers) {
      assert r in Matching(f, Headers) && x in Subtree(f, r);
    }
    forall r | r in f && f[r].kind == Category && (under.None? || f[r].parent == under) && Under(f, x, r)
      ensures x in Removed(f, Categories(under))
    {
      assert r in Matching(f, Categories(under)) && x in Subtree(f, r);
    }
  }

  /** Which categories a deletion starts from, and so which products stand in its way, told by types and parents. */
  lemma LookedUpIff(f: Forest, x: Id, under: Option<Id>)
    ensures x in Matching(f, Everything) <==> x in f
    ensures x in Matching(f, Headers) <==> x in f && f[x].kind == Header
    ensures x in Matching(f, Categories(under)) <==>
      x in f && f[x].kind == Category && (under.None? || f[x].parent == under)
    ensures x in Matching(f, Subcategories(under)) <==>
      x in f && f[x].kind == Subcategory && (under.None? || f[x].parent == under)
  {
  }

  /** Deleting below one parent stays in that parent's subtree; of subcategories only its own children go. */
  lemma RemovedUnderParent(f: Forest, p: Id)
    ensures Removed(f, Categories(Some(p))) <= Subtree(f, p)
    ensures Removed(f, Subcategories(Some(p))) <= Children(f, p) <= Subtree(f, p)
  {
    forall x | x in Children(f, p) ensures x in Subtree(f, p) { ChildUnder(f, x, p); }
    forall x | x in Removed(f, Categories(Some(p))) ensures x in Subtree(f, p) {
      RemovedIff(f, x, Some(p));
      var r :| r in f && f[r].kind == Category && f[r].parent == Some(p) && Under(f, x, r);
      ChildUnder(f, r, p);
      UnderTransitive(f, x, r, p);
    }
  }

  /** Deleting categories of one parent keeps what is under another one, unless that lies below or above it. */
  lemma OtherBranchKept(f: Forest, p: Id, q: Id)
    requires !Under(f, p, q) && !Under(f, q, p)
    ensures Removed(f, Categories(Some(p))) !! Subtree(f, q)
  {
    RemovedUnderParent(f, p);
    forall x | x in Subtree(f, p) ensures x !in Subtree(f, q) { NotUnderBoth(f, x, p, q); }
  }

  lemma NotUnderBoth(f: Forest, x: Id, p: Id, q: Id)
    requires Under(f, x, p) && !Under(f, p, q) && !Under(f, q, p)
    ensures !Under(f, x, q)
  {
    var m: nat :| Above(f, x, m) == Some(p);
    forall n: nat ensures Above(f, x, n) != Some(q) {
      if Above(f, x, n) == Some(q) {
        if m <= n { AboveAdds(f, x, m, n - m); } else { AboveAdds(f, x, n, m - n); }
      }
    }
  }

  lemma RemovedInBranches(f: Forest, filter: Filter)
    ensures Removed(f, filter) <= BranchesOf(f, Matching(f, filter))
    ensures filter.Everything? ==> f - Removed(f, filter) == map[]
  {
    forall x | x in f ensures x in Subtree(f, x) { assert Above(f, x, 0) == Some(x); }
  }

  /** Deleting just the given categories equals deleting their subtrees iff all their children are given as well. */
  lemma ShortcutAgreesIff(f: Forest, top: set<Id>)
    requires top <= f.Keys
    ensures f - top == f - SubtreesOf(f, top) <==> ClosedDown(f, top)
  {
    forall r | r in top ensures r in SubtreesOf(f, top) {
      assert Above(f, r, 0) == Some(r);
      assert r in Subtree(f, r);
    }
    if ClosedDown(f, top) {
      forall x, r | r in top && x in Subtree(f, r) ensures x in top {
        var n: nat :| Above(f, x, n) == Some(r);
        if x !in top { ClosedDownChain(f, top, x, n); }
      }
      assert top == SubtreesOf(f, top);
    }
    if f - top == f - SubtreesOf(f, top) {
      forall x | x in SubtreesOf(f, top) ensures x in top { assert x !in f - SubtreesOf(f, top); }
      forall x | x in f && f[x].parent.Some? && f[x].parent.value in top ensures x in top {
        ChildUnder(f, x, f[x].parent.value);
        assert x in Subtree(f, f[x].parent.value);
      }
    }
  }

  /** Where no category has a subcategory for its parent, subcategories are leaves and the shortcut is exact. */
  lemma LeafShortcutExact(f: Forest, under: Option<Id>)
    requires forall x :: x in f && f[x].parent.Some? && f[x].parent.value in f ==>
      f[f[x].parent.value].kind != Subcategory
    ensures f - Matching(f, Subcategories(under)) == f - SubtreesOf(f, Matching(f, Subcategories(under)))
  {
    ShortcutAgreesIff(f, Matching(f, Subcategories(under)));
  }

  /** Deleting all subcategories orphans what sits under one: a header, whose parent is not checked at all... */
  lemma HeaderUnderSubcategory()
    ensures var f := map[0 := Node(Header, None), 1 := Node(Subcategory, Some(0)), 2 := Node(Header, Some(1))];
            && ParentAllowed(f, Header, Some(1))
            && !NothingOrphaned(f, f - Matching(f, Subcategories(None)))
  {
    var f := map[0 := Node(Header, None), 1 := Node(Subcategory, Some(0)), 2 := Node(Header, Some(1))];
    assert 1 in Matching(f, Subcategories(None)) && f[2].parent == Some(1);
    OrphansNothingIff(f, Matching(f, Subcategories(None)));
  }

  /**
   * ... or a category whose parent is made a subcategory: the check looks at that one's own parent, not at its
   * children.
   */
  lemma RetypedParent()
    ensures var f := map[0 := Node(Header, None), 1 := Node(Category, Some(0)), 2 := Node(Category, Some(1))];
            var g := f[1 := Node(Subcategory, Some(0))];
            && ParentAllowed(f, Subcategory, Some(0)) && ParentAllowed(f, Category, f[2].parent)
            && !NothingOrphaned(g, g - Matching(g, Subcategories(None)))
  {
    var f := map[0 := Node(Header, None), 1 := Node(Category, Some(0)), 2 := Node(Category, Some(1))];
    var g := f[1 := Node(Subcategory, Some(0))];
    assert 1 in Matching(g, Subcategories(None)) && g[2].parent == Some(1);
    OrphansNothingIff(g, Matching(g, Subcategories(None)));
  }

  class Store {
    var categories: Forest
    var products: seq<Product>
    /** Every state the collection of categories went through. */
    ghost var history: seq<Forest>

    constructor (products: seq<Product>)
      ensures categories == map[] && this.products == products && history == []
    {
      categories := map[];
      this.products := products;
      history := [];
    }

    /** find({ parentId }): the children of p in some order. */
    method FindChildren(p: Id) returns (kids: seq<Id>)
      ensures NoDuplicates(kids) && forall c :: c in kids <==> c in Children(categories, p)
    {
      kids := SomeOrder(Children(categories, p));
    }

    /** Collects a branch: its root first, then each child's branch in turn; no id appears twice. */
    method CollectDescendantIds(root: Id) returns (result: seq<Id>)
      requires OffCycle(categories, root)
      ensures NoDuplicates(result)
      ensures forall x :: x in result <==> x in Branch(categories, root)
      decreases Branch(categories, root)
    {
      result := [root];
      var kids := FindChildren(root);
      SubtreeUnfolds(categories, root);
      for i := 0 to |kids|
        invariant NoDuplicates(result)
        invariant forall x :: x in result <==> x == root || exists k :: 0 <= k < i && x in Subtree(categories, kids[k])
      {
        var kid := kids[i];
        assert kid in kids;
        SubtreeOfChild(categories, root, kid);
        forall k | 0 <= k < i ensures Subtree(categories, kids[k]) !! Subtree(categories, kid) {
          assert kids[k] in kids;
          SiblingsDisjoint(categories, root, kids[k], kid);
        }
        var ids := CollectDescendantIds(kid);
        JoinDisjoint(result, ids);
        result := result + ids;
      }
    }

    method DeleteById(id: Id)
      modifies this`categories, this`history
      ensures categories == old(categories) - {id}
      ensures history == old(history) + [categories]
    {
      categories := categories - {id};
      history := history + [categories];
    }

    /** Post-order deletion that looks for children again at every level, while the collection shrinks. */
    method DeleteWithChildren(root: Id)
      requires OffCycle(categories, root)
      modifies this`categories, this`history
      ensures categories == old(categories) - Subtree(old(categories), root)
      ensures NoneOrphanedSince(old(categories), old(history), history)
      decreases Branch(categories, root)
    {
      ghost var f := categories;
      var kids := FindChildren(root);
      for i := 0 to |kids|
        invariant categories == f - Subtrees(f, kids[..i])
        invariant NoneOrphanedSince(f, old(history), history)
      {
        assert kids[i] in kids;
        SubtreeOfChild(f, root, kids[i]);
        RemoveNext(f, kids, i);
        ghost var before := history;
        DeleteWithChildren(kids[i]);
        HistoryCompose(f, Subtrees(f, kids[..i]), old(history), before, history);
      }
      assert kids[..|kids|] == kids;
      ChildrenCover(f, root, kids);
      SubtreeClosedDown(f, root);
      OrphansNothingIff(f, Subtree(f, root));
      DeleteById(root);
    }

    method CountLinked(ids: seq<Id>) returns (count: nat)
      ensures count == LinkedCount(products, AsSet(ids)) == |LinkedPlaces(products, AsSet(ids))|
    {
      count := 0;
      for i := 0 to |products|
        invariant count == LinkedCount(products[..i], AsSet(ids))
      {
        assert products[..i + 1][..i] == products[..i];
        if RefersTo(products[i], AsSet(ids)) { count := count + 1; }
      }
      assert products[..|products|] == products;
      CountIs(products, AsSet(ids));
    }

    method DeleteEach(roots: seq<Id>)
      requires forall r :: r in roots ==> OffCycle(categories, r)
      modifies this`categories, this`history
      ensures categories == old(categories) - Subtrees(old(categories), roots)
      ensures NoneOrphanedSince(old(categories), old(history), history)
    {
      ghost var f := categories;
      for i := 0 to |roots|
        invariant categories == f - Subtrees(f, roots[..i])
        invariant NoneOrphanedSince(f, old(history), history)
      {
        RemoveNext(f, roots, i);
        ghost var before := history;
        DeleteWithChildren(roots[i]);
        HistoryCompose(f, Subtrees(f, roots[..i]), old(history), before, history);
      }
      assert roots[..|roots|] == roots;
    }

    method CollectEach(roots: seq<Id>) returns (ids: seq<Id>)
      requires forall r :: r in roots ==> OffCycle(categories, r)
      ensures AsSet(ids) == Branches(categories, roots)
    {
      ids := [];
      for i := 0 to |roots|
        invariant AsSet(ids) == Branches(categories, roots[..i])
      {
        var branch := CollectDescendantIds(roots[i]);
        assert (set x | x in ids + branch) == (AsSet(ids)) + Branch(categories, roots[i]);
        assert roots[..i + 1][..i] == roots[..i];
        ids := ids + branch;
      }
      assert roots[..|roots|] == roots;
    }

    /** Deletes the branches at the given roots unless a product refers to one of their categories. */
    method DeleteUnlinked(roots: seq<Id>) returns (reply: Reply)
      requires forall r :: r in roots ==> OffCycle(categories, r)
      modifies this`categories, this`history
      ensures var count := LinkedCount(products, Branches(old(categories), roots));
              reply == if count > 0 then Linked(count) else Done
      ensures categories
           == if reply == Done then old(categories) - Subtrees(old(categories), roots) else old(categories)
      ensures ReferencesKept(products, old(categories), categories)
      ensures NoneOrphanedSince(old(categories), old(history), history)
    {
      var ids := CollectEach(roots);
      var count := CountLinked(ids);
      NoneLinked(products, Branches(categories, roots));
      if count > 0 { return Linked(count); }
      forall x | x in Subtrees(categories, roots) ensures x in Branches(categories, roots) {
        SubtreesHave(categories, roots, x);
      }
      DeleteEach(roots);
      reply := Done;
    }

    method DeleteCategory(raw: RawId) returns (reply: Reply)
      requires raw.ObjectId? ==> OffCycle(categories, raw.id)
      modifies this`categories, this`history
      ensures raw.Malformed? ==> reply == BadRequest
      ensures raw.ObjectId? ==>
        var count := LinkedCount(products, Branch(old(categories), raw.id));
        reply == if count > 0 then Linked(count) else Done
      ensures categories
           == if reply == Done then old(categories) - Subtree(old(categories), raw.id) else old(categories)
      ensures ReferencesKept(products, old(categories), categories)
      ensures NoneOrphanedSince(old(categories), old(history), history)
    {
      if raw.Malformed? { return BadRequest; }
      assert [raw.id][..0] == [] && Branches(categories, []) == {} && Subtrees(categories, []) == {};
      assert Branches(categories, [raw.id]) == Branch(categories, raw.id);
      assert Subtrees(categories, [raw.id]) == Subtree(categories, raw.id);
      reply := DeleteUnlinked([raw.id]);
    }

    method DeleteBulk(raws: seq<RawId>) returns (reply: Reply)
      requires forall r :: r in ValidIds(raws) ==> OffCycle(categories, r)
      modifies this`categories, this`history
      ensures ValidIds(raws) == [] ==> reply == BadRequest
      ensures ValidIds(raws) != [] ==>
        var count := LinkedCount(products, BranchesOf(old(categories), AsSet(ValidIds(raws))));
        reply == if count > 0 then Linked(count) else Done
      ensures categories ==
        if reply == Done then old(categories) - SubtreesOf(old(categories), AsSet(ValidIds(raws))) else old(categories)
      ensures ReferencesKept(products, old(categories), categories)
      ensures NoneOrphanedSince(old(categories), old(history), history)
    {
      if ValidIds(raws) == [] { return BadRequest; }
      RootsAsSet(categories, ValidIds(raws));
      reply := DeleteUnlinked(ValidIds(raws));
    }

    /** deleteMany is used for everything and for subcategories, recursive deletion for the rest. */
    method DeleteAll(filter: Filter) returns (reply: Reply)
      requires forall r :: r in Matching(categories, filter) ==> OffCycle(categories, r)
      modifies this`categories, this`history
      ensures var count := LinkedCount(products, BranchesOf(old(categories), Matching(old(categories), filter)));
              reply == if count > 0 then Linked(count) else Done
      ensures categories ==
        if reply == Done then old(categories) - Removed(old(categories), filter) else old(categories)
      ensures reply == Done && filter.Categories? && filter.under.Some? ==>
        old(categories).Keys - categories.Keys <= Subtree(old(categories), filter.under.value)
      ensures ReferencesKept(products, old(categories), categories)
      ensures !filter.Subcategories? ==> NoneOrphanedSince(old(categories), old(history), history)
      ensures filter.Subcategories? && reply == Done ==>
        && history == old(history) + [categories]
        && (NothingOrphaned(old(categories), categories)
            <==> ClosedDown(old(categories), Matching(old(categories), filter)))
    {
      ghost var f := categories;
      var roots := SomeOrder(Matching(categories, filter));
      assert AsSet(roots) == Matching(f, filter);
      RootsAsSet(f, roots);
      var ids := CollectEach(roots);
      var count := CountLinked(ids);
      if count > 0 { return Linked(count); }
      NoneLinked(products, Branches(f, roots));
      RemovedInBranches(f, filter);
      if filter.Categories? && filter.under.Some? { RemovedUnderParent(f, filter.under.value); }
      if filter.Everything? {
        categories := map[];
        history := history + [categories];
      } else if filter.Subcategories? {
        OrphansNothingIff(f, Matching(f, filter));
        categories := categories - Matching(categories, filter);
        history := history + [categories];
      } else {
        DeleteEach(roots);
      }
      reply := Done;
    }

    /** createCategory: an ObjectId is new, so no stored category refers to it. */
    method CreateCategory(id: Id, kind: Kind, parent: Option<Id>) returns (reply: Reply)
      requires id !in categories && parent != Some(id)
      requires forall x :: x in categories ==> categories[x].parent != Some(id)
      modifies this`categories
      ensures reply == BadRequest || reply == Done
      ensures reply == Done <==>
        kind == Header || parent.None? ||
        (parent.value in old(categories) && old(categories)[parent.value].kind != Subcategory)
      ensures categories == if reply == Done then old(categories)[id := Node(kind, parent)] else old(categories)
      ensures Acyclic(old(categories)) ==> Acyclic(categories)
    {
      if !ParentAllowed(categories, kind, parent) { return BadRequest; }
      ghost var f := categories;
      categories := categories[id := Node(kind, parent)];
      if Acyclic(f) { NewLeafAcyclic(f, id, Node(kind, parent)); }
      reply := Done;
    }

    /**
     * updateCategory: a field that is not sent keeps its value. The forest stays acyclic iff no category moves below
     * itself.
     */
    method UpdateCategory(id: Id, kind: Option<Kind>, parent: Option<Option<Id>>) returns (reply: Reply)
      modifies this`categories
      ensures id !in old(categories) ==> reply == NotFound
      ensures id in old(categories) ==>
        var was := old(categories)[id];
        var now := Node(if kind.Some? then kind.value else was.kind, if parent.Some? then parent.value else was.parent);
        && (reply == BadRequest || reply == Done)
        && (reply == Done <==>
              now.kind == Header || now.parent.None? ||
              (now.parent.value in old(categories) && old(categories)[now.parent.value].kind != Subcategory))
        && categories == (if reply == Done then old(categories)[id := now] else old(categories))
        && (Acyclic(old(categories)) && reply == Done ==>
              (Acyclic(categories) <==> (now.parent.Some? ==> !Under(old(categories), now.parent.value, id))))
      ensures reply != Done ==> categories == old(categories)
    {
      if id !in categories { return NotFound; }
      var was := categories[id];
      var now := Node(if kind.Some? then kind.value else was.kind, if parent.Some? then parent.value else was.parent);
      if !ParentAllowed(categories, now.kind, now.parent) { return BadRequest; }
      if Acyclic(categories) { ReparentAcyclicIff(categories, id, now); }
      categories := categories[id := now];
      reply := Done;
    }
  }

  function ValidIds(raws: seq<RawId>): seq<Id> {
    if raws == [] then []
    else (if raws[0].ObjectId? then [raws[0].id] else []) + ValidIds(raws[1..])
  }

  /** The ids among what was sent, each as often as it was sent. */
  lemma {:induction false} ValidIdsAre(raws: seq<RawId>, x: Id)
    ensures x in ValidIds(raws) <==> ObjectId(x) in raws
    ensures ValidIds(raws) == [] <==> forall r :: r in raws ==> r == Malformed
  {
    if raws != [] {
      ValidIdsAre(raws[1..], x);
      assert raws == [raws[0]] + raws[1..];
      assert raws[0] in raws && forall r :: r in raws[1..] ==> r in raws;
    }
  }

  /** Some listing of a set, as a query without a sort order returns it. */
  method SomeOrder(ids: set<Id>) returns (list: seq<Id>)
    ensures NoDuplicates(list) && forall x :: x in list <==> x in ids
  {
    list := [];
    var rest := ids;
    while rest != {}
      invariant NoDuplicates(list)
      invariant forall x :: x in list <==> x in ids && x !in rest
      invariant rest <= ids
    {
      var x :| x in rest;
      list, rest := list + [x], rest - {x};
    }
  }

  lemma JoinDisjoint(a: seq<Id>, b: seq<Id>)
    requires NoDuplicates(a) && NoDuplicates(b) && forall x :: x in a ==> x !in b
    ensures NoDuplicates(a + b)
    ensures forall x :: x in a + b <==> x in a || x in b
  {
    var c := a + b;
    forall i, j | 0 <= i < j < |c| ensures c[i] != c[j] {
      if i < |a| <= j { assert c[i] in a && c[j] in b; }
    }
  }
}
