/**
 * cartController.js: the lines of a cart as a finite map from (product, variant) to a quantity. Quantities are
 * thousandths.
 */
module Cart {
  import opened Wrappers

  type ProductId = nat

  datatype Key = Key(product: ProductId, sku: string)

  /** `sku` is trimmed; "" stands for the base product. */
  datatype Line = Line(key: Key, quantity: int)

  /** A product as the handlers read it; 0 for a limit that is not set. */
  datatype Product = Product(visible: bool, available: bool, minOrder: int, maxOrder: int, stock: int)

  type Catalog = map<ProductId, Product>

  datatype Reply = NotVisible | Unavailable | BelowMinimum | AboveMaximum | NoCart | NotInCart | Invalid
                 | NoOrder | EmptyOrder | Saved

  // ---------- lines as a map ----------

  ghost predicate NoDuplicates(items: seq<Line>) {
    forall i, j :: 0 <= i < j < |items| ==> items[i].key != items[j].key
  }

  ghost function AsMap(items: seq<Line>): map<Key, int> {
    if items == [] then map[] else AsMap(items[..|items| - 1])[items[|items| - 1].key := items[|items| - 1].quantity]
  }

  lemma {:induction false} AsMapHas(items: seq<Line>, k: Key)
    ensures k in AsMap(items) <==> exists i :: 0 <= i < |items| && items[i].key == k
  {
    if items != [] {
      var n := |items| - 1;
      AsMapHas(items[..n], k);
      if k in AsMap(items[..n]) {
        var i :| 0 <= i < n && items[..n][i].key == k;
        assert items[i].key == k;
      } else if items[n].key == k {
      } else {
        forall i | 0 <= i < |items| ensures items[i].key != k {
          if i < n { assert items[..n][i] == items[i]; }
        }
      }
    }
  }

  lemma {:induction false} AsMapAt(items: seq<Line>, i: nat)
    requires NoDuplicates(items) && i < |items|
    ensures items[i].key in AsMap(items) && AsMap(items)[items[i].key] == items[i].quantity
  {
    var n := |items| - 1;
    if i < n {
      AsMapAt(items[..n], i);
      assert items[i].key != items[n].key;
    }
  }

  function Index(items: seq<Line>, key: Key): (r: Option<nat>)
    ensures r.Some? ==> r.value < |items| && items[r.value].key == key
    ensures r.None? ==> forall i :: 0 <= i < |items| ==> items[i].key != key
  {
    if items == [] then None
    else if items[0].key == key then Some(0)
    else
      var r := Index(items[1..], key);
      if r.Some? then Some(r.value + 1) else None
  }

  /** The first line of a product, whatever its variant. */
  function IndexOfProduct(items: seq<Line>, id: ProductId): (r: Option<nat>)
    ensures r.Some? ==> r.value < |items| && items[r.value].key.product == id
    ensures r.None? ==> forall i :: 0 <= i < |items| ==> items[i].key.product != id
  {
    if items == [] then None
    else if items[0].key.product == id then Some(0)
    else
      var r := IndexOfProduct(items[1..], id);
      if r.Some? then Some(r.value + 1) else None
  }

  lemma {:induction false} SetLine(items: seq<Line>, i: nat, quantity: int)
    requires NoDuplicates(items) && i < |items|
    ensures NoDuplicates(items[i := items[i].(quantity := quantity)])
    ensures AsMap(items[i := items[i].(quantity := quantity)]) == AsMap(items)[items[i].key := quantity]
  {
    var n := |items| - 1;
    var after := items[i := items[i].(quantity := quantity)];
    if i < n {
      SetLine(items[..n], i, quantity);
      assert after[..n] == items[..n][i := items[i].(quantity := quantity)];
      assert items[i].key != items[n].key;
    } else {
      assert after[..n] == items[..n];
    }
  }

  lemma PushLine(items: seq<Line>, line: Line)
    requires NoDuplicates(items) && forall i :: 0 <= i < |items| ==> items[i].key != line.key
    ensures NoDuplicates(items + [line]) && AsMap(items + [line]) == AsMap(items)[line.key := line.quantity]
  {
    var after := items + [line];
    assert after[..|items|] == items && after[|items|] == line;
    forall i, j | 0 <= i < j < |after| ensures after[i].key != after[j].key {
      assert after[i] == items[i];
    }
  }

  lemma RemoveKeepsDistinct(items: seq<Line>, i: nat)
    requires NoDuplicates(items) && i < |items|
    ensures NoDuplicates(items[..i] + items[i + 1..])
  {
    var after := items[..i] + items[i + 1..];
    forall j, k | 0 <= j < k < |after| ensures after[j].key != after[k].key {
      assert after[j] == items[if j < i then j else j + 1] && after[k] == items[if k < i then k else k + 1];
    }
  }

  lemma WithoutLast(items: seq<Line>, i: nat)
    requires i < |items| - 1
    ensures var n, after := |items| - 1, items[..i] + items[i + 1..];
            after[..n - 1] == items[..n][..i] + items[..n][i + 1..] && after[n - 1] == items[n]
  {
    var n, after := |items| - 1, items[..i] + items[i + 1..];
    assert items[..n][..i] == items[..i];
    assert items[i + 1..][..n - 1 - i] == items[..n][i + 1..];
  }

  lemma {:induction false} RemoveLine(items: seq<Line>, i: nat)
    requires NoDuplicates(items) && i < |items|
    ensures AsMap(items[..i] + items[i + 1..]) == AsMap(items) - {items[i].key}
  {
    var n := |items| - 1;
    var init, after := items[..n], items[..i] + items[i + 1..];
    if i < n {
      RemoveLine(init, i);
      WithoutLast(items, i);
      assert items[i].key != items[n].key;
    } else {
      AsMapHas(init, items[n].key);
      assert after == init;
    }
  }

  /** removeFromCart keeps the lines of other products and, when a variant is named, of other variants. */
  predicate Kept(k: Key, id: ProductId, sku: string) { k.product != id || (sku != "" && k.sku != sku) }

  function Filter(items: seq<Line>, id: ProductId, sku: string): seq<Line> {
    if items == [] then []
    else if Kept(items[|items| - 1].key, id, sku) then Filter(items[..|items| - 1], id, sku) + [items[|items| - 1]]
    else Filter(items[..|items| - 1], id, sku)
  }

  lemma {:induction false} FilterHas(items: seq<Line>, id: ProductId, sku: string, l: Line)
    ensures l in Filter(items, id, sku) <==> l in items && Kept(l.key, id, sku)
  {
    if items != [] {
      FilterHas(items[..|items| - 1], id, sku, l);
      assert items == items[..|items| - 1] + [items[|items| - 1]];
    }
  }

  function KeepKeys(m: map<Key, int>, id: ProductId, sku: string): map<Key, int> {
    map k | k in m && Kept(k, id, sku) :: m[k]
  }

  /** No line that is kept has the key of a line after it. */
  lemma FilterLacks(items: seq<Line>, id: ProductId, sku: string)
    requires NoDuplicates(items) && items != []
    ensures forall l :: l in Filter(items[..|items| - 1], id, sku) ==> l.key != items[|items| - 1].key
  {
    var init := items[..|items| - 1];
    forall l | l in Filter(init, id, sku) ensures l.key != items[|items| - 1].key {
      FilterHas(init, id, sku, l);
      var j :| 0 <= j < |init| && init[j] == l;
      assert items[j] == l;
    }
  }

  lemma KeepKeysSet(m: map<Key, int>, k: Key, quantity: int, id: ProductId, sku: string)
    requires k !in m
    ensures KeepKeys(m[k := quantity], id, sku)
         == if Kept(k, id, sku) then KeepKeys(m, id, sku)[k := quantity] else KeepKeys(m, id, sku)
  {
  }

  lemma {:induction false} FilterMap(items: seq<Line>, id: ProductId, sku: string)
    requires NoDuplicates(items)
    ensures NoDuplicates(Filter(items, id, sku))
    ensures AsMap(Filter(items, id, sku)) == KeepKeys(AsMap(items), id, sku)
  {
    if items != [] {
      var init, last := items[..|items| - 1], items[|items| - 1];
      FilterMap(init, id, sku);
      FilterLacks(items, id, sku);
      AsMapHas(init, last.key);
      KeepKeysSet(AsMap(init), last.key, last.quantity, id, sku);
      if Kept(last.key, id, sku) {
        PushLine(Filter(init, id, sku), last);
      }
    }
  }

  function Total(items: seq<Line>): int {
    if items == [] then 0 else Total(items[..|items| - 1]) + items[|items| - 1].quantity
  }

  lemma {:induction false} TotalSet(items: seq<Line>, i: nat, quantity: int)
    requires i < |items|
    ensures Total(items[i := items[i].(quantity := quantity)]) == Total(items) - items[i].quantity + quantity
  {
    var n := |items| - 1;
    var after := items[i := items[i].(quantity := quantity)];
    if i < n {
      TotalSet(items[..n], i, quantity);
      assert after[..n] == items[..n][i := items[i].(quantity := quantity)];
    } else {
      assert after[..n] == items[..n];
    }
  }

  lemma TotalPush(items: seq<Line>, line: Line)
    ensures Total(items + [line]) == Total(items) + line.quantity
  {
    assert (items + [line])[..|items|] == items;
  }

  // ---------- saving ----------

  /** The schema's minimum of 0.01 on every line. */
  predicate Savable(items: seq<Line>) { forall i :: 0 <= i < |items| ==> items[i].quantity >= 10 }

  function QuantityOf(items: seq<Line>, key: Key): int {
    var i := Index(items, key);
    if i.Some? then items[i.value].quantity else 0
  }

  ghost predicate AllAtLeast(m: map<Key, int>, minimum: int) { forall k :: k in m ==> m[k] >= minimum }

  /** The schema looks at the quantities in the map alone. */
  lemma SavableIff(items: seq<Line>)
    requires NoDuplicates(items)
    ensures Savable(items) <==> AllAtLeast(AsMap(items), 10)
  {
    if Savable(items) {
      forall k | k in AsMap(items) ensures AsMap(items)[k] >= 10 {
        AsMapHas(items, k);
        var i :| 0 <= i < |items| && items[i].key == k;
        AsMapAt(items, i);
      }
    } else {
      var i :| 0 <= i < |items| && items[i].quantity < 10;
      AsMapAt(items, i);
    }
  }

  ghost function Mapped(items: seq<Line>, key: Key): int { if key in AsMap(items) then AsMap(items)[key] else 0 }

  lemma QuantityIsMapped(items: seq<Line>, key: Key)
    requires NoDuplicates(items)
    ensures QuantityOf(items, key) == Mapped(items, key)
    ensures key in AsMap(items) <==> Index(items, key).Some?
  {
    AsMapHas(items, key);
    if Index(items, key).Some? { AsMapAt(items, Index(items, key).value); }
  }

  function WithLine(items: seq<Line>, key: Key, quantity: int): seq<Line> {
    var i := Index(items, key);
    if i.Some? then items[i.value := items[i.value].(quantity := quantity)] else items + [Line(key, quantity)]
  }

  lemma WithLineMaps(items: seq<Line>, key: Key, quantity: int)
    requires NoDuplicates(items)
    ensures NoDuplicates(WithLine(items, key, quantity))
    ensures AsMap(WithLine(items, key, quantity)) == AsMap(items)[key := quantity]
  {
    var i := Index(items, key);
    if i.Some? { SetLine(items, i.value, quantity); } else { PushLine(items, Line(key, quantity)); }
  }

  // ---------- reordering ----------

  /** A line of a past order; it may name no product. */
  datatype PastItem = PastItem(product: Option<ProductId>, quantity: int)

  datatype Outcome = Added(product: ProductId, quantity: int) | Missing

  /** What becomes of a past item: how much is added, and of what, or that it cannot be had. */
  function Offer(catalog: Catalog, past: PastItem): (o: Outcome)
    ensures o.Added? ==> o.quantity > 0
  {
    if past.product.None? || past.product.value !in catalog then Missing
    else
      var p := catalog[past.product.value];
      if !p.visible || !p.available || p.stock <= 0 then Missing
      else
        var wanted := if past.quantity == 0 then 1000 else past.quantity;
        var requested := if wanted < 10 then 10 else wanted;
        Added(past.product.value, if p.stock < requested then p.stock else requested)
  }

  /** What is offered for a past item, told on the product: at least 0.01, but no more than is in stock. */
  lemma OfferIs(catalog: Catalog, past: PastItem)
    ensures Offer(catalog, past) == Missing <==>
      past.product.None? || past.product.value !in catalog || !catalog[past.product.value].visible
      || !catalog[past.product.value].available || catalog[past.product.value].stock <= 0
    ensures var o := Offer(catalog, past);
            o.Added? ==>
              var stock := catalog[o.product].stock;
              && past.product == Some(o.product) && 0 < o.quantity <= stock
              && (past.quantity == 0 && stock >= 1000 ==> o.quantity == 1000)
              && (past.quantity != 0 && past.quantity < 10 && stock >= 10 ==> o.quantity == 10)
              && (10 <= past.quantity <= stock ==> o.quantity == past.quantity)
              && (o.quantity < stock ==> o.quantity == (if past.quantity == 0 then 1000
                                                        else if past.quantity < 10 then 10 else past.quantity))
  {
  }

  /** More of a product goes to its first line, of whatever variant, or to a new line without variant. */
  function AddAny(items: seq<Line>, id: ProductId, quantity: int): seq<Line> {
    var i := IndexOfProduct(items, id);
    if i.Some? then items[i.value := items[i.value].(quantity := items[i.value].quantity + quantity)]
    else items + [Line(Key(id, ""), quantity)]
  }

  function Reordered(catalog: Catalog, items: seq<Line>, past: seq<PastItem>): seq<Line> {
    if past == [] then items
    else
      var before, o := Reordered(catalog, items, past[..|past| - 1]), Offer(catalog, past[|past| - 1]);
      if o.Added? then AddAny(before, o.product, o.quantity) else before
  }

  function AddedItems(catalog: Catalog, past: seq<PastItem>): seq<(nat, Outcome)> {
    if past == [] then []
    else
      var n := |past| - 1;
      AddedItems(catalog, past[..n]) + if Offer(catalog, past[n]).Added? then [(n, Offer(catalog, past[n]))] else []
  }

  function MissingItems(catalog: Catalog, past: seq<PastItem>): seq<nat> {
    if past == [] then []
    else
      var n := |past| - 1;
      MissingItems(catalog, past[..n]) + if Offer(catalog, past[n]).Missing? then [n] else []
  }

  function SumAdded(added: seq<(nat, Outcome)>): int {
    if added == [] then 0
    else SumAdded(added[..|added| - 1]) + if added[|added| - 1].1.Added? then added[|added| - 1].1.quantity else 0
  }

  lemma AddAnyTotal(items: seq<Line>, id: ProductId, quantity: int)
    ensures Total(AddAny(items, id, quantity)) == Total(items) + quantity
  {
    var i := IndexOfProduct(items, id);
    if i.Some? {
      TotalSet(items, i.value, items[i.value].quantity + quantity);
    } else {
      TotalPush(items, Line(Key(id, ""), quantity));
    }
  }

  /** Exactly one line, and it is one of the product's, gets what is added. */
  lemma AddAnyMaps(items: seq<Line>, id: ProductId, quantity: int) returns (key: Key)
    requires NoDuplicates(items)
    ensures key.product == id && NoDuplicates(AddAny(items, id, quantity))
    ensures AsMap(AddAny(items, id, quantity)) == AsMap(items)[key := Mapped(items, key) + quantity]
  {
    var i := IndexOfProduct(items, id);
    if i.Some? {
      key := items[i.value].key;
      AsMapAt(items, i.value);
      SetLine(items, i.value, items[i.value].quantity + quantity);
    } else {
      key := Key(id, "");
      AsMapHas(items, key);
      PushLine(items, Line(key, quantity));
    }
  }

  /** Reordering keeps the lines a map and raises the total by the sum of what was added. */
  lemma {:induction false} ReorderTotal(catalog: Catalog, items: seq<Line>, past: seq<PastItem>)
    requires NoDuplicates(items)
    ensures NoDuplicates(Reordered(catalog, items, past))
    ensures Total(Reordered(catalog, items, past)) == Total(items) + SumAdded(AddedItems(catalog, past))
  {
    if past != [] {
      var n := |past| - 1;
      var added, o := AddedItems(catalog, past[..n]), Offer(catalog, past[n]);
      ReorderTotal(catalog, items, past[..n]);
      if o.Added? {
        var _ := AddAnyMaps(Reordered(catalog, items, past[..n]), o.product, o.quantity);
        AddAnyTotal(Reordered(catalog, items, past[..n]), o.product, o.quantity);
        assert (added + [(n, o)])[..|added|] == added;
      } else {
        assert added + [] == added;
      }
    }
  }

  /** The quantity of one product in a list of lines, over all its variants. */
  function Of(items: seq<Line>, id: ProductId): int {
    if items == [] then 0
    else Of(items[..|items| - 1], id)
         + if items[|items| - 1].key.product == id then items[|items| - 1].quantity else 0
  }

  /** What a reordering adds of one product, over all past items that name it. */
  function AddedOf(catalog: Catalog, past: seq<PastItem>, id: ProductId): int {
    if past == [] then 0
    else
      var last := past[|past| - 1];
      var o := Offer(catalog, last);
      AddedOf(catalog, past[..|past| - 1], id) + if o.Added? && last.product == Some(id) then o.quantity else 0
  }

  lemma {:induction false} OfSet(items: seq<Line>, i: nat, quantity: int, id: ProductId)
    requires i < |items|
    ensures Of(items[i := items[i].(quantity := quantity)], id)
         == Of(items, id) + if items[i].key.product == id then quantity - items[i].quantity else 0
  {
    var n := |items| - 1;
    var after := items[i := items[i].(quantity := quantity)];
    if i < n {
      OfSet(items[..n], i, quantity, id);
      assert after[..n] == items[..n][i := items[i].(quantity := quantity)];
    } else {
      assert after[..n] == items[..n];
    }
  }

  lemma AddAnyOf(items: seq<Line>, p: ProductId, quantity: int, id: ProductId)
    ensures Of(AddAny(items, p, quantity), id) == Of(items, id) + if p == id then quantity else 0
  {
    var i := IndexOfProduct(items, p);
    if i.Some? {
      OfSet(items, i.value, items[i.value].quantity + quantity, id);
    } else {
      assert (items + [Line(Key(p, ""), quantity)])[..|items|] == items;
    }
  }

  /** Of each product a reordering adds what is offered for the past items that name it, and nothing of any other. */
  lemma {:induction false} ReorderPerProduct(catalog: Catalog, items: seq<Line>, past: seq<PastItem>, id: ProductId)
    ensures Of(Reordered(catalog, items, past), id) == Of(items, id) + AddedOf(catalog, past, id)
  {
    if past != [] {
      var n := |past| - 1;
      var o := Offer(catalog, past[n]);
      ReorderPerProduct(catalog, items, past[..n], id);
      if o.Added? { AddAnyOf(Reordered(catalog, items, past[..n]), o.product, o.quantity, id); }
    }
  }

  /** Each past item is reported exactly once, as added or as missing. */
  lemma {:induction false} ReorderAccounts(catalog: Catalog, past: seq<PastItem>, n: nat)
    ensures |AddedItems(catalog, past)| + |MissingItems(catalog, past)| == |past|
    ensures n in MissingItems(catalog, past) <==> n < |past| && Offer(catalog, past[n]).Missing?
    ensures forall o :: (n, o) in AddedItems(catalog, past) <==> n < |past| && Offer(catalog, past[n]) == o && o.Added?
  {
    if past != [] { ReorderAccounts(catalog, past[..|past| - 1], n); }
  }

  class CartDocument {
    /** Whether the customer has a cart, and its lines as last saved. */
    var stored: bool
    var items: seq<Line>

    ghost predicate Valid() reads this { NoDuplicates(items) && (!stored ==> items == []) }

    constructor ()
      ensures Valid() && !stored
    {
      stored, items := false, [];
    }

    /** Saves lines that pass the schema; a failed save leaves the stored cart as it was. */
    method Save(lines: seq<Line>) returns (ok: bool)
      modifies this
      ensures ok == Savable(lines)
      ensures items == if ok then lines else old(items)
      ensures stored == (old(stored) || ok)
    {
      ok := Savable(lines);
      if ok { stored, items := true, lines; }
    }

    /** Sets the line of a key, or appends it, and saves. */
    method StoreLine(key: Key, quantity: int) returns (reply: Reply)
      requires Valid()
      modifies this
      ensures Valid()
      ensures reply == if Savable(WithLine(old(items), key, quantity)) then Saved else Invalid
      ensures AsMap(items) == if reply == Saved then old(AsMap(items))[key := quantity] else old(AsMap(items))
      ensures reply != Saved ==> items == old(items) && stored == old(stored)
    {
      WithLineMaps(items, key, quantity);
      var ok := Save(WithLine(items, key, quantity));
      reply := if ok then Saved else Invalid;
    }

    method AddToCart(catalog: Catalog, key: Key, quantity: int) returns (reply: Reply)
      requires Valid()
      modifies this
      ensures Valid()
      ensures reply == AddReply(catalog, old(items), key, quantity)
      ensures AsMap(items)
           == if reply == Saved then old(AsMap(items))[key := Mapped(old(items), key) + quantity] else old(AsMap(items))
      ensures reply != Saved ==> items == old(items)
    {
      if key.product !in catalog || !catalog[key.product].visible { return NotVisible; }
      var p := catalog[key.product];
      if !p.available { return Unavailable; }
      if p.minOrder != 0 && quantity < p.minOrder { return BelowMinimum; }
      QuantityIsMapped(items, key);
      var finalQty := QuantityOf(items, key) + quantity;
      if p.maxOrder != 0 && finalQty > p.maxOrder { return AboveMaximum; }
      reply := StoreLine(key, finalQty);
    }

    method UpdateQuantity(catalog: Catalog, key: Key, quantity: int) returns (reply: Reply)
      requires Valid()
      modifies this
      ensures Valid()
      ensures reply == UpdateReply(catalog, old(stored), old(items), key, quantity)
      ensures AsMap(items) == if reply != Saved then old(AsMap(items))
                              else if quantity > 0 then old(AsMap(items))[key := quantity]
                              else old(AsMap(items)) - {key}
      ensures reply == Saved ==> key in old(AsMap(items))
      ensures reply != Saved ==> items == old(items)
    {
      if !stored { return NoCart; }
      var itemIndex := Index(items, key);
      if itemIndex.None? { return NotInCart; }
      QuantityIsMapped(items, key);
      if quantity > 0 {
        if key.product in catalog && catalog[key.product].visible {
          var p := catalog[key.product];
          if !p.available { return Unavailable; }
          if p.maxOrder != 0 && quantity > p.maxOrder { return AboveMaximum; }
        }
        reply := StoreLine(key, quantity);
      } else {
        RemoveLine(items, itemIndex.value);
        RemoveKeepsDistinct(items, itemIndex.value);
        var ok := Save(items[..itemIndex.value] + items[itemIndex.value + 1..]);
        reply := if ok then Saved else Invalid;
      }
    }

    method RemoveFromCart(id: ProductId, sku: string) returns (reply: Reply)
      requires Valid()
      modifies this
      ensures Valid()
      ensures reply == if !old(stored) then NoCart else if Savable(Filter(old(items), id, sku)) then Saved else Invalid
      ensures var was := old(AsMap(items));
              AsMap(items) == if reply != Saved then was
                              else map k | k in was && !(k.product == id && (sku == "" || k.sku == sku)) :: was[k]
    {
      if !stored { return NoCart; }
      FilterMap(items, id, sku);
      var kept := [];
      for i := 0 to |items|
        invariant kept == Filter(items[..i], id, sku) && items == old(items) && stored
      {
        assert items[..i + 1][..i] == items[..i];
        if Kept(items[i].key, id, sku) { kept := kept + [items[i]]; }
      }
      assert items[..|items|] == items;
      var ok := Save(kept);
      reply := if ok then Saved else Invalid;
    }

    method ClearCart()
      requires Valid()
      modifies this
      ensures Valid() && AsMap(items) == map[] && stored == old(stored)
    {
      if stored {
        var _ := Save([]);
      }
    }

    /**
     * An order that is not found, or has no items, is refused before a cart is made. The lines are saved only when
     * something was added; each past item is reported as added or as unavailable.
     */
    method ReorderPreviousOrder(catalog: Catalog, order: Option<seq<PastItem>>)
        returns (added: seq<(nat, Outcome)>, unavailable: seq<nat>, reply: Reply)
      requires Valid()
      modifies this
      ensures Valid() && stored == (old(stored) || (order.Some? && order.value != []))
      ensures order.None? ==> reply == NoOrder && items == old(items)
      ensures order == Some([]) ==> reply == EmptyOrder && items == old(items)
      ensures order.Some? && order.value != [] ==>
        var lines := Reordered(catalog, old(items), order.value);
        && added == AddedItems(catalog, order.value) && unavailable == MissingItems(catalog, order.value)
        && reply == (if added != [] && !Savable(lines) then Invalid else Saved)
        && items == (if added != [] && reply == Saved then lines else old(items))
        && (reply == Saved ==> Total(items) == Total(old(items)) + SumAdded(added))
    {
      added, unavailable := [], [];
      if order.None? { return added, unavailable, NoOrder; }
      if order.value == [] { return added, unavailable, EmptyOrder; }
      stored := true;
      added, unavailable, reply := AddPastItems(catalog, order.value);
    }

    method AddPastItems(catalog: Catalog, past: seq<PastItem>)
        returns (added: seq<(nat, Outcome)>, unavailable: seq<nat>, reply: Reply)
      requires Valid() && stored
      modifies this
      ensures Valid() && stored
      ensures added == AddedItems(catalog, past) && unavailable == MissingItems(catalog, past)
      ensures reply == if added != [] && !Savable(Reordered(catalog, old(items), past)) then Invalid else Saved
      ensures items == if added != [] && reply == Saved then Reordered(catalog, old(items), past) else old(items)
      ensures reply == Saved ==> Total(items) == Total(old(items)) + SumAdded(added)
    {
      var lines := items;
      added, unavailable := [], [];
      for i := 0 to |past|
        invariant lines == Reordered(catalog, items, past[..i]) && items == old(items) && stored
        invariant added == AddedItems(catalog, past[..i]) && unavailable == MissingItems(catalog, past[..i])
        invariant added == [] ==> lines == items
      {
        assert past[..i + 1][..i] == past[..i];
        var o := Offer(catalog, past[i]);
        if o.Missing? {
          unavailable := unavailable + [i];
        } else {
          lines := AddAny(lines, o.product, o.quantity);
          added := added + [(i, o)];
        }
      }
      assert past[..|past|] == past;
      ReorderTotal(catalog, items, past);
      reply := Saved;
      if added != [] {
        var ok := Save(lines);
        if !ok { reply := Invalid; }
      }
    }
  }

  /** The checks of addToCart in their order. */
  function AddReply(catalog: Catalog, items: seq<Line>, key: Key, quantity: int): Reply {
    if key.product !in catalog || !catalog[key.product].visible then NotVisible
    else
      var p, final := catalog[key.product], QuantityOf(items, key) + quantity;
      if !p.available then Unavailable
      else if p.minOrder != 0 && quantity < p.minOrder then BelowMinimum
      else if p.maxOrder != 0 && final > p.maxOrder then AboveMaximum
      else if Savable(WithLine(items, key, final)) then Saved else Invalid
  }

  function UpdateReply(catalog: Catalog, stored: bool, items: seq<Line>, key: Key, quantity: int): Reply {
    var i := Index(items, key);
    if !stored then NoCart
    else if i.None? then NotInCart
    else if quantity <= 0 then if Savable(items[..i.value] + items[i.value + 1..]) then Saved else Invalid
    else
      var shown := key.product in catalog && catalog[key.product].visible;
      if shown && !catalog[key.product].available then Unavailable
      else if shown && catalog[key.product].maxOrder != 0 && quantity > catalog[key.product].maxOrder then AboveMaximum
      else if Savable(WithLine(items, key, quantity)) then Saved else Invalid
  }

  lemma SavableWith(items: seq<Line>, key: Key, quantity: int)
    requires NoDuplicates(items)
    ensures Savable(WithLine(items, key, quantity)) <==> AllAtLeast(AsMap(items)[key := quantity], 10)
  {
    WithLineMaps(items, key, quantity);
    SavableIff(WithLine(items, key, quantity));
  }

  /** Every refusal of adding to a cart, told on the product, the quantity and what the cart holds of it. */
  lemma AddReplyIs(catalog: Catalog, items: seq<Line>, key: Key, quantity: int)
    requires NoDuplicates(items)
    ensures var reply, final := AddReply(catalog, items, key, quantity), Mapped(items, key) + quantity;
            && (reply == NotVisible <==> key.product !in catalog || !catalog[key.product].visible)
            && (reply != NotVisible ==>
                  var p := catalog[key.product];
                  var tooLittle := p.minOrder != 0 && quantity < p.minOrder;
                  var tooMuch := p.maxOrder != 0 && final > p.maxOrder;
                  && (reply == Unavailable <==> !p.available)
                  && (reply == BelowMinimum <==> p.available && tooLittle)
                  && (reply == AboveMaximum <==> p.available && !tooLittle && tooMuch)
                  && (reply in {Saved, Invalid} <==> p.available && !tooLittle && !tooMuch))
  {
    QuantityIsMapped(items, key);
  }

  /** What is not refused is saved iff no line of the cart would be below the minimum of the schema. */
  lemma AddSavedIff(catalog: Catalog, items: seq<Line>, key: Key, quantity: int, now: map<Key, int>)
    requires NoDuplicates(items) && AddReply(catalog, items, key, quantity) in {Saved, Invalid}
    requires now == AsMap(items)[key := Mapped(items, key) + quantity]
    ensures AddReply(catalog, items, key, quantity) == Saved <==> AllAtLeast(now, 10)
  {
    var savable := SavableAdding(items, key, quantity, now);
    AddSavable(catalog, items, key, quantity);
  }

  lemma SavableAdding(items: seq<Line>, key: Key, quantity: int, now: map<Key, int>) returns (savable: bool)
    requires NoDuplicates(items) && now == AsMap(items)[key := Mapped(items, key) + quantity]
    ensures savable == Savable(WithLine(items, key, QuantityOf(items, key) + quantity)) == AllAtLeast(now, 10)
  {
    QuantityIsMapped(items, key);
    SavableWith(items, key, Mapped(items, key) + quantity);
    savable := AllAtLeast(now, 10);
  }

  lemma AddSavable(catalog: Catalog, items: seq<Line>, key: Key, quantity: int)
    requires AddReply(catalog, items, key, quantity) in {Saved, Invalid}
    ensures AddReply(catalog, items, key, quantity) == Saved
       <==> Savable(WithLine(items, key, QuantityOf(items, key) + quantity))
  {
  }

  /** Every answer to setting a quantity. A product that is gone or not visible is not checked at all. */
  lemma UpdateReplyIs(catalog: Catalog, stored: bool, items: seq<Line>, key: Key, quantity: int)
    requires NoDuplicates(items)
    ensures var reply, was := UpdateReply(catalog, stored, items, key, quantity), AsMap(items);
            var now := if quantity > 0 then was[key := quantity] else was - {key};
            var shown := quantity > 0 && key.product in catalog && catalog[key.product].visible;
            && (reply == NoCart <==> !stored)
            && (reply == NotInCart <==> stored && key !in was)
            && (stored && key in was ==>
                  var tooMuch :=
                    shown && catalog[key.product].maxOrder != 0 && quantity > catalog[key.product].maxOrder;
                  && (reply == Unavailable <==> shown && !catalog[key.product].available)
                  && (reply == AboveMaximum <==> shown && catalog[key.product].available && tooMuch)
                  && (reply == Saved <==>
                        (shown ==> catalog[key.product].available) && !tooMuch && AllAtLeast(now, 10)))
  {
    QuantityIsMapped(items, key);
    var i := Index(items, key);
    if i.Some? {
      SavableWith(items, key, quantity);
      RemoveLine(items, i.value);
      RemoveKeepsDistinct(items, i.value);
      SavableIff(items[..i.value] + items[i.value + 1..]);
    }
  }
}
