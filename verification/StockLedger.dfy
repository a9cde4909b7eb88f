/**
 * stockController.js adjustStock and the stock reversal of updateOrderStatus, against the stock history. Quantities
 * are thousandths.
 */
module StockLedger {

  type ProductId = nat
  type OrderId = nat

  datatype Product = Product(seller: nat, stock: int, variants: seq<int>)

  datatype Row = Row(product: ProductId, quantity: int, kind: string)

  datatype Line = Line(product: ProductId, quantity: nat)

  datatype Order = Order(lines: seq<Line>, cancelled: bool)

  datatype Shop = Shop(products: map<ProductId, Product>, orders: map<OrderId, Order>, history: seq<Row>)

  datatype Reply = NotFound | NegativeStock | HistoryRefused | Adjusted

  /** The history's enum of types. */
  predicate Listed(kind: string) { kind in {"Restock", "Sale", "Correction", "Reservation", "Release", "Set Stock"} }

  function KindOf(kind: string): string { if kind == "" then "Correction" else kind }

  function FinalStock(previous: int, kind: string, quantity: int): int {
    if kind == "Set Stock" || kind == "Set" then quantity
    else if kind == "Restock" then previous + quantity
    else previous - quantity
  }

  function WithStock(p: Product, stock: int): (q: Product)
    ensures q.seller == p.seller && q.stock == stock && |q.variants| == |p.variants|
    ensures forall i :: 0 <= i < |q.variants| ==> q.variants[i] == stock
  {
    p.(stock := stock, variants := seq(|p.variants|, i => stock))
  }

  function Raised(p: Product, quantity: nat): Product { p.(stock := p.stock + quantity) }

  // ---------- the operations ----------

  /** The product is saved first; a history row of a type that is not listed is then refused. */
  function Adjust(s: Shop, seller: nat, id: ProductId, kind: string, quantity: int): (Shop, Reply) {
    if id !in s.products || s.products[id].seller != seller then (s, NotFound)
    else
      var p := s.products[id];
      var final := FinalStock(p.stock, kind, quantity);
      if final < 0 then (s, NegativeStock)
      else
        var saved := s.(products := s.products[id := WithStock(p, final)]);
        if Listed(KindOf(kind)) then
          (saved.(history := s.history + [Row(id, final - p.stock, KindOf(kind))]), Adjusted)
        else (saved, HistoryRefused)
  }

  /** Every answer to an adjustment, with the stock and the history after it, by type and quantity. */
  lemma AdjustIs(s: Shop, seller: nat, id: ProductId, kind: string, quantity: int)
    ensures var (t, reply) := Adjust(s, seller, id, kind, quantity);
            && (reply == NotFound <==> id !in s.products || s.products[id].seller != seller)
            && t.orders == s.orders
            && (reply != NotFound ==>
                  var was := s.products[id].stock;
                  var diff := if kind == "Restock" then quantity
                              else if kind == "Set Stock" || kind == "Set" then quantity - was else -quantity;
                  && (reply == NegativeStock <==> was + diff < 0)
                  && (reply == NegativeStock ==> t == s)
                  && (reply != NegativeStock ==>
                        && t.products.Keys == s.products.Keys
                        && (forall x :: x in s.products && x != id ==> t.products[x] == s.products[x])
                        && t.products[id].seller == seller && t.products[id].stock == was + diff
                        && |t.products[id].variants| == |s.products[id].variants|
                        && (forall v :: v in t.products[id].variants ==> v == was + diff)
                        && (reply == Adjusted <==>
                              kind in {"", "Restock", "Sale", "Correction", "Reservation", "Release", "Set Stock"})
                        && t.history == s.history +
                             if reply != Adjusted then []
                             else [Row(id, diff, if kind == "" then "Correction" else kind)]))
            && (reply == NotFound ==> t == s)
  {
    if id in s.products && s.products[id].seller == seller {
      assert s.history + [] == s.history;
    }
  }

  /** Lines put back one after the other; a line whose product is gone leaves a row all the same. */
  function PutBack(s: Shop, lines: seq<Line>): Shop {
    if lines == [] then s
    else
      var t, l := PutBack(s, lines[..|lines| - 1]), lines[|lines| - 1];
      t.(products := if l.product in t.products
                     then t.products[l.product := Raised(t.products[l.product], l.quantity)]
                     else t.products,
         history := t.history + [Row(l.product, l.quantity, "Correction")])
  }

  function Cancel(s: Shop, id: OrderId): Shop {
    if id !in s.orders || s.orders[id].cancelled then s
    else PutBack(s.(orders := s.orders[id := s.orders[id].(cancelled := true)]), s.orders[id].lines)
  }

  class Inventory {
    var products: map<ProductId, Product>
    var orders: map<OrderId, Order>
    var history: seq<Row>

    ghost function State(): Shop reads this { Shop(products, orders, history) }

    method AdjustStock(seller: nat, id: ProductId, kind: string, quantity: int) returns (reply: Reply)
      modifies this
      ensures (State(), reply) == Adjust(old(State()), seller, id, kind, quantity)
    {
      if id !in products || products[id].seller != seller { return NotFound; }
      var product := products[id];
      var finalStock, diffQty;
      if kind == "Set Stock" || kind == "Set" {
        finalStock, diffQty := quantity, quantity - product.stock;
      } else if kind == "Restock" {
        finalStock, diffQty := product.stock + quantity, quantity;
      } else {
        finalStock, diffQty := product.stock - quantity, -quantity;
      }
      if finalStock < 0 { return NegativeStock; }
      var variants := product.variants;
      for i := 0 to |variants|
        invariant |variants| == |product.variants|
        invariant forall k :: 0 <= k < i ==> variants[k] == finalStock
      {
        variants := variants[i := finalStock];
      }
      assert variants == WithStock(product, finalStock).variants;
      products := products[id := product.(stock := finalStock, variants := variants)];
      if !Listed(KindOf(kind)) { return HistoryRefused; }
      history := history + [Row(id, diffQty, KindOf(kind))];
      reply := Adjusted;
    }

    /** updateOrderStatus to "cancelled": nothing is put back a second time. */
    method CancelOrder(id: OrderId)
      modifies this
      ensures State() == Cancel(old(State()), id)
    {
      if id !in orders || orders[id].cancelled { return; }
      var lines := orders[id].lines;
      orders := orders[id := orders[id].(cancelled := true)];
      ghost var start := State();
      for i := 0 to |lines|
        invariant State() == PutBack(start, lines[..i])
      {
        var item := lines[i];
        assert lines[..i + 1][..i] == lines[..i];
        if item.product in products {
          products := products[item.product := Raised(products[item.product], item.quantity)];
        }
        history := history + [Row(item.product, item.quantity, "Correction")];
      }
      assert lines[..|lines|] == lines;
    }
  }

  // ---------- the ledger ----------

  function Recorded(history: seq<Row>, id: ProductId): int {
    if history == [] then 0
    else
      var last := history[|history| - 1];
      Recorded(history[..|history| - 1], id) + if last.product == id then last.quantity else 0
  }

  lemma RecordedSnoc(history: seq<Row>, row: Row, id: ProductId)
    ensures Recorded(history + [row], id) == Recorded(history, id) + if row.product == id then row.quantity else 0
  {
    assert (history + [row])[..|history|] == history;
  }

  /** Stock that the history does not explain. */
  function Unexplained(s: Shop, id: ProductId): int
    requires id in s.products
  {
    s.products[id].stock - Recorded(s.history, id)
  }

  function Ordered(lines: seq<Line>, id: ProductId): nat {
    if lines == [] then 0
    else Ordered(lines[..|lines| - 1], id) + if lines[|lines| - 1].product == id then lines[|lines| - 1].quantity else 0
  }

  /** A cancellation raises every product by the sum over all its lines, in stock and in history alike. */
  lemma {:induction false} PutBackAddsLines(s: Shop, lines: seq<Line>, id: ProductId)
    requires id in s.products
    ensures PutBack(s, lines).products.Keys == s.products.Keys && PutBack(s, lines).orders == s.orders
    ensures PutBack(s, lines).products[id].stock == s.products[id].stock + Ordered(lines, id)
    ensures Recorded(PutBack(s, lines).history, id) == Recorded(s.history, id) + Ordered(lines, id)
  {
    if lines != [] {
      var init, l := lines[..|lines| - 1], lines[|lines| - 1];
      PutBackAddsLines(s, init, id);
      RecordedSnoc(PutBack(s, init).history, Row(l.product, l.quantity, "Correction"), id);
    }
  }

  lemma CancelAddsLines(s: Shop, order: OrderId, id: ProductId)
    requires id in s.products
    ensures var cancels := order in s.orders && !s.orders[order].cancelled;
            var added := if cancels then Ordered(s.orders[order].lines, id) else 0;
            && id in Cancel(s, order).products && Cancel(s, order).products[id].stock == s.products[id].stock + added
            && Unexplained(Cancel(s, order), id) == Unexplained(s, id)
    ensures Cancel(Cancel(s, order), order) == Cancel(s, order)
  {
    if order in s.orders && !s.orders[order].cancelled {
      PutBackAddsLines(s.(orders := s.orders[order := s.orders[order].(cancelled := true)]), s.orders[order].lines, id);
    }
  }

  /** An adjustment keeps stock and history together exactly when its type is listed or it changes nothing. */
  lemma AdjustExplainedIff(s: Shop, seller: nat, id: ProductId, kind: string, quantity: int)
    requires id in s.products && Adjust(s, seller, id, kind, quantity).1 in {Adjusted, HistoryRefused}
    ensures Unexplained(Adjust(s, seller, id, kind, quantity).0, id) == Unexplained(s, id)
       <==> Listed(KindOf(kind)) || FinalStock(s.products[id].stock, kind, quantity) == s.products[id].stock
  {
    var p := s.products[id];
    RecordedSnoc(s.history, Row(id, FinalStock(p.stock, kind, quantity) - p.stock, KindOf(kind)), id);
  }

  /** The controller accepts the type "Set", which the history does not list. */
  lemma SetIsNotRecorded()
    ensures var s := Shop(map[1 := Product(7, 10, [])], map[], []);
            Adjust(s, 7, 1, "Set", 25) == (Shop(map[1 := Product(7, 25, [])], map[], []), HistoryRefused)
  {
    assert !Listed("Set") by { assert |"Set"| < |"Sale"| < |"Restock"| < |"Correction"|; }
    assert WithStock(Product(7, 10, []), 25) == Product(7, 25, []);
    var products: map<ProductId, Product> := map[1 := Product(7, 10, [])];
    assert products[1 := Product(7, 25, [])] == map[1 := Product(7, 25, [])];
  }

  // ---------- whole runs ----------

  datatype Op = AdjustOp(seller: nat, product: ProductId, kind: string, quantity: int) | CancelOp(order: OrderId)

  function Step(s: Shop, op: Op): Shop {
    match op
    case AdjustOp(seller, product, kind, quantity) => Adjust(s, seller, product, kind, quantity).0
    case CancelOp(order) => Cancel(s, order)
  }

  function RunOps(s: Shop, ops: seq<Op>): Shop {
    if ops == [] then s else Step(RunOps(s, ops[..|ops| - 1]), ops[|ops| - 1])
  }

  /** What a step changes in a product's stock without a row in the history. */
  function Silent(s: Shop, op: Op, id: ProductId): int {
    if op.AdjustOp? && op.product == id && id in s.products
       && Adjust(s, op.seller, id, op.kind, op.quantity).1.HistoryRefused?
    then FinalStock(s.products[id].stock, op.kind, op.quantity) - s.products[id].stock
    else 0
  }

  function SilentOver(s: Shop, ops: seq<Op>, id: ProductId): int {
    if ops == [] then 0
    else SilentOver(s, ops[..|ops| - 1], id) + Silent(RunOps(s, ops[..|ops| - 1]), ops[|ops| - 1], id)
  }

  ghost predicate NonNegative(s: Shop) { forall id :: id in s.products ==> s.products[id].stock >= 0 }

  lemma StepKeepsLedger(s: Shop, op: Op, id: ProductId)
    requires id in s.products
    ensures id in Step(s, op).products
    ensures Unexplained(Step(s, op), id) == Unexplained(s, id) + Silent(s, op, id)
  {
    match op
    case AdjustOp(seller, product, kind, quantity) =>
      if product in s.products {
        var p := s.products[product];
        RecordedSnoc(s.history, Row(product, FinalStock(p.stock, kind, quantity) - p.stock, KindOf(kind)), id);
      }
    case CancelOp(order) => CancelAddsLines(s, order, id);
  }

  lemma StepKeepsNonNegative(s: Shop, op: Op)
    requires NonNegative(s)
    ensures NonNegative(Step(s, op)) && Step(s, op).products.Keys == s.products.Keys
  {
    if op.CancelOp? {
      var t := Cancel(s, op.order);
      if op.order in s.orders && !s.orders[op.order].cancelled {
        var start := s.(orders := s.orders[op.order := s.orders[op.order].(cancelled := true)]);
        PutBackKeys(start, s.orders[op.order].lines);
        forall id | id in t.products ensures t.products[id].stock >= 0 {
          CancelAddsLines(s, op.order, id);
        }
      }
    }
  }

  /** Putting back lines raises stock alone: sellers and variants stay, and each line leaves its row in the history. */
  lemma {:induction false} PutBackRest(s: Shop, lines: seq<Line>, id: ProductId)
    requires id in s.products
    ensures id in PutBack(s, lines).products
    ensures PutBack(s, lines).products[id].seller == s.products[id].seller
    ensures PutBack(s, lines).products[id].variants == s.products[id].variants
    ensures PutBack(s, lines).history == s.history +
      seq(|lines|, i requires 0 <= i < |lines| => Row(lines[i].product, lines[i].quantity, "Correction"))
  {
    if lines != [] {
      var init, last := lines[..|lines| - 1], lines[|lines| - 1];
      PutBackRest(s, init, id);
      var rows := seq(|lines|, i requires 0 <= i < |lines| => Row(lines[i].product, lines[i].quantity, "Correction"));
      var before := seq(|init|, i requires 0 <= i < |init| => Row(init[i].product, init[i].quantity, "Correction"));
      assert rows == before + [Row(last.product, last.quantity, "Correction")];
    } else {
      assert s.history + [] == s.history;
    }
  }

  lemma {:induction false} PutBackKeys(s: Shop, lines: seq<Line>)
    ensures PutBack(s, lines).products.Keys == s.products.Keys
  {
    if lines != [] { PutBackKeys(s, lines[..|lines| - 1]); }
  }

  /**
   * Over any run a product's stock is its first stock, plus its history since, plus what was changed under an unlisted
   * type.
   */
  lemma {:induction false} RunLedger(s: Shop, ops: seq<Op>, id: ProductId)
    requires id in s.products && NonNegative(s)
    ensures var t := RunOps(s, ops);
            && NonNegative(t) && t.products.Keys == s.products.Keys
            && t.products[id].stock ==
                 s.products[id].stock + (Recorded(t.history, id) - Recorded(s.history, id)) + SilentOver(s, ops, id)
  {
    if ops != [] {
      RunLedger(s, ops[..|ops| - 1], id);
      StepKeepsLedger(RunOps(s, ops[..|ops| - 1]), ops[|ops| - 1], id);
      StepKeepsNonNegative(RunOps(s, ops[..|ops| - 1]), ops[|ops| - 1]);
    }
  }

  /** With listed types only, the history explains every change. */
  lemma {:induction false} ListedRunsSilentNever(s: Shop, ops: seq<Op>, id: ProductId)
    requires forall op :: op in ops && op.AdjustOp? ==> Listed(KindOf(op.kind))
    ensures SilentOver(s, ops, id) == 0
  {
    if ops != [] {
      assert ops[|ops| - 1] in ops;
      ListedRunsSilentNever(s, ops[..|ops| - 1], id);
    }
  }
}
