/** productController.js: whose content customers get to see. */
module Moderation {

  type ProductId = nat

  /** A product's fields by name: the six of moderation, its owner, and the content. */
  datatype Key = ApprovalStatus | ApprovalRequestedAt | ApprovalReviewedAt | ApprovalReviewedBy | ApprovalNote
               | LastSubmittedByRole | SellerId | Name | HeaderId | CategoryId | SubcategoryId
               | OtherField(name: string)

  type Fields = map<Key, string>

  datatype Role = Admin | Seller

  datatype User = User(role: Role, id: string)

  /** getProductApprovalConfig */
  datatype Config = Config(createRequires: bool, editRequires: bool)

  /** RESTRICTED_MODERATION_FIELDS */
  const RESTRICTED: seq<Key> :=
    [ApprovalStatus, ApprovalRequestedAt, ApprovalReviewedAt, ApprovalReviewedBy, ApprovalNote, LastSubmittedByRole]

  /** Everything about a product but its moderation fields. */
  function Content(fields: Fields): Fields { map k | k in fields && k !in RESTRICTED :: fields[k] }

  method StripRestricted(payload: Fields) returns (stripped: Fields)
    ensures stripped == Content(payload)
  {
    stripped := payload;
    for i := 0 to |RESTRICTED|
      invariant stripped == map k | k in payload && k !in RESTRICTED[..i] :: payload[k]
    {
      assert RESTRICTED[..i + 1] == RESTRICTED[..i] + [RESTRICTED[i]];
      stripped := stripped - {RESTRICTED[i]};
    }
    assert RESTRICTED[..|RESTRICTED|] == RESTRICTED;
  }

  const NULL := "null"

  function Mark(status: string, requestedAt: string, reviewedAt: string, reviewer: string, note: string, role: string)
    : Fields
  {
    map[ApprovalStatus := status, ApprovalRequestedAt := requestedAt, ApprovalReviewedAt := reviewedAt,
        ApprovalReviewedBy := reviewer, ApprovalNote := note, LastSubmittedByRole := role]
  }

  function SellerPending(now: string): Fields { Mark("pending", now, NULL, NULL, "", "seller") }

  function SellerApproved(): Fields { Mark("approved", NULL, NULL, NULL, "", "seller") }

  function AdminApproved(admin: string, now: string, note: string): Fields {
    Mark("approved", NULL, now, admin, note, "admin")
  }

  function AdminRejected(admin: string, now: string, note: string): Fields {
    Mark("rejected", NULL, now, admin, note, "admin")
  }

  /** The moderation fields of a write, by who writes and whether a seller's write needs approval. */
  function MarkOf(user: User, approvalNeeded: bool, now: string): Fields {
    if user.role == Admin then AdminApproved(user.id, now, "")
    else if approvalNeeded then SellerPending(now) else SellerApproved()
  }

  predicate Given(fields: Fields, k: Key) { k in fields && fields[k] != "" }

  /** A new product: an admin names its seller, a seller is its seller. */
  function Created(user: User, payload: Fields, config: Config, now: string): Fields {
    var data := Content(payload);
    (if user.role == Admin then data else data[SellerId := user.id]) + MarkOf(user, config.createRequires, now)
  }

  predicate Creatable(user: User, payload: Fields) {
    (user.role == Admin ==> Given(payload, SellerId)) && Given(payload, Name)
  }

  /** Bulk rows must name their three categories as well. */
  predicate BulkCreatable(user: User, payload: Fields) {
    Creatable(user, payload) && Given(payload, HeaderId) && Given(payload, CategoryId) && Given(payload, SubcategoryId)
  }

  /** A write to a product: its seller cannot be changed, and a seller only writes to his own products. */
  function Edited(product: Fields, user: User, payload: Fields, config: Config, now: string): Fields {
    product + (Content(payload) - {SellerId} + MarkOf(user, config.editRequires, now))
  }

  predicate Editable(product: Fields, user: User) {
    user.role == Admin || (SellerId in product && product[SellerId] == user.id)
  }

  // ---------- the collection ----------

  /**
   * `accepted` and `stored` stand for what is not modelled of a product: that its categories form a hierarchy and that
   * the schema takes it; `numbers` for the price and stock of a bulk row.
   */
  datatype Row = Row(payload: Fields, numbers: bool, stored: bool)

  class ProductDesk {
    var products: map<ProductId, Fields>
    /** For each product the content an admin last wrote or approved. */
    ghost var vetted: map<ProductId, Fields>

    ghost function State(): Desk reads this { Desk(products, vetted) }

    method CreateProduct(id: ProductId, user: User, payload: Fields, config: Config, accepted: bool, now: string)
        returns (ok: bool)
      requires id !in products
      modifies this
      ensures ok <==> && (user.role == Admin ==> SellerId in payload && payload[SellerId] != "")
                      && Name in payload && payload[Name] != "" && accepted
      ensures State() == Step(old(State()), Create(id, user, payload, config, accepted), now)
    {
      var productData := StripRestricted(payload);
      if user.role == Admin {
        if !Given(productData, SellerId) { return false; }
      } else {
        productData := productData[SellerId := user.id];
      }
      if !Given(productData, Name) || !accepted { return false; }
      productData := productData + MarkOf(user, config.createRequires, now);
      products := products[id := productData];
      if user.role == Admin { vetted := vetted[id := Content(productData)]; }
      ok := true;
    }

    /** Rows that fail validation are reported by index and leave no product behind; the others are created in turn. */
    method BulkCreate(ids: seq<ProductId>, user: User, rows: seq<Row>, config: Config, now: string)
        returns (errors: seq<nat>)
      requires |ids| == |rows|
      modifies this
      ensures errors == Rejected(user, rows)
      ensures State() == CreateRows(old(State()), ids, user, rows, config, now)
    {
      errors := [];
      for i := 0 to |rows|
        invariant errors == Rejected(user, rows[..i])
        invariant State() == CreateRows(old(State()), ids[..i], user, rows[..i], config, now)
      {
        assert rows[..i + 1][..i] == rows[..i] && ids[..i + 1][..i] == ids[..i];
        var productData := StripRestricted(rows[i].payload);
        if user.role == Admin {
          if !Given(productData, SellerId) { errors := errors + [i]; continue; }
        } else {
          productData := productData[SellerId := user.id];
        }
        if !Given(productData, Name) || !Given(productData, HeaderId) || !Given(productData, CategoryId)
           || !Given(productData, SubcategoryId) || !rows[i].numbers {
          errors := errors + [i];
          continue;
        }
        productData := productData + MarkOf(user, config.createRequires, now);
        if !rows[i].stored { continue; }
        products := products[ids[i] := productData];
        if user.role == Admin { vetted := vetted[ids[i] := Content(productData)]; }
      }
      assert rows[..|rows|] == rows && ids[..|ids|] == ids;
    }

    method UpdateProduct(id: ProductId, user: User, payload: Fields, config: Config, accepted: bool, now: string)
        returns (ok: bool)
      modifies this
      ensures ok <==> && id in old(products) && accepted
                      && (user.role == Admin ||
                          (SellerId in old(products)[id] && old(products)[id][SellerId] == user.id))
      ensures State() == Step(old(State()), Update(id, user, payload, config, accepted), now)
    {
      var productData := StripRestricted(payload);
      productData := productData - {SellerId};
      if id !in products || !Editable(products[id], user) || !accepted { return false; }
      productData := productData + MarkOf(user, config.editRequires, now);
      products := products[id := products[id] + productData];
      if user.role == Admin { vetted := vetted[id := Content(products[id])]; }
      ok := true;
    }

    method ApproveProduct(id: ProductId, admin: string, note: string, now: string) returns (ok: bool)
      modifies this
      ensures ok == (id in old(products))
      ensures State() == Step(old(State()), Approve(id, admin, note), now)
      ensures ok ==> IsApproved(products[id]) && Content(products[id]) == Content(old(products)[id]) == vetted[id]
    {
      if id !in products { return false; }
      ReviewedMarked(products[id], admin, now, note);
      products := products[id := products[id] + AdminApproved(admin, now, note)];
      vetted := vetted[id := Content(products[id])];
      ok := true;
    }

    method RejectProduct(id: ProductId, admin: string, note: string, now: string) returns (ok: bool)
      modifies this
      ensures ok == (id in old(products))
      ensures State() == Step(old(State()), Reject(id, admin, note), now)
      ensures ok ==> !IsApproved(products[id]) && Content(products[id]) == Content(old(products)[id])
      ensures vetted == old(vetted)
    {
      if id !in products { return false; }
      ReviewedMarked(products[id], admin, now, note);
      products := products[id := products[id] + AdminRejected(admin, now, note)];
      ok := true;
    }
  }

  // ---------- steps ----------

  datatype Desk = Desk(products: map<ProductId, Fields>, vetted: map<ProductId, Fields>)

  datatype Op = Create(id: ProductId, user: User, payload: Fields, config: Config, accepted: bool)
              | Bulk(ids: seq<ProductId>, author: User, rows: seq<Row>, settings: Config)
              | Update(id: ProductId, user: User, payload: Fields, config: Config, accepted: bool)
              | Approve(id: ProductId, admin: string, note: string)
              | Reject(id: ProductId, admin: string, note: string)

  function Put(d: Desk, id: ProductId, product: Fields, vetted: bool): Desk {
    Desk(d.products[id := product], if vetted then d.vetted[id := Content(product)] else d.vetted)
  }

  predicate Valid(user: User, row: Row) { BulkCreatable(user, Content(row.payload)) && row.numbers }

  /** The rows that are valid and that the collection takes, created in turn. */
  function CreateRows(d: Desk, ids: seq<ProductId>, user: User, rows: seq<Row>, config: Config, now: string): Desk
    requires |ids| == |rows|
  {
    if rows == [] then d
    else
      var n := |rows| - 1;
      var before := CreateRows(d, ids[..n], user, rows[..n], config, now);
      if Valid(user, rows[n]) && rows[n].stored then
        Put(before, ids[n], Created(user, rows[n].payload, config, now), user.role == Admin)
      else before
  }

  function Rejected(user: User, rows: seq<Row>): seq<nat> {
    if rows == [] then []
    else
      var n := |rows| - 1;
      Rejected(user, rows[..n]) + if Valid(user, rows[n]) then [] else [n]
  }

  function Step(d: Desk, op: Op, now: string): Desk {
    match op
    case Create(id, user, payload, config, accepted) =>
      if id !in d.products && Creatable(user, Content(payload)) && accepted then
        Put(d, id, Created(user, payload, config, now), user.role == Admin)
      else d
    case Bulk(ids, user, rows, config) => if |ids| == |rows| then CreateRows(d, ids, user, rows, config, now) else d
    case Update(id, user, payload, config, accepted) =>
      if id in d.products && Editable(d.products[id], user) && accepted then
        Put(d, id, Edited(d.products[id], user, payload, config, now), user.role == Admin)
      else d
    case Approve(id, admin, note) =>
      if id in d.products then Put(d, id, d.products[id] + AdminApproved(admin, now, note), true) else d
    case Reject(id, admin, note) =>
      if id in d.products then Put(d, id, d.products[id] + AdminRejected(admin, now, note), false) else d
  }

  // ---------- what customers see has been vetted ----------

  predicate IsApproved(product: Fields) { ApprovalStatus in product && product[ApprovalStatus] == "approved" }

  ghost predicate Vetted(d: Desk, id: ProductId) {
    id in d.products && IsApproved(d.products[id]) ==> id in d.vetted && d.vetted[id] == Content(d.products[id])
  }

  ghost predicate AllVetted(d: Desk) { forall id :: Vetted(d, id) }

  lemma RestrictedKeys(mark: Fields)
    requires mark.Keys == {ApprovalStatus, ApprovalRequestedAt, ApprovalReviewedAt, ApprovalReviewedBy, ApprovalNote,
                           LastSubmittedByRole}
    ensures forall k :: k in RESTRICTED <==> k in mark
  {
    assert RESTRICTED[0] == ApprovalStatus && RESTRICTED[1] == ApprovalRequestedAt;
    assert RESTRICTED[2] == ApprovalReviewedAt;
    assert RESTRICTED[3] == ApprovalReviewedBy && RESTRICTED[4] == ApprovalNote && RESTRICTED[5] == LastSubmittedByRole;
  }

  /** Marks never show in the content, and decide alone whether a product is approved. */
  lemma Marked(product: Fields, data: Fields, mark: Fields)
    requires mark.Keys == {ApprovalStatus, ApprovalRequestedAt, ApprovalReviewedAt, ApprovalReviewedBy, ApprovalNote,
                           LastSubmittedByRole}
    ensures Content(product + (data + mark)) == Content(product) + Content(data)
    ensures IsApproved(product + (data + mark)) <==> mark[ApprovalStatus] == "approved"
  {
    RestrictedKeys(mark);
  }

  lemma MarkOfApproves(user: User, needed: bool, now: string)
    ensures MarkOf(user, needed, now)[ApprovalStatus] == "approved" <==> user.role == Admin || !needed
  {
    assert |"pending"| != |"approved"|;
  }

  /**
   * After a seller's edit what is approved is vetted exactly when edits need approval or the content is the vetted
   * one.
   */
  lemma SellerEditVettedIff(d: Desk, id: ProductId, user: User, payload: Fields, config: Config, now: string)
    requires user.role == Seller && id in d.products && Editable(d.products[id], user)
    ensures var after := Step(d, Update(id, user, payload, config, true), now);
            var content := Content(d.products[id]) + Content(Content(payload) - {SellerId});
            Vetted(after, id) <==> config.editRequires || (id in d.vetted && d.vetted[id] == content)
  {
    EditedMarked(d.products[id], user, payload, config, now);
    Marked(d.products[id], Content(payload) - {SellerId}, MarkOf(user, config.editRequires, now));
  }

  /**
   * A seller's new product is vetted at once exactly when creation needs approval: there is no admin's word on it yet.
   */
  lemma SellerCreateVettedIff(d: Desk, id: ProductId, user: User, payload: Fields, config: Config, now: string)
    requires user.role == Seller && id !in d.products && id !in d.vetted && Creatable(user, Content(payload))
    ensures Vetted(Step(d, Create(id, user, payload, config, true), now), id) <==> config.createRequires
  {
    CreatedMarked(user, payload, config, now);
  }

  lemma CreatedMarked(user: User, payload: Fields, config: Config, now: string)
    ensures IsApproved(Created(user, payload, config, now)) <==> user.role == Admin || !config.createRequires
  {
    MarkOfApproves(user, config.createRequires, now);
  }

  /** Moderation fields in a payload have no effect at all, nor has a seller in an edit. */
  lemma PayloadCannotModerate(product: Fields, user: User, payload: Fields, config: Config, now: string)
    ensures Created(user, payload, config, now) == Created(user, Content(payload), config, now)
    ensures Edited(product, user, payload, config, now)
         == Edited(product, user, Content(payload) - {SellerId}, config, now)
    ensures SellerId in product ==> Edited(product, user, payload, config, now)[SellerId] == product[SellerId]
  {
    assert Content(Content(payload)) == Content(payload);
    assert Content(Content(payload) - {SellerId}) - {SellerId} == Content(payload) - {SellerId};
  }

  // ---------- what is stored, field by field ----------

  /** The marks a write leaves, by who writes. */
  lemma MarksAre(user: User, needed: bool, now: string)
    ensures var m := MarkOf(user, needed, now);
            && m.Keys == {ApprovalStatus, ApprovalRequestedAt, ApprovalReviewedAt, ApprovalReviewedBy, ApprovalNote,
                          LastSubmittedByRole}
            && m[ApprovalStatus] == (if user.role == Seller && needed then "pending" else "approved")
            && m[ApprovalRequestedAt] == (if user.role == Seller && needed then now else "null")
            && m[ApprovalReviewedAt] == (if user.role == Admin then now else "null")
            && m[ApprovalReviewedBy] == (if user.role == Admin then user.id else "null")
            && m[ApprovalNote] == ""
            && m[LastSubmittedByRole] == (if user.role == Admin then "admin" else "seller")
  {
  }

  /** A new product: its marks, its seller - the one an admin names, or who creates it - and the rest as sent. */
  lemma CreatedIs(user: User, payload: Fields, config: Config, now: string, k: Key)
    ensures var product, marks := Created(user, payload, config, now), MarkOf(user, config.createRequires, now);
            && (k in marks ==> k in product && product[k] == marks[k])
            && (k !in marks && (k != SellerId || user.role == Admin) ==>
                  (k in product <==> k in payload) && (k in product ==> product[k] == payload[k]))
            && (user.role == Seller ==> SellerId in product && product[SellerId] == user.id)
  {
    RestrictedKeys(MarkOf(user, config.createRequires, now));
  }

  /** An edited product: new marks, the seller it had, and of the rest what was sent, or else what was there. */
  lemma EditedIs(product: Fields, user: User, payload: Fields, config: Config, now: string, k: Key)
    ensures var after, marks := Edited(product, user, payload, config, now), MarkOf(user, config.editRequires, now);
            && (k in marks ==> k in after && after[k] == marks[k])
            && (k !in marks && k != SellerId && k in payload ==> k in after && after[k] == payload[k])
            && (k !in marks && (k == SellerId || k !in payload) ==>
                  (k in after <==> k in product) && (k in after ==> after[k] == product[k]))
  {
    RestrictedKeys(MarkOf(user, config.editRequires, now));
  }

  /** A review leaves its verdict, its time, its author and its note; everything else stays. */
  lemma ReviewedIs(product: Fields, admin: string, now: string, note: string, k: Key)
    ensures var yes, no := product + AdminApproved(admin, now, note), product + AdminRejected(admin, now, note);
            && yes[ApprovalStatus] == "approved" && no[ApprovalStatus] == "rejected"
            && yes[ApprovalReviewedBy] == no[ApprovalReviewedBy] == admin
            && yes[ApprovalReviewedAt] == no[ApprovalReviewedAt] == now
            && yes[ApprovalNote] == no[ApprovalNote] == note
            && yes[ApprovalRequestedAt] == no[ApprovalRequestedAt] == "null"
            && yes[LastSubmittedByRole] == no[LastSubmittedByRole] == "admin"
            && (k !in RESTRICTED ==>
                  (k in yes <==> k in product) && (k in no <==> k in product)
                  && (k in product ==> yes[k] == no[k] == product[k]))
  {
    RestrictedKeys(AdminApproved(admin, now, note));
    RestrictedKeys(AdminRejected(admin, now, note));
  }

  lemma ContentHas(payload: Fields, k: Key)
    requires k in {Name, HeaderId, CategoryId, SubcategoryId, SellerId}
    ensures Given(Content(payload), k) <==> k in payload && payload[k] != ""
  {
    RestrictedKeys(SellerApproved());
  }

  /** A row is taken up iff its numbers are good and none of the fields it needs is missing or empty. */
  lemma ValidIff(user: User, row: Row)
    ensures Valid(user, row) <==>
      && row.numbers && (forall k :: k in {Name, HeaderId, CategoryId, SubcategoryId} ==>
                           k in row.payload && row.payload[k] != "")
      && (user.role == Admin ==> SellerId in row.payload && row.payload[SellerId] != "")
  {
    forall k | k in {Name, HeaderId, CategoryId, SubcategoryId, SellerId}
      ensures Given(Content(row.payload), k) <==> k in row.payload && row.payload[k] != ""
    {
      ContentHas(row.payload, k);
    }
  }

  /** The rows of a bulk upload that are not valid are reported by index, in order. */
  lemma {:induction false} RejectedIs(user: User, rows: seq<Row>, i: nat)
    ensures i in Rejected(user, rows) <==> i < |rows| && !Valid(user, rows[i])
    ensures forall j :: 0 <= j < |Rejected(user, rows)| ==> Rejected(user, rows)[j] < |rows|
    ensures forall j, k :: 0 <= j < k < |Rejected(user, rows)| ==> Rejected(user, rows)[j] < Rejected(user, rows)[k]
  {
    if rows != [] { RejectedIs(user, rows[..|rows| - 1], i); }
  }

  // ---------- whole runs ----------

  /** Seller writes happen while approval is required for them. */
  predicate ApprovalOn(op: Op) {
    match op
    case Create(_, user, _, config, _) => user.role == Seller ==> config.createRequires
    case Bulk(_, user, _, config) => user.role == Seller ==> config.createRequires
    case Update(_, user, _, config, _) => user.role == Seller ==> config.editRequires
    case _ => true
  }

  lemma {:induction false} RowsKeepVetted(d: Desk, ids: seq<ProductId>, user: User, rows: seq<Row>, config: Config,
                                          now: string)
    requires |ids| == |rows| && AllVetted(d) && (user.role == Seller ==> config.createRequires)
    ensures AllVetted(CreateRows(d, ids, user, rows, config, now))
  {
    if rows != [] {
      var n := |rows| - 1;
      RowsKeepVetted(d, ids[..n], user, rows[..n], config, now);
      CreatedMarked(user, rows[n].payload, config, now);
      PutKeepsVetted(CreateRows(d, ids[..n], user, rows[..n], config, now), ids[n],
                     Created(user, rows[n].payload, config, now), user.role == Admin);
    }
  }

  /** A write that is vetted, or that leaves its product unapproved. */
  lemma PutKeepsVetted(d: Desk, id: ProductId, product: Fields, vetted: bool)
    requires AllVetted(d) && (IsApproved(product) ==> vetted)
    ensures AllVetted(Put(d, id, product, vetted))
  {
    forall x ensures Vetted(Put(d, id, product, vetted), x) { assert Vetted(d, x); }
  }

  lemma EditedMarked(product: Fields, user: User, payload: Fields, config: Config, now: string)
    ensures IsApproved(Edited(product, user, payload, config, now)) <==> user.role == Admin || !config.editRequires
  {
    Marked(product, Content(payload) - {SellerId}, MarkOf(user, config.editRequires, now));
    MarkOfApproves(user, config.editRequires, now);
  }

  /** A review decides whether the product is approved and leaves its content. */
  lemma ReviewedMarked(product: Fields, admin: string, now: string, note: string)
    ensures IsApproved(product + AdminApproved(admin, now, note))
    ensures !IsApproved(product + AdminRejected(admin, now, note))
    ensures Content(product + AdminApproved(admin, now, note)) == Content(product)
    ensures Content(product + AdminRejected(admin, now, note)) == Content(product)
  {
    assert "rejected"[0] != "approved"[0];
    RestrictedKeys(AdminApproved(admin, now, note));
    RestrictedKeys(AdminRejected(admin, now, note));
  }

  lemma StepKeepsVetted(d: Desk, op: Op, now: string)
    requires AllVetted(d) && ApprovalOn(op)
    ensures AllVetted(Step(d, op, now))
  {
    match op
    case Create(id, user, payload, config, accepted) =>
      CreatedMarked(user, payload, config, now);
      if Step(d, op, now) != d { PutKeepsVetted(d, id, Created(user, payload, config, now), user.role == Admin); }
    case Bulk(ids, user, rows, config) =>
      if |ids| == |rows| { RowsKeepVetted(d, ids, user, rows, config, now); }
    case Update(id, user, payload, config, accepted) =>
      if id in d.products && Editable(d.products[id], user) {
        EditedMarked(d.products[id], user, payload, config, now);
        PutKeepsVetted(d, id, Edited(d.products[id], user, payload, config, now), user.role == Admin);
      }
    case Approve(id, admin, note) =>
      if id in d.products { PutKeepsVetted(d, id, d.products[id] + AdminApproved(admin, now, note), true); }
    case Reject(id, admin, note) =>
      if id in d.products {
        ReviewedMarked(d.products[id], admin, now, note);
        PutKeepsVetted(d, id, d.products[id] + AdminRejected(admin, now, note), false);
      }
  }

  function Run(ops: seq<(Op, string)>): Desk {
    if ops == [] then Desk(map[], map[]) else Step(Run(ops[..|ops| - 1]), ops[|ops| - 1].0, ops[|ops| - 1].1)
  }

  /** While approval is on, over all runs every approved product shows what an admin last wrote or approved. */
  lemma {:induction false} ApprovedIsVetted(ops: seq<(Op, string)>)
    requires forall o :: o in ops ==> ApprovalOn(o.0)
    ensures AllVetted(Run(ops))
  {
    if ops != [] {
      assert ops[|ops| - 1] in ops;
      ApprovedIsVetted(ops[..|ops| - 1]);
      StepKeepsVetted(Run(ops[..|ops| - 1]), ops[|ops| - 1].0, ops[|ops| - 1].1);
    }
  }
}
