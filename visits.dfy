/**
 * Clinic visits and pharmacy orders. Each visit references a drawn patient,
 * day and diagnosis; with probability 0.8 the clinical lookup names a drug
 * keyword and, if some inventory row matches it, one order is emitted with the
 * next order identifier.
 */
module Visits {
  import opened Wrappers
  import opened Text
  import opened Inventory
  import opened Clinical

  /** Visit `i` (counting from 1) has identifier 20000 + i. */
  const VISIT_ID_BASE := 20000
  const FIRST_ORDER_ID := 90001
  /** Days from 2022-01-01 to 2024-12-31: 365 + 365 + 366 - 1. */
  const DAYS_RANGE := 1095
  /** `random.random() < 0.8` lets a visit attempt a pharmacy order. */
  const ORDER_PROBABILITY: real := 0.8
  const DEPARTMENTS: seq<string> := ["Outpatient", "Inpatient", "Pediatrics"]
  const MIN_QUANTITY := 1
  const MAX_QUANTITY := 3

  /** A row of the disease table; the name cell may be missing. */
  datatype Disease = Disease(name: Option<string>, code: string)

  /** A visit; the date is its day offset from 2022-01-01. */
  datatype Visit = Visit(visitId: int, patientId: int, dayOffset: int, diagnosis: Option<string>,
                         code: string, department: string)

  /** An order; the total cost is in cents. */
  datatype Order = Order(orderId: int, visitId: int, drugId: int, quantity: int, totalCost: int)

  /**
   * The random values one iteration of the visit loop may consume: patient,
   * day, disease row, department, the order coin, the index into the
   * candidate drug keywords, the index into the matching inventory rows and the
   * quantity.
   */
  datatype VisitDraw = VisitDraw(patientId: int, dayOffset: int, diseasePick: nat, departmentPick: nat,
                                 orderRoll: real, drugPick: nat, itemPick: nat, quantity: int)

  /** The inventory rows, in table order, whose drug name contains `keyword` ignoring case; rows without a name never match. */
  function MatchingItems(inventory: seq<InventoryItem>, keyword: string): (r: seq<InventoryItem>)
    ensures forall x :: x in r ==> x in inventory && NameContains(x.drug.name, keyword)
    ensures forall x :: x in inventory && NameContains(x.drug.name, keyword) ==> x in r
    ensures |r| <= |inventory|
    decreases |inventory|
  {
    if inventory == [] then []
    else
      var n := |inventory| - 1;
      var earlier := MatchingItems(inventory[..n], keyword);
      if NameContains(inventory[n].drug.name, keyword) then earlier + [inventory[n]] else earlier
  }

  /** The diagnosis text the clinical lookup sees for this draw. */
  function DiagnosisOf(d: VisitDraw, diseases: seq<Disease>): string
    requires d.diseasePick < |diseases|
  {
    DiagnosisText(diseases[d.diseasePick].name)
  }

  /** The prescribed drug keyword of this visit: the drug draw indexes the candidates cyclically. */
  function Keyword(d: VisitDraw, diseases: seq<Disease>): string
    requires d.diseasePick < |diseases|
  {
    var diagnosis := DiagnosisOf(d, diseases);
    PrescribedDrug(diagnosis, d.drugPick % |Candidates(diagnosis)|)
  }

  /** The draw picks a row of the disease table and a department. */
  predicate PicksRows(d: VisitDraw, diseases: seq<Disease>)
  {
    d.diseasePick < |diseases| && d.departmentPick < |DEPARTMENTS|
  }

  /** Every draw picks a row of the disease table and a department. */
  predicate PicksInRange(draws: seq<VisitDraw>, diseases: seq<Disease>)
  {
    forall k :: 0 <= k < |draws| ==> PicksRows(draws[k], diseases)
  }

  lemma PicksInRangePrefix(draws: seq<VisitDraw>, diseases: seq<Disease>, n: nat)
    requires PicksInRange(draws, diseases) && n <= |draws|
    ensures PicksInRange(draws[..n], diseases)
  {
    assert forall k :: 0 <= k < n ==> draws[..n][k] == draws[k];
  }

  /** What the draws of one visit can be: the ranges of the source's `randint` and `random` calls. */
  predicate ValidDraw(d: VisitDraw, numPatients: int, diseases: seq<Disease>)
  {
    1 <= d.patientId <= numPatients &&
    0 <= d.dayOffset <= DAYS_RANGE &&
    PicksRows(d, diseases) &&
    0.0 <= d.orderRoll < 1.0 &&
    MIN_QUANTITY <= d.quantity <= MAX_QUANTITY
  }

  /** Every draw of `draws` is a possible draw of one visit. */
  predicate ValidDraws(draws: seq<VisitDraw>, numPatients: int, diseases: seq<Disease>)
  {
    forall k :: 0 <= k < |draws| ==> ValidDraw(draws[k], numPatients, diseases)
  }

  /** Valid draws pick rows that exist. */
  lemma ValidDrawsPickInRange(draws: seq<VisitDraw>, numPatients: int, diseases: seq<Disease>)
    requires ValidDraws(draws, numPatients, diseases)
    ensures PicksInRange(draws, diseases)
  {
    forall k | 0 <= k < |draws|
      ensures PicksRows(draws[k], diseases)
    {
      assert ValidDraw(draws[k], numPatients, diseases);
    }
  }

  /** The visit record appended for visit `i`, counting from 1. */
  function VisitRow(i: int, d: VisitDraw, diseases: seq<Disease>): Visit
    requires d.diseasePick < |diseases| && d.departmentPick < |DEPARTMENTS|
  {
    var disease := diseases[d.diseasePick];
    Visit(VISIT_ID_BASE + i, d.patientId, d.dayOffset, disease.name, disease.code, DEPARTMENTS[d.departmentPick])
  }

  /** The visit table: visit `k + 1` is built from draw `k`. */
  function VisitsOf(draws: seq<VisitDraw>, diseases: seq<Disease>): (visits: seq<Visit>)
    requires PicksInRange(draws, diseases)
    ensures |visits| == |draws|
    decreases |draws|
  {
    if draws == [] then []
    else
      var n := |draws| - 1;
      PicksInRangePrefix(draws, diseases, n);
      VisitsOf(draws[..n], diseases) + [VisitRow(n + 1, draws[n], diseases)]
  }

  /** Entry `k` of the visit table is built from draw `k`. */
  lemma {:induction false} VisitAt(draws: seq<VisitDraw>, diseases: seq<Disease>, k: nat)
    requires PicksInRange(draws, diseases) && k < |draws|
    ensures VisitsOf(draws, diseases)[k] == VisitRow(k + 1, draws[k], diseases)
    decreases |draws|
  {
    var n := |draws| - 1;
    PicksInRangePrefix(draws, diseases, n);
    if k < n {
      VisitAt(draws[..n], diseases, k);
      assert draws[..n][k] == draws[k];
    }
  }

  /** One more draw appends its visit row. */
  lemma VisitsOfExtend(draws: seq<VisitDraw>, diseases: seq<Disease>, i: nat)
    requires PicksInRange(draws, diseases) && 0 < i <= |draws|
    ensures PicksInRange(draws[..i - 1], diseases) && PicksInRange(draws[..i], diseases)
    ensures VisitsOf(draws[..i], diseases) == VisitsOf(draws[..i - 1], diseases) + [VisitRow(i, draws[i - 1], diseases)]
  {
    PicksInRangePrefix(draws, diseases, i);
    PicksInRangePrefix(draws, diseases, i - 1);
    assert draws[..i][..i - 1] == draws[..i - 1];
  }

  /**
   * Every visit row carries its own id, the drawn patient (a registered one)
   * and day (within the three-year window), a department of the fixed list,
   * and the name and code of the drawn disease.
   */
  lemma VisitsFollowDraws(draws: seq<VisitDraw>, numPatients: int, diseases: seq<Disease>)
    requires ValidDraws(draws, numPatients, diseases)
    ensures PicksInRange(draws, diseases)
    ensures var visits := VisitsOf(draws, diseases);
      forall i :: 0 <= i < |visits| ==>
        visits[i].visitId == VISIT_ID_BASE + i + 1 &&
        visits[i].patientId == draws[i].patientId && 1 <= visits[i].patientId <= numPatients &&
        visits[i].dayOffset == draws[i].dayOffset && 0 <= visits[i].dayOffset <= DAYS_RANGE &&
        visits[i].department in DEPARTMENTS &&
        visits[i].diagnosis == diseases[draws[i].diseasePick].name &&
        visits[i].code == diseases[draws[i].diseasePick].code
  {
    ValidDrawsPickInRange(draws, numPatients, diseases);
    forall i | 0 <= i < |draws|
      ensures var v := VisitsOf(draws, diseases)[i];
        v.visitId == VISIT_ID_BASE + i + 1 &&
        v.patientId == draws[i].patientId && 1 <= v.patientId <= numPatients &&
        v.dayOffset == draws[i].dayOffset && 0 <= v.dayOffset <= DAYS_RANGE &&
        v.department in DEPARTMENTS &&
        v.diagnosis == diseases[draws[i].diseasePick].name &&
        v.code == diseases[draws[i].diseasePick].code
    {
      VisitAt(draws, diseases, i);
      assert ValidDraw(draws[i], numPatients, diseases);
    }
  }

  /** A pharmacy purchase: the inventory row chosen and the quantity bought. */
  datatype Purchase = Purchase(item: InventoryItem, quantity: int)

  /** The order step of a visit whose prescribed keyword is `keyword`: what, if anything, is bought. */
  function VisitPurchase(d: VisitDraw, keyword: string, inventory: seq<InventoryItem>): (r: Option<Purchase>)
    ensures r.Some? ==>
      d.orderRoll < ORDER_PROBABILITY &&
      r.value.item in inventory && NameContains(r.value.item.drug.name, keyword) &&
      r.value.quantity == d.quantity
  {
    if d.orderRoll < ORDER_PROBABILITY then
      var matching := MatchingItems(inventory, keyword);
      if |matching| > 0 then
        var selected := matching[d.itemPick % |matching|];
        assert selected in matching;
        Some(Purchase(selected, d.quantity))
      else
        None
    else None
  }

  /** A visit buys something exactly when the coin allows it and some inventory row matches the keyword. */
  lemma PurchaseIff(d: VisitDraw, keyword: string, inventory: seq<InventoryItem>)
    ensures VisitPurchase(d, keyword, inventory).Some? <==>
      d.orderRoll < ORDER_PROBABILITY && exists x :: x in inventory && NameContains(x.drug.name, keyword)
  {
    var matching := MatchingItems(inventory, keyword);
    if exists x :: x in inventory && NameContains(x.drug.name, keyword) {
      var x :| x in inventory && NameContains(x.drug.name, keyword);
      assert x in matching;
    }
  }

  /**
   * `keywords` holds, for each of the first `|keywords|` visits whose coin
   * lets it look up a drug, the keyword `get_prescribed_drug` returned; the
   * other visits prescribe nothing and their entry is never read (the
   * quantifier is instantiated only where a prescription is mentioned).
   */
  ghost predicate Prescribed(draws: seq<VisitDraw>, diseases: seq<Disease>, keywords: seq<string>)
  {
    PicksInRange(draws, diseases) && |keywords| <= |draws| &&
    forall k {:trigger Keyword(draws[k], diseases)} :: 0 <= k < |keywords| && draws[k].orderRoll < ORDER_PROBABILITY ==>
      keywords[k] == Keyword(draws[k], diseases)
  }

  /** The purchase of every visit, in visit order, visit `k` looking for `keywords[k]`. */
  function Purchases(draws: seq<VisitDraw>, keywords: seq<string>, inventory: seq<InventoryItem>)
    : (purchases: seq<Option<Purchase>>)
    requires |keywords| == |draws|
    ensures |purchases| == |draws|
    decreases |draws|
  {
    if draws == [] then []
    else
      var n := |draws| - 1;
      Purchases(draws[..n], keywords[..n], inventory) + [VisitPurchase(draws[n], keywords[n], inventory)]
  }

  /** Entry `k` of the purchases is the purchase of visit `k` under its keyword. */
  lemma {:induction false} PurchaseAt(draws: seq<VisitDraw>, keywords: seq<string>, inventory: seq<InventoryItem>,
                                      k: nat)
    requires |keywords| == |draws| && k < |draws|
    ensures Purchases(draws, keywords, inventory)[k] == VisitPurchase(draws[k], keywords[k], inventory)
    decreases |draws|
  {
    var n := |draws| - 1;
    var earlier := Purchases(draws[..n], keywords[..n], inventory);
    assert Purchases(draws, keywords, inventory) == earlier + [VisitPurchase(draws[n], keywords[n], inventory)];
    if k < n {
      PurchaseAt(draws[..n], keywords[..n], inventory, k);
      assert draws[..n][k] == draws[k] && keywords[..n][k] == keywords[k];
    }
  }

  /** The order emitted for a purchase at visit `visitId` under identifier `orderId`. */
  function OrderLine(orderId: int, visitId: int, p: Purchase): Order
  {
    Order(orderId, visitId, p.item.drugId, p.quantity, p.item.drug.unitPrice * p.quantity)
  }

  /** The orders the loop has emitted after the visits whose purchases are `purchases`. */
  function Orders(purchases: seq<Option<Purchase>>): seq<Order>
    decreases |purchases|
  {
    if purchases == [] then []
    else
      var earlier := Orders(purchases[..|purchases| - 1]);
      match purchases[|purchases| - 1]
      case None => earlier
      case Some(p) => earlier + [OrderLine(FIRST_ORDER_ID + |earlier|, VISIT_ID_BASE + |purchases|, p)]
  }

  /** Order `o` records exactly purchase `p`. */
  predicate Records(o: Order, p: Option<Purchase>)
  {
    p.Some? && o == OrderLine(o.orderId, o.visitId, p.value)
  }

  /**
   * The order table: identifiers 90001, 90002, ... without gaps, visit
   * identifiers strictly increasing (so at most one order per visit) and
   * naming visits that exist, each order recording its visit's purchase.
   */
  ghost predicate WellFormedOrders(orders: seq<Order>, purchases: seq<Option<Purchase>>)
  {
    |orders| <= |purchases| &&
    (forall j :: 0 <= j < |orders| ==> orders[j].orderId == FIRST_ORDER_ID + j) &&
    RecordsVisits(orders, purchases)
  }

  /**
   * Orders name visits in strictly increasing order, each an existing visit
   * whose purchase the order records.
   */
  ghost predicate RecordsVisits(orders: seq<Order>, purchases: seq<Option<Purchase>>)
  {
    (forall j :: 0 <= j < |orders| ==> VISIT_ID_BASE < orders[j].visitId <= VISIT_ID_BASE + |purchases|) &&
    (forall j, j' :: 0 <= j < j' < |orders| ==> orders[j].visitId < orders[j'].visitId) &&
    (forall j :: 0 <= j < |orders| ==> Records(orders[j], purchases[orders[j].visitId - VISIT_ID_BASE - 1]))
  }

  /** The order table has at most one order per visit, numbered 90001, 90002, ... without gaps. */
  lemma {:induction false} OrdersNumbered(purchases: seq<Option<Purchase>>)
    ensures |Orders(purchases)| <= |purchases|
    ensures forall j :: 0 <= j < |Orders(purchases)| ==> Orders(purchases)[j].orderId == FIRST_ORDER_ID + j
    decreases |purchases|
  {
    if purchases != [] {
      OrdersNumbered(purchases[..|purchases| - 1]);
    }
  }

  /** The order table records the visits' purchases in visit order. */
  lemma {:induction false} OrdersRecordVisits(purchases: seq<Option<Purchase>>)
    ensures RecordsVisits(Orders(purchases), purchases)
    decreases |purchases|
  {
    if purchases != [] {
      var n := |purchases|;
      var prefix := purchases[..n - 1];
      var earlier := Orders(prefix);
      OrdersRecordVisits(prefix);
      assert forall k :: 0 <= k < n - 1 ==> prefix[k] == purchases[k];
      match purchases[n - 1]
      case None =>
        assert Orders(purchases) == earlier;
      case Some(p) =>
        var last := OrderLine(FIRST_ORDER_ID + |earlier|, VISIT_ID_BASE + n, p);
        assert Orders(purchases) == earlier + [last];
        assert Records(last, purchases[n - 1]);
    }
  }

  lemma OrdersWellFormed(purchases: seq<Option<Purchase>>)
    ensures WellFormedOrders(Orders(purchases), purchases)
  {
    OrdersNumbered(purchases);
    OrdersRecordVisits(purchases);
  }

  /** Every visit with a purchase has an order. */
  lemma {:induction false} OrdersComplete(purchases: seq<Option<Purchase>>, v: nat)
    requires v < |purchases| && purchases[v].Some?
    ensures exists j :: 0 <= j < |Orders(purchases)| && Orders(purchases)[j].visitId == VISIT_ID_BASE + v + 1
    decreases |purchases|
  {
    var n := |purchases|;
    var prefix := purchases[..n - 1];
    var orders := Orders(purchases);
    if v == n - 1 {
      assert orders[|orders| - 1].visitId == VISIT_ID_BASE + v + 1;
    } else {
      assert prefix[v] == purchases[v];
      OrdersComplete(prefix, v);
      var j :| 0 <= j < |Orders(prefix)| && Orders(prefix)[j].visitId == VISIT_ID_BASE + v + 1;
      assert orders[j] == Orders(prefix)[j];
    }
  }

  /** Visit `v` (from 0) has an order exactly when it has a purchase. */
  lemma OrderForVisitIff(purchases: seq<Option<Purchase>>, v: nat)
    requires v < |purchases|
    ensures (exists j :: 0 <= j < |Orders(purchases)| && Orders(purchases)[j].visitId == VISIT_ID_BASE + v + 1)
            <==> purchases[v].Some?
  {
    OrdersWellFormed(purchases);
    if purchases[v].Some? {
      OrdersComplete(purchases, v);
    }
  }

  /** One more visit extends the order table by that visit's order, if it has one. */
  lemma OrdersExtend(purchases: seq<Option<Purchase>>, next: Option<Purchase>)
    ensures var earlier := Orders(purchases);
            Orders(purchases + [next]) == match next
              case None => earlier
              case Some(p) => earlier + [OrderLine(FIRST_ORDER_ID + |earlier|, VISIT_ID_BASE + |purchases| + 1, p)]
  {
    var all := purchases + [next];
    assert all[..|all| - 1] == purchases;
    assert all[|all| - 1] == next;
  }

  /** One more visit, looking for `keyword`, extends the order table by that visit's order, if any. */
  lemma OrdersStep(draws: seq<VisitDraw>, keywords: seq<string>, keyword: string, inventory: seq<InventoryItem>,
                   i: nat)
    requires 0 < i <= |draws| && |keywords| == i - 1
    ensures var earlier := Orders(Purchases(draws[..i - 1], keywords, inventory));
            Orders(Purchases(draws[..i], keywords + [keyword], inventory)) ==
              match VisitPurchase(draws[i - 1], keyword, inventory)
              case None => earlier
              case Some(p) => earlier + [OrderLine(FIRST_ORDER_ID + |earlier|, VISIT_ID_BASE + i, p)]
  {
    assert draws[..i][..i - 1] == draws[..i - 1] && (keywords + [keyword])[..i - 1] == keywords;
    OrdersExtend(Purchases(draws[..i - 1], keywords, inventory), VisitPurchase(draws[i - 1], keyword, inventory));
  }

  /** Order `j` records the purchase of the visit it names. */
  lemma OrderRecordsItsVisit(purchases: seq<Option<Purchase>>, j: nat)
    requires j < |Orders(purchases)|
    ensures var o := Orders(purchases)[j];
            var v := o.visitId - VISIT_ID_BASE - 1;
            0 <= v < |purchases| && Records(o, purchases[v])
  {
    OrdersWellFormed(purchases);
  }

  /**
   * Order `j` buys its visit's purchase: the quantity drawn, and, when the
   * purchased item is an inventory row, that row (found by drug identifier)
   * at its unit price times the quantity.
   */
  lemma OrderRow(purchases: seq<Option<Purchase>>, inventory: seq<InventoryItem>, j: nat)
    requires SequentialIds(inventory) && j < |Orders(purchases)|
    ensures var o := Orders(purchases)[j];
            var v := o.visitId - VISIT_ID_BASE - 1;
            0 <= v < |purchases| && purchases[v].Some? && o.quantity == purchases[v].value.quantity &&
            (purchases[v].value.item in inventory ==>
               var row := o.drugId - FIRST_DRUG_ID;
               0 <= row < |inventory| && inventory[row] == purchases[v].value.item &&
               o.totalCost == inventory[row].drug.unitPrice * o.quantity)
  {
    OrderRecordsItsVisit(purchases, j);
    var o := Orders(purchases)[j];
    var v := o.visitId - VISIT_ID_BASE - 1;
    if purchases[v].value.item in inventory {
      PurchaseIsListed(inventory, purchases[v].value, o);
    }
  }

  /**
   * A visit gets an order exactly when its coin is below 0.8 and some
   * inventory row's name contains its keyword.
   */
  lemma VisitOrderedIff(draws: seq<VisitDraw>, keywords: seq<string>, inventory: seq<InventoryItem>, v: nat)
    requires |keywords| == |draws| && v < |draws|
    ensures var orders := Orders(Purchases(draws, keywords, inventory));
            (exists j :: 0 <= j < |orders| && orders[j].visitId == VISIT_ID_BASE + v + 1) <==>
            (draws[v].orderRoll < ORDER_PROBABILITY &&
             exists x :: x in inventory && NameContains(x.drug.name, keywords[v]))
  {
    var purchases := Purchases(draws, keywords, inventory);
    PurchaseAt(draws, keywords, inventory, v);
    PurchaseIff(draws[v], keywords[v], inventory);
    OrderForVisitIff(purchases, v);
  }

  /**
   * Every purchase of `purchases` belongs to a visit whose coin allowed it
   * and buys, at that visit's drawn quantity, an inventory row whose name
   * contains that visit's keyword.
   */
  ghost predicate Bought(purchases: seq<Option<Purchase>>, draws: seq<VisitDraw>, keywords: seq<string>,
                         inventory: seq<InventoryItem>)
  {
    |purchases| == |draws| == |keywords| &&
    forall k :: 0 <= k < |purchases| && purchases[k].Some? ==>
      draws[k].orderRoll < ORDER_PROBABILITY && purchases[k].value.item in inventory && NameContains(purchases[k].value.item.drug.name, keywords[k]) &&
      purchases[k].value.quantity == draws[k].quantity
  }

  /** The purchases of the visit loop are all bought that way. */
  lemma PurchasesBought(draws: seq<VisitDraw>, keywords: seq<string>, inventory: seq<InventoryItem>)
    requires |keywords| == |draws|
    ensures Bought(Purchases(draws, keywords, inventory), draws, keywords, inventory)
  {
    forall k | 0 <= k < |draws| {
      PurchaseAt(draws, keywords, inventory, k);
    }
  }

  /**
   * Every order belongs to a visit whose coin allowed a purchase and names,
   * by its drug identifier, an inventory row (the row `drugId - 5001`, since
   * identifiers are sequential) whose name contains its visit's keyword; it buys that visit's drawn quantity and costs the
   * row's unit price times the quantity.
   */
  lemma OrderReferencesInventory(purchases: seq<Option<Purchase>>, draws: seq<VisitDraw>, keywords: seq<string>,
                                 inventory: seq<InventoryItem>, j: nat)
    requires Bought(purchases, draws, keywords, inventory) && SequentialIds(inventory)
    requires j < |Orders(purchases)|
    ensures var o := Orders(purchases)[j];
            var v := o.visitId - VISIT_ID_BASE - 1;
            var row := o.drugId - FIRST_DRUG_ID;
            0 <= v < |draws| && draws[v].orderRoll < ORDER_PROBABILITY && 0 <= row < |inventory| &&
            inventory[row].drugId == o.drugId &&
            NameContains(inventory[row].drug.name, keywords[v]) &&
            o.quantity == draws[v].quantity &&
            o.totalCost == inventory[row].drug.unitPrice * o.quantity
  {
    OrderRow(purchases, inventory, j);
  }

  /** An order for an inventory row names that row by its drug identifier, at that row's price. */
  lemma PurchaseIsListed(inventory: seq<InventoryItem>, p: Purchase, o: Order)
    requires SequentialIds(inventory) && p.item in inventory
    requires o == OrderLine(o.orderId, o.visitId, p)
    ensures var row := o.drugId - FIRST_DRUG_ID;
            0 <= row < |inventory| && inventory[row] == p.item &&
            o.quantity == p.quantity && o.totalCost == p.item.drug.unitPrice * o.quantity
  {
    var k :| 0 <= k < |inventory| && inventory[k] == p.item;
    assert inventory[k].drugId == FIRST_DRUG_ID + k;
  }

  /** A visit diagnosed with malaria is prescribed AL, Artemether or Paracetamol. */
  lemma MalariaKeyword(d: VisitDraw, diseases: seq<Disease>)
    requires d.diseasePick < |diseases|
    requires ContainsIgnoreCase(DiagnosisOf(d, diseases), "Malaria")
    ensures Keyword(d, diseases) in {"AL", "Artemether", "Paracetamol"}
  {
    var diagnosis := DiagnosisOf(d, diseases);
    MalariaPrescription(diagnosis, d.drugPick % |Candidates(diagnosis)|);
  }

  /**
   * An order of a visit diagnosed with malaria is for a drug whose name
   * contains "AL", "Artemether" or "Paracetamol", ignoring case (and so
   * possibly inside a longer word, as `KeywordMatchesInsideWord` shows).
   */
  lemma MalariaOrder(purchases: seq<Option<Purchase>>, draws: seq<VisitDraw>, diseases: seq<Disease>,
                     keywords: seq<string>, inventory: seq<InventoryItem>, j: nat)
    requires Prescribed(draws, diseases, keywords) && Bought(purchases, draws, keywords, inventory)
    requires SequentialIds(inventory) && j < |Orders(purchases)|
    requires var v := Orders(purchases)[j].visitId - VISIT_ID_BASE - 1;
             0 <= v < |draws| && ContainsIgnoreCase(DiagnosisOf(draws[v], diseases), "Malaria")
    ensures var row := Orders(purchases)[j].drugId - FIRST_DRUG_ID;
            0 <= row < |inventory| &&
            exists keyword :: keyword in {"AL", "Artemether", "Paracetamol"} &&
                              NameContains(inventory[row].drug.name, keyword)
  {
    OrderReferencesInventory(purchases, draws, keywords, inventory, j);
    MalariaKeyword(draws[Orders(purchases)[j].visitId - VISIT_ID_BASE - 1], diseases);
  }

  /** Every order names a visit of the visit table: the one at its visit id's position. */
  lemma OrdersNameVisits(purchases: seq<Option<Purchase>>, draws: seq<VisitDraw>, diseases: seq<Disease>)
    requires PicksInRange(draws, diseases) && |purchases| == |draws|
    ensures var visits := VisitsOf(draws, diseases);
            var orders := Orders(purchases);
      forall j :: 0 <= j < |orders| ==>
        var v := orders[j].visitId - VISIT_ID_BASE - 1;
        0 <= v < |visits| && visits[v].visitId == orders[j].visitId
  {
    var orders := Orders(purchases);
    OrdersWellFormed(purchases);
    forall j | 0 <= j < |orders|
      ensures var v := orders[j].visitId - VISIT_ID_BASE - 1;
              0 <= v < |draws| && VisitsOf(draws, diseases)[v].visitId == orders[j].visitId
    {
      VisitAt(draws, diseases, orders[j].visitId - VISIT_ID_BASE - 1);
    }
  }

  /**
   * The order table of the visit loop: identifiers 90001, 90002, ... without
   * gaps; each order names an existing visit, at most one order per visit,
   * and buys 1 to 3 units of the inventory row its drug identifier looks up,
   * a row whose name contains the visit's prescribed keyword, at that row's
   * unit price times the quantity.
   */
  lemma {:induction false} OrdersFollowDraws(purchases: seq<Option<Purchase>>, draws: seq<VisitDraw>, numPatients: int,
                                          diseases: seq<Disease>, keywords: seq<string>, inventory: seq<InventoryItem>)
    requires ValidDraws(draws, numPatients, diseases) && SequentialIds(inventory)
    requires Bought(purchases, draws, keywords, inventory)
    ensures var orders := Orders(purchases);
      (forall j :: 0 <= j < |orders| ==> orders[j].orderId == FIRST_ORDER_ID + j) &&
      (forall j, j' :: 0 <= j < j' < |orders| ==> orders[j].visitId < orders[j'].visitId) &&
      forall j :: 0 <= j < |orders| ==>
        var v := orders[j].visitId - VISIT_ID_BASE - 1;
        var row := orders[j].drugId - FIRST_DRUG_ID;
        0 <= v < |draws| && 0 <= row < |inventory| &&
        Lookup(inventory, orders[j].drugId) == Some(inventory[row]) &&
        NameContains(inventory[row].drug.name, keywords[v]) &&
        MIN_QUANTITY <= orders[j].quantity <= MAX_QUANTITY &&
        orders[j].totalCost == inventory[row].drug.unitPrice * orders[j].quantity
  {
    var orders := Orders(purchases);
    OrdersWellFormed(purchases);
    forall j | 0 <= j < |orders|
      ensures var v := orders[j].visitId - VISIT_ID_BASE - 1;
              var row := orders[j].drugId - FIRST_DRUG_ID;
              0 <= v < |draws| && 0 <= row < |inventory| &&
              Lookup(inventory, orders[j].drugId) == Some(inventory[row]) &&
              NameContains(inventory[row].drug.name, keywords[v]) &&
              MIN_QUANTITY <= orders[j].quantity <= MAX_QUANTITY &&
              orders[j].totalCost == inventory[row].drug.unitPrice * orders[j].quantity
    {
      OrderReferencesInventory(purchases, draws, keywords, inventory, j);
      LookupSequential(inventory, orders[j].drugId - FIRST_DRUG_ID);
      assert ValidDraw(draws[orders[j].visitId - VISIT_ID_BASE - 1], numPatients, diseases);
    }
  }

  /**
   * `get_prescribed_drug(disease_name)` for one visit whose coin lets it look
   * up a drug: a keyword of the first clinical key occurring in the
   * diagnosis, or of the fallback set when no key occurs. The ghost
   * `keywords` record the prescriptions of the visits before it and are
   * extended by this one.
   */
  method Prescribe(d: VisitDraw, diseases: seq<Disease>, ghost draws: seq<VisitDraw>, ghost keywords: seq<string>)
    returns (keyword: string)
    requires Prescribed(draws, diseases, keywords) && |keywords| < |draws| && d == draws[|keywords|]
    ensures d.diseasePick < |diseases|
    ensures match FirstMatch(CLINICAL_MAP, DiagnosisOf(d, diseases))
            case Some(j) => keyword in CLINICAL_MAP[j].1
            case None => keyword in FALLBACK
    ensures Prescribed(draws, diseases, keywords + [keyword])
  {
    keyword := Keyword(d, diseases);
    PrescribedExtend(draws, diseases, keywords);
  }

  /** The prescriptions extend by the next visit's prescription. */
  lemma PrescribedExtend(draws: seq<VisitDraw>, diseases: seq<Disease>, keywords: seq<string>)
    requires Prescribed(draws, diseases, keywords) && |keywords| < |draws|
    ensures Prescribed(draws, diseases, keywords + [Keyword(draws[|keywords|], diseases)])
  {
    var n := |keywords|;
    var extended := keywords + [Keyword(draws[n], diseases)];
    forall k | 0 <= k < |extended| && draws[k].orderRoll < ORDER_PROBABILITY
      ensures extended[k] == Keyword(draws[k], diseases)
    {
      if k < n {
        assert extended[k] == keywords[k];
      }
    }
  }

  /** A visit whose coin skips the lookup prescribes nothing; its entry is the empty keyword. */
  lemma PrescribedSkip(draws: seq<VisitDraw>, diseases: seq<Disease>, keywords: seq<string>)
    requires Prescribed(draws, diseases, keywords) && |keywords| < |draws|
    requires draws[|keywords|].orderRoll >= ORDER_PROBABILITY
    ensures Prescribed(draws, diseases, keywords + [""])
  {
    var n := |keywords|;
    var extended := keywords + [""];
    forall k | 0 <= k < |extended| && draws[k].orderRoll < ORDER_PROBABILITY
      ensures extended[k] == Keyword(draws[k], diseases)
    {
      assert k < n && extended[k] == keywords[k];
    }
  }

  /**
   * The purchase of a visit whose coin allows one, looking for `keyword`: if
   * some inventory row matches, the drawn pick selects one of the matching
   * rows and one order for it is appended under the running counter, which
   * advances; otherwise nothing changes.
   */
  method BuyMatching(d: VisitDraw, keyword: string, inventory: seq<InventoryItem>, visitId: int,
                     orders: seq<Order>, orderIdCounter: int)
    returns (orders': seq<Order>, orderIdCounter': int)
    requires d.orderRoll < ORDER_PROBABILITY
    ensures match VisitPurchase(d, keyword, inventory)
            case None => orders' == orders && orderIdCounter' == orderIdCounter
            case Some(p) => orders' == orders + [OrderLine(orderIdCounter, visitId, p)] &&
                            orderIdCounter' == orderIdCounter + 1
  {
    orders', orderIdCounter' := orders, orderIdCounter;
    var matching := MatchingItems(inventory, keyword);
    if |matching| > 0 {
      var selected := matching[d.itemPick % |matching|];
      var qty := d.quantity;
      orders' := orders + [Order(orderIdCounter, visitId, selected.drugId, qty, selected.drug.unitPrice * qty)];
      orderIdCounter' := orderIdCounter + 1;
    }
  }

  /**
   * The order step of visit `visitId`: with the coin below 0.8, look up the
   * prescribed keyword, and if some inventory row matches, append one order
   * under the running counter and advance the counter. The ghost `keywords`
   * records the prescriptions of the visits so far; the order table stays
   * the one the purchases of those visits determine.
   */
  method PlaceOrder(d: VisitDraw, diseases: seq<Disease>, inventory: seq<InventoryItem>, visitId: int,
                    orders: seq<Order>, orderIdCounter: int, ghost draws: seq<VisitDraw>, ghost keywords: seq<string>)
    returns (orders': seq<Order>, orderIdCounter': int, ghost keywords': seq<string>)
    requires Prescribed(draws, diseases, keywords) && |keywords| < |draws| && d == draws[|keywords|]
    requires visitId == VISIT_ID_BASE + |keywords| + 1
    requires orders == Orders(Purchases(draws[..|keywords|], keywords, inventory))
    requires orderIdCounter == FIRST_ORDER_ID + |orders|
    ensures Prescribed(draws, diseases, keywords') && |keywords'| == |keywords| + 1
    ensures orders' == Orders(Purchases(draws[..|keywords'|], keywords', inventory))
    ensures orderIdCounter' == FIRST_ORDER_ID + |orders'|
  {
    ghost var prescription: string;
    orders', orderIdCounter' := orders, orderIdCounter;
    if d.orderRoll < ORDER_PROBABILITY {
      var keyword := Prescribe(d, diseases, draws, keywords);
      prescription := keyword;
      orders', orderIdCounter' := BuyMatching(d, keyword, inventory, visitId, orders, orderIdCounter);
    } else {
      prescription := "";
      PrescribedSkip(draws, diseases, keywords);
    }
    keywords' := keywords + [prescription];
    OrdersStep(draws, keywords, prescription, inventory, |keywords| + 1);
  }

  /**
   * The loop over visits 1 to `numVisits`: appends one visit per iteration
   * and, when the purchase succeeds, one order numbered by the running order
   * counter. The ghost `keywords` are the visits' prescriptions.
   */
  method Synthesize(numVisits: nat, numPatients: nat, diseases: seq<Disease>, inventory: seq<InventoryItem>,
                    draws: seq<VisitDraw>)
    returns (visits: seq<Visit>, orders: seq<Order>, ghost keywords: seq<string>)
    requires |draws| == numVisits
    requires ValidDraws(draws, numPatients, diseases)
    ensures PicksInRange(draws, diseases)
    ensures visits == VisitsOf(draws, diseases)
    ensures Prescribed(draws, diseases, keywords) && |keywords| == |draws|
    ensures orders == Orders(Purchases(draws, keywords, inventory))
  {
    ValidDrawsPickInRange(draws, numPatients, diseases);
    visits := [];
    orders := [];
    keywords := [];
    var orderIdCounter := FIRST_ORDER_ID;
    var i := 1;
    while i <= numVisits
      invariant 1 <= i <= numVisits + 1
      invariant visits == VisitsOf(draws[..i - 1], diseases)
      invariant Prescribed(draws, diseases, keywords) && |keywords| == i - 1
      invariant orders == Orders(Purchases(draws[..i - 1], keywords, inventory))
      invariant orderIdCounter == FIRST_ORDER_ID + |orders|
    {
      var d := draws[i - 1];
      var visitId := VISIT_ID_BASE + i;
      var disease := diseases[d.diseasePick];
      VisitsOfExtend(draws, diseases, i);
      visits := visits + [Visit(visitId, d.patientId, d.dayOffset, disease.name, disease.code,
                                DEPARTMENTS[d.departmentPick])];
      orders, orderIdCounter, keywords := PlaceOrder(d, diseases, inventory, visitId, orders, orderIdCounter,
                                                     draws, keywords);
      i := i + 1;
    }
    assert draws[..numVisits] == draws;
  }
}
