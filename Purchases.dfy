/**
 * The purchase register of frontend/src/components/Purchases.js: adding a
 * purchase from the form, the search and category filter, the category
 * list, the integer statistics and the CSV text of the report.
 */
module Purchases {
  import opened JsText
  import opened Seqs

  /** `cost` is kept as the text the report prints for it. */
  datatype Purchase = Purchase(
    id: int,
    item: string,
    category: string,
    quantity: JsInt,
    cost: string,
    date: string,
    vendor: string,
    status: string,
    priority: string,
    description: string)

  datatype PurchaseForm = PurchaseForm(
    item: string,
    category: string,
    quantity: string,
    cost: string,
    vendor: string,
    priority: string,
    description: string)

  datatype PurchaseField = ItemField | CategoryField | QuantityField | CostField
    | VendorField | PriorityField | DescriptionField

  /** The form as it starts and as it is reset. */
  const EmptyPurchaseForm := PurchaseForm("", "Weapons", "", "", "", "Medium", "")

  const RequiredFieldsAlert := "Please fill in all required fields"
  const AddedAlert := "New purchase added successfully!"

  // ---------------------------------------------------------------------
  // Adding a purchase

  /** Item, quantity, cost and vendor are required; category, priority and
      description are not. */
  predicate MissingRequired(f: PurchaseForm) {
    f.item == "" || f.quantity == "" || f.cost == "" || f.vendor == ""
  }

  /** The description stored when the form leaves it empty. */
  function DefaultDescription(f: PurchaseForm): string {
    f.item + " purchase from " + f.vendor
  }

  /** The record `handleAddNewPurchase` appends, dated `today`. */
  function NewPurchase(f: PurchaseForm, id: int, today: string): (p: Purchase)
    ensures p.id == id && p.status == "Pending" && p.date == today
    ensures p.description != ""
    ensures f.description == "" ==>
      && p.item <= p.description
      && |p.vendor| <= |p.description|
      && p.description[|p.description| - |p.vendor|..] == p.vendor
  {
    Purchase(
      id := id,
      item := f.item,
      category := f.category,
      quantity := ParseInt(f.quantity),
      cost := f.cost,
      date := today,
      vendor := f.vendor,
      status := "Pending",
      priority := f.priority,
      description := if f.description != "" then f.description else DefaultDescription(f))
  }

  /** A new purchase is 'Pending', is described by the form or by the
      default text naming its item and vendor, and carries the parsed
      quantity. */
  lemma NewPurchaseSpec(f: PurchaseForm, id: int, today: string)
    ensures var p := NewPurchase(f, id, today);
      && p.id == id && p.status == "Pending" && p.date == today
      && p.item == f.item && p.vendor == f.vendor && p.category == f.category
      && p.quantity == ParseInt(f.quantity)
      && (f.description == "" ==> p.description == f.item + " purchase from " + f.vendor)
      && (f.description != "" ==> p.description == f.description)
  {
  }

  /** Ids are 1, 2, 3, ... in list order, as in the sample register. */
  ghost predicate SequentialIds(ps: seq<Purchase>) {
    forall i :: 0 <= i < |ps| ==> ps[i].id == i + 1
  }

  /** Appending with id `length + 1` keeps the ids sequential. */
  lemma AddKeepsSequentialIds(ps: seq<Purchase>, f: PurchaseForm, today: string)
    requires SequentialIds(ps)
    ensures SequentialIds(ps + [NewPurchase(f, |ps| + 1, today)])
  {
  }

  /** Sequential ids are distinct, so `length + 1` names no purchase already
      listed while nothing is removed. */
  lemma SequentialIdsDistinct(ps: seq<Purchase>)
    requires SequentialIds(ps)
    ensures forall i, j :: 0 <= i < j < |ps| ==> ps[i].id != ps[j].id
    ensures forall i :: 0 <= i < |ps| ==> ps[i].id != |ps| + 1
  {
  }

  /** `handleInputChange` on the form. */
  function WithField(f: PurchaseForm, field: PurchaseField, value: string): PurchaseForm {
    match field
    case ItemField => f.(item := value)
    case CategoryField => f.(category := value)
    case QuantityField => f.(quantity := value)
    case CostField => f.(cost := value)
    case VendorField => f.(vendor := value)
    case PriorityField => f.(priority := value)
    case DescriptionField => f.(description := value)
  }

  function FieldValue(f: PurchaseForm, field: PurchaseField): string {
    match field
    case ItemField => f.item
    case CategoryField => f.category
    case QuantityField => f.quantity
    case CostField => f.cost
    case VendorField => f.vendor
    case PriorityField => f.priority
    case DescriptionField => f.description
  }

  /** An input change stores the value in its own field and in no other. */
  lemma WithFieldSpec(f: PurchaseForm, field: PurchaseField, value: string)
    ensures FieldValue(WithField(f, field, value), field) == value
    ensures forall other :: other != field ==> FieldValue(WithField(f, field, value), other) == FieldValue(f, other)
  {
  }

  // ---------------------------------------------------------------------
  // Filter and categories

  /** `matchesSearch && matchesCategory` for one purchase. */
  predicate PurchaseMatches(searchTerm: string, selectedCategory: string, p: Purchase) {
    && (Contains(ToLower(p.item), ToLower(searchTerm)) || Contains(ToLower(p.vendor), ToLower(searchTerm)))
    && (selectedCategory == "all" || p.category == selectedCategory)
  }

  function Matcher(searchTerm: string, selectedCategory: string): Purchase -> bool {
    p => PurchaseMatches(searchTerm, selectedCategory, p)
  }

  /** `filteredPurchases`. */
  function FilteredPurchases(ps: seq<Purchase>, searchTerm: string, selectedCategory: string): (r: seq<Purchase>)
    ensures |r| <= |ps|
    ensures forall p :: p in r ==> p in ps && PurchaseMatches(searchTerm, selectedCategory, p)
  {
    FilterSpec(Matcher(searchTerm, selectedCategory), ps);
    Filter(Matcher(searchTerm, selectedCategory), ps)
  }

  /** A purchase is shown exactly when its item or vendor contains the
      search term ignoring case and its category is the selected one or
      'all' is selected; the shown rows keep the register's order. */
  lemma FilteredPurchasesSpec(ps: seq<Purchase>, searchTerm: string, selectedCategory: string)
    ensures forall p :: p in FilteredPurchases(ps, searchTerm, selectedCategory) <==>
      && p in ps
      && (Contains(ToLower(p.item), ToLower(searchTerm)) || Contains(ToLower(p.vendor), ToLower(searchTerm)))
      && (selectedCategory == "all" || p.category == selectedCategory)
    ensures IsSubsequence(FilteredPurchases(ps, searchTerm, selectedCategory), ps)
  {
    FilterSpec(Matcher(searchTerm, selectedCategory), ps);
  }

  /** The empty search with 'all' selected shows the whole register. */
  lemma {:induction false} EmptySearchShowsAll(ps: seq<Purchase>)
    ensures FilteredPurchases(ps, "", "all") == ps
  {
    forall i | 0 <= i < |ps| ensures Matcher("", "all")(ps[i]) {
      assert OccursAt(ToLower(ps[i].item), ToLower(""), 0);
    }
    FilterKeepsAll(Matcher("", "all"), ps);
  }

  function Categories(ps: seq<Purchase>): (cs: seq<string>)
    ensures |cs| == |ps|
    ensures forall i :: 0 <= i < |ps| ==> cs[i] == ps[i].category
  {
    seq(|ps|, i requires 0 <= i < |ps| => ps[i].category)
  }

  /** `categories`: 'all', then each category of the register once. */
  function CategoryOptions(ps: seq<Purchase>): (opts: seq<string>)
    ensures |opts| >= 1 && opts[0] == "all"
    ensures forall i :: 0 <= i < |ps| ==> ps[i].category in opts
  {
    ["all"] + Distinct(Categories(ps))
  }

  /** The options start with 'all', offer every category of the register
      and no other, list none twice after 'all', and follow the order in
      which the categories first occur. */
  lemma {:induction false} CategoryOptionsSpec(ps: seq<Purchase>)
    ensures var opts := CategoryOptions(ps);
      && opts[0] == "all"
      && (forall c :: c in opts[1..] <==> exists i :: 0 <= i < |ps| && ps[i].category == c)
      && NoDuplicates(opts[1..])
      && forall i, j :: 1 <= i < j < |opts| ==>
           FirstIndex(Categories(ps), opts[i]) < FirstIndex(Categories(ps), opts[j])
  {
    var cs := Categories(ps);
    var opts := CategoryOptions(ps);
    assert opts[1..] == Distinct(cs);
    DistinctFirstOccurrenceOrder(cs);
    forall c ensures c in opts[1..] <==> exists i :: 0 <= i < |ps| && ps[i].category == c {
      if c in cs {
        var i :| 0 <= i < |cs| && cs[i] == c;
        assert ps[i].category == c;
      }
    }
    forall i, j | 1 <= i < j < |opts|
      ensures FirstIndex(cs, opts[i]) < FirstIndex(cs, opts[j])
    {
      assert opts[i] == Distinct(cs)[i - 1] && opts[j] == Distinct(cs)[j - 1];
    }
  }

  // ---------------------------------------------------------------------
  // Statistics

  /** `purchases.reduce((sum, p) => sum + p.quantity, 0)`, folding from the
      left; a NaN quantity makes the sum NaN. */
  function TotalItems(ps: seq<Purchase>): (total: JsInt)
    ensures total.NaN? <==> exists i :: 0 <= i < |ps| && ps[i].quantity.NaN?
    decreases |ps|
  {
    if ps == [] then Int(0)
    else
      var init := ps[..|ps| - 1];
      assert forall i :: 0 <= i < |init| ==> init[i] == ps[i];
      Add(TotalItems(init), ps[|ps| - 1].quantity)
  }

  /** The total is NaN exactly when some quantity is; otherwise it is the
      sum of the quantities. */
  lemma {:induction false} TotalItemsSpec(ps: seq<Purchase>)
    ensures TotalItems(ps).NaN? <==> exists i :: 0 <= i < |ps| && ps[i].quantity.NaN?
    ensures TotalItems(ps) == Int(SumQuantities(ps)) <==> forall i :: 0 <= i < |ps| ==> ps[i].quantity.Int?
    decreases |ps|
  {
    if ps != [] {
      var init := ps[..|ps| - 1];
      TotalItemsSpec(init);
      assert forall i :: 0 <= i < |init| ==> init[i] == ps[i];
    }
  }

  /** The sum of the integer quantities, NaN counted as 0. */
  function SumQuantities(ps: seq<Purchase>): int
    decreases |ps|
  {
    if ps == [] then 0
    else SumQuantities(ps[..|ps| - 1]) + (if ps[|ps| - 1].quantity.Int? then ps[|ps| - 1].quantity.value else 0)
  }

  /** Adding a purchase adds its quantity to the total. */
  lemma TotalItemsAppend(ps: seq<Purchase>, p: Purchase)
    ensures TotalItems(ps + [p]) == Add(TotalItems(ps), p.quantity)
  {
    assert (ps + [p])[..|ps|] == ps;
  }

  predicate IsDelivered(p: Purchase) {
    p.status == "Delivered"
  }

  predicate IsPending(p: Purchase) {
    p.status == "Pending" || p.status == "Processing"
  }

  /** `purchases.filter(p => p.status === 'Delivered').length`. */
  function DeliveredCount(ps: seq<Purchase>): (n: nat)
    ensures n == |Filter(IsDelivered, ps)|
  {
    FilterLength(IsDelivered, ps);
    Count(IsDelivered, ps)
  }

  /** The purchases whose status is exactly 'Pending' or 'Processing'. */
  function PendingCount(ps: seq<Purchase>): (n: nat)
    ensures n == |Filter(IsPending, ps)|
  {
    FilterLength(IsPending, ps);
    Count(IsPending, ps)
  }

  /** No purchase is both delivered and pending, so the two counts together
      never exceed the number of purchases. */
  lemma {:induction false} StatusCountsBounded(ps: seq<Purchase>)
    ensures DeliveredCount(ps) + PendingCount(ps) <= |ps|
  {
    CountDisjoint(IsDelivered, IsPending, ps);
  }

  /** The integer figures of `stats`; the cost figures are not modelled. */
  datatype Stats = Stats(totalPurchases: nat, totalItems: JsInt, deliveredCount: nat, pendingCount: nat)

  function ComputeStats(ps: seq<Purchase>): (st: Stats)
    ensures st.totalPurchases == |ps|
    ensures st.deliveredCount + st.pendingCount <= st.totalPurchases
  {
    StatusCountsBounded(ps);
    Stats(|ps|, TotalItems(ps), DeliveredCount(ps), PendingCount(ps))
  }

  /** The figures count the register, sum its quantities, and split off
      delivered and pending purchases without overlap. */
  lemma ComputeStatsSpec(ps: seq<Purchase>)
    ensures var st := ComputeStats(ps);
      && st.totalPurchases == |ps|
      && (st.totalItems.NaN? <==> exists i :: 0 <= i < |ps| && ps[i].quantity.NaN?)
      && ((forall i :: 0 <= i < |ps| ==> ps[i].quantity.Int?) ==> st.totalItems == Int(SumQuantities(ps)))
      && st.deliveredCount + st.pendingCount <= st.totalPurchases
  {
    TotalItemsSpec(ps);
    StatusCountsBounded(ps);
  }

  /** The counts compare statuses exactly: a register whose statuses are
      all upper case, like the sample one, counts nothing in either. */
  lemma {:induction false} UpperCaseStatusesCountNothing(ps: seq<Purchase>)
    requires forall i :: 0 <= i < |ps| ==> ps[i].status in {"DEPLOYED", "PROCESSING", "PENDING"}
    ensures DeliveredCount(ps) == 0 && PendingCount(ps) == 0
    decreases |ps|
  {
    if ps != [] {
      UpperCaseStatusesCountNothing(ps[1..]);
    }
  }

  // ---------------------------------------------------------------------
  // CSV report

  const CsvColumns: seq<string> := ["Item", "Category", "Quantity", "Cost", "Date", "Vendor", "Status", "Priority", "Description"]

  function CsvHeader(): string {
    Join(CsvColumns, ',')
  }

  /** A text cell: wrapped in double quotes, with nothing escaped. */
  function Quoted(s: string): string {
    "\"" + s + "\""
  }

  /** The nine cells of a row; quantity and cost are printed bare. */
  function CsvCells(p: Purchase): (cells: seq<string>)
    ensures |cells| == |CsvColumns|
  {
    [Quoted(p.item), Quoted(p.category), NumberToString(p.quantity), p.cost, Quoted(p.date),
     Quoted(p.vendor), Quoted(p.status), Quoted(p.priority), Quoted(p.description)]
  }

  function CsvRow(p: Purchase): string {
    Join(CsvCells(p), ',')
  }

  /** One row per purchase, in order. */
  function CsvRows(ps: seq<Purchase>): (rows: seq<string>)
    ensures |rows| == |ps|
    ensures forall i :: 0 <= i < |ps| ==> rows[i] == CsvRow(ps[i])
  {
    if ps == [] then [] else [CsvRow(ps[0])] + CsvRows(ps[1..])
  }

  function CsvLines(ps: seq<Purchase>): seq<string> {
    [CsvHeader()] + CsvRows(ps)
  }

  /** `csvContent`: the header and one row per shown purchase, joined by
      line breaks. */
  function CsvReport(ps: seq<Purchase>): (csv: string)
    ensures CsvHeader() <= csv
  {
    Join(CsvLines(ps), '\n')
  }

  /** No text of the purchase holds `c`. */
  predicate FreeOf(p: Purchase, c: char) {
    && c !in p.item && c !in p.category && c !in p.cost && c !in p.date && c !in p.vendor
    && c !in p.status && c !in p.priority && c !in p.description
  }

  lemma CellsFreeOf(p: Purchase, c: char)
    requires FreeOf(p, c) && (c == ',' || c == '\n')
    ensures forall i :: 0 <= i < |CsvCells(p)| ==> c !in CsvCells(p)[i]
  {
  }

  lemma RowFreeOfNewline(p: Purchase)
    requires FreeOf(p, '\n')
    ensures '\n' !in CsvRow(p)
  {
    CellsFreeOf(p, '\n');
    JoinAbsent(CsvCells(p), ',', '\n');
  }

  /** The header names the nine columns. */
  lemma HeaderColumns()
    ensures Split(CsvHeader(), ',') == CsvColumns
  {
    SplitJoin(CsvColumns, ',');
  }

  lemma HeaderFreeOfNewline()
    ensures '\n' !in CsvHeader()
  {
    var cols := CsvColumns;
    assert '\n' !in cols[0] && '\n' !in cols[1] && '\n' !in cols[2];
    assert '\n' !in cols[3] && '\n' !in cols[4] && '\n' !in cols[5];
    assert '\n' !in cols[6] && '\n' !in cols[7] && '\n' !in cols[8];
    JoinAbsent(cols, ',', '\n');
  }

  lemma LinesFreeOfNewline(ps: seq<Purchase>)
    requires forall i :: 0 <= i < |ps| ==> FreeOf(ps[i], '\n')
    ensures forall j :: 0 <= j < |CsvLines(ps)| ==> '\n' !in CsvLines(ps)[j]
  {
    var lines, rows := CsvLines(ps), CsvRows(ps);
    HeaderFreeOfNewline();
    forall i | 0 <= i < |rows| ensures '\n' !in rows[i] {
      RowFreeOfNewline(ps[i]);
    }
  }

  /** When no shown purchase has a line break in its text, the report reads
      back as exactly 1 + n lines: the header, then each row in order. */
  lemma {:induction false} CsvReportLines(ps: seq<Purchase>)
    requires forall i :: 0 <= i < |ps| ==> FreeOf(ps[i], '\n')
    ensures Split(CsvReport(ps), '\n') == CsvLines(ps)
    ensures |Split(CsvReport(ps), '\n')| == 1 + |ps|
    ensures Occurrences(CsvReport(ps), '\n') == |ps|
  {
    LinesFreeOfNewline(ps);
    SplitJoin(CsvLines(ps), '\n');
    JoinSeparatorCount(CsvLines(ps), '\n');
  }

  /** When a purchase has no comma in its text, its row reads back as its
      nine cells; the quantity cell parses back to the quantity. */
  lemma {:induction false} CsvRowCells(p: Purchase)
    requires FreeOf(p, ',')
    ensures Split(CsvRow(p), ',') == CsvCells(p)
    ensures |Split(CsvRow(p), ',')| == 9
    ensures p.quantity.Int? ==> ParseInt(Split(CsvRow(p), ',')[2]) == p.quantity
  {
    CellsFreeOf(p, ',');
    SplitJoin(CsvCells(p), ',');
    if p.quantity.Int? {
      ParseIntNumberToString(p.quantity.value);
    }
  }

  // ---------------------------------------------------------------------
  // Component state

  class Register {
    var purchases: seq<Purchase>
    var newPurchase: PurchaseForm
    var showNewPurchaseModal: bool
    var searchTerm: string
    var selectedCategory: string

    /** The state after the loading delay, holding the sample register. */
    constructor (initial: seq<Purchase>)
      ensures purchases == initial && newPurchase == EmptyPurchaseForm
      ensures !showNewPurchaseModal && searchTerm == "" && selectedCategory == "all"
    {
      purchases := initial;
      newPurchase := EmptyPurchaseForm;
      showNewPurchaseModal := false;
      searchTerm := "";
      selectedCategory := "all";
    }

    /** `handleAddNewPurchase`, returning the text of the alert it raises. */
    method HandleAddNewPurchase(today: string) returns (alert: string)
      modifies this
      ensures MissingRequired(old(newPurchase)) ==>
        && alert == RequiredFieldsAlert && purchases == old(purchases)
        && newPurchase == old(newPurchase) && showNewPurchaseModal == old(showNewPurchaseModal)
      ensures !MissingRequired(old(newPurchase)) ==>
        && alert == AddedAlert
        && purchases == old(purchases) + [NewPurchase(old(newPurchase), |old(purchases)| + 1, today)]
        && newPurchase == EmptyPurchaseForm && !showNewPurchaseModal
      ensures SequentialIds(old(purchases)) ==> SequentialIds(purchases)
      ensures searchTerm == old(searchTerm) && selectedCategory == old(selectedCategory)
    {
      if MissingRequired(newPurchase) {
        return RequiredFieldsAlert;
      }
      if SequentialIds(purchases) {
        AddKeepsSequentialIds(purchases, newPurchase, today);
      }
      purchases := purchases + [NewPurchase(newPurchase, |purchases| + 1, today)];
      newPurchase := EmptyPurchaseForm;
      showNewPurchaseModal := false;
      return AddedAlert;
    }

    /** `handleInputChange`. */
    method HandleInputChange(field: PurchaseField, value: string)
      modifies this
      ensures newPurchase == WithField(old(newPurchase), field, value)
      ensures purchases == old(purchases) && showNewPurchaseModal == old(showNewPurchaseModal)
      ensures searchTerm == old(searchTerm) && selectedCategory == old(selectedCategory)
    {
      newPurchase := WithField(newPurchase, field, value);
    }

    /** The rows on screen and in the report. */
    function Shown(): seq<Purchase>
      reads this
    {
      FilteredPurchases(purchases, searchTerm, selectedCategory)
    }

    /** The text `generateCSVReport` downloads: the report of the rows on
        screen, one line per shown row after the header when no text holds
        a line break. */
    method GenerateCsvReport() returns (csv: string)
      ensures csv == CsvReport(Shown())
      ensures (forall i :: 0 <= i < |Shown()| ==> FreeOf(Shown()[i], '\n')) ==>
        |Split(csv, '\n')| == 1 + |Shown()| && Split(csv, '\n')[1..] == CsvRows(Shown())
    {
      var shown := FilteredPurchases(purchases, searchTerm, selectedCategory);
      csv := CsvReport(shown);
      if forall i :: 0 <= i < |shown| ==> FreeOf(shown[i], '\n') {
        CsvReportLines(shown);
        assert CsvLines(shown)[1..] == CsvRows(shown);
      }
    }
  }
}
