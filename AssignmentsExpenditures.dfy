/**
 * The assignment and expenditure lists of
 * frontend/src/components/AssignmentsExpenditures.js: the role-scoped
 * filter pipeline that loads them, and the handlers that create, edit,
 * return, re-status and delete assignments and record expenditures.
 * The handlers edit the in-memory lists only; no asset quantity changes.
 */
module AssignmentsExpenditures {
  import opened Wrappers
  import opened JsText
  import opened Seqs
  import opened Users

  /** `asset_id` of an assignment: absent on preloaded records, the form's
      text on created ones, a number on edited ones. */
  datatype AssetRef = NoAssetId | AssetIdText(text: string) | AssetIdNumber(number: int)

  datatype Assignment = Assignment(
    id: int,
    assetId: AssetRef,
    assetName: string,
    assetCategory: string,
    personnelName: string,
    personnelRank: string,
    assignmentDate: string,
    expectedReturnDate: Option<string>,
    returnDate: string,
    actualReturnDate: Option<string>,
    purpose: string,
    notes: string,
    status: string,
    baseName: string,
    assignedBy: string)

  /** `cost_per_unit` is kept as the text typed into the form. */
  datatype Expenditure = Expenditure(
    id: int,
    assetId: string,
    assetName: string,
    category: string,
    quantityUsed: JsInt,
    expenditureDate: string,
    purpose: string,
    costPerUnit: string,
    notes: string,
    baseName: string,
    recordedBy: string)

  datatype Asset = Asset(id: int, name: string, category: string, baseId: string, quantity: int)

  datatype Filters = Filters(category: string, startDate: string, endDate: string, status: string)

  const NoFilters := Filters("", "", "", "")

  datatype FilterField = CategoryFilter | StartDateFilter | EndDateFilter | StatusFilter

  datatype AssignmentForm = AssignmentForm(
    assetId: string,
    personnelName: string,
    personnelRank: string,
    assignmentDate: string,
    returnDate: string,
    purpose: string,
    notes: string)

  datatype ExpenditureForm = ExpenditureForm(
    assetId: string,
    quantityUsed: string,
    expenditureDate: string,
    purpose: string,
    costPerUnit: string,
    notes: string)

  /** The assignment form as it is reset, dated `today`. */
  function EmptyAssignmentForm(today: string): AssignmentForm {
    AssignmentForm("", "", "", today, "", "", "")
  }

  function EmptyExpenditureForm(today: string): ExpenditureForm {
    ExpenditureForm("", "", today, "", "", "")
  }

  const RequiredFieldsMessage := "Please fill in all required fields"
  const AssetNotFoundMessage := "Selected asset not found"

  // ---------------------------------------------------------------------
  // Roles and scoping

  /** `canManageAssignments`. */
  predicate CanManageAssignments(role: string) {
    role == Admin || role == BaseCommander || role == LogisticsOfficer
  }

  /** `user?.base_name || 'Fort Alpha'`: the base a non-admin is scoped to. */
  function ScopeBase(user: User): (b: string)
    ensures b != ""
    ensures user.baseName != "" ==> b == user.baseName
    ensures user.baseName == "" ==> b == "Fort Alpha"
  {
    if user.baseName != "" then user.baseName else "Fort Alpha"
  }

  /** The base-scoping stage: admins see every base. */
  predicate InScope(user: User, baseName: string) {
    user.role == Admin || baseName == ScopeBase(user)
  }

  /** The category stage: a case-insensitive substring test. */
  predicate CategoryMatches(text: string, category: string) {
    Contains(ToLower(text), ToLower(category))
  }

  /** The date stages: inclusive bounds, compared as strings. */
  predicate InDateRange(date: string, filters: Filters) {
    && (filters.startDate == "" || StringLessEq(filters.startDate, date))
    && (filters.endDate == "" || StringLessEq(date, filters.endDate))
  }

  /** An assignment survives every stage of the pipeline. */
  predicate AssignmentVisible(user: User, filters: Filters, a: Assignment) {
    && InScope(user, a.baseName)
    && (filters.category == "" || CategoryMatches(a.assetName, filters.category))
    && (filters.status == "" || a.status == filters.status)
    && InDateRange(a.assignmentDate, filters)
  }

  /** An expenditure survives every stage; the status filter does not
      apply to expenditures. */
  predicate ExpenditureVisible(user: User, filters: Filters, e: Expenditure) {
    && InScope(user, e.baseName)
    && (filters.category == "" || CategoryMatches(e.category, filters.category))
    && InDateRange(e.expenditureDate, filters)
  }

  function AssignmentFilter(user: User, filters: Filters): Assignment -> bool {
    a => AssignmentVisible(user, filters, a)
  }

  function ExpenditureFilter(user: User, filters: Filters): Expenditure -> bool {
    e => ExpenditureVisible(user, filters, e)
  }

  /** The assignments `fetchData` stores: the records that pass every
      stage, in their original order. */
  function VisibleAssignments(user: User, filters: Filters, all: seq<Assignment>): (r: seq<Assignment>)
    ensures forall a :: a in r <==> a in all && AssignmentVisible(user, filters, a)
    ensures |r| <= |all|
  {
    FilterSpec(AssignmentFilter(user, filters), all);
    Filter(AssignmentFilter(user, filters), all)
  }

  /** The expenditures `fetchData` stores. */
  function VisibleExpenditures(user: User, filters: Filters, all: seq<Expenditure>): (r: seq<Expenditure>)
    ensures forall e :: e in r <==> e in all && ExpenditureVisible(user, filters, e)
    ensures |r| <= |all|
  {
    FilterSpec(ExpenditureFilter(user, filters), all);
    Filter(ExpenditureFilter(user, filters), all)
  }

  /** The assignment pipeline as `fetchData` runs it: the base scope, then
      the category, status, start-date and end-date filters, each only
      when set. */
  function AssignmentStages(user: User, filters: Filters): (stages: seq<Stage<Assignment>>)
    ensures |stages| == 5
  {
    [ Stage(user.role != Admin, (a: Assignment) => a.baseName == ScopeBase(user)),
      Stage(filters.category != "", (a: Assignment) => CategoryMatches(a.assetName, filters.category)),
      Stage(filters.status != "", (a: Assignment) => a.status == filters.status),
      Stage(filters.startDate != "", (a: Assignment) => StringLessEq(filters.startDate, a.assignmentDate)),
      Stage(filters.endDate != "", (a: Assignment) => StringLessEq(a.assignmentDate, filters.endDate)) ]
  }

  /** The expenditure pipeline: the same stages without the status one. */
  function ExpenditureStages(user: User, filters: Filters): (stages: seq<Stage<Expenditure>>)
    ensures |stages| == 4
  {
    [ Stage(user.role != Admin, (e: Expenditure) => e.baseName == ScopeBase(user)),
      Stage(filters.category != "", (e: Expenditure) => CategoryMatches(e.category, filters.category)),
      Stage(filters.startDate != "", (e: Expenditure) => StringLessEq(filters.startDate, e.expenditureDate)),
      Stage(filters.endDate != "", (e: Expenditure) => StringLessEq(e.expenditureDate, filters.endDate)) ]
  }

  /** Running every stage of the chain keeps exactly the visible records. */
  lemma AssignmentStagesAreVisibility(user: User, filters: Filters, all: seq<Assignment>)
    ensures Filter(StagesFilter(AssignmentStages(user, filters), 5), all) == VisibleAssignments(user, filters, all)
  {
    var sa := AssignmentStages(user, filters);
    forall i | 0 <= i < |all|
      ensures StagesFilter(sa, 5)(all[i]) == AssignmentFilter(user, filters)(all[i])
    {
      var a := all[i];
      assert PassesStages(sa, 5, a) <==>
        (sa[0].active ==> sa[0].keep(a)) && (sa[1].active ==> sa[1].keep(a)) && (sa[2].active ==> sa[2].keep(a))
        && (sa[3].active ==> sa[3].keep(a)) && (sa[4].active ==> sa[4].keep(a));
    }
    FilterCongruent(StagesFilter(sa, 5), AssignmentFilter(user, filters), all);
  }

  lemma ExpenditureStagesAreVisibility(user: User, filters: Filters, all: seq<Expenditure>)
    ensures Filter(StagesFilter(ExpenditureStages(user, filters), 4), all) == VisibleExpenditures(user, filters, all)
  {
    var se := ExpenditureStages(user, filters);
    forall i | 0 <= i < |all|
      ensures StagesFilter(se, 4)(all[i]) == ExpenditureFilter(user, filters)(all[i])
    {
      var e := all[i];
      assert PassesStages(se, 4, e) <==>
        (se[0].active ==> se[0].keep(e)) && (se[1].active ==> se[1].keep(e))
        && (se[2].active ==> se[2].keep(e)) && (se[3].active ==> se[3].keep(e));
    }
    FilterCongruent(StagesFilter(se, 4), ExpenditureFilter(user, filters), all);
  }

  /** A non-admin sees only records of their own base (or of 'Fort Alpha'
      when they have none); both lists keep the original order. */
  lemma NonAdminSeesOwnBase(user: User, filters: Filters, all: seq<Assignment>, allExp: seq<Expenditure>)
    requires user.role != Admin
    ensures forall a :: a in VisibleAssignments(user, filters, all) ==> a.baseName == ScopeBase(user)
    ensures forall e :: e in VisibleExpenditures(user, filters, allExp) ==> e.baseName == ScopeBase(user)
    ensures IsSubsequence(VisibleAssignments(user, filters, all), all)
    ensures IsSubsequence(VisibleExpenditures(user, filters, allExp), allExp)
  {
    FilterSpec(AssignmentFilter(user, filters), all);
    FilterSpec(ExpenditureFilter(user, filters), allExp);
  }

  /** The stages keep exactly the records that pass all of them. */
  lemma VisibleAssignmentsMembership(user: User, filters: Filters, all: seq<Assignment>, a: Assignment)
    ensures a in VisibleAssignments(user, filters, all) <==>
      && a in all
      && (user.role == Admin || a.baseName == ScopeBase(user))
      && (filters.category == "" || Contains(ToLower(a.assetName), ToLower(filters.category)))
      && (filters.status == "" || a.status == filters.status)
      && (filters.startDate == "" || StringLessEq(filters.startDate, a.assignmentDate))
      && (filters.endDate == "" || StringLessEq(a.assignmentDate, filters.endDate))
  {
    FilterSpec(AssignmentFilter(user, filters), all);
  }

  /** An admin with no filter set sees both lists unchanged. */
  lemma {:induction false} AdminWithoutFiltersSeesAll(user: User, all: seq<Assignment>, allExp: seq<Expenditure>)
    requires user.role == Admin
    ensures VisibleAssignments(user, NoFilters, all) == all
    ensures VisibleExpenditures(user, NoFilters, allExp) == allExp
  {
    FilterKeepsAll(AssignmentFilter(user, NoFilters), all);
    FilterKeepsAll(ExpenditureFilter(user, NoFilters), allExp);
  }

  /** A date range whose start lies after its end keeps nothing. */
  lemma {:induction false} InvertedDateRangeKeepsNothing(
    user: User, filters: Filters, all: seq<Assignment>, allExp: seq<Expenditure>)
    requires filters.startDate != "" && filters.endDate != ""
    requires !StringLessEq(filters.startDate, filters.endDate)
    ensures VisibleAssignments(user, filters, all) == []
    ensures VisibleExpenditures(user, filters, allExp) == []
  {
    forall d ensures !InDateRange(d, filters) {
      if InDateRange(d, filters) {
        StringLessEqTransitive(filters.startDate, d, filters.endDate);
      }
    }
    FilterKeepsNone(AssignmentFilter(user, filters), all);
    FilterKeepsNone(ExpenditureFilter(user, filters), allExp);
  }

  /** A range whose start and end are the same date keeps only records of
      that date. */
  lemma SingleDayRangeKeepsThatDay(user: User, filters: Filters, all: seq<Assignment>, allExp: seq<Expenditure>)
    requires filters.startDate != "" && filters.endDate == filters.startDate
    ensures forall a :: a in VisibleAssignments(user, filters, all) ==> a.assignmentDate == filters.startDate
    ensures forall e :: e in VisibleExpenditures(user, filters, allExp) ==> e.expenditureDate == filters.startDate
  {
    forall a | a in VisibleAssignments(user, filters, all) ensures a.assignmentDate == filters.startDate {
      StringLessEqAntisymmetric(a.assignmentDate, filters.startDate);
    }
    forall e | e in VisibleExpenditures(user, filters, allExp) ensures e.expenditureDate == filters.startDate {
      StringLessEqAntisymmetric(e.expenditureDate, filters.startDate);
    }
  }

  /** Splitting at any date loses no record: with no date filter set, each
      visible assignment is kept by the range up to that date or by the
      range from it. */
  lemma SplitAtDateLosesNothing(user: User, filters: Filters, all: seq<Assignment>, d: string)
    requires d != "" && filters.startDate == "" && filters.endDate == ""
    ensures forall a :: a in VisibleAssignments(user, filters, all) ==>
      a in VisibleAssignments(user, filters.(endDate := d), all)
      || a in VisibleAssignments(user, filters.(startDate := d), all)
  {
    forall a | a in VisibleAssignments(user, filters, all)
      ensures a in VisibleAssignments(user, filters.(endDate := d), all)
        || a in VisibleAssignments(user, filters.(startDate := d), all)
    {
      StringLessEqTotal(a.assignmentDate, d);
    }
  }

  /** The status filter never removes an expenditure. */
  lemma StatusFilterSparesExpenditures(user: User, filters: Filters, allExp: seq<Expenditure>)
    ensures VisibleExpenditures(user, filters, allExp) == VisibleExpenditures(user, filters.(status := ""), allExp)
  {
    FilterCongruent(ExpenditureFilter(user, filters), ExpenditureFilter(user, filters.(status := "")), allExp);
  }

  /** The assets the pickers offer: those with a positive quantity. */
  function AvailableAssets(assets: seq<Asset>): (r: seq<Asset>)
    ensures forall x :: x in r <==> x in assets && x.quantity > 0
    ensures IsSubsequence(r, assets)
  {
    FilterSpec((x: Asset) => x.quantity > 0, assets);
    Filter((x: Asset) => x.quantity > 0, assets)
  }

  // ---------------------------------------------------------------------
  // Record building

  /** `assets.find(asset => asset.id === n)`: the first asset with that id;
      NaN matches nothing. */
  function FindAsset(assets: seq<Asset>, n: JsInt): (r: Option<Asset>)
    ensures r.None? <==> forall i :: 0 <= i < |assets| ==> Int(assets[i].id) != n
    ensures r.Some? ==> exists i :: (0 <= i < |assets| && assets[i] == r.value
      && Int(r.value.id) == n && forall j :: 0 <= j < i ==> Int(assets[j].id) != n)
  {
    if assets == [] then None
    else if Int(assets[0].id) == n then Some(assets[0])
    else
      var r := FindAsset(assets[1..], n);
      if r.Some? then
        var i :| 0 <= i < |assets[1..]| && assets[1..][i] == r.value
          && Int(r.value.id) == n && forall j :: 0 <= j < i ==> Int(assets[1..][j].id) != n;
        assert assets[i + 1] == r.value;
        r
      else
        r
  }

  /** The record `handleAssignmentSubmit` prepends when creating. */
  function CreatedAssignment(f: AssignmentForm, asset: Asset, id: int, user: User): Assignment {
    Assignment(
      id := id,
      assetId := AssetIdText(f.assetId),
      assetName := asset.name,
      assetCategory := asset.category,
      personnelName := f.personnelName,
      personnelRank := if f.personnelRank != "" then f.personnelRank else "Not specified",
      assignmentDate := f.assignmentDate,
      expectedReturnDate := None,
      returnDate := if f.returnDate != "" then f.returnDate else "Not specified",
      actualReturnDate := None,
      purpose := if f.purpose != "" then f.purpose else "Not specified",
      notes := f.notes,
      status := "Active",
      baseName := if user.baseName != "" then user.baseName else "Base Alpha",
      assignedBy := if user.username != "" then user.username else "System")
  }

  /** The record that replaces the edited one: the snapshot taken when
      editing began, with the form's fields laid over it. */
  function EditedAssignment(editing: Assignment, f: AssignmentForm, asset: Asset): Assignment {
    editing.(
      assetId := AssetIdNumber(asset.id),
      assetName := asset.name,
      assetCategory := asset.category,
      personnelName := f.personnelName,
      personnelRank := f.personnelRank,
      assignmentDate := f.assignmentDate,
      expectedReturnDate := if f.returnDate != "" then Some(f.returnDate) else None,
      returnDate := if f.returnDate != "" then f.returnDate else "Not specified",
      purpose := if f.purpose != "" then f.purpose else "Not specified",
      notes := f.notes)
  }

  /** An edit keeps the id, the status, the base and the author of the
      snapshot, and stores the asset's numeric id. */
  lemma EditKeepsIdentity(editing: Assignment, f: AssignmentForm, asset: Asset)
    ensures var r := EditedAssignment(editing, f, asset);
      && r.id == editing.id && r.status == editing.status
      && r.baseName == editing.baseName && r.assignedBy == editing.assignedBy
      && r.actualReturnDate == editing.actualReturnDate
      && r.assetId == AssetIdNumber(asset.id)
  {
  }

  /** The record `handleExpenditureSubmit` prepends. */
  function RecordedExpenditure(f: ExpenditureForm, asset: Asset, id: int, user: User): Expenditure {
    Expenditure(
      id := id,
      assetId := f.assetId,
      assetName := asset.name,
      category := asset.category,
      quantityUsed := ParseInt(f.quantityUsed),
      expenditureDate := f.expenditureDate,
      purpose := if f.purpose != "" then f.purpose else "Not specified",
      costPerUnit := f.costPerUnit,
      notes := f.notes,
      baseName := if user.baseName != "" then user.baseName else "Base Alpha",
      recordedBy := if user.username != "" then user.username else "System")
  }

  /** A user without a base name is scoped to 'Fort Alpha' but creates
      records under 'Base Alpha': by the scope predicate, the records they
      create belong to a base outside their own scope. */
  lemma CreatedOutsideDefaultScope(f: AssignmentForm, g: ExpenditureForm, asset: Asset, id: int, user: User)
    requires user.role != Admin && user.baseName == ""
    ensures !InScope(user, CreatedAssignment(f, asset, id, user).baseName)
    ensures !InScope(user, RecordedExpenditure(g, asset, id, user).baseName)
  {
  }

  /** What a form submission does to its list: the error message it sets,
      or the new list. */
  datatype Outcome<T> = Rejected(message: string) | Accepted(records: seq<T>)

  /** `handleAssignmentSubmit` on the list: the required-field check, the
      asset lookup by `parseInt` of the chosen id, then the edit of every
      record carrying the edited id or a new record in front. */
  function SubmitAssignment(assignments: seq<Assignment>, editing: Option<Assignment>, f: AssignmentForm,
                            assets: seq<Asset>, newId: int, user: User): (o: Outcome<Assignment>)
    ensures o.Rejected? ==> o.message == RequiredFieldsMessage || o.message == AssetNotFoundMessage
    ensures o.Rejected? <==> f.assetId == "" || f.personnelName == "" || FindAsset(assets, ParseInt(f.assetId)).None?
    ensures o.Accepted? && editing.None? ==> |o.records| == |assignments| + 1
    ensures o.Accepted? && editing.Some? ==> |o.records| == |assignments|
  {
    if f.assetId == "" || f.personnelName == "" then Rejected(RequiredFieldsMessage)
    else match FindAsset(assets, ParseInt(f.assetId))
      case None => Rejected(AssetNotFoundMessage)
      case Some(asset) =>
        if editing.Some? then Accepted(ReplaceById(assignments, editing.value.id, EditedAssignment(editing.value, f, asset)))
        else Accepted([CreatedAssignment(f, asset, newId, user)] + assignments)
  }

  /** The submission is refused exactly when a required field is empty or
      no asset carries the chosen id; a creation puts one 'Active' record
      for that asset in front of the list, and an edit keeps the length and
      every record with another id. */
  lemma SubmitAssignmentSpec(assignments: seq<Assignment>, editing: Option<Assignment>, f: AssignmentForm,
                             assets: seq<Asset>, newId: int, user: User)
    ensures var o := SubmitAssignment(assignments, editing, f, assets, newId, user);
      && (o == Rejected(RequiredFieldsMessage) <==> f.assetId == "" || f.personnelName == "")
      && (o == Rejected(AssetNotFoundMessage) <==>
            f.assetId != "" && f.personnelName != ""
            && forall i :: 0 <= i < |assets| ==> Int(assets[i].id) != ParseInt(f.assetId))
      && (o.Accepted? && editing.None? ==>
            && |o.records| == |assignments| + 1 && o.records[1..] == assignments
            && o.records[0].id == newId && o.records[0].status == "Active"
            && o.records[0].personnelName == f.personnelName
            && exists i :: 0 <= i < |assets| && Int(assets[i].id) == ParseInt(f.assetId)
                 && o.records[0].assetName == assets[i].name)
      && (o.Accepted? && editing.Some? ==>
            && |o.records| == |assignments|
            && forall i :: 0 <= i < |assignments| && assignments[i].id != editing.value.id ==>
                 o.records[i] == assignments[i])
  {
    var o := SubmitAssignment(assignments, editing, f, assets, newId, user);
    if o.Accepted? && editing.None? {
      assert o.records[1..] == assignments;
    }
  }

  /** `handleExpenditureSubmit` on the list: the required-field check, the
      asset lookup, then a new record in front. */
  function SubmitExpenditure(expenditures: seq<Expenditure>, f: ExpenditureForm, assets: seq<Asset>,
                             newId: int, user: User): (o: Outcome<Expenditure>)
    ensures o.Rejected? ==> o.message == RequiredFieldsMessage || o.message == AssetNotFoundMessage
    ensures o.Rejected? <==> f.assetId == "" || f.quantityUsed == "" || FindAsset(assets, ParseInt(f.assetId)).None?
    ensures o.Accepted? ==> |o.records| == |expenditures| + 1
  {
    if f.assetId == "" || f.quantityUsed == "" then Rejected(RequiredFieldsMessage)
    else match FindAsset(assets, ParseInt(f.assetId))
      case None => Rejected(AssetNotFoundMessage)
      case Some(asset) => Accepted([RecordedExpenditure(f, asset, newId, user)] + expenditures)
  }

  /** The expenditure is refused exactly when the asset or the quantity is
      missing or no asset carries the chosen id; otherwise exactly one
      record is added, in front, with the parsed quantity. */
  lemma SubmitExpenditureSpec(expenditures: seq<Expenditure>, f: ExpenditureForm, assets: seq<Asset>,
                              newId: int, user: User)
    ensures var o := SubmitExpenditure(expenditures, f, assets, newId, user);
      && (o == Rejected(RequiredFieldsMessage) <==> f.assetId == "" || f.quantityUsed == "")
      && (o == Rejected(AssetNotFoundMessage) <==>
            f.assetId != "" && f.quantityUsed != ""
            && forall i :: 0 <= i < |assets| ==> Int(assets[i].id) != ParseInt(f.assetId))
      && (o.Accepted? ==>
            && |o.records| == |expenditures| + 1 && o.records[1..] == expenditures
            && o.records[0].id == newId && o.records[0].quantityUsed == ParseInt(f.quantityUsed)
            && exists i :: 0 <= i < |assets| && Int(assets[i].id) == ParseInt(f.assetId)
                 && o.records[0].category == assets[i].category)
  {
    var o := SubmitExpenditure(expenditures, f, assets, newId, user);
    if o.Accepted? {
      assert o.records[1..] == expenditures;
    }
  }

  // ---------------------------------------------------------------------
  // List edits

  /** `prev.map(a => a.id === id ? replacement : a)`. */
  function ReplaceById(s: seq<Assignment>, id: int, replacement: Assignment): (r: seq<Assignment>)
    ensures |r| == |s|
    ensures forall i :: 0 <= i < |s| ==> r[i] == if s[i].id == id then replacement else s[i]
  {
    seq(|s|, i requires 0 <= i < |s| => if s[i].id == id then replacement else s[i])
  }

  /** `handleReturnAsset`'s map. */
  function Returned(s: seq<Assignment>, id: int, date: string): (r: seq<Assignment>)
    ensures |r| == |s|
    ensures forall i :: 0 <= i < |s| ==>
      r[i] == if s[i].id == id then s[i].(status := "Returned", actualReturnDate := Some(date)) else s[i]
  {
    seq(|s|, i requires 0 <= i < |s| =>
      if s[i].id == id then s[i].(status := "Returned", actualReturnDate := Some(date)) else s[i])
  }

  /** `handleStatusUpdate`'s map: any status is accepted. */
  function WithStatus(s: seq<Assignment>, id: int, status: string): (r: seq<Assignment>)
    ensures |r| == |s|
    ensures forall i :: 0 <= i < |s| ==>
      r[i] == if s[i].id == id then s[i].(status := status) else s[i]
  {
    seq(|s|, i requires 0 <= i < |s| => if s[i].id == id then s[i].(status := status) else s[i])
  }

  predicate HasId(id: int, a: Assignment) {
    a.id == id
  }

  predicate LacksId(id: int, a: Assignment) {
    a.id != id
  }

  /** `handleDeleteAssignment`'s filter. */
  function Deleted(s: seq<Assignment>, id: int): (r: seq<Assignment>)
    ensures |r| <= |s|
    ensures forall a :: a in r ==> a in s && a.id != id
  {
    FilterSpec((a: Assignment) => LacksId(id, a), s);
    Filter((a: Assignment) => LacksId(id, a), s)
  }

  /** Delete removes every record with the id and nothing else, in order;
      the list shrinks by the number of such records. */
  lemma {:induction false} DeleteSpec(s: seq<Assignment>, id: int)
    ensures forall a :: a in Deleted(s, id) <==> a in s && a.id != id
    ensures IsSubsequence(Deleted(s, id), s)
    ensures |Deleted(s, id)| == |s| - Count((a: Assignment) => HasId(id, a), s)
  {
    FilterSpec((a: Assignment) => LacksId(id, a), s);
    CountComplement((a: Assignment) => HasId(id, a), (a: Assignment) => LacksId(id, a), s);
  }

  /** Deleting an id no record carries leaves the list as it was. */
  lemma {:induction false} DeleteAbsentIsIdentity(s: seq<Assignment>, id: int)
    requires forall i :: 0 <= i < |s| ==> s[i].id != id
    ensures Deleted(s, id) == s
  {
    FilterKeepsAll((a: Assignment) => LacksId(id, a), s);
  }

  /** Returning twice is returning once, and a return overrides any status
      update made before it. */
  lemma ReturnIdempotent(s: seq<Assignment>, id: int, date: string, status: string)
    ensures Returned(Returned(s, id, date), id, date) == Returned(s, id, date)
    ensures Returned(WithStatus(s, id, status), id, date) == Returned(s, id, date)
  {
  }

  /** The status handler itself checks no transition: applied after a
      return, it makes a 'Returned' record 'Active' again. (The page offers
      its status selector only for records that are not 'Returned'.) */
  lemma StatusUpdateAfterReturn(s: seq<Assignment>, id: int, date: string, i: int)
    requires 0 <= i < |s| && s[i].id == id
    ensures WithStatus(Returned(s, id, date), id, "Active")[i].status == "Active"
    ensures WithStatus(Returned(s, id, date), id, "Active")[i].actualReturnDate == Some(date)
  {
  }

  /** The assignment half of `fetchData`: the steps of
      `AssignmentStages` run in order, each only when its condition holds,
      and together they keep the visible records. */
  method FilteredAssignments(user: User, f: Filters, all: seq<Assignment>) returns (fa: seq<Assignment>)
    ensures fa == VisibleAssignments(user, f, all)
  {
    var stages := AssignmentStages(user, f);
    NoStagesKeepAll(stages, all);
    fa := all;
    fa := RunStage(stages, 0, all, fa);
    fa := RunStage(stages, 1, all, fa);
    fa := RunStage(stages, 2, all, fa);
    fa := RunStage(stages, 3, all, fa);
    fa := RunStage(stages, 4, all, fa);
    AssignmentStagesAreVisibility(user, f, all);
  }

  /** The expenditure half of `fetchData`, which has no status step. */
  method FilteredExpenditures(user: User, f: Filters, all: seq<Expenditure>) returns (fe: seq<Expenditure>)
    ensures fe == VisibleExpenditures(user, f, all)
  {
    var stages := ExpenditureStages(user, f);
    NoStagesKeepAll(stages, all);
    fe := all;
    fe := RunStage(stages, 0, all, fe);
    fe := RunStage(stages, 1, all, fe);
    fe := RunStage(stages, 2, all, fe);
    fe := RunStage(stages, 3, all, fe);
    ExpenditureStagesAreVisibility(user, f, all);
  }

  // ---------------------------------------------------------------------
  // Component state

  class Panel {
    var assignments: seq<Assignment>
    var expenditures: seq<Expenditure>
    var assets: seq<Asset>
    var error: Option<string>
    var filters: Filters
    var editing: Option<Assignment>
    var assignmentForm: AssignmentForm
    var expenditureForm: ExpenditureForm
    var showAssignmentForm: bool
    var showExpenditureForm: bool

    constructor (today: string)
      ensures assignments == [] && expenditures == [] && assets == []
      ensures error == None && filters == NoFilters && editing == None
      ensures assignmentForm == EmptyAssignmentForm(today)
      ensures expenditureForm == EmptyExpenditureForm(today)
      ensures !showAssignmentForm && !showExpenditureForm
    {
      assignments, expenditures, assets := [], [], [];
      error := None;
      filters := NoFilters;
      editing := None;
      assignmentForm := EmptyAssignmentForm(today);
      expenditureForm := EmptyExpenditureForm(today);
      showAssignmentForm, showExpenditureForm := false, false;
    }

    /** `fetchData`: the source records are scoped to the user's base, then
        narrowed by category, status, start date and end date in turn. */
    method FetchData(user: User, all: seq<Assignment>, allExp: seq<Expenditure>, allAssets: seq<Asset>)
      modifies this
      ensures assignments == VisibleAssignments(user, filters, all)
      ensures expenditures == VisibleExpenditures(user, filters, allExp)
      ensures assets == allAssets && error == None
      ensures filters == old(filters) && editing == old(editing)
      ensures assignmentForm == old(assignmentForm) && expenditureForm == old(expenditureForm)
      ensures showAssignmentForm == old(showAssignmentForm)
      ensures showExpenditureForm == old(showExpenditureForm)
    {
      assignments := FilteredAssignments(user, filters, all);
      expenditures := FilteredExpenditures(user, filters, allExp);
      assets := allAssets;
      error := None;
    }

    /** `handleFilterChange`. */
    method HandleFilterChange(field: FilterField, value: string)
      modifies this
      ensures filters == match field
        case CategoryFilter => old(filters).(category := value)
        case StartDateFilter => old(filters).(startDate := value)
        case EndDateFilter => old(filters).(endDate := value)
        case StatusFilter => old(filters).(status := value)
      ensures assignments == old(assignments) && expenditures == old(expenditures) && assets == old(assets)
      ensures error == old(error) && editing == old(editing)
      ensures assignmentForm == old(assignmentForm) && expenditureForm == old(expenditureForm)
      ensures showAssignmentForm == old(showAssignmentForm) && showExpenditureForm == old(showExpenditureForm)
    {
      match field
      case CategoryFilter => filters := filters.(category := value);
      case StartDateFilter => filters := filters.(startDate := value);
      case EndDateFilter => filters := filters.(endDate := value);
      case StatusFilter => filters := filters.(status := value);
    }

    /** A filter change as the user sees it: the effect that depends on
        `filters` runs `fetchData` again, so the lists are rebuilt from the
        sample records and every local create, edit, return or delete made
        before is lost. */
    method ChangeFilterAndReload(field: FilterField, value: string, user: User,
                                 all: seq<Assignment>, allExp: seq<Expenditure>, allAssets: seq<Asset>)
      modifies this
      ensures filters == match field
        case CategoryFilter => old(filters).(category := value)
        case StartDateFilter => old(filters).(startDate := value)
        case EndDateFilter => old(filters).(endDate := value)
        case StatusFilter => old(filters).(status := value)
      ensures assignments == VisibleAssignments(user, filters, all)
      ensures expenditures == VisibleExpenditures(user, filters, allExp)
      ensures forall a :: a in assignments ==> a in all
      ensures forall e :: e in expenditures ==> e in allExp
      ensures assets == allAssets && error == None && editing == old(editing)
      ensures assignmentForm == old(assignmentForm) && expenditureForm == old(expenditureForm)
      ensures showAssignmentForm == old(showAssignmentForm) && showExpenditureForm == old(showExpenditureForm)
    {
      HandleFilterChange(field, value);
      FetchData(user, all, allExp, allAssets);
      FilterSpec(AssignmentFilter(user, filters), all);
      FilterSpec(ExpenditureFilter(user, filters), allExp);
    }

    /** `handleEditAssignment`: loads the record into the form. Reading
        `asset_id.toString()` throws on a record without `asset_id`, which
        then changes nothing. */
    method HandleEditAssignment(a: Assignment) returns (ok: bool)
      modifies this
      ensures ok <==> !a.assetId.NoAssetId?
      ensures ok ==> (
        && editing == Some(a) && showAssignmentForm
        && assignmentForm == AssignmentForm(
             if a.assetId.AssetIdText? then a.assetId.text else NumberToString(Int(a.assetId.number)),
             a.personnelName, a.personnelRank, a.assignmentDate,
             if a.expectedReturnDate.Some? then a.expectedReturnDate.value else "",
             a.purpose, a.notes))
      ensures !ok ==> (
        && editing == old(editing) && showAssignmentForm == old(showAssignmentForm)
        && assignmentForm == old(assignmentForm))
      ensures assignments == old(assignments) && expenditures == old(expenditures) && assets == old(assets)
      ensures error == old(error) && filters == old(filters)
      ensures expenditureForm == old(expenditureForm) && showExpenditureForm == old(showExpenditureForm)
    {
      if a.assetId.NoAssetId? {
        return false;
      }
      var assetText := if a.assetId.AssetIdText? then a.assetId.text else NumberToString(Int(a.assetId.number));
      var returnDate := if a.expectedReturnDate.Some? then a.expectedReturnDate.value else "";
      assignmentForm := AssignmentForm(assetText, a.personnelName, a.personnelRank, a.assignmentDate,
        returnDate, a.purpose, a.notes);
      editing := Some(a);
      showAssignmentForm := true;
      return true;
    }

    /** `handleAssignmentSubmit`: a refusal sets the error and changes
        nothing else; an acceptance stores the new list, resets and closes
        the form and leaves edit mode. */
    method HandleAssignmentSubmit(user: User, newId: int, today: string)
      modifies this
      ensures match SubmitAssignment(old(assignments), old(editing), old(assignmentForm), assets, newId, user)
        case Rejected(message) =>
          && error == Some(message) && assignments == old(assignments)
          && assignmentForm == old(assignmentForm) && editing == old(editing)
          && showAssignmentForm == old(showAssignmentForm)
        case Accepted(records) =>
          && assignments == records && error == None
          && assignmentForm == EmptyAssignmentForm(today) && editing == None && !showAssignmentForm
      ensures expenditures == old(expenditures) && assets == old(assets) && filters == old(filters)
      ensures expenditureForm == old(expenditureForm) && showExpenditureForm == old(showExpenditureForm)
    {
      var f := assignmentForm;
      if f.assetId == "" || f.personnelName == "" {
        error := Some(RequiredFieldsMessage);
        return;
      }
      var found := FindAsset(assets, ParseInt(f.assetId));
      if found.None? {
        error := Some(AssetNotFoundMessage);
        return;
      }
      var asset := found.value;
      if editing.Some? {
        assignments := ReplaceById(assignments, editing.value.id, EditedAssignment(editing.value, f, asset));
      } else {
        assignments := [CreatedAssignment(f, asset, newId, user)] + assignments;
      }
      assignmentForm := EmptyAssignmentForm(today);
      editing := None;
      showAssignmentForm := false;
      error := None;
    }

    /** `handleDeleteAssignment`, after the confirmation dialog. */
    method HandleDeleteAssignment(id: int, confirmed: bool)
      modifies this
      ensures assignments == if confirmed then Deleted(old(assignments), id) else old(assignments)
      ensures expenditures == old(expenditures) && assets == old(assets) && filters == old(filters)
      ensures error == old(error) && editing == old(editing)
      ensures assignmentForm == old(assignmentForm) && expenditureForm == old(expenditureForm)
      ensures showAssignmentForm == old(showAssignmentForm) && showExpenditureForm == old(showExpenditureForm)
    {
      if confirmed {
        assignments := Deleted(assignments, id);
      }
    }

    /** `handleReturnAsset`, dated `today`. */
    method HandleReturnAsset(id: int, today: string)
      modifies this
      ensures assignments == Returned(old(assignments), id, today)
      ensures expenditures == old(expenditures) && assets == old(assets) && filters == old(filters)
      ensures error == old(error) && editing == old(editing)
      ensures assignmentForm == old(assignmentForm) && expenditureForm == old(expenditureForm)
      ensures showAssignmentForm == old(showAssignmentForm) && showExpenditureForm == old(showExpenditureForm)
    {
      assignments := Returned(assignments, id, today);
    }

    /** `handleStatusUpdate`. */
    method HandleStatusUpdate(id: int, newStatus: string)
      modifies this
      ensures assignments == WithStatus(old(assignments), id, newStatus)
      ensures expenditures == old(expenditures) && assets == old(assets) && filters == old(filters)
      ensures error == old(error) && editing == old(editing)
      ensures assignmentForm == old(assignmentForm) && expenditureForm == old(expenditureForm)
      ensures showAssignmentForm == old(showAssignmentForm) && showExpenditureForm == old(showExpenditureForm)
    {
      assignments := WithStatus(assignments, id, newStatus);
    }

    /** `handleExpenditureSubmit`: a refusal sets the error and changes
        nothing else; an acceptance stores the new list and resets and
        closes the form. */
    method HandleExpenditureSubmit(user: User, newId: int, today: string)
      modifies this
      ensures match SubmitExpenditure(old(expenditures), old(expenditureForm), assets, newId, user)
        case Rejected(message) =>
          && error == Some(message) && expenditures == old(expenditures)
          && expenditureForm == old(expenditureForm) && showExpenditureForm == old(showExpenditureForm)
        case Accepted(records) =>
          && expenditures == records && error == None
          && expenditureForm == EmptyExpenditureForm(today) && !showExpenditureForm
      ensures assignments == old(assignments) && assets == old(assets) && filters == old(filters)
      ensures editing == old(editing) && assignmentForm == old(assignmentForm)
      ensures showAssignmentForm == old(showAssignmentForm)
    {
      var f := expenditureForm;
      if f.assetId == "" || f.quantityUsed == "" {
        error := Some(RequiredFieldsMessage);
        return;
      }
      var found := FindAsset(assets, ParseInt(f.assetId));
      if found.None? {
        error := Some(AssetNotFoundMessage);
        return;
      }
      expenditures := [RecordedExpenditure(f, found.value, newId, user)] + expenditures;
      expenditureForm := EmptyExpenditureForm(today);
      showExpenditureForm := false;
      error := None;
    }
  }
}
