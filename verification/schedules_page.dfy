/** The schedule navigation of pages/SchedulesPage.tsx: which entries of
    the fixed navigation list are shown for an entity, which view a link
    opens, and the finalise/edit switch. */
module SchedulesPage {
  import opened Wrappers
  import Seqs

  datatype EntityType = Company | Llp | NonCorporate

  /** A navigation entry: a section header, or a link to a schedule view,
      possibly tied to a selectable note. */
  datatype NavItem =
    | Header(name: string)
    | Link(id: string, name: string, noteId: Option<string>)

  /** A note the user may switch on or off; the other fields of a note
      selection play no part here. */
  datatype NoteSelection = NoteSelection(id: string, isSelected: bool)

  /** The navigation list as the page declares it (lines 219-281). */
  const AllScheduleNav: seq<NavItem> := [
    Link("entityInfo", "Entity Info", None),
    Link("accountingPolicies", "Accounting Policies", None),
    Header("Equity & Liabilities"),
    Link("shareCapital", "Share Capital", Some("companyShareCap")),
    Link("otherEquity", "Other Equity", Some("companyOtherEquity")),
    Link("partnersFunds", "Partners'/Owners' Funds", Some("partnersFunds")),
    Link("borrowings", "Borrowings", Some("borrowings")),
    Link("otherLongTermLiabilities", "Other Long-Term Liabilities", Some("otherLongTermLiabilities")),
    Link("provisions", "Provisions (AS 29)", Some("provisions")),
    Link("tradePayables", "Trade Payables", Some("tradePayables")),
    Link("otherCurrentLiabilities", "Other Current Liabilities", Some("otherCurrentLiabilities")),
    Link("msme", "MSME Disclosures", None),
    Link("deferredTax", "Deferred Tax", Some("deferredTax")),
    Header("Assets"),
    Link("ppe", "Property, Plant & Equipment", Some("ppe")),
    Link("cwip", "Capital WIP", Some("cwip")),
    Link("intangible", "Intangible Assets", Some("intangible")),
    Link("intangibleDev", "Intangible Assets - Dev.", None),
    Link("investments", "Non-Current Investments", Some("investments")),
    Link("longTermLoans", "Long-Term Loans & Advances", Some("longTermLoans")),
    Link("longTermReceivables", "Long-Term Trade Receivables", None),
    Link("otherNonCurrentAssets", "Other Non-Current Assets", Some("otherNonCurrentAssets")),
    Link("currentInvestments", "Current Investments", Some("currentInvestments")),
    Link("inventories", "Inventories", Some("inventories")),
    Link("tradeReceivables", "Trade Receivables", Some("tradeReceivables")),
    Link("shortTermLoans", "Short-Term Loans & Advances", Some("shortTermLoans")),
    Link("cash", "Cash & Cash Equivalents", Some("cash")),
    Link("otherCurrentAssets", "Other Current Assets", Some("otherCurrentAssets")),
    Header("Profit & Loss Statement"),
    Link("revenue", "Revenue from Operations", Some("revenue")),
    Link("otherIncome", "Other Income", Some("otherIncome")),
    Link("cogs", "Cost of Materials", Some("cogs")),
    Link("purchases", "Purchases of Stock-in-Trade", Some("purchases")),
    Link("changesInInv", "Changes in Inventories", Some("changesInInv")),
    Link("employee", "Employee Benefits", Some("employee")),
    Link("finance", "Finance Costs", Some("finance")),
    Link("otherExpenses", "Other Expenses", Some("otherExpenses")),
    Link("exceptional", "Exceptional & Prior Items", Some("exceptionalItems")),
    Link("tax", "Tax Expense", Some("tax")),
    Header("Other Disclosures"),
    Link("eps", "Earnings Per Share", Some("eps")),
    Link("relatedParties", "Related Parties", Some("relatedParties")),
    Link("contingent", "Contingent Liabilities", Some("contingent")),
    Link("commitments", "Commitments", Some("commitments")),
    Link("auditor", "Auditor Payments", Some("auditor")),
    Link("forex", "Foreign Exchange", Some("forex")),
    Link("regulatory", "Additional Reg. Info", Some("regulatory")),
    Link("ratioExplanations", "Ratio Explanations", None),
    Link("construction", "Construction Contracts (AS 7)", Some("construction")),
    Link("govtGrants", "Government Grants (AS 12)", Some("govtGrants")),
    Link("amalgamations", "Amalgamations (AS 14)", Some("amalgamations")),
    Link("segmentReporting", "Segment Reporting (AS 17)", Some("segmentReporting")),
    Link("leases", "Leases (AS 19)", Some("leases")),
    Link("discontinuingOps", "Discontinuing Operations (AS 24)", Some("discontinuingOps")),
    Link("eventsAfterBS", "Events After B/S Date", Some("eventsAfterBS"))
  ]

  /** The entries for the equity of a company, hidden for other entities. */
  predicate CompanyOnly(id: string) {
    id == "shareCapital" || id == "otherEquity"
  }

  /** The note selection a link is tied to: the first selection with the
      note's id (`noteSelections.find`). */
  function SelectionFor(sels: seq<NoteSelection>, noteId: string): (r: Option<NoteSelection>)
    ensures r.Some? ==> r.value in sels && r.value.id == noteId
    ensures r.Some? ==> exists k :: 0 <= k < |sels| && sels[k] == r.value
                          && forall j :: 0 <= j < k ==> sels[j].id != noteId
    ensures r.None? <==> forall i :: 0 <= i < |sels| ==> sels[i].id != noteId
  {
    match Seqs.Find(sels, (n: NoteSelection) => n.id == noteId)
    case None => None
    case Some(k) => Some(sels[k])
  }

  /** The filter of lines 286-304. Headers always show. The funds link
      shows for LLPs and non-corporate entities only, share capital and
      other equity for companies only. Any other link tied to a note (an
      empty note id counts as none) shows unless the note is known and
      switched off. */
  predicate Visible(item: NavItem, et: EntityType, sels: seq<NoteSelection>) {
    match item
    case Header(_) => true
    case Link(id, _, noteId) =>
      if id == "partnersFunds" then et == Llp || et == NonCorporate
      else if CompanyOnly(id) then et == Company
      else if noteId.Some? && noteId.value != "" then
        var sel := SelectionFor(sels, noteId.value);
        sel.None? || sel.value.isSelected
      else true
  }

  function Shown(et: EntityType, sels: seq<NoteSelection>): NavItem -> bool {
    (item: NavItem) => Visible(item, et, sels)
  }

  /** `scheduleNav`: the visible entries in their original order. */
  function ScheduleNav(nav: seq<NavItem>, et: EntityType, sels: seq<NoteSelection>): (r: seq<NavItem>)
    ensures forall item :: item in r <==> item in nav && Visible(item, et, sels)
  {
    Seqs.Filter(nav, Shown(et, sels))
  }

  /** The page's own list, filtered. */
  function PageNav(et: EntityType, sels: seq<NoteSelection>): seq<NavItem> {
    ScheduleNav(AllScheduleNav, et, sels)
  }

  /** Every header of the list shows. */
  lemma HeadersKept(nav: seq<NavItem>, et: EntityType, sels: seq<NoteSelection>, name: string)
    requires Header(name) in nav
    ensures Header(name) in ScheduleNav(nav, et, sels)
  {
  }

  /** The filter keeps relative order: filtering a list in two parts is
      filtering each part. */
  lemma NavOrder(a: seq<NavItem>, b: seq<NavItem>, et: EntityType, sels: seq<NoteSelection>)
    ensures ScheduleNav(a + b, et, sels) == ScheduleNav(a, et, sels) + ScheduleNav(b, et, sels)
  {
    Seqs.FilterConcat(a, b, Shown(et, sels));
  }

  /** A link tied to no note (or to an empty note id) that is neither the
      funds link nor a company-only entry always shows. */
  lemma PlainLinkShown(nav: seq<NavItem>, et: EntityType, sels: seq<NoteSelection>, id: string, name: string,
                       noteId: Option<string>)
    requires Link(id, name, noteId) in nav
    requires id != "partnersFunds" && !CompanyOnly(id) && (noteId.None? || noteId.value == "")
    ensures Link(id, name, noteId) in ScheduleNav(nav, et, sels)
  {
  }

  /** On the page's own list, the last link (events after the balance
      sheet date) shows exactly when its note is unknown or the first
      selection for it is switched on. */
  lemma PageLastLinkShown(et: EntityType, sels: seq<NoteSelection>)
    ensures Link("eventsAfterBS", "Events After B/S Date", Some("eventsAfterBS")) in PageNav(et, sels) <==>
      (forall i :: 0 <= i < |sels| ==> sels[i].id != "eventsAfterBS")
      || exists k :: 0 <= k < |sels| && sels[k].id == "eventsAfterBS" && sels[k].isSelected
                     && forall j :: 0 <= j < k ==> sels[j].id != "eventsAfterBS"
  {
    assert AllScheduleNav[|AllScheduleNav| - 1] == Link("eventsAfterBS", "Events After B/S Date", Some("eventsAfterBS"));
    NoteLinkShown(AllScheduleNav, et, sels, "eventsAfterBS", "Events After B/S Date", "eventsAfterBS");
  }

  /** The funds link shows exactly for LLPs and non-corporate entities,
      whatever the note selections say. */
  lemma FundsLinkShown(nav: seq<NavItem>, et: EntityType, sels: seq<NoteSelection>, name: string, noteId: Option<string>)
    requires Link("partnersFunds", name, noteId) in nav
    ensures Link("partnersFunds", name, noteId) in ScheduleNav(nav, et, sels) <==> et != Company
  {
  }

  /** Share capital and other equity show exactly for companies. */
  lemma CompanyLinksShown(nav: seq<NavItem>, et: EntityType, sels: seq<NoteSelection>, id: string, name: string,
                          noteId: Option<string>)
    requires CompanyOnly(id) && Link(id, name, noteId) in nav
    ensures Link(id, name, noteId) in ScheduleNav(nav, et, sels) <==> et == Company
  {
    assert id != "partnersFunds" by {
      assert "partnersFunds"[0] == 'p';
      assert id[0] == 's' || id[0] == 'o';
    }
  }

  /** Any other link tied to a note shows exactly when no selection carries
      the note's id or the first one that does is switched on. */
  lemma NoteLinkShown(nav: seq<NavItem>, et: EntityType, sels: seq<NoteSelection>, id: string, name: string,
                      noteId: string)
    requires Link(id, name, Some(noteId)) in nav
    requires id != "partnersFunds" && !CompanyOnly(id) && noteId != ""
    ensures Link(id, name, Some(noteId)) in ScheduleNav(nav, et, sels) <==>
      (forall i :: 0 <= i < |sels| ==> sels[i].id != noteId)
      || exists k :: 0 <= k < |sels| && sels[k].id == noteId && sels[k].isSelected
                     && forall j :: 0 <= j < k ==> sels[j].id != noteId
  {
    var sel := SelectionFor(sels, noteId);
    if sel.Some? {
      var k :| 0 <= k < |sels| && sels[k] == sel.value;
    }
  }

  /** The view a link opens: the funds link opens the owners' view for a
      non-corporate entity (lines 330-333). */
  function ViewId(item: NavItem, et: EntityType): (r: string)
    requires item.Link?
    ensures r == "ownersFunds" <==> (item.id == "partnersFunds" && et == NonCorporate) || item.id == "ownersFunds"
    ensures r != "ownersFunds" ==> r == item.id
  {
    if item.id == "partnersFunds" && et == NonCorporate then "ownersFunds" else item.id
  }

  /** The schedules with their lock; the schedules themselves are opaque
      here. */
  datatype ScheduleData<T> = ScheduleData(schedules: T, isFinalized: bool)

  /** `handleFinalize` (lines 76-79). */
  function Finalize<T>(s: ScheduleData<T>): (r: ScheduleData<T>)
    ensures r.isFinalized && r.schedules == s.schedules
  {
    s.(isFinalized := true)
  }

  /** `handleEdit` (lines 81-83). */
  function Edit<T>(s: ScheduleData<T>): (r: ScheduleData<T>)
    ensures !r.isFinalized && r.schedules == s.schedules
  {
    s.(isFinalized := false)
  }

  /** Editing undoes finalising, and the other way round. */
  lemma FinalizeEditInverse<T>(s: ScheduleData<T>)
    ensures !s.isFinalized ==> Edit(Finalize(s)) == s
    ensures s.isFinalized ==> Finalize(Edit(s)) == s
  {
  }
}
