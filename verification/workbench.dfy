/** The ledger list and selection logic of components/MappingWorkbench.tsx:
    the split into unmapped and mapped ledgers, mapping and unmapping by
    id, the three selections, the effect that keeps a ledger selected, and
    which ledgers the mapping panel is shown. */
module Workbench {
  import opened Wrappers
  import opened ChartOfAccounts
  import Seqs

  /** A trial-balance ledger; the four codes are `null` until it is
      mapped. */
  datatype TrialBalanceItem = TrialBalanceItem(
    id: string,
    ledger: string,
    closingCy: real,
    closingPy: real,
    isMapped: bool,
    majorHeadCode: Option<string>,
    minorHeadCode: Option<string>,
    groupingCode: Option<string>,
    lineItemCode: Option<string>)

  predicate IsMapped(t: TrialBalanceItem) { t.isMapped }
  predicate IsUnmapped(t: TrialBalanceItem) { !t.isMapped }

  /** `unmappedLedgers` (line 29). */
  function Unmapped(tb: seq<TrialBalanceItem>): seq<TrialBalanceItem> {
    Seqs.Filter(tb, IsUnmapped)
  }

  /** `mappedLedgers` (line 30). */
  function Mapped(tb: seq<TrialBalanceItem>): seq<TrialBalanceItem> {
    Seqs.Filter(tb, IsMapped)
  }

  /** The two lists split the trial balance: every ledger is in exactly one
      of them, as often as in the trial balance, and each keeps the
      trial-balance order. */
  lemma Partition(tb: seq<TrialBalanceItem>)
    ensures |Unmapped(tb)| + |Mapped(tb)| == |tb|
    ensures multiset(Unmapped(tb)) + multiset(Mapped(tb)) == multiset(tb)
    ensures forall t :: t in Unmapped(tb) ==> !t.isMapped
    ensures forall t :: t in Mapped(tb) ==> t.isMapped
    ensures forall k :: 0 <= k <= |tb| ==>
              && Unmapped(tb) == Unmapped(tb[..k]) + Unmapped(tb[k..])
              && Mapped(tb) == Mapped(tb[..k]) + Mapped(tb[k..])
  {
    Seqs.FilterPartition(tb, IsUnmapped, IsMapped);
    forall k | 0 <= k <= |tb|
      ensures Unmapped(tb) == Unmapped(tb[..k]) + Unmapped(tb[k..])
      ensures Mapped(tb) == Mapped(tb[..k]) + Mapped(tb[k..])
    {
      assert tb[..k] + tb[k..] == tb;
      Seqs.FilterConcat(tb[..k], tb[k..], IsUnmapped);
      Seqs.FilterConcat(tb[..k], tb[k..], IsMapped);
    }
  }

  /** The ledger as `handleMapLedger` leaves it. */
  function WithMapping(t: TrialBalanceItem, c: Codes): TrialBalanceItem {
    t.(isMapped := true,
       majorHeadCode := Some(c.majorHeadCode), minorHeadCode := Some(c.minorHeadCode),
       groupingCode := Some(c.groupingCode), lineItemCode := Some(c.lineItemCode))
  }

  /** The ledger as `handleUnmapLedger` leaves it. */
  function WithoutMapping(t: TrialBalanceItem): TrialBalanceItem {
    t.(isMapped := false, majorHeadCode := None, minorHeadCode := None, groupingCode := None, lineItemCode := None)
  }

  /** `handleMapLedger` on the trial balance (lines 82-86): the ledgers
      whose id is listed become mapped to `c`; the others are left alone. */
  function MapLedgers(tb: seq<TrialBalanceItem>, ids: seq<string>, c: Codes): (r: seq<TrialBalanceItem>)
    ensures |r| == |tb|
    ensures forall i :: 0 <= i < |tb| && tb[i].id in ids ==>
              r[i].isMapped && r[i].id == tb[i].id && r[i].ledger == tb[i].ledger
              && r[i].closingCy == tb[i].closingCy && r[i].closingPy == tb[i].closingPy
              && r[i].groupingCode == Some(c.groupingCode) && r[i].lineItemCode == Some(c.lineItemCode)
              && r[i].majorHeadCode == Some(c.majorHeadCode) && r[i].minorHeadCode == Some(c.minorHeadCode)
    ensures forall i :: 0 <= i < |tb| && tb[i].id !in ids ==> r[i] == tb[i]
  {
    seq(|tb|, i requires 0 <= i < |tb| => if tb[i].id in ids then WithMapping(tb[i], c) else tb[i])
  }

  /** `handleUnmapLedger` on the trial balance (lines 93-100): the listed
      ledgers become unmapped with all four codes `null`; the others are
      left alone. */
  function UnmapLedgers(tb: seq<TrialBalanceItem>, ids: seq<string>): (r: seq<TrialBalanceItem>)
    ensures |r| == |tb|
    ensures forall i :: 0 <= i < |tb| && tb[i].id in ids ==>
              !r[i].isMapped && r[i].id == tb[i].id && r[i].ledger == tb[i].ledger
              && r[i].closingCy == tb[i].closingCy && r[i].closingPy == tb[i].closingPy
              && r[i].majorHeadCode.None? && r[i].minorHeadCode.None?
              && r[i].groupingCode.None? && r[i].lineItemCode.None?
    ensures forall i :: 0 <= i < |tb| && tb[i].id !in ids ==> r[i] == tb[i]
  {
    seq(|tb|, i requires 0 <= i < |tb| => if tb[i].id in ids then WithoutMapping(tb[i]) else tb[i])
  }

  /** Unmapping undoes any mapping of the same ledgers. */
  lemma UnmapAfterMap(tb: seq<TrialBalanceItem>, ids: seq<string>, c: Codes)
    ensures UnmapLedgers(MapLedgers(tb, ids, c), ids) == UnmapLedgers(tb, ids)
  {
  }

  /** Mapping is idempotent. */
  lemma MapTwice(tb: seq<TrialBalanceItem>, ids: seq<string>, c: Codes)
    ensures MapLedgers(MapLedgers(tb, ids, c), ids, c) == MapLedgers(tb, ids, c)
  {
  }

  predicate NotListed(ids: seq<string>, t: TrialBalanceItem) {
    t.id !in ids
  }

  /** After mapping, the unmapped list is the old one without the listed
      ledgers, in the same order. */
  lemma {:induction false} MapShrinksUnmapped(tb: seq<TrialBalanceItem>, ids: seq<string>, c: Codes)
    ensures Unmapped(MapLedgers(tb, ids, c)) == Seqs.Filter(Unmapped(tb), t => NotListed(ids, t))
  {
    if |tb| > 0 {
      var r := MapLedgers(tb, ids, c);
      assert r[1..] == MapLedgers(tb[1..], ids, c);
      MapShrinksUnmapped(tb[1..], ids, c);
    }
  }

  /** The three selections: the single ledger, the ticked unmapped ledgers
      and the ticked mapped ledgers. */
  datatype Selection = Selection(single: Option<string>, unmappedIds: set<string>, mappedIds: set<string>)

  const Cleared: Selection := Selection(None, {}, {})

  /** `handleSelectLedger`: one ledger, both tick sets cleared. */
  function SelectLedger(s: Selection, id: string): (r: Selection)
    ensures r.single == Some(id) && r.unmappedIds == {} && r.mappedIds == {}
  {
    Selection(Some(id), {}, {})
  }

  /** Flipping one id in a set. */
  function Toggle(ids: set<string>, id: string): (r: set<string>)
    ensures id in r <==> id !in ids
    ensures forall x :: x != id ==> (x in r <==> x in ids)
  {
    if id in ids then ids - {id} else ids + {id}
  }

  /** Toggling the same id twice restores the set. */
  lemma ToggleTwice(ids: set<string>, id: string)
    ensures Toggle(Toggle(ids, id), id) == ids
  {
  }

  /** `handleToggleSelection`: flips the id among the ticked unmapped
      ledgers and drops the single selection. */
  function ToggleUnmapped(s: Selection, id: string): (r: Selection)
    ensures r.single.None? && r.mappedIds == s.mappedIds
    ensures r.unmappedIds == Toggle(s.unmappedIds, id)
  {
    Selection(None, Toggle(s.unmappedIds, id), s.mappedIds)
  }

  /** `handleToggleMappedSelection`: the same on the ticked mapped ledgers. */
  function ToggleMapped(s: Selection, id: string): (r: Selection)
    ensures r.single.None? && r.unmappedIds == s.unmappedIds
    ensures r.mappedIds == Toggle(s.mappedIds, id)
  {
    Selection(None, s.unmappedIds, Toggle(s.mappedIds, id))
  }

  /** The ids of a list of ledgers, as a set. */
  function Ids(ls: seq<TrialBalanceItem>): (r: set<string>)
    ensures forall x :: x in r <==> exists i :: 0 <= i < |ls| && ls[i].id == x
  {
    set i | 0 <= i < |ls| :: ls[i].id
  }

  /** `handleSelectAll`: all unmapped ledgers ticked, or none; the other
      selections stay. */
  function SelectAll(s: Selection, tb: seq<TrialBalanceItem>, checked: bool): (r: Selection)
    ensures r.single == s.single && r.mappedIds == s.mappedIds
    ensures checked ==> forall x :: x in r.unmappedIds <==> exists t :: t in tb && !t.isMapped && t.id == x
    ensures !checked ==> r.unmappedIds == {}
  {
    Selection(s.single, if checked then Ids(Unmapped(tb)) else {}, s.mappedIds)
  }

  /** `handleSelectAllMapped`: all mapped ledgers ticked, or none. */
  function SelectAllMapped(s: Selection, tb: seq<TrialBalanceItem>, checked: bool): (r: Selection)
    ensures r.single == s.single && r.unmappedIds == s.unmappedIds
    ensures checked ==> forall x :: x in r.mappedIds <==> exists t :: t in tb && t.isMapped && t.id == x
    ensures !checked ==> r.mappedIds == {}
  {
    Selection(s.single, s.unmappedIds, if checked then Ids(Mapped(tb)) else {})
  }

  datatype Workbench = Workbench(tb: seq<TrialBalanceItem>, sel: Selection)

  /** `handleMapLedger`: maps the ledgers and clears every selection. */
  function HandleMap(w: Workbench, ids: seq<string>, c: Codes): (r: Workbench)
    ensures r.tb == MapLedgers(w.tb, ids, c)
    ensures r.sel == Cleared
  {
    Workbench(MapLedgers(w.tb, ids, c), Cleared)
  }

  /** `handleUnmapLedger`: unmaps the ledgers and clears the single
      selection and the mapped ticks, but keeps the unmapped ticks. */
  function HandleUnmap(w: Workbench, ids: seq<string>): (r: Workbench)
    ensures r.tb == UnmapLedgers(w.tb, ids)
    ensures r.sel.single.None? && r.sel.mappedIds == {} && r.sel.unmappedIds == w.sel.unmappedIds
  {
    Workbench(UnmapLedgers(w.tb, ids), Selection(None, w.sel.unmappedIds, {}))
  }

  predicate HasId(id: Option<string>, t: TrialBalanceItem) {
    id == Some(t.id)
  }

  /** The effect of lines 105-112: with nothing ticked, a single selection
      that is not an unmapped ledger moves to the first unmapped ledger, or
      to nothing when every ledger is mapped. */
  function AutoSelect(tb: seq<TrialBalanceItem>, s: Selection): (r: Selection)
    ensures r.unmappedIds == s.unmappedIds && r.mappedIds == s.mappedIds
    ensures s.unmappedIds != {} || s.mappedIds != {} ==> r == s
    ensures && s.unmappedIds == {} && s.mappedIds == {} && |Unmapped(tb)| > 0
            && !(exists t :: t in Unmapped(tb) && s.single == Some(t.id))
            ==> r.single == Some(Unmapped(tb)[0].id)
    ensures s.unmappedIds == {} && s.mappedIds == {} && |Unmapped(tb)| == 0 ==> r.single.None?
    ensures (exists t :: t in Unmapped(tb) && s.single == Some(t.id)) ==> r == s
  {
    var unmapped := Unmapped(tb);
    if |unmapped| > 0 && Seqs.Find(unmapped, t => HasId(s.single, t)).None? && s.unmappedIds == {} && s.mappedIds == {} then
      s.(single := Some(unmapped[0].id))
    else if |unmapped| == 0 && s.unmappedIds == {} && s.mappedIds == {} then
      s.(single := None)
    else s
  }

  /** Running the effect again changes nothing. */
  lemma AutoSelectIdempotent(tb: seq<TrialBalanceItem>, s: Selection)
    ensures AutoSelect(tb, AutoSelect(tb, s)) == AutoSelect(tb, s)
  {
  }

  /** `selectedLedgers` (lines 115-127): the single selection when there is
      one (an empty id counts as none), else the ticked unmapped ledgers,
      else the ticked mapped ledgers, else nothing; always in trial-balance
      order. */
  function SelectedLedgers(tb: seq<TrialBalanceItem>, s: Selection): (r: seq<TrialBalanceItem>)
    ensures forall i :: 0 <= i < |r| ==> r[i] in tb
    ensures s.single.Some? && s.single.value != "" ==>
              |r| <= 1 && forall i :: 0 <= i < |r| ==> r[i].id == s.single.value
    ensures s.single.Some? && s.single.value != "" && (exists t :: t in tb && t.id == s.single.value) ==> |r| == 1
    ensures s.single.Some? && s.single.value != "" && (exists t :: t in tb && t.id == s.single.value) ==>
              exists k :: && 0 <= k < |tb| && r == [tb[k]]
                          && forall j :: 0 <= j < k ==> tb[j].id != s.single.value
    ensures (s.single.None? || s.single.value == "") && s.unmappedIds != {} ==>
              forall t :: t in r <==> t in tb && t.id in s.unmappedIds
    ensures (s.single.None? || s.single.value == "") && s.unmappedIds != {} ==>
              forall k :: 0 <= k <= |tb| ==>
                r == Seqs.Filter(tb[..k], Ticked(s.unmappedIds)) + Seqs.Filter(tb[k..], Ticked(s.unmappedIds))
    ensures (s.single.None? || s.single.value == "") && s.unmappedIds == {} && s.mappedIds != {} ==>
              forall t :: t in r <==> t in tb && t.id in s.mappedIds
    ensures (s.single.None? || s.single.value == "") && s.unmappedIds == {} && s.mappedIds != {} ==>
              forall k :: 0 <= k <= |tb| ==>
                r == Seqs.Filter(tb[..k], Ticked(s.mappedIds)) + Seqs.Filter(tb[k..], Ticked(s.mappedIds))
    ensures (s.single.None? || s.single.value == "") && s.unmappedIds == {} && s.mappedIds == {} ==> r == []
  {
    if s.single.Some? && s.single.value != "" then
      match Seqs.Find(tb, t => HasId(s.single, t))
      case Some(k) => [tb[k]]
      case None => []
    else if s.unmappedIds != {} then
      Seqs.FilterSplit(tb, Ticked(s.unmappedIds));
      Seqs.Filter(tb, Ticked(s.unmappedIds))
    else if s.mappedIds != {} then
      Seqs.FilterSplit(tb, Ticked(s.mappedIds));
      Seqs.Filter(tb, Ticked(s.mappedIds))
    else []
  }

  /** The test `ids.has(l.id)` of a ticked list. */
  function Ticked(ids: set<string>): TrialBalanceItem -> bool {
    (t: TrialBalanceItem) => t.id in ids
  }
}
