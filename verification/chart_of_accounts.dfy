/** The four-level chart of accounts of backend/src/types.ts: major heads,
    minor heads under them, groupings under minor heads and line items
    under groupings, each child naming its parent by code. */
module ChartOfAccounts {
  import opened Wrappers
  import Seqs

  datatype MajorHead = MajorHead(code: string, name: string)
  datatype MinorHead = MinorHead(code: string, name: string, majorHeadCode: string)
  datatype Grouping = Grouping(code: string, name: string, minorHeadCode: string)
  datatype LineItem = LineItem(code: string, name: string, groupingCode: string)

  datatype Masters = Masters(
    majorHeads: seq<MajorHead>,
    minorHeads: seq<MinorHead>,
    groupings: seq<Grouping>,
    lineItems: seq<LineItem>)

  /** The four codes a ledger is mapped to; the line item may be ''. */
  datatype Codes = Codes(majorHeadCode: string, minorHeadCode: string, groupingCode: string, lineItemCode: string)

  /** `masters.majorHeads.find(mh => mh.code === code)`: the first major
      head with the code. */
  function FindMajorHead(m: Masters, code: string): (r: Option<MajorHead>)
    ensures r.Some? ==> r.value in m.majorHeads && r.value.code == code
    ensures r.Some? ==> exists k :: 0 <= k < |m.majorHeads| && m.majorHeads[k] == r.value
                          && forall j :: 0 <= j < k ==> m.majorHeads[j].code != code
    ensures r.None? <==> forall i :: 0 <= i < |m.majorHeads| ==> m.majorHeads[i].code != code
  {
    match Seqs.Find(m.majorHeads, (h: MajorHead) => h.code == code)
    case None => None
    case Some(k) => Some(m.majorHeads[k])
  }

  /** `masters.minorHeads.find(mh => mh.code === code)`: the first minor
      head with the code. */
  function FindMinorHead(m: Masters, code: string): (r: Option<MinorHead>)
    ensures r.Some? ==> r.value in m.minorHeads && r.value.code == code
    ensures r.Some? ==> exists k :: 0 <= k < |m.minorHeads| && m.minorHeads[k] == r.value
                          && forall j :: 0 <= j < k ==> m.minorHeads[j].code != code
    ensures r.None? <==> forall i :: 0 <= i < |m.minorHeads| ==> m.minorHeads[i].code != code
  {
    match Seqs.Find(m.minorHeads, (h: MinorHead) => h.code == code)
    case None => None
    case Some(k) => Some(m.minorHeads[k])
  }

  /** `masters.groupings.find(g => g.code === code)`: the first grouping
      with the code. */
  function FindGrouping(m: Masters, code: string): (r: Option<Grouping>)
    ensures r.Some? ==> r.value in m.groupings && r.value.code == code
    ensures r.Some? ==> exists k :: 0 <= k < |m.groupings| && m.groupings[k] == r.value
                          && forall j :: 0 <= j < k ==> m.groupings[j].code != code
    ensures r.None? <==> forall i :: 0 <= i < |m.groupings| ==> m.groupings[i].code != code
  {
    match Seqs.Find(m.groupings, (g: Grouping) => g.code == code)
    case None => None
    case Some(k) => Some(m.groupings[k])
  }

  /** The minor heads under a major head, in master order. */
  function MinorHeadsOf(m: Masters, majorCode: string): (r: seq<MinorHead>)
    ensures forall i :: 0 <= i < |r| ==> r[i] in m.minorHeads && r[i].majorHeadCode == majorCode
    ensures forall h :: h in m.minorHeads && h.majorHeadCode == majorCode ==> h in r
    ensures forall k :: 0 <= k <= |m.minorHeads| ==>
              r == Seqs.Filter(m.minorHeads[..k], UnderMajor(majorCode)) + Seqs.Filter(m.minorHeads[k..], UnderMajor(majorCode))
  {
    Seqs.FilterSplit(m.minorHeads, UnderMajor(majorCode));
    Seqs.Filter(m.minorHeads, UnderMajor(majorCode))
  }

  /** The parent tests the three filters above use. */
  function UnderMajor(majorCode: string): MinorHead -> bool {
    (h: MinorHead) => h.majorHeadCode == majorCode
  }

  function UnderMinor(minorCode: string): Grouping -> bool {
    (g: Grouping) => g.minorHeadCode == minorCode
  }

  function UnderGrouping(groupingCode: string): LineItem -> bool {
    (l: LineItem) => l.groupingCode == groupingCode
  }

  /** The groupings under a minor head, in master order. */
  function GroupingsOf(m: Masters, minorCode: string): (r: seq<Grouping>)
    ensures forall i :: 0 <= i < |r| ==> r[i] in m.groupings && r[i].minorHeadCode == minorCode
    ensures forall g :: g in m.groupings && g.minorHeadCode == minorCode ==> g in r
    ensures forall k :: 0 <= k <= |m.groupings| ==>
              r == Seqs.Filter(m.groupings[..k], UnderMinor(minorCode)) + Seqs.Filter(m.groupings[k..], UnderMinor(minorCode))
    ensures |r| > 0 ==> exists k :: && 0 <= k < |m.groupings| && r[0] == m.groupings[k]
                                    && forall j :: 0 <= j < k ==> m.groupings[j].minorHeadCode != minorCode
  {
    var r := Seqs.Filter(m.groupings, UnderMinor(minorCode));
    Seqs.FilterSplit(m.groupings, UnderMinor(minorCode));
    if |r| > 0 then Seqs.FilterFirst(m.groupings, UnderMinor(minorCode)); r else r
  }

  /** The line items under a grouping, in master order. */
  function LineItemsOf(m: Masters, groupingCode: string): (r: seq<LineItem>)
    ensures forall i :: 0 <= i < |r| ==> r[i] in m.lineItems && r[i].groupingCode == groupingCode
    ensures forall l :: l in m.lineItems && l.groupingCode == groupingCode ==> l in r
    ensures forall k :: 0 <= k <= |m.lineItems| ==>
              r == Seqs.Filter(m.lineItems[..k], UnderGrouping(groupingCode)) + Seqs.Filter(m.lineItems[k..], UnderGrouping(groupingCode))
  {
    Seqs.FilterSplit(m.lineItems, UnderGrouping(groupingCode));
    Seqs.Filter(m.lineItems, UnderGrouping(groupingCode))
  }

  /** Every code names an entry of the masters and each level hangs under
      the one above it; the line item is either absent ('') or a line item
      of the grouping. */
  predicate Consistent(m: Masters, c: Codes) {
    && (exists h :: h in m.majorHeads && h.code == c.majorHeadCode)
    && (exists h :: h in m.minorHeads && h.code == c.minorHeadCode && h.majorHeadCode == c.majorHeadCode)
    && (exists g :: g in m.groupings && g.code == c.groupingCode && g.minorHeadCode == c.minorHeadCode)
    && (c.lineItemCode == "" ||
        exists l :: l in m.lineItems && l.code == c.lineItemCode && l.groupingCode == c.groupingCode)
  }
}
