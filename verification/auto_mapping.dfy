/** `autoMapLedger` and `batchAutoMapLedgers` in utils/autoMapping.ts: a
    three-step cascade that proposes a chart-of-accounts position for a
    ledger name, and its application to a list of ledgers. */
module AutoMapping {
  import opened Wrappers
  import opened ChartOfAccounts
  import Seqs
  import Keywords
  import FuzzyMatch

  /** Which step of the cascade produced a suggestion (stands in for the
      `reasoning` text). */
  datatype Strategy = GroupingMatch | MinorHeadMatch | KeywordMatch

  datatype Suggestion = Suggestion(codes: Codes, confidence: real, strategy: Strategy)

  const GroupingThreshold: real := 0.50
  const GroupingAccept: real := 0.60
  const LineItemThreshold: real := 0.55
  const MinorHeadThreshold: real := 0.50
  const MinorHeadAccept: real := 0.55
  const MinorHeadScale: real := 0.9
  const ChildGroupingThreshold: real := 0.50
  const KeywordThreshold: real := 0.40
  const KeywordScale: real := 0.8
  const DefaultMinConfidence: real := 0.55

  function GroupingName(g: Grouping): string { g.name }
  function MinorHeadName(h: MinorHead): string { h.name }
  function LineItemName(l: LineItem): string { l.name }

  /** Parent minor head and major head of a grouping, looked up by code;
      None when either link dangles. */
  function Ancestors(m: Masters, g: Grouping): (r: Option<(MajorHead, MinorHead)>)
    ensures r.Some? ==> r.value.0 in m.majorHeads && r.value.1 in m.minorHeads
    ensures r.Some? ==> r.value.1.code == g.minorHeadCode && r.value.0.code == r.value.1.majorHeadCode
    ensures r.Some? ==> && r.value.1 == FindMinorHead(m, g.minorHeadCode).value
                        && r.value.0 == FindMajorHead(m, r.value.1.majorHeadCode).value
    ensures r.None? <==>
      || (forall i :: 0 <= i < |m.minorHeads| ==> m.minorHeads[i].code != g.minorHeadCode)
      || FindMajorHead(m, FindMinorHead(m, g.minorHeadCode).value.majorHeadCode).None?
  {
    match FindMinorHead(m, g.minorHeadCode)
    case None => None
    case Some(minor) =>
      match FindMajorHead(m, minor.majorHeadCode)
      case None => None
      case Some(major) => Some((major, minor))
  }

  /** Lines 37-40 and 46: the best line item of the grouping at threshold
      0.55, or '' when it has none or none qualifies. */
  function LineItemFor(name: string, m: Masters, g: Grouping): (code: string)
    ensures code == "" || exists l :: l in m.lineItems && l.code == code && l.groupingCode == g.code
    ensures var lm := FuzzyMatch.FuzzyMatchLedger(name, LineItemsOf(m, g.code), LineItemName, LineItemThreshold);
      lm.Some? ==> code == lm.value.item.code
    ensures (forall l :: l in m.lineItems && l.groupingCode == g.code ==>
               FuzzyMatch.Similarity(name, l.name) < LineItemThreshold) ==> code == ""
  {
    var items := LineItemsOf(m, g.code);
    if |items| == 0 then ""
    else
      match FuzzyMatch.FuzzyMatchLedger(name, items, LineItemName, LineItemThreshold)
      case None => ""
      case Some(lm) => lm.item.code
  }

  /** The codes of a grouping placed under its ancestors, with the given
      line item; None when a parent link dangles. */
  function PlaceGrouping(m: Masters, g: Grouping, lineItem: string): (r: Option<Codes>)
    requires g in m.groupings
    requires lineItem == "" || exists l :: l in m.lineItems && l.code == lineItem && l.groupingCode == g.code
    ensures r.Some? ==> Consistent(m, r.value) && r.value.groupingCode == g.code && r.value.lineItemCode == lineItem
    ensures r.None? <==> Ancestors(m, g).None?
    ensures r.Some? ==> r.value == Codes(FindMinorHead(m, g.minorHeadCode).value.majorHeadCode,
                                         g.minorHeadCode, g.code, lineItem)
  {
    match Ancestors(m, g)
    case None => None
    case Some(parents) => Some(Codes(parents.0.code, parents.1.code, g.code, lineItem))
  }

  /** Step 1 (lines 28-52): the best grouping at threshold 0.50, kept when
      its confidence is at least 0.60 and both its ancestors exist. */
  function ByGrouping(name: string, m: Masters): (r: Option<Suggestion>)
    ensures r.Some? ==> Consistent(m, r.value.codes)
    ensures r.Some? ==> r.value.strategy == GroupingMatch
    ensures r.Some? ==> GroupingAccept <= r.value.confidence <= 1.0
    ensures var gm := FuzzyMatch.FuzzyMatchLedger(name, m.groupings, GroupingName, GroupingThreshold);
      r.Some? <==> gm.Some? && gm.value.confidence >= GroupingAccept && Ancestors(m, gm.value.item).Some?
    ensures var gm := FuzzyMatch.FuzzyMatchLedger(name, m.groupings, GroupingName, GroupingThreshold);
      r.Some? ==> && r.value.codes.groupingCode == gm.value.item.code
                  && r.value.codes.minorHeadCode == gm.value.item.minorHeadCode
                  && r.value.codes.majorHeadCode == FindMinorHead(m, gm.value.item.minorHeadCode).value.majorHeadCode
                  && r.value.codes.lineItemCode == LineItemFor(name, m, gm.value.item)
                  && r.value.confidence == gm.value.confidence
  {
    match FuzzyMatch.FuzzyMatchLedger(name, m.groupings, GroupingName, GroupingThreshold)
    case None => None
    case Some(gm) =>
      if gm.confidence < GroupingAccept then None
      else
        match PlaceGrouping(m, gm.item, LineItemFor(name, m, gm.item))
        case None => None
        case Some(codes) => Some(Suggestion(codes, gm.confidence, GroupingMatch))
  }

  /** Lines 63-68: the grouping chosen under a minor head, the best child at
      threshold 0.50 or else the first child; None when it has no child. */
  function ChildGrouping(name: string, m: Masters, minor: MinorHead): (r: Option<Grouping>)
    ensures r.Some? ==> r.value in m.groupings && r.value.minorHeadCode == minor.code
    ensures r.None? <==> forall g :: g in m.groupings ==> g.minorHeadCode != minor.code
    ensures r.Some? ==> FuzzyMatch.Similarity(name, r.value.name) >= ChildGroupingThreshold
                        || r.value == GroupingsOf(m, minor.code)[0]
    ensures r.Some? && (forall g :: g in m.groupings && g.minorHeadCode == minor.code ==>
                          FuzzyMatch.Similarity(name, g.name) < ChildGroupingThreshold)
            ==> r.value == GroupingsOf(m, minor.code)[0]
    ensures var cm := FuzzyMatch.FuzzyMatchLedger(name, GroupingsOf(m, minor.code), GroupingName, ChildGroupingThreshold);
      cm.Some? ==> r == Some(cm.value.item)
  {
    var children := GroupingsOf(m, minor.code);
    if |children| == 0 then None
    else
      match FuzzyMatch.FuzzyMatchLedger(name, children, GroupingName, ChildGroupingThreshold)
      case Some(cm) => Some(cm.item)
      case None => Some(children[0])
  }

  /** The codes of a minor head, its major head and the grouping chosen
      under it, without a line item; None when the major head is missing or
      no grouping was chosen. */
  function PlaceMinorHead(m: Masters, minor: MinorHead, child: Option<Grouping>): (r: Option<Codes>)
    requires minor in m.minorHeads
    requires child.Some? ==> child.value in m.groupings && child.value.minorHeadCode == minor.code
    ensures r.Some? ==> Consistent(m, r.value) && r.value.minorHeadCode == minor.code && r.value.lineItemCode == ""
    ensures r.None? <==> FindMajorHead(m, minor.majorHeadCode).None? || child.None?
    ensures r.Some? ==> r.value == Codes(minor.majorHeadCode, minor.code, child.value.code, "")
  {
    match FindMajorHead(m, minor.majorHeadCode)
    case None => None
    case Some(major) =>
      match child
      case None => None
      case Some(g) => Some(Codes(major.code, minor.code, g.code, ""))
  }

  /** Step 2 (lines 55-80): the best minor head at threshold 0.50, kept when
      its confidence is at least 0.55, its major head exists and it has
      groupings. No line item; confidence scaled by 0.9. */
  function ByMinorHead(name: string, m: Masters): (r: Option<Suggestion>)
    ensures r.Some? ==> Consistent(m, r.value.codes) && r.value.codes.lineItemCode == ""
    ensures r.Some? ==> r.value.strategy == MinorHeadMatch
    ensures r.Some? ==> MinorHeadAccept * MinorHeadScale <= r.value.confidence <= MinorHeadScale
    ensures var mm := FuzzyMatch.FuzzyMatchLedger(name, m.minorHeads, MinorHeadName, MinorHeadThreshold);
      r.Some? <==> && mm.Some? && mm.value.confidence >= MinorHeadAccept
                   && FindMajorHead(m, mm.value.item.majorHeadCode).Some?
                   && (exists g :: g in m.groupings && g.minorHeadCode == mm.value.item.code)
    ensures var mm := FuzzyMatch.FuzzyMatchLedger(name, m.minorHeads, MinorHeadName, MinorHeadThreshold);
      r.Some? ==> && r.value.codes.minorHeadCode == mm.value.item.code
                  && r.value.codes.majorHeadCode == mm.value.item.majorHeadCode
                  && ChildGrouping(name, m, mm.value.item).Some?
                  && r.value.codes.groupingCode == ChildGrouping(name, m, mm.value.item).value.code
                  && r.value.confidence == mm.value.confidence * MinorHeadScale
  {
    match FuzzyMatch.FuzzyMatchLedger(name, m.minorHeads, MinorHeadName, MinorHeadThreshold)
    case None => None
    case Some(mm) =>
      if mm.confidence < MinorHeadAccept then None
      else
        match PlaceMinorHead(m, mm.item, ChildGrouping(name, m, mm.item))
        case None => None
        case Some(codes) => Some(Suggestion(codes, mm.confidence * MinorHeadScale, MinorHeadMatch))
  }

  /** `keywords.some(k => gKeywords.includes(k))` on a grouping. */
  predicate KeywordRelated(name: string, g: Grouping) {
    FuzzyMatch.SharesTag(name, g.name)
  }

  /** Lines 85-88: the groupings sharing a tag with the name, in master
      order. */
  function RelatedGroupings(name: string, m: Masters): (r: seq<Grouping>)
    ensures forall i :: 0 <= i < |r| ==> r[i] in m.groupings && KeywordRelated(name, r[i])
    ensures forall g :: g in m.groupings && KeywordRelated(name, g) ==> g in r
    ensures forall k :: 0 <= k <= |m.groupings| ==>
              r == Seqs.Filter(m.groupings[..k], RelatedTo(name)) + Seqs.Filter(m.groupings[k..], RelatedTo(name))
  {
    Seqs.FilterSplit(m.groupings, RelatedTo(name));
    Seqs.Filter(m.groupings, RelatedTo(name))
  }

  function RelatedTo(name: string): Grouping -> bool {
    (g: Grouping) => KeywordRelated(name, g)
  }

  /** Step 3 (lines 83-111): when the name carries a tag, the groupings
      sharing a tag with it, matched at threshold 0.40; kept when both
      ancestors exist. No line item; confidence scaled by 0.8. */
  function ByKeyword(name: string, m: Masters): (r: Option<Suggestion>)
    ensures r.Some? ==> Consistent(m, r.value.codes) && r.value.codes.lineItemCode == ""
    ensures r.Some? ==> r.value.strategy == KeywordMatch
    ensures r.Some? ==> KeywordThreshold * KeywordScale <= r.value.confidence <= KeywordScale
    ensures r.Some? ==> |Keywords.Detect(name)| > 0
    ensures var km := FuzzyMatch.FuzzyMatchLedger(name, RelatedGroupings(name, m), GroupingName, KeywordThreshold);
      r.Some? <==> |Keywords.Detect(name)| > 0 && km.Some? && Ancestors(m, km.value.item).Some?
    ensures var km := FuzzyMatch.FuzzyMatchLedger(name, RelatedGroupings(name, m), GroupingName, KeywordThreshold);
      r.Some? ==> && r.value.codes.groupingCode == km.value.item.code
                  && r.value.codes.minorHeadCode == km.value.item.minorHeadCode
                  && r.value.codes.majorHeadCode == FindMinorHead(m, km.value.item.minorHeadCode).value.majorHeadCode
                  && r.value.confidence == km.value.confidence * KeywordScale
  {
    if |Keywords.Detect(name)| == 0 then None
    else
      var related := RelatedGroupings(name, m);
      if |related| == 0 then None
      else
        match FuzzyMatch.FuzzyMatchLedger(name, related, GroupingName, KeywordThreshold)
        case None => None
        case Some(gm) =>
          match PlaceGrouping(m, gm.item, "")
          case None => None
          case Some(codes) => Some(Suggestion(codes, gm.confidence * KeywordScale, KeywordMatch))
  }

  /** One step of the cascade by name. */
  function Step(name: string, m: Masters, s: Strategy): Option<Suggestion> {
    match s
    case GroupingMatch => ByGrouping(name, m)
    case MinorHeadMatch => ByMinorHead(name, m)
    case KeywordMatch => ByKeyword(name, m)
  }

  /** `autoMapLedger`: the first step of the cascade that succeeds, or None.
      `closingBalance` is accepted and ignored (the debit flag the code
      derives from it is never read). */
  function AutoMapLedger(name: string, closingBalance: real, m: Masters): (r: Option<Suggestion>)
    ensures r.Some? ==> Consistent(m, r.value.codes) && 0.0 < r.value.confidence <= 1.0
    ensures r.Some? && r.value.codes.lineItemCode != "" ==> r.value.strategy == GroupingMatch
    ensures r.Some? && r.value.strategy == GroupingMatch ==> r.value.confidence >= GroupingAccept
    ensures r.Some? <==> ByGrouping(name, m).Some? || ByMinorHead(name, m).Some? || ByKeyword(name, m).Some?
    ensures var gm := FuzzyMatch.FuzzyMatchLedger(name, m.groupings, GroupingName, GroupingThreshold);
      gm.Some? && gm.value.confidence >= GroupingAccept && Ancestors(m, gm.value.item).Some? ==>
        && r.Some? && r.value.strategy == GroupingMatch
        && r.value.codes.groupingCode == gm.value.item.code
        && r.value.confidence == gm.value.confidence
  {
    match ByGrouping(name, m)
    case Some(g) => Some(g)
    case None =>
      match ByMinorHead(name, m)
      case Some(h) => Some(h)
      case None => ByKeyword(name, m)
  }

  /** The steps run in order and the first success wins: a suggestion is
      the result of its own step, every earlier step failed, and there is
      none only when all three fail. */
  lemma CascadeOrder(name: string, balance: real, m: Masters)
    ensures var r := AutoMapLedger(name, balance, m);
      r.Some? ==> r == Step(name, m, r.value.strategy)
    ensures var r := AutoMapLedger(name, balance, m);
      r.Some? && r.value.strategy != GroupingMatch ==> ByGrouping(name, m).None?
    ensures var r := AutoMapLedger(name, balance, m);
      r.Some? && r.value.strategy == KeywordMatch ==> ByMinorHead(name, m).None?
    ensures AutoMapLedger(name, balance, m).None? <==>
              ByGrouping(name, m).None? && ByMinorHead(name, m).None? && ByKeyword(name, m).None?
  {
  }

  /** The closing balance has no influence on the suggestion. */
  lemma BalanceIrrelevant(name: string, b1: real, b2: real, m: Masters)
    ensures AutoMapLedger(name, b1, m) == AutoMapLedger(name, b2, m)
  {
  }

  /** A minor head without groupings never yields a suggestion by itself:
      the cascade goes on to the keyword step. */
  lemma ChildlessMinorHeadFallsThrough(name: string, m: Masters)
    requires FuzzyMatch.FuzzyMatchLedger(name, m.minorHeads, MinorHeadName, MinorHeadThreshold).Some?
    requires var h := FuzzyMatch.FuzzyMatchLedger(name, m.minorHeads, MinorHeadName, MinorHeadThreshold).value.item;
      forall g :: g in m.groupings ==> g.minorHeadCode != h.code
    ensures ByMinorHead(name, m).None?
    ensures ByGrouping(name, m).None? ==> AutoMapLedger(name, 0.0, m) == ByKeyword(name, m)
  {
    ChildlessMinorHeadFails(name, m);
  }

  lemma ChildlessMinorHeadFails(name: string, m: Masters)
    requires FuzzyMatch.FuzzyMatchLedger(name, m.minorHeads, MinorHeadName, MinorHeadThreshold).Some?
    requires var h := FuzzyMatch.FuzzyMatchLedger(name, m.minorHeads, MinorHeadName, MinorHeadThreshold).value.item;
      forall g :: g in m.groupings ==> g.minorHeadCode != h.code
    ensures ByMinorHead(name, m).None?
  {
    var h := FuzzyMatch.FuzzyMatchLedger(name, m.minorHeads, MinorHeadName, MinorHeadThreshold).value.item;
    assert ChildGrouping(name, m, h).None?;
  }

  datatype LedgerInput = LedgerInput(ledger: string, closingCy: real)

  datatype BatchEntry = BatchEntry(ledgerName: string, mapping: Option<Codes>, confidence: real)

  /** The entry for one ledger: the codes when the suggestion's confidence
      reaches `minConfidence`, otherwise no mapping but still the
      suggestion's confidence (0 without a suggestion). */
  function BatchEntryFor(l: LedgerInput, m: Masters, minConfidence: real): (e: BatchEntry)
    ensures e.ledgerName == l.ledger
    ensures var a := AutoMapLedger(l.ledger, l.closingCy, m);
      && (e.mapping.Some? <==> a.Some? && a.value.confidence >= minConfidence)
      && (e.mapping.Some? ==> e.mapping.value == a.value.codes)
      && e.confidence == (if a.Some? then a.value.confidence else 0.0)
    ensures e.mapping.Some? ==> Consistent(m, e.mapping.value)
  {
    var a := AutoMapLedger(l.ledger, l.closingCy, m);
    if a.Some? && a.value.confidence >= minConfidence then BatchEntry(l.ledger, Some(a.value.codes), a.value.confidence)
    else BatchEntry(l.ledger, None, if a.Some? then a.value.confidence else 0.0)
  }

  /** `batchAutoMapLedgers` called without `minConfidence`, which then
      defaults to 0.55. */
  function BatchAutoMapDefault(ledgers: seq<LedgerInput>, m: Masters): (r: seq<BatchEntry>)
    ensures |r| == |ledgers|
    ensures forall i :: 0 <= i < |r| ==>
      var a := AutoMapLedger(ledgers[i].ledger, ledgers[i].closingCy, m);
      r[i].mapping.Some? <==> a.Some? && a.value.confidence >= 0.55
  {
    BatchAutoMap(ledgers, m, DefaultMinConfidence)
  }

  /** `batchAutoMapLedgers`: one entry per input ledger, in input order. */
  function BatchAutoMap(ledgers: seq<LedgerInput>, m: Masters, minConfidence: real): (r: seq<BatchEntry>)
    ensures |r| == |ledgers|
    ensures forall i :: 0 <= i < |r| ==> r[i] == BatchEntryFor(ledgers[i], m, minConfidence)
    ensures forall i :: 0 <= i < |r| ==> r[i].ledgerName == ledgers[i].ledger
    ensures forall i :: 0 <= i < |r| && r[i].mapping.Some? ==> Consistent(m, r[i].mapping.value)
  {
    seq(|ledgers|, i requires 0 <= i < |ledgers| => BatchEntryFor(ledgers[i], m, minConfidence))
  }

  /** Two minor heads share the code "c" under the major heads "A" and "B":
      a grouping under "c" is placed under the first of them, as `find`
      does, never under "B". */
  lemma RepeatedMinorCodeFirst()
    ensures var m := Masters([MajorHead("A", "a"), MajorHead("B", "b")],
                             [MinorHead("c", "x", "A"), MinorHead("c", "y", "B")],
                             [Grouping("g", "n", "c")], []);
      PlaceGrouping(m, m.groupings[0], "") == Some(Codes("A", "c", "g", ""))
  {
    var m := Masters([MajorHead("A", "a"), MajorHead("B", "b")],
                     [MinorHead("c", "x", "A"), MinorHead("c", "y", "B")],
                     [Grouping("g", "n", "c")], []);
    assert FindMinorHead(m, "c") == Some(m.minorHeads[0]);
    assert FindMajorHead(m, "A") == Some(m.majorHeads[0]);
  }
}
