/** The form of components/MappingPanel.tsx: three cascading choices
    (major head, minor head, grouping), a suggestion that can be applied to
    them, and the guard on the map button. */
module MappingPanel {
  import opened Wrappers
  import opened ChartOfAccounts

  /** A `MappingSuggestion` as the panel receives it; the reasoning text is
      not modelled. */
  datatype MappingSuggestion = MappingSuggestion(codes: Codes, confidence: real)

  datatype Panel = Panel(majorHead: string, minorHead: string, grouping: string, suggestion: Option<MappingSuggestion>)

  /** Each non-empty choice hangs under the choice above it. */
  predicate Consistent(m: Masters, p: Panel) {
    && (p.minorHead != "" ==> exists h :: h in m.minorHeads && h.code == p.minorHead && h.majorHeadCode == p.majorHead)
    && (p.grouping != "" ==> exists g :: g in m.groupings && g.code == p.grouping && g.minorHeadCode == p.minorHead)
  }

  /** The form as a new ledger finds it (the effect at lines 20-26). */
  const Empty: Panel := Panel("", "", "", None)

  lemma EmptyConsistent(m: Masters)
    ensures Consistent(m, Empty)
  {
  }

  /** `availableMinorHeads` (line 77): the minor heads offered under the
      chosen major head. */
  function AvailableMinorHeads(m: Masters, p: Panel): (r: seq<MinorHead>)
    ensures forall h :: h in r <==> h in m.minorHeads && h.majorHeadCode == p.majorHead
  {
    MinorHeadsOf(m, p.majorHead)
  }

  /** `availableGroupings` (line 78): the groupings offered under the chosen
      minor head. */
  function AvailableGroupings(m: Masters, p: Panel): (r: seq<Grouping>)
    ensures forall g :: g in r <==> g in m.groupings && g.minorHeadCode == p.minorHead
  {
    GroupingsOf(m, p.minorHead)
  }

  /** Choosing a major head clears the two choices below it (line 111). */
  function SelectMajorHead(m: Masters, p: Panel, code: string): (r: Panel)
    ensures Consistent(m, r)
    ensures r.majorHead == code && r.minorHead == "" && r.grouping == "" && r.suggestion == p.suggestion
  {
    p.(majorHead := code, minorHead := "", grouping := "")
  }

  /** Choosing a minor head among those offered, or the blank option,
      clears the grouping (line 118). */
  function SelectMinorHead(m: Masters, p: Panel, code: string): (r: Panel)
    requires Consistent(m, p)
    requires code == "" || exists h :: h in AvailableMinorHeads(m, p) && h.code == code
    ensures Consistent(m, r)
    ensures r.majorHead == p.majorHead && r.minorHead == code && r.grouping == "" && r.suggestion == p.suggestion
  {
    p.(minorHead := code, grouping := "")
  }

  /** Choosing a grouping among those offered, or the blank option
      (line 125). */
  function SelectGrouping(m: Masters, p: Panel, code: string): (r: Panel)
    requires Consistent(m, p)
    requires code == "" || exists g :: g in AvailableGroupings(m, p) && g.code == code
    ensures Consistent(m, r)
    ensures r.majorHead == p.majorHead && r.minorHead == p.minorHead && r.grouping == code
  {
    p.(grouping := code)
  }

  /** `handleApplySuggestion` (lines 39-56): the major head is taken as
      suggested, unchecked. The minor head is taken only when the first
      minor head with that code lies under the suggested major head, else
      it and the grouping are cleared; the grouping is taken only when,
      besides, the first grouping with that code lies under the suggested
      minor head. Without a suggestion nothing changes. */
  function ApplySuggestion(m: Masters, p: Panel): (r: Panel)
    ensures p.suggestion.None? ==> r == p
    ensures r.suggestion == p.suggestion
    ensures p.suggestion.Some? ==> Consistent(m, r)
    ensures p.suggestion.Some? ==> var c := p.suggestion.value.codes;
      && r.majorHead == c.majorHeadCode
      && (r.minorHead == c.minorHeadCode || r.minorHead == "")
      && (r.grouping == c.groupingCode || r.grouping == "")
      && (r.minorHead == "" ==> r.grouping == "" || c.minorHeadCode == "")
    ensures p.suggestion.Some? ==> var c := p.suggestion.value.codes;
      (forall h :: h in m.minorHeads && h.code == c.minorHeadCode ==> h.majorHeadCode == c.majorHeadCode)
      && (exists h :: h in m.minorHeads && h.code == c.minorHeadCode)
      ==> r.minorHead == c.minorHeadCode
    ensures p.suggestion.Some? ==> var c := p.suggestion.value.codes;
      (forall h :: h in m.minorHeads && h.code == c.minorHeadCode ==> h.majorHeadCode != c.majorHeadCode)
      ==> r.minorHead == "" && r.grouping == ""
  {
    match p.suggestion
    case None => p
    case Some(s) =>
      var c := s.codes;
      var minor := FindMinorHead(m, c.minorHeadCode);
      if minor.Some? && minor.value.majorHeadCode == c.majorHeadCode then
        var grouping := FindGrouping(m, c.groupingCode);
        if grouping.Some? && grouping.value.minorHeadCode == c.minorHeadCode then
          p.(majorHead := c.majorHeadCode, minorHead := c.minorHeadCode, grouping := c.groupingCode)
        else
          p.(majorHead := c.majorHeadCode, minorHead := c.minorHeadCode, grouping := "")
      else
        p.(majorHead := c.majorHeadCode, minorHead := "", grouping := "")
  }

  /** Applying twice is applying once. */
  lemma ApplyIdempotent(m: Masters, p: Panel)
    ensures ApplySuggestion(m, ApplySuggestion(m, p)) == ApplySuggestion(m, p)
  {
  }

  /** The first minor head in the masters with code `code` lies under the
      major head `major`: the minor head a lookup by code picks when codes
      repeat. */
  predicate FirstMinorUnder(m: Masters, code: string, major: string) {
    exists k :: 0 <= k < |m.minorHeads| && m.minorHeads[k].code == code && m.minorHeads[k].majorHeadCode == major
      && forall j :: 0 <= j < k ==> m.minorHeads[j].code != code
  }

  /** The first grouping in the masters with code `code` lies under the
      minor head `minor`. */
  predicate FirstGroupingUnder(m: Masters, code: string, minor: string) {
    exists k :: 0 <= k < |m.groupings| && m.groupings[k].code == code && m.groupings[k].minorHeadCode == minor
      && forall j :: 0 <= j < k ==> m.groupings[j].code != code
  }

  /** The check on the minor head at line 43 holds exactly when the first
      minor head with the code lies under the major head. */
  lemma FirstMinorFound(m: Masters, code: string, major: string)
    ensures var f := FindMinorHead(m, code);
      FirstMinorUnder(m, code, major) <==> f.Some? && f.value.majorHeadCode == major
  {
    var f := FindMinorHead(m, code);
    if FirstMinorUnder(m, code, major) {
      var k :| 0 <= k < |m.minorHeads| && m.minorHeads[k].code == code && m.minorHeads[k].majorHeadCode == major
        && forall j :: 0 <= j < k ==> m.minorHeads[j].code != code;
      assert f.Some?;
      var k' :| 0 <= k' < |m.minorHeads| && m.minorHeads[k'] == f.value
        && forall j :: 0 <= j < k' ==> m.minorHeads[j].code != code;
      assert k' == k;
    }
  }

  /** The check on the grouping at line 46 holds exactly when the first
      grouping with the code lies under the minor head. */
  lemma FirstGroupingFound(m: Masters, code: string, minor: string)
    ensures var f := FindGrouping(m, code);
      FirstGroupingUnder(m, code, minor) <==> f.Some? && f.value.minorHeadCode == minor
  {
    var f := FindGrouping(m, code);
    if FirstGroupingUnder(m, code, minor) {
      var k :| 0 <= k < |m.groupings| && m.groupings[k].code == code && m.groupings[k].minorHeadCode == minor
        && forall j :: 0 <= j < k ==> m.groupings[j].code != code;
      assert f.Some?;
      var k' :| 0 <= k' < |m.groupings| && m.groupings[k'] == f.value
        && forall j :: 0 <= j < k' ==> m.groupings[j].code != code;
      assert k' == k;
    }
  }

  /** When codes repeat, the first minor head and the first grouping with
      the suggested codes decide what is taken. */
  lemma ApplyFirstMatch(m: Masters, p: Panel)
    requires p.suggestion.Some?
    ensures var c := p.suggestion.value.codes; var r := ApplySuggestion(m, p);
      && r.majorHead == c.majorHeadCode
      && r.minorHead == (if FirstMinorUnder(m, c.minorHeadCode, c.majorHeadCode) then c.minorHeadCode else "")
      && r.grouping == (if FirstMinorUnder(m, c.minorHeadCode, c.majorHeadCode)
                           && FirstGroupingUnder(m, c.groupingCode, c.minorHeadCode) then c.groupingCode else "")
  {
    var c := p.suggestion.value.codes;
    FirstMinorFound(m, c.minorHeadCode, c.majorHeadCode);
    FirstGroupingFound(m, c.groupingCode, c.minorHeadCode);
  }

  /** No two minor heads, and no two groupings, share a code. */
  predicate UniqueCodes(m: Masters) {
    && (forall i, j :: 0 <= i < j < |m.minorHeads| ==> m.minorHeads[i].code != m.minorHeads[j].code)
    && (forall i, j :: 0 <= i < j < |m.groupings| ==> m.groupings[i].code != m.groupings[j].code)
  }

  /** When codes are unique, a suggestion whose major head, minor head and
      grouping hang together is taken in full. */
  lemma {:induction false} ApplyConsistentSuggestion(m: Masters, p: Panel)
    requires UniqueCodes(m)
    requires p.suggestion.Some? && HangsTogether(m, p.suggestion.value.codes)
    ensures var c := p.suggestion.value.codes; var r := ApplySuggestion(m, p);
      r.majorHead == c.majorHeadCode && r.minorHead == c.minorHeadCode && r.grouping == c.groupingCode
  {
    var c := p.suggestion.value.codes;
    var h :| h in m.minorHeads && h.code == c.minorHeadCode && h.majorHeadCode == c.majorHeadCode;
    var minor := FindMinorHead(m, c.minorHeadCode);
    var i :| 0 <= i < |m.minorHeads| && m.minorHeads[i] == minor.value;
    var i' :| 0 <= i' < |m.minorHeads| && m.minorHeads[i'] == h;
    assert i == i';
    var g :| g in m.groupings && g.code == c.groupingCode && g.minorHeadCode == c.minorHeadCode;
    var grouping := FindGrouping(m, c.groupingCode);
    var k :| 0 <= k < |m.groupings| && m.groupings[k] == grouping.value;
    var k' :| 0 <= k' < |m.groupings| && m.groupings[k'] == g;
    assert k == k';
  }

  /** The three upper codes of a suggestion hang together in the masters. */
  predicate HangsTogether(m: Masters, c: Codes) {
    && (exists h :: h in m.minorHeads && h.code == c.minorHeadCode && h.majorHeadCode == c.majorHeadCode)
    && (exists g :: g in m.groupings && g.code == c.groupingCode && g.minorHeadCode == c.minorHeadCode)
  }

  /** `handleGenerateSuggestion` (lines 28-37) once the service answers:
      the suggestion is replaced by the answer, or cleared when there is
      none; without a ledger nothing happens. */
  function ReceiveSuggestion(ledgerShown: bool, p: Panel, answer: Option<MappingSuggestion>): (r: Panel)
    ensures r.majorHead == p.majorHead && r.minorHead == p.minorHead && r.grouping == p.grouping
    ensures r.suggestion == if ledgerShown then answer else p.suggestion
  {
    if ledgerShown then p.(suggestion := answer) else p
  }

  /** `handleMap` (lines 58-66): the request sent for the ledger, only when
      a ledger is shown and all three choices are made. */
  function MapRequest(ledgerId: Option<string>, p: Panel): (r: Option<(string, string, string, string)>)
    ensures r.Some? <==> ledgerId.Some? && p.majorHead != "" && p.minorHead != "" && p.grouping != ""
    ensures r.Some? ==> r.value == (ledgerId.value, p.majorHead, p.minorHead, p.grouping)
  {
    if ledgerId.Some? && p.majorHead != "" && p.minorHead != "" && p.grouping != "" then
      Some((ledgerId.value, p.majorHead, p.minorHead, p.grouping))
    else None
  }
}
