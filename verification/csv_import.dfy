/** The trial-balance CSV reader of `handleImport` in
    components/ImportModal.tsx: the text is cut into lines, blank lines are
    dropped, the first remaining line names the columns, and every later
    line becomes one ledger record or aborts the whole import. Fields are
    cut at every comma; there is no quoting. `parseFloat` is a parameter:
    `None` stands for `NaN`. */
module CsvImport {
  import opened Wrappers
  import opened Text
  import Seqs

  datatype ImportError =
    | NoRows
    | MissingColumns
    | InvalidRow(row: nat)

  /** A record as `onImport` receives it. */
  datatype ImportedRow = ImportedRow(ledger: string, closingCy: real, closingPy: real)

  /** A line of the file with the number the error message gives it. */
  datatype Line = Line(number: nat, text: string)

  /** Where the three columns sit; the previous-year column may be
      missing. */
  datatype Columns = Columns(ledger: nat, closingCy: nat, closingPy: Option<nat>)

  /** A header cell as it is looked up: trimmed, lower-cased, with every
      white-space character removed. The trim is subsumed: the key is the
      lower-cased cell with its white space removed, in order. */
  function HeaderKey(h: string): (r: string)
    ensures forall i :: 0 <= i < |r| ==> !IsSpace(r[i]) && !IsUpper(r[i])
    ensures r == Seqs.Filter(Lower(h), NotSpace)
  {
    StripSpacesKeeps(Lower(Trim(h)), NotUpper);
    StripLowerTrim(h);
    StripSpaces(Lower(Trim(h)))
  }

  function NotUpper(c: char): bool {
    !IsUpper(c)
  }

  /** The keys of a header line's cells, in order. */
  function Keys(header: string): seq<string> {
    Seqs.Map(Split(header, ','), HeaderKey)
  }

  /** `headers.indexOf(name)`: the first position holding `name`. */
  function IndexOf(keys: seq<string>, name: string): (r: Option<nat>)
    ensures r.Some? ==> r.value < |keys| && keys[r.value] == name
    ensures r.Some? ==> forall j :: 0 <= j < r.value ==> keys[j] != name
    ensures r.None? <==> name !in keys
  {
    Seqs.Find(keys, (k: string) => k == name)
  }

  /** The columns the keys name, or none when `ledger` or `closingcy` is
      missing. */
  function LayoutOf(keys: seq<string>): (r: Option<Columns>)
    ensures r.Some? <==> "ledger" in keys && "closingcy" in keys
    ensures r.Some? ==> r.value.ledger < |keys| && keys[r.value.ledger] == "ledger"
    ensures r.Some? ==> r.value.closingCy < |keys| && keys[r.value.closingCy] == "closingcy"
    ensures r.Some? ==> (r.value.closingPy.Some? <==> "closingpy" in keys)
    ensures r.Some? && r.value.closingPy.Some? ==>
      r.value.closingPy.value < |keys| && keys[r.value.closingPy.value] == "closingpy"
  {
    var ledger := IndexOf(keys, "ledger");
    var closingCy := IndexOf(keys, "closingcy");
    if ledger.None? || closingCy.None? then None
    else Some(Columns(ledger.value, closingCy.value, IndexOf(keys, "closingpy")))
  }

  /** The columns a header line names. */
  function Layout(header: string): Option<Columns> {
    LayoutOf(Keys(header))
  }

  /** `values[k]?.trim()`: the trimmed field, or none past the last comma. */
  function Field(values: seq<string>, k: nat): (r: Option<string>)
    ensures r.Some? <==> k < |values|
    ensures r.Some? ==> |r.value| > 0 ==> !IsSpace(r.value[0]) && !IsSpace(r.value[|r.value| - 1])
  {
    if k < |values| then Some(Trim(values[k])) else None
  }

  /** A number read from a field; a missing field reads as `NaN`. */
  function Number(values: seq<string>, k: nat, parse: string -> Option<real>): Option<real> {
    match Field(values, k)
    case None => None
    case Some(f) => parse(f)
  }

  /** One data line, cut at every comma: the record it gives, or none
      when its ledger name is missing or blank or its current-year balance
      is not a number. The ledger name is kept trimmed; the previous-year
      balance falls back to 0 when its column is absent or unreadable. */
  function ParseFields(c: Columns, parse: string -> Option<real>, values: seq<string>): (r: Option<ImportedRow>)
    ensures r.None? <==> Field(values, c.ledger) in {None, Some("")} || Number(values, c.closingCy, parse).None?
    ensures r.Some? ==> Some(r.value.ledger) == Field(values, c.ledger) && Some(r.value.closingCy) == Number(values, c.closingCy, parse)
    ensures r.Some? && c.closingPy.None? ==> r.value.closingPy == 0.0
    ensures r.Some? && c.closingPy.Some? ==> r.value.closingPy == Number(values, c.closingPy.value, parse).GetOr(0.0)
  {
    var ledger := Field(values, c.ledger);
    var closingCy := Number(values, c.closingCy, parse);
    if ledger.None? || ledger.value == "" || closingCy.None? then None
    else
      var closingPy := if c.closingPy.Some? then Number(values, c.closingPy.value, parse).GetOr(0.0) else 0.0;
      Some(ImportedRow(ledger.value, closingCy.value, closingPy))
  }

  function ParseLine(c: Columns, parse: string -> Option<real>, text: string): Option<ImportedRow> {
    ParseFields(c, parse, Split(text, ','))
  }

  /** The data lines in order: a record for each, or the number of the
      first line that fails. */
  function ParseRows(line: string -> Option<ImportedRow>, rows: seq<Line>): (r: Result<seq<ImportedRow>, ImportError>)
    ensures r.Success? <==> forall i :: 0 <= i < |rows| ==> line(rows[i].text).Some?
    ensures r.Success? ==> |r.value| == |rows|
    ensures r.Success? ==> forall i :: 0 <= i < |rows| ==> line(rows[i].text) == Some(r.value[i])
    ensures r.Failure? ==> exists i :: 0 <= i < |rows| && r.error == InvalidRow(rows[i].number)
                                         && line(rows[i].text).None?
                                         && forall j :: 0 <= j < i ==> line(rows[j].text).Some?
  {
    if |rows| == 0 then Success([])
    else
      match line(rows[0].text)
      case None => Failure(InvalidRow(rows[0].number))
      case Some(row) =>
        match ParseRows(line, rows[1..])
        case Failure(e) => Failure(e)
        case Success(out) => Success([row] + out)
  }

  /** The lines numbered from 1. */
  function Numbered(lines: seq<string>): (r: seq<Line>)
    ensures |r| == |lines|
    ensures forall i :: 0 <= i < |r| ==> r[i] == Line(i + 1, lines[i])
  {
    seq(|lines|, i requires 0 <= i < |lines| => Line(i + 1, lines[i]))
  }

  /** The lines that pass `keep`, in order, with their numbers. */
  function Kept(lines: seq<string>, keep: string -> bool): seq<Line> {
    Seqs.Filter(Numbered(lines), OnText(keep))
  }

  /** A test on line texts as a test on lines. */
  function OnText(keep: string -> bool): Line -> bool {
    (l: Line) => keep(l.text)
  }

  function LineNumber(l: Line): int {
    l.number
  }

  /** Each kept line is a line that passes the test, with its number. */
  lemma KeptLines(lines: seq<string>, keep: string -> bool)
    ensures forall i :: 0 <= i < |Kept(lines, keep)| ==>
      var l := Kept(lines, keep)[i]; 1 <= l.number <= |lines| && l.text == lines[l.number - 1] && keep(l.text)
  {
    var all := Numbered(lines);
    var kept := Kept(lines, keep);
    forall i | 0 <= i < |kept|
      ensures exists j :: 0 <= j < |lines| && kept[i] == Line(j + 1, lines[j])
    {
      var j :| 0 <= j < |all| && all[j] == kept[i];
      assert kept[i] == Line(j + 1, lines[j]);
    }
  }

  /** The kept lines keep the order of the file. */
  lemma KeptIncreasing(lines: seq<string>, keep: string -> bool)
    ensures Seqs.Increasing(Kept(lines, keep), LineNumber)
  {
    assert Seqs.Increasing(Numbered(lines), LineNumber);
    Seqs.FilterIncreasing(Numbered(lines), OnText(keep), LineNumber);
  }

  /** Nothing is kept exactly when no line passes the test. */
  lemma KeptNone(lines: seq<string>, keep: string -> bool)
    ensures |Kept(lines, keep)| == 0 <==> forall i :: 0 <= i < |lines| ==> !keep(lines[i])
  {
    var kept := Kept(lines, keep);
    if exists i :: 0 <= i < |lines| && keep(lines[i]) {
      var i :| 0 <= i < |lines| && keep(lines[i]);
      assert Numbered(lines)[i] in kept;
    }
    if |kept| > 0 {
      KeptLines(lines, keep);
      assert keep(lines[kept[0].number - 1]);
    }
  }

  /** A line that is not white space only. */
  predicate NonBlank(text: string) {
    Trim(text) != ""
  }

  /** The steps after the blank lines are gone: the first line is the
      header and gives the layout, every later line must give a record. */
  function Assemble(kept: seq<Line>, layout: string -> Option<Columns>, row: (Columns, string) -> Option<ImportedRow>)
    : (r: Result<seq<ImportedRow>, ImportError>)
    ensures r == Failure(NoRows) <==> |kept| == 0
    ensures r == Failure(MissingColumns) <==> |kept| > 0 && layout(kept[0].text).None?
    ensures r.Success? <==> |kept| > 0 && layout(kept[0].text).Some?
                            && forall i :: 1 <= i < |kept| ==> row(layout(kept[0].text).value, kept[i].text).Some?
    ensures r.Success? ==> |r.value| == |kept| - 1
    ensures r.Success? ==> forall i :: 1 <= i < |kept| ==> row(layout(kept[0].text).value, kept[i].text) == Some(r.value[i - 1])
    ensures r.Failure? && r.error.InvalidRow? ==>
      |kept| > 0 && layout(kept[0].text).Some?
      && exists i :: 1 <= i < |kept| && r.error.row == kept[i].number
                     && row(layout(kept[0].text).value, kept[i].text).None?
  {
    if |kept| == 0 then Failure(NoRows)
    else
      match layout(kept[0].text)
      case None => Failure(MissingColumns)
      case Some(c) =>
        var r := ParseRows(t => row(c, t), kept[1..]);
        assert forall i :: 1 <= i < |kept| ==> kept[1..][i - 1] == kept[i];
        r
  }

  /** Two lists of kept lines with the same texts assemble alike, except for
      the number in an invalid-row error, which comes from the same
      position in both. */
  lemma AssembleNumbering(kept: seq<Line>, kept': seq<Line>, layout: string -> Option<Columns>,
                          row: (Columns, string) -> Option<ImportedRow>)
    requires |kept| == |kept'|
    requires forall i :: 0 <= i < |kept| ==> kept[i].text == kept'[i].text
    ensures var a := Assemble(kept, layout, row); var b := Assemble(kept', layout, row);
      && (a.Failure? && a.error.InvalidRow? <==> b.Failure? && b.error.InvalidRow?)
      && (!(a.Failure? && a.error.InvalidRow?) ==> a == b)
    ensures var a := Assemble(kept, layout, row); var b := Assemble(kept', layout, row);
      a.Failure? && a.error.InvalidRow? ==>
        exists i :: 1 <= i < |kept| && a.error.row == kept[i].number && b.error.row == kept'[i].number
  {
    if |kept| > 0 && layout(kept[0].text).Some? {
      var c := layout(kept[0].text).value;
      var line := t => row(c, t);
      ParseRowsNumbering(line, kept[1..], kept'[1..]);
      if ParseRows(line, kept[1..]).Failure? {
        var i :| 0 <= i < |kept| - 1 && ParseRows(line, kept[1..]).error == InvalidRow(kept[1..][i].number)
                 && ParseRows(line, kept'[1..]).error == InvalidRow(kept'[1..][i].number);
        assert kept[1..][i] == kept[i + 1] && kept'[1..][i] == kept'[i + 1];
      }
    }
  }

  /** Parsing the same texts under two numberings: the same outcome, and a
      failure at the same position. */
  lemma {:induction false} ParseRowsNumbering(line: string -> Option<ImportedRow>, rows: seq<Line>, rows': seq<Line>)
    requires |rows| == |rows'|
    requires forall i :: 0 <= i < |rows| ==> rows[i].text == rows'[i].text
    ensures ParseRows(line, rows).Success? <==> ParseRows(line, rows').Success?
    ensures ParseRows(line, rows).Success? ==> ParseRows(line, rows) == ParseRows(line, rows')
    ensures ParseRows(line, rows).Failure? ==>
      exists i :: 0 <= i < |rows| && ParseRows(line, rows).error == InvalidRow(rows[i].number)
                  && ParseRows(line, rows').error == InvalidRow(rows'[i].number)
  {
    if |rows| > 0 {
      ParseRowsNumbering(line, rows[1..], rows'[1..]);
      if line(rows[0].text).Some? && ParseRows(line, rows[1..]).Failure? {
        var i :| 0 <= i < |rows[1..]| && ParseRows(line, rows[1..]).error == InvalidRow(rows[1..][i].number)
                 && ParseRows(line, rows'[1..]).error == InvalidRow(rows'[1..][i].number);
        assert rows[1..][i] == rows[i + 1] && rows'[1..][i] == rows'[i + 1];
      }
    }
  }

  /** The numbering the source's message uses: once the blank lines are
      gone, the `i`-th remaining line (from 0) is called row `i + 1`, so the
      data line after the header is row 2. */
  function Renumbered(kept: seq<Line>): (r: seq<Line>)
    ensures |r| == |kept|
    ensures forall i :: 0 <= i < |r| ==> r[i] == Line(i + 1, kept[i].text)
  {
    seq(|kept|, i requires 0 <= i < |kept| => Line(i + 1, kept[i].text))
  }

  /** The data-line reader for a given `parseFloat`. */
  function RowReader(parse: string -> Option<real>): (Columns, string) -> Option<ImportedRow> {
    (c, t) => ParseLine(c, parse, t)
  }

  /** `handleImport`'s parsing as the source does it, numbering rows after
      the blank lines are gone. */
  function ImportAsWritten(text: string, parse: string -> Option<real>): Result<seq<ImportedRow>, ImportError> {
    Assemble(Renumbered(Kept(Split(text, '\n'), NonBlank)), Layout, RowReader(parse))
  }

  /** The same parsing with each row numbered by its line in the file. */
  function Import(text: string, parse: string -> Option<real>): Result<seq<ImportedRow>, ImportError> {
    Assemble(Kept(Split(text, '\n'), NonBlank), Layout, RowReader(parse))
  }

  /** Both readings give one row per non-blank line below the header, and
      report missing columns exactly when the first non-blank line names
      no usable layout. */
  lemma ImportShape(text: string, parse: string -> Option<real>)
    ensures var kept := Kept(Split(text, '\n'), NonBlank); var r := Import(text, parse);
      && (r.Success? ==> |r.value| + 1 == |kept|)
      && (r == Failure(MissingColumns) <==> |kept| > 0 && Layout(kept[0].text).None?)
    ensures var kept := Kept(Split(text, '\n'), NonBlank); var r := ImportAsWritten(text, parse);
      && (r.Success? ==> |r.value| + 1 == |kept|)
      && (r == Failure(MissingColumns) <==> |kept| > 0 && Layout(kept[0].text).None?)
  {
  }

  predicate AllBlank(lines: seq<string>) {
    forall i :: 0 <= i < |lines| ==> !NonBlank(lines[i])
  }

  /** No rows are reported exactly when every line of the file is blank. */
  lemma ImportNoRows(text: string, parse: string -> Option<real>)
    ensures Import(text, parse) == Failure(NoRows) <==> AllBlank(Split(text, '\n'))
  {
    KeptNone(Split(text, '\n'), NonBlank);
  }

  /** A bad row is reported under the number of a non-blank line below the
      header that the header's layout cannot read. */
  lemma ImportBadRow(text: string, parse: string -> Option<real>)
    requires Import(text, parse).Failure? && Import(text, parse).error.InvalidRow?
    ensures var lines := Split(text, '\n'); var n := Import(text, parse).error.row;
      && 2 <= n <= |lines|
      && NonBlank(lines[n - 1])
      && Layout(Kept(lines, NonBlank)[0].text).Some?
      && ParseLine(Layout(Kept(lines, NonBlank)[0].text).value, parse, lines[n - 1]).None?
  {
    KeptBadRow(Split(text, '\n'), NonBlank, Layout, RowReader(parse));
  }

  /** Where an invalid-row failure of kept lines points: a later line that
      passes the test and that the row reader rejects. */
  lemma KeptBadRow(lines: seq<string>, keep: string -> bool, layout: string -> Option<Columns>,
                   row: (Columns, string) -> Option<ImportedRow>)
    requires Assemble(Kept(lines, keep), layout, row).Failure?
    requires Assemble(Kept(lines, keep), layout, row).error.InvalidRow?
    ensures var n := Assemble(Kept(lines, keep), layout, row).error.row;
      && 2 <= n <= |lines|
      && keep(lines[n - 1])
      && layout(Kept(lines, keep)[0].text).Some?
      && row(layout(Kept(lines, keep)[0].text).value, lines[n - 1]).None?
  {
    var kept := Kept(lines, keep);
    var n := Assemble(kept, layout, row).error.row;
    var i :| 1 <= i < |kept| && n == kept[i].number
             && row(layout(kept[0].text).value, kept[i].text).None?;
    KeptLineAt(lines, keep, 0);
    KeptLineAt(lines, keep, i);
    KeptOrder(lines, keep, 0, i);
  }

  /** One kept line: a numbered line of the file that passes the test. */
  lemma KeptLineAt(lines: seq<string>, keep: string -> bool, i: nat)
    requires i < |Kept(lines, keep)|
    ensures var l := Kept(lines, keep)[i]; 1 <= l.number <= |lines| && l.text == lines[l.number - 1] && keep(l.text)
  {
    KeptLines(lines, keep);
  }

  /** An earlier kept line has a smaller number. */
  lemma KeptOrder(lines: seq<string>, keep: string -> bool, a: nat, b: nat)
    requires a < b < |Kept(lines, keep)|
    ensures Kept(lines, keep)[a].number < Kept(lines, keep)[b].number
  {
    KeptIncreasing(lines, keep);
    assert LineNumber(Kept(lines, keep)[a]) < LineNumber(Kept(lines, keep)[b]);
  }

  /** The two numberings differ in nothing but the number in an
      invalid-row error, and the number the source reports never exceeds
      the line's own. */
  lemma AsWrittenAgrees(text: string, parse: string -> Option<real>)
    ensures var a := ImportAsWritten(text, parse); var b := Import(text, parse);
      && (a.Failure? && a.error.InvalidRow? <==> b.Failure? && b.error.InvalidRow?)
      && (!(a.Failure? && a.error.InvalidRow?) ==> a == b)
      && (a.Failure? && a.error.InvalidRow? ==> a.error.row <= b.error.row)
  {
    var kept := Kept(Split(text, '\n'), NonBlank);
    AssembleNumbering(Renumbered(kept), kept, Layout, RowReader(parse));
    var a := ImportAsWritten(text, parse);
    if a.Failure? && a.error.InvalidRow? {
      var i :| 1 <= i < |kept| && a.error.row == Renumbered(kept)[i].number
               && Import(text, parse).error.row == kept[i].number;
      NumbersGrow(Split(text, '\n'), i);
    }
  }

  /** The `i`-th kept line (from 0) is at least line `i + 1` of the file. */
  lemma {:induction false} NumbersGrow(lines: seq<string>, i: nat)
    requires i < |Kept(lines, NonBlank)|
    ensures Kept(lines, NonBlank)[i].number >= i + 1
  {
    KeptLines(lines, NonBlank);
    if i > 0 {
      NumbersGrow(lines, i - 1);
      KeptIncreasing(lines, NonBlank);
    }
  }

  /** A file whose second line is blank and whose third line is bad:
      the source reports row 2, which is the blank line, while the bad row
      is line 3. The text `"ledger,closingCy\n\nCash,x"`, with `x` not a
      number, is one such file. */
  lemma BlankLineShiftsRowNumber(header: string, blank: string, bad: string, parse: string -> Option<real>)
    requires '\n' !in header && '\n' !in blank && '\n' !in bad
    requires NonBlank(header) && !NonBlank(blank) && NonBlank(bad)
    requires Layout(header).Some? && ParseLine(Layout(header).value, parse, bad).None?
    ensures var text := header + "\n" + blank + "\n" + bad;
      && Split(text, '\n') == [header, blank, bad]
      && ImportAsWritten(text, parse) == Failure(InvalidRow(2))
      && Import(text, parse) == Failure(InvalidRow(3))
  {
    var text := header + "\n" + blank + "\n" + bad;
    var kept := [Line(1, header), Line(3, bad)];
    KeptOfThree(header, blank, bad);
    ImportOfKept(text, parse, kept);
    RenumberedTwo(header, bad);
    AssembleBadSecond(header, bad, 1, 3, Layout, RowReader(parse));
    AssembleBadSecond(header, bad, 1, 2, Layout, RowReader(parse));
  }

  /** Renumbering the kept first and third lines makes the third line
      row 2. */
  lemma RenumberedTwo(header: string, bad: string)
    ensures Renumbered([Line(1, header), Line(3, bad)]) == [Line(1, header), Line(2, bad)]
  {
  }

  /** Both imports assemble the kept lines; they differ only in the
      numbers they give them. */
  lemma ImportOfKept(text: string, parse: string -> Option<real>, kept: seq<Line>)
    requires Kept(Split(text, '\n'), NonBlank) == kept
    ensures Import(text, parse) == Assemble(kept, Layout, RowReader(parse))
    ensures ImportAsWritten(text, parse) == Assemble(Renumbered(kept), Layout, RowReader(parse))
  {
  }

  /** The lines kept from a three-line file whose middle line is blank. */
  lemma KeptOfThree(header: string, blank: string, bad: string)
    requires '\n' !in header && '\n' !in blank && '\n' !in bad
    requires NonBlank(header) && !NonBlank(blank) && NonBlank(bad)
    ensures var text := header + "\n" + blank + "\n" + bad;
      && Split(text, '\n') == [header, blank, bad]
      && Kept(Split(text, '\n'), NonBlank) == [Line(1, header), Line(3, bad)]
  {
    SplitThree(header, blank, bad, '\n');
    KeptThree(header, blank, bad, NonBlank);
  }

  /** A header and one unreadable data line: the import fails under that
      line's number. */
  lemma AssembleBadSecond(header: string, bad: string, m: nat, n: nat,
                          layout: string -> Option<Columns>, row: (Columns, string) -> Option<ImportedRow>)
    requires layout(header).Some? && row(layout(header).value, bad).None?
    ensures Assemble([Line(m, header), Line(n, bad)], layout, row) == Failure(InvalidRow(n))
  {
    assert [Line(m, header), Line(n, bad)][1..] == [Line(n, bad)];
  }

  /** Of three lines of which the middle one fails the test, lines 1 and 3
      are kept. */
  lemma KeptThree(a: string, b: string, c: string, keep: string -> bool)
    requires keep(a) && !keep(b) && keep(c)
    ensures Kept([a, b, c], keep) == [Line(1, a), Line(3, c)]
  {
    var all := Numbered([a, b, c]);
    var p := OnText(keep);
    assert all == [Line(1, a), Line(2, b), Line(3, c)];
    assert all[1..] == [Line(2, b), Line(3, c)];
    assert all[2..] == [Line(3, c)];
    assert all[2..][1..] == [];
    assert Seqs.Filter(all[2..], p) == [Line(3, c)];
    assert Seqs.Filter(all[1..], p) == [Line(3, c)];
  }

  /** One record as a line, its balances written by `format`. */
  function RenderRow(r: ImportedRow, format: real -> string): string {
    r.ledger + "," + format(r.closingCy) + "," + format(r.closingPy)
  }

  /** Records as a CSV text: the header line, then one line per record. */
  function Render(header: string, rows: seq<ImportedRow>, format: real -> string): string {
    Join([header] + RowLines(rows, format), '\n')
  }

  /** A header line naming the ledger, current-year and previous-year
      columns in that order, such as `ledger,closingCy,closingPy`. */
  predicate StandardHeader(header: string) {
    '\n' !in header && NonBlank(header) && Layout(header) == Some(Columns(0, 1, Some(2)))
  }

  function RowLines(rows: seq<ImportedRow>, format: real -> string): (r: seq<string>)
    ensures |r| == |rows|
    ensures forall i :: 0 <= i < |rows| ==> r[i] == RenderRow(rows[i], format)
  {
    seq(|rows|, i requires 0 <= i < |rows| => RenderRow(rows[i], format))
  }

  /** A ledger name the format can carry: not blank, already trimmed, and
      free of commas and line breaks. */
  predicate PlainName(name: string) {
    && name != "" && Trim(name) == name
    && ',' !in name && '\n' !in name
  }

  /** A number format `parseFloat` reads back exactly, without commas or
      line breaks. */
  ghost predicate Readable(format: real -> string, parse: string -> Option<real>) {
    forall x :: ',' !in format(x) && '\n' !in format(x) && parse(Trim(format(x))) == Some(x)
  }

  /** A header of three cells keyed `ledger`, `closingcy`, `closingpy`. */
  lemma LayoutOfKeys(header: string, a: string, b: string, c: string)
    requires Split(header, ',') == [a, b, c]
    requires HeaderKey(a) == "ledger" && HeaderKey(b) == "closingcy" && HeaderKey(c) == "closingpy"
    ensures Layout(header) == Some(Columns(0, 1, Some(2)))
  {
    KeysOfThree(header, a, b, c);
    StandardLayout();
  }

  lemma KeysOfThree(header: string, a: string, b: string, c: string)
    requires Split(header, ',') == [a, b, c]
    ensures Keys(header) == [HeaderKey(a), HeaderKey(b), HeaderKey(c)]
  {
    Seqs.MapThree(a, b, c, HeaderKey);
  }

  /** The header the error message names, with the optional column:
      `ledger,closingCy,closingPy` is a standard header. */
  lemma StandardHeaderExample()
    ensures StandardHeader("ledger,closingCy,closingPy")
  {
    var h := "ledger,closingCy,closingPy";
    SplitLedgerHeader();
    LedgerKey();
    ClosingCyKey();
    ClosingPyKey();
    LayoutOfKeys(h, "ledger", "closingCy", "closingPy");
    assert h[0] == 'l';
    NonBlankStart(h);
    LedgerHeaderOneLine();
  }

  lemma LedgerHeaderOneLine()
    ensures '\n' !in "ledger,closingCy,closingPy"
  {
    var h := "ledger,closingCy,closingPy";
    forall i | 0 <= i < |h| ensures h[i] != '\n' {
    }
  }

  lemma SplitLedgerHeader()
    ensures Split("ledger,closingCy,closingPy", ',') == ["ledger", "closingCy", "closingPy"]
  {
    assert "ledger,closingCy,closingPy" == "ledger" + [','] + "closingCy" + [','] + "closingPy";
    SplitThree("ledger", "closingCy", "closingPy", ',');
  }

  lemma LedgerKey()
    ensures HeaderKey("ledger") == "ledger"
  {
    assert Lower("ledger") == "ledger";
    Seqs.FilterAll("ledger", NotSpace);
  }

  lemma ClosingCyKey()
    ensures HeaderKey("closingCy") == "closingcy"
  {
    assert Lower("closingCy") == "closingcy";
    Seqs.FilterAll("closingcy", NotSpace);
  }

  lemma ClosingPyKey()
    ensures HeaderKey("closingPy") == "closingpy"
  {
    assert Lower("closingPy") == "closingpy";
    Seqs.FilterAll("closingpy", NotSpace);
  }

  /** The standard keys give the standard columns. */
  lemma StandardLayout()
    ensures LayoutOf(["ledger", "closingcy", "closingpy"]) == Some(Columns(0, 1, Some(2)))
  {
    var keys := ["ledger", "closingcy", "closingpy"];
    KeysDistinct();
    FirstIndex(keys, "ledger", 0);
    FirstIndex(keys, "closingcy", 1);
    FirstIndex(keys, "closingpy", 2);
  }

  lemma KeysDistinct()
    ensures "ledger" != "closingcy" && "ledger" != "closingpy" && "closingcy" != "closingpy"
  {
    assert |"ledger"| == 6 && |"closingcy"| == 9 && |"closingpy"| == 9;
    assert "closingcy"[7] == 'c' && "closingpy"[7] == 'p';
  }

  /** The position of the first occurrence. */
  lemma FirstIndex(keys: seq<string>, name: string, k: nat)
    requires k < |keys| && keys[k] == name
    requires forall j :: 0 <= j < k ==> keys[j] != name
    ensures IndexOf(keys, name) == Some(k)
  {
  }

  /** A line whose first character is not white space is not blank. */
  lemma NonBlankStart(s: string)
    requires |s| > 0 && !IsSpace(s[0])
    ensures NonBlank(s)
  {
    TrimEmptyIff(s);
  }

  /** A rendered record reads back as itself under the standard layout. */
  lemma RowReadsBack(r: ImportedRow, format: real -> string, parse: string -> Option<real>)
    requires PlainName(r.ledger) && Readable(format, parse)
    ensures ParseLine(Columns(0, 1, Some(2)), parse, RenderRow(r, format)) == Some(r)
  {
    var a, b, c := r.ledger, format(r.closingCy), format(r.closingPy);
    assert RenderRow(r, format) == a + [','] + b + [','] + c;
    SplitThree(a, b, c, ',');
    ReadsThree(a, b, c, parse, r.closingCy, r.closingPy);
  }

  /** Three fields under the standard layout: a plain name and two
      readable numbers. */
  lemma ReadsThree(a: string, b: string, c: string, parse: string -> Option<real>, x: real, y: real)
    requires a != "" && Trim(a) == a
    requires parse(Trim(b)) == Some(x) && parse(Trim(c)) == Some(y)
    ensures ParseFields(Columns(0, 1, Some(2)), parse, [a, b, c]) == Some(ImportedRow(a, x, y))
  {
    var v := [a, b, c];
    FieldIs(v, 0, a);
    NumberIs(v, 1, parse, b, x);
    NumberIs(v, 2, parse, c, y);
    ReadsFields(v, parse, a, x, y);
  }

  lemma FieldIs(v: seq<string>, k: nat, t: string)
    requires k < |v| && v[k] == t && Trim(t) == t
    ensures Field(v, k) == Some(t)
  {
  }

  lemma NumberIs(v: seq<string>, k: nat, parse: string -> Option<real>, t: string, x: real)
    requires k < |v| && v[k] == t && parse(Trim(t)) == Some(x)
    ensures Number(v, k, parse) == Some(x)
  {
  }

  /** Fields that read as a name and two numbers make a record. */
  lemma ReadsFields(v: seq<string>, parse: string -> Option<real>, name: string, x: real, y: real)
    requires Field(v, 0) == Some(name) && name != ""
    requires Number(v, 1, parse) == Some(x) && Number(v, 2, parse) == Some(y)
    ensures ParseFields(Columns(0, 1, Some(2)), parse, v) == Some(ImportedRow(name, x, y))
  {
  }

  /** A rendered line holds no line break and is not blank. */
  lemma RowLineShape(r: ImportedRow, format: real -> string, parse: string -> Option<real>)
    requires PlainName(r.ledger) && Readable(format, parse)
    ensures '\n' !in RenderRow(r, format) && NonBlank(RenderRow(r, format))
  {
    var line := RenderRow(r, format);
    assert line[0] == r.ledger[0];
    NonBlankStart(line);
  }

  /** The lines of a rendering: the header, then one line per record, all
      kept. */
  lemma RenderLines(header: string, rows: seq<ImportedRow>, format: real -> string, parse: string -> Option<real>)
    requires '\n' !in header && NonBlank(header)
    requires forall i :: 0 <= i < |rows| ==> PlainName(rows[i].ledger)
    requires Readable(format, parse)
    ensures var lines := [header] + RowLines(rows, format);
      Kept(Split(Render(header, rows, format), '\n'), NonBlank) == Numbered(lines)
  {
    var lines := [header] + RowLines(rows, format);
    forall k | 0 <= k < |lines|
      ensures '\n' !in lines[k] && NonBlank(lines[k])
    {
      if k > 0 {
        RowLineShape(rows[k - 1], format, parse);
      }
    }
    SplitJoin(lines, '\n');
    Seqs.FilterAll(Numbered(lines), OnText(NonBlank));
  }

  /** A header with a layout followed by lines that all read gives their
      records. */
  lemma AssembleAll(kept: seq<Line>, layout: string -> Option<Columns>, row: (Columns, string) -> Option<ImportedRow>,
                    c: Columns, out: seq<ImportedRow>)
    requires |kept| == |out| + 1 && layout(kept[0].text) == Some(c)
    requires forall i :: 0 <= i < |out| ==> row(c, kept[i + 1].text) == Some(out[i])
    ensures Assemble(kept, layout, row) == Success(out)
  {
    var r := Assemble(kept, layout, row);
    assert forall i :: 1 <= i < |kept| ==> row(c, kept[i].text) == Some(out[i - 1]);
    assert r.Success?;
    assert |r.value| == |out|;
    assert forall i :: 0 <= i < |out| ==> r.value[i] == out[i];
    assert r.value == out;
  }

  /** Importing the rendering of records whose names are plain, under a
      standard header and with a number format that `parseFloat` reads
      back, gives the records back in order. */
  lemma ImportRender(header: string, rows: seq<ImportedRow>, format: real -> string, parse: string -> Option<real>)
    requires StandardHeader(header)
    requires forall i :: 0 <= i < |rows| ==> PlainName(rows[i].ledger)
    requires Readable(format, parse)
    ensures Import(Render(header, rows, format), parse) == Success(rows)
  {
    var lines := [header] + RowLines(rows, format);
    RenderLines(header, rows, format, parse);
    var kept := Numbered(lines);
    forall i | 0 <= i < |rows|
      ensures RowReader(parse)(Columns(0, 1, Some(2)), kept[i + 1].text) == Some(rows[i])
    {
      RowReadsBack(rows[i], format, parse);
    }
    AssembleAll(kept, Layout, RowReader(parse), Columns(0, 1, Some(2)), rows);
  }
}
