/** The notes report of components/reports/NotesToAccounts.tsx: the
    selected notes sorted by their `order` with a stable sort, and the rule
    that skips a note lacking a renderer or a number. The note number map
    comes from utils/noteUtils.ts, which is not part of this model, so it is
    a parameter. */
module NotesToAccounts {
  import Seqs

  /** A note selection with the fields the report reads. */
  datatype Note = Note(id: string, isSelected: bool, order: int)

  /** A rendered note: its heading number, its title and its id. */
  datatype Rendered = Rendered(id: string, title: string, number: int)

  predicate Sorted(s: seq<Note>) {
    forall i, j :: 0 <= i < j < |s| ==> s[i].order <= s[j].order
  }

  predicate IsSelected(n: Note) {
    n.isSelected
  }

  /** The test that picks the notes with one given `order`. */
  function HasOrder(k: int): Note -> bool {
    (n: Note) => n.order == k
  }

  /** `x` placed before the first element whose order is at least its own. */
  function Insert(x: Note, t: seq<Note>): (r: seq<Note>)
    ensures |r| == |t| + 1
    ensures multiset(r) == multiset(t) + multiset{x}
  {
    if |t| == 0 || x.order <= t[0].order then [x] + t
    else
      assert t == [t[0]] + t[1..];
      [t[0]] + Insert(x, t[1..])
  }

  /** Inserting into a sorted sequence keeps it sorted. */
  lemma {:induction false} InsertSorted(x: Note, t: seq<Note>)
    requires Sorted(t)
    ensures Sorted(Insert(x, t))
  {
    if |t| > 0 && x.order > t[0].order {
      var rest := Insert(x, t[1..]);
      InsertSorted(x, t[1..]);
      forall j | 0 <= j < |rest| ensures t[0].order <= rest[j].order {
        assert rest[j] in multiset(t[1..]) + multiset{x};
        if rest[j] != x {
          var m :| 0 <= m < |t[1..]| && t[1..][m] == rest[j];
          assert t[m + 1] == rest[j];
        }
      }
      SortedCons(t[0], rest);
    }
  }

  /** A note no later than every element of a sorted sequence can go in
      front of it. */
  lemma SortedCons(a: Note, rest: seq<Note>)
    requires Sorted(rest)
    requires forall j :: 0 <= j < |rest| ==> a.order <= rest[j].order
    ensures Sorted([a] + rest)
  {
    var r := [a] + rest;
    forall i, j | 0 <= i < j < |r| ensures r[i].order <= r[j].order {
      assert r[j] == rest[j - 1];
      if i > 0 {
        assert r[i] == rest[i - 1];
      }
    }
  }

  /** `Array.prototype.sort` with the comparator `a.order - b.order`, which
      the language requires to be stable; modelled as insertion sort. */
  function Sort(s: seq<Note>): (r: seq<Note>)
    ensures multiset(r) == multiset(s)
    ensures Sorted(r)
  {
    if |s| == 0 then []
    else
      assert s == [s[0]] + s[1..];
      InsertSorted(s[0], Sort(s[1..]));
      Insert(s[0], Sort(s[1..]))
  }

  /** Inserting `x` keeps it in front of every note of its own order. */
  lemma {:induction false} InsertStable(x: Note, t: seq<Note>, k: int)
    ensures Seqs.Filter(Insert(x, t), HasOrder(k)) == Seqs.Filter([x] + t, HasOrder(k))
  {
    var p := HasOrder(k);
    if |t| > 0 && x.order > t[0].order {
      InsertStable(x, t[1..], k);
      assert ([t[0]] + Insert(x, t[1..]))[1..] == Insert(x, t[1..]);
      assert ([x] + t[1..])[1..] == t[1..];
      assert ([x] + t)[1..] == t;
      assert t == [t[0]] + t[1..];
      assert ([x] + t)[1..][1..] == t[1..];
    }
  }

  /** The sort is stable: the notes of any one order keep their input
      order. */
  lemma {:induction false} SortStable(s: seq<Note>, k: int)
    ensures Seqs.Filter(Sort(s), HasOrder(k)) == Seqs.Filter(s, HasOrder(k))
  {
    if |s| > 0 {
      SortStable(s[1..], k);
      InsertStable(s[0], Sort(s[1..]), k);
      assert ([s[0]] + Sort(s[1..]))[1..] == Sort(s[1..]);
    }
  }

  /** `selectedAndSortedNotes` (lines 123-125). */
  function SelectedAndSorted(notes: seq<Note>): (r: seq<Note>)
    ensures forall n :: n in r <==> n in notes && n.isSelected
    ensures multiset(r) == multiset(Seqs.Filter(notes, IsSelected))
    ensures Sorted(r)
  {
    var selected := Seqs.Filter(notes, IsSelected);
    assert forall n :: n in Sort(selected) <==> n in multiset(Sort(selected));
    Sort(selected)
  }

  /** Among the selected notes of one order, the report keeps the order of
      the selections. */
  lemma SelectedStable(notes: seq<Note>, k: int)
    ensures Seqs.Filter(SelectedAndSorted(notes), HasOrder(k))
         == Seqs.Filter(Seqs.Filter(notes, IsSelected), HasOrder(k))
  {
    SortStable(Seqs.Filter(notes, IsSelected), k);
  }

  /** A note is shown when the report knows how to render it and it has a
      non-zero number (line 135: `!noteDetails || !noteNumber`). */
  predicate Renders(titles: map<string, string>, numbers: map<string, int>, n: Note) {
    n.id in titles && n.id in numbers && numbers[n.id] != 0
  }

  function Shown(titles: map<string, string>, numbers: map<string, int>): Note -> bool {
    (n: Note) => Renders(titles, numbers, n)
  }

  /** Filtering keeps a sorted sequence sorted. */
  lemma {:induction false} FilterSorted(s: seq<Note>, p: Note -> bool)
    requires Sorted(s)
    ensures Sorted(Seqs.Filter(s, p))
  {
    if |s| > 0 {
      var rest := Seqs.Filter(s[1..], p);
      FilterSorted(s[1..], p);
      if p(s[0]) {
        forall j | 0 <= j < |rest| ensures s[0].order <= rest[j].order {
          var m :| 0 <= m < |s[1..]| && s[1..][m] == rest[j];
          assert s[m + 1] == rest[j];
        }
        SortedCons(s[0], rest);
      }
    }
  }

  /** What the report renders (lines 132-143): the selected notes in sorted
      order, each with its title and number, skipping the ones that cannot
      be rendered. */
  function Report(notes: seq<Note>, titles: map<string, string>, numbers: map<string, int>): (r: seq<Rendered>)
    ensures forall i :: 0 <= i < |r| ==>
      r[i].id in titles && r[i].title == titles[r[i].id] && r[i].id in numbers && r[i].number == numbers[r[i].id]
      && r[i].number != 0
  {
    var shown := Seqs.Filter(SelectedAndSorted(notes), Shown(titles, numbers));
    assert forall i :: 0 <= i < |shown| ==> Renders(titles, numbers, shown[i]);
    seq(|shown|, i requires 0 <= i < |shown| =>
      Rendered(shown[i].id, titles[shown[i].id], numbers[shown[i].id]))
  }

  /** A note appears in the report exactly when it is selected and
      renderable; it appears under its own title and number, and the report
      follows the sort order. */
  lemma ReportContents(notes: seq<Note>, titles: map<string, string>, numbers: map<string, int>)
    ensures var shown := Seqs.Filter(SelectedAndSorted(notes), Shown(titles, numbers));
      && |Report(notes, titles, numbers)| == |shown|
      && (forall n :: n in shown <==> n in notes && n.isSelected && Renders(titles, numbers, n))
      && Sorted(shown)
    ensures var shown := Seqs.Filter(SelectedAndSorted(notes), Shown(titles, numbers));
      forall i :: 0 <= i < |shown| ==>
        Report(notes, titles, numbers)[i] == Rendered(shown[i].id, titles[shown[i].id], numbers[shown[i].id])
    ensures forall i :: 0 <= i < |Report(notes, titles, numbers)| ==>
      var e := Report(notes, titles, numbers)[i];
      e.id in titles && e.title == titles[e.id] && e.id in numbers && e.number == numbers[e.id] && e.number != 0
  {
    var shown := Seqs.Filter(SelectedAndSorted(notes), Shown(titles, numbers));
    FilterSorted(SelectedAndSorted(notes), Shown(titles, numbers));
  }

  /** A selected note without a renderer, or whose number is missing or 0,
      is left out. */
  lemma SkippedNotes(notes: seq<Note>, titles: map<string, string>, numbers: map<string, int>, n: Note)
    requires n.id !in titles || n.id !in numbers || numbers[n.id] == 0
    ensures forall i :: 0 <= i < |Report(notes, titles, numbers)| ==> Report(notes, titles, numbers)[i].id != n.id
  {
  }
}
