/** `detectLedgerKeywords` in utils/fuzzyMatch.ts: five independent
    case-insensitive whole-word tests, one per category, each adding its tag
    when any of its terms occurs in the name between word boundaries. */
module Keywords {
  import opened Text
  import Seqs

  datatype Tag = Asset | Liability | Income | Expense | Equity

  /** The order in which the tests run and therefore the order of the tags
      in the result. */
  function Rank(t: Tag): int {
    match t
    case Asset => 0
    case Liability => 1
    case Income => 2
    case Expense => 3
    case Equity => 4
  }

  /** The alternatives of each category's pattern. */
  function Terms(t: Tag): seq<string> {
    match t
    case Asset => ["cash", "bank", "receivable", "debtor", "inventory", "stock", "asset",
                   "equipment", "machinery", "building", "land", "vehicle"]
    case Liability => ["payable", "creditor", "loan", "liability", "borrowing", "debt", "overdraft"]
    case Income => ["sales", "revenue", "income", "receipt", "earning", "profit", "gain",
                    "commission received"]
    case Expense => ["expense", "cost", "payment", "purchase", "salaries", "wages", "rent",
                     "utility", "depreciation", "commission paid"]
    case Equity => ["capital", "equity", "reserve", "surplus", "retained"]
  }

  /** The regex class `\w` without the Unicode flag. */
  predicate IsWordChar(c: char) {
    ('a' <= c <= 'z') || ('A' <= c <= 'Z') || ('0' <= c <= '9') || c == '_'
  }

  /** `\b` at position `p`: a word character on exactly one side, the ends
      of the string counting as non-word. */
  predicate Boundary(s: string, p: nat)
    requires p <= |s|
  {
    (p > 0 && IsWordChar(s[p - 1])) != (p < |s| && IsWordChar(s[p]))
  }

  /** `\bw\b` matches `s` at position `p`. */
  predicate MatchesAt(s: string, w: string, p: nat) {
    && p + |w| <= |s|
    && s[p..p + |w|] == w
    && Boundary(s, p)
    && Boundary(s, p + |w|)
  }

  /** `\bw\b` matches `s` at `p` or at some later position. */
  predicate WordFrom(s: string, w: string, p: nat)
    decreases |s| - p
  {
    p + |w| <= |s| && (MatchesAt(s, w, p) || WordFrom(s, w, p + 1))
  }

  predicate ContainsWord(s: string, w: string) {
    WordFrom(s, w, 0)
  }

  /** `\b(w1|w2|...)\b` matches `s`: one of the alternatives occurs as a
      whole word. */
  predicate AnyWord(s: string, ws: seq<string>) {
    exists k :: 0 <= k < |ws| && ContainsWord(s, ws[k])
  }

  /** The category's regex matches the name once it is lower-cased (the
      regexes carry no flag; the name is lower-cased first). */
  predicate HasTag(name: string, t: Tag) {
    AnyWord(Lower(name), Terms(t))
  }

  /** Every term is written in lower case, so lower-casing the name alone
      makes the match insensitive to case. */
  lemma TermsLowerCase(t: Tag, k: nat)
    requires k < |Terms(t)|
    ensures Lower(Terms(t)[k]) == Terms(t)[k]
  {
    match t
    case Asset => AssetTermsLower();
    case Liability => LiabilityTermsLower();
    case Income => IncomeTermsLower();
    case Expense => ExpenseTermsLower();
    case Equity => EquityTermsLower();
  }

  lemma AssetTermsLower()
    ensures forall k, c :: 0 <= k < |Terms(Asset)| && 0 <= c < |Terms(Asset)[k]| ==> !IsUpper(Terms(Asset)[k][c])
  {
  }

  lemma LiabilityTermsLower()
    ensures forall k, c :: 0 <= k < |Terms(Liability)| && 0 <= c < |Terms(Liability)[k]| ==> !IsUpper(Terms(Liability)[k][c])
  {
  }

  lemma IncomeTermsLower()
    ensures forall k, c :: 0 <= k < |Terms(Income)| && 0 <= c < |Terms(Income)[k]| ==> !IsUpper(Terms(Income)[k][c])
  {
  }

  lemma ExpenseTermsLower()
    ensures forall k, c :: 0 <= k < |Terms(Expense)| && 0 <= c < |Terms(Expense)[k]| ==> !IsUpper(Terms(Expense)[k][c])
  {
  }

  lemma EquityTermsLower()
    ensures forall k, c :: 0 <= k < |Terms(Equity)| && 0 <= c < |Terms(Equity)[k]| ==> !IsUpper(Terms(Equity)[k][c])
  {
  }

  /** Every tag, in rank order. */
  const AllTags: seq<Tag> := [Asset, Liability, Income, Expense, Equity]

  lemma AllTagsListed(t: Tag)
    ensures t == AllTags[Rank(t)]
  {
  }

  /** Filtering the tags keeps exactly those passing the test, in rank
      order. */
  lemma FilterTags(p: Tag -> bool)
    ensures forall t :: t in Seqs.Filter(AllTags, p) <==> p(t)
    ensures Seqs.Increasing(Seqs.Filter(AllTags, p), Rank)
  {
    var r := Seqs.Filter(AllTags, p);
    forall t: Tag ensures t in r <==> p(t) {
      AllTagsListed(t);
      if t in r {
        var i :| 0 <= i < |r| && r[i] == t;
      }
    }
    assert Seqs.Increasing(AllTags, Rank);
    Seqs.FilterIncreasing(AllTags, p, Rank);
  }

  /** The tags of `name`, in the fixed order asset, liability, income,
      expense, equity: each tag present exactly when its pattern matches,
      none twice, so at most five. */
  function Detect(name: string): (r: seq<Tag>)
    ensures forall t :: t in r <==> HasTag(name, t)
    ensures Seqs.Increasing(r, Rank)
    ensures |r| <= 5
  {
    FilterTags(t => HasTag(name, t));
    Seqs.Filter(AllTags, t => HasTag(name, t))
  }

  /** Two names that agree after lower-casing get the same tags. */
  lemma CaseInsensitive(a: string, b: string)
    requires Lower(a) == Lower(b)
    ensures Detect(a) == Detect(b)
  {
    Seqs.FilterCongruent(AllTags, t => HasTag(a, t), t => HasTag(b, t));
  }

  /** Lower-casing the name first changes nothing. */
  lemma LowerFirst(name: string)
    ensures Detect(Lower(name)) == Detect(name)
  {
    LowerIdempotent(name);
    CaseInsensitive(Lower(name), name);
  }

  /** In a string of word characters no word starts after position 0:
      there is never a boundary strictly inside it. */
  lemma {:induction false} NoWordInside(s: string, w: string, p: nat)
    requires |w| > 0 && p > 0
    requires forall i :: 0 <= i < |s| ==> IsWordChar(s[i])
    ensures !WordFrom(s, w, p)
    decreases |s| - p
  {
    if p + |w| <= |s| {
      assert !Boundary(s, p);
      NoWordInside(s, w, p + 1);
    }
  }

  /** In a name made only of word characters, the only whole word is the
      name itself. */
  lemma WordOnlyWhole(s: string, w: string)
    requires |w| > 0
    requires forall i :: 0 <= i < |s| ==> IsWordChar(s[i])
    requires ContainsWord(s, w)
    ensures w == s
  {
    NoWordInside(s, w, 1);
  }

  /** No alternative is the bare word "commission": each differs from it in
      length or in its first letter. */
  lemma NoTermIsCommission(t: Tag, k: nat)
    requires k < |Terms(t)|
    ensures |Terms(t)[k]| > 0
    ensures |Terms(t)[k]| != 10 || Terms(t)[k][0] != 'c'
  {
  }

  /** A bare "commission", in any case, is neither income nor expense (nor
      anything else): only the phrases "commission received" and
      "commission paid" carry a category. */
  lemma BareCommission()
    ensures Detect("commission") == []
    ensures Detect("Commission") == []
  {
    NoTagsForCommission();
    CapitalCommission();
    CaseInsensitive("Commission", "commission");
  }

  lemma NoTagsForCommission()
    ensures Detect("commission") == []
  {
    forall t: Tag ensures !HasTag("commission", t) {
      NoTagForCommission(t);
    }
  }

  lemma CapitalCommission()
    ensures Lower("Commission") == Lower("commission")
  {
    assert Lower("Commission") == "commission";
  }

  lemma NoTagForCommission(t: Tag)
    ensures !HasTag("commission", t)
  {
    var s := "commission";
    assert Lower(s) == s;
    if AnyWord(s, Terms(t)) {
      var k :| 0 <= k < |Terms(t)| && ContainsWord(s, Terms(t)[k]);
      NoTermIsCommission(t, k);
      CommissionIsWord();
      WordOnlyWhole(s, Terms(t)[k]);
    }
  }

  /** "commission" is made of word characters only. */
  lemma CommissionIsWord()
    ensures forall i :: 0 <= i < |"commission"| ==> IsWordChar("commission"[i])
  {
  }

  /** The two commission phrases are tagged. */
  lemma CommissionPhrases()
    ensures Income in Detect("commission received")
    ensures Expense in Detect("commission paid")
  {
    CommissionReceived();
    CommissionPaid();
  }

  lemma CommissionReceived()
    ensures HasTag("commission received", Income)
  {
    var received := "commission received";
    assert Lower(received) == received;
    assert MatchesAt(received, Terms(Income)[7], 0);
  }

  lemma CommissionPaid()
    ensures HasTag("commission paid", Expense)
  {
    var paid := "commission paid";
    assert Lower(paid) == paid;
    assert MatchesAt(paid, Terms(Expense)[9], 0);
  }
}
