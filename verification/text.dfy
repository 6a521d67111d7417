/** The JavaScript string primitives the core leans on: `toLowerCase`,
    `trim`, `replace(/\s/g, '')`, `split` on one character and its inverse
    `join`. Case mapping covers ASCII letters only. */
module Text {
  import Seqs

  /** The characters that `String.prototype.trim` strips and that the regex
      class `\s` matches: ASCII white space, the line terminators and the
      Unicode space separators. */
  predicate IsSpace(c: char) {
    || c == ' ' || c == '\t' || c == '\n' || c == '\r' || c == '\U{000B}' || c == '\U{000C}'
    || c == '\U{00A0}' || c == '\U{1680}' || ('\U{2000}' <= c <= '\U{200A}')
    || c == '\U{2028}' || c == '\U{2029}' || c == '\U{202F}' || c == '\U{205F}'
    || c == '\U{3000}' || c == '\U{FEFF}'
  }

  predicate IsUpper(c: char) {
    'A' <= c <= 'Z'
  }

  function LowerChar(c: char): (r: char)
    ensures !IsUpper(r)
    ensures !IsUpper(c) ==> r == c
  {
    if IsUpper(c) then (c as int + 32) as char else c
  }

  /** `s.toLowerCase()` restricted to ASCII letters. */
  function Lower(s: string): (r: string)
    ensures |r| == |s|
    ensures forall i :: 0 <= i < |s| ==> r[i] == LowerChar(s[i])
  {
    seq(|s|, i requires 0 <= i < |s| => LowerChar(s[i]))
  }

  lemma LowerIdempotent(s: string)
    ensures Lower(Lower(s)) == Lower(s)
  {
  }

  /** Leading white space removed. */
  function TrimStart(s: string): (r: string)
    ensures |r| <= |s| && r == s[|s| - |r|..]
    ensures |r| > 0 ==> !IsSpace(r[0])
    ensures forall i :: 0 <= i < |s| - |r| ==> IsSpace(s[i])
  {
    if |s| > 0 && IsSpace(s[0]) then TrimStart(s[1..]) else s
  }

  /** Trailing white space removed. */
  function TrimEnd(s: string): (r: string)
    ensures |r| <= |s| && r == s[..|r|]
    ensures |r| > 0 ==> !IsSpace(r[|r| - 1])
    ensures forall i :: |r| <= i < |s| ==> IsSpace(s[i])
  {
    if |s| > 0 && IsSpace(s[|s| - 1]) then TrimEnd(s[..|s| - 1]) else s
  }

  /** `s.trim()`: the slice of `s` left once white space is removed from both
      ends. */
  function Trim(s: string): (r: string)
    ensures |r| <= |s|
    ensures |r| > 0 ==> !IsSpace(r[0]) && !IsSpace(r[|r| - 1])
  {
    TrimEnd(TrimStart(s))
  }

  /** The trimmed string is a slice of the original: what is left once the
      leading white space is skipped. */
  lemma TrimSlice(s: string)
    ensures var k := |s| - |TrimStart(s)|; k + |Trim(s)| <= |s| && Trim(s) == s[k..k + |Trim(s)|]
  {
  }

  /** A string trims to nothing exactly when every character is white
      space. */
  lemma TrimEmptyIff(s: string)
    ensures Trim(s) == "" <==> forall i :: 0 <= i < |s| ==> IsSpace(s[i])
  {
    var t := TrimStart(s);
    if |t| > 0 {
      assert IsSpace(t[0]) || Trim(s) != "";
      assert s[|s| - |t|] == t[0];
    }
  }

  /** A string with no white space at either end trims to itself. */
  lemma TrimmedFixed(s: string)
    requires |s| > 0 ==> !IsSpace(s[0]) && !IsSpace(s[|s| - 1])
    ensures Trim(s) == s
  {
  }

  predicate NotSpace(c: char) {
    !IsSpace(c)
  }

  /** `s.replace(/\s/g, '')`: every white-space character removed, the
      others kept in order. */
  function StripSpaces(s: string): (r: string)
    ensures |r| <= |s|
    ensures forall i :: 0 <= i < |r| ==> !IsSpace(r[i])
    ensures forall i :: 0 <= i < |r| ==> r[i] in s
    ensures forall i :: 0 <= i < |s| && !IsSpace(s[i]) ==> s[i] in r
    ensures r == Seqs.Filter(s, NotSpace)
  {
    if |s| == 0 then ""
    else if IsSpace(s[0]) then StripSpaces(s[1..])
    else [s[0]] + StripSpaces(s[1..])
  }

  /** `s.split(c)` for a one-character separator: the pieces between
      separators, so `"a,,b"` gives `["a", "", "b"]` and `""` gives `[""]`. */
  function Split(s: string, c: char): (r: seq<string>)
    ensures |r| >= 1
    ensures forall k :: 0 <= k < |r| ==> c !in r[k]
  {
    if |s| == 0 then [""]
    else
      var rest := Split(s[1..], c);
      if s[0] == c then [""] + rest
      else [[s[0]] + rest[0]] + rest[1..]
  }

  /** `parts.join(c)`. */
  function Join(parts: seq<string>, c: char): string
    requires |parts| >= 1
  {
    if |parts| == 1 then parts[0] else parts[0] + [c] + Join(parts[1..], c)
  }

  /** Joining the pieces of a split gives the original string back. */
  lemma {:induction false} JoinSplit(s: string, c: char)
    ensures Join(Split(s, c), c) == s
  {
    if |s| > 0 {
      var rest := Split(s[1..], c);
      JoinSplit(s[1..], c);
      if s[0] == c {
        assert Split(s, c) == [""] + rest;
        assert (["" ] + rest)[1..] == rest;
      } else {
        var parts := [[s[0]] + rest[0]] + rest[1..];
        if |rest| == 1 {
          assert Join(parts, c) == [s[0]] + rest[0];
        } else {
          assert parts[1..] == rest[1..];
          assert Join(rest, c) == rest[0] + [c] + Join(rest[1..], c);
        }
        assert [s[0]] + s[1..] == s;
      }
    }
  }

  /** Splitting a join of separator-free pieces gives the pieces back. */
  lemma {:induction false} SplitJoin(parts: seq<string>, c: char)
    requires |parts| >= 1
    requires forall k :: 0 <= k < |parts| ==> c !in parts[k]
    ensures Split(Join(parts, c), c) == parts
  {
    if |parts| == 1 {
      SplitSeparatorFree(parts[0], c);
    } else {
      SplitJoin(parts[1..], c);
      SplitPrefix(parts[0], Join(parts[1..], c), c);
      assert [parts[0]] + parts[1..] == parts;
    }
  }

  /** A string without the separator splits into itself. */
  lemma {:induction false} SplitSeparatorFree(s: string, c: char)
    requires c !in s
    ensures Split(s, c) == [s]
  {
    if |s| > 0 {
      SplitSeparatorFree(s[1..], c);
      assert [s[0]] + s[1..] == s;
    }
  }

  /** Splitting `p + c + t`, where `p` holds no separator, yields `p`
      followed by the pieces of `t`. */
  lemma {:induction false} SplitPrefix(p: string, t: string, c: char)
    requires c !in p
    ensures Split(p + [c] + t, c) == [p] + Split(t, c)
  {
    if |p| == 0 {
      assert p + [c] + t == [c] + t;
      assert ([c] + t)[1..] == t;
    } else {
      SplitPrefix(p[1..], t, c);
      var s := p + [c] + t;
      assert s[1..] == p[1..] + [c] + t;
      assert [p[0]] + p[1..] == p;
    }
  }

  /** A string without white space is left alone by `StripSpaces`. */
  lemma {:induction false} StripSpacesFixed(s: string)
    requires forall i :: 0 <= i < |s| ==> !IsSpace(s[i])
    ensures StripSpaces(s) == s
  {
    if |s| > 0 {
      StripSpacesFixed(s[1..]);
      assert [s[0]] + s[1..] == s;
    }
  }

  /** Lower-casing turns no other character into white space. */
  lemma LowerKeepsSpace(c: char)
    requires IsSpace(LowerChar(c))
    ensures IsSpace(c)
  {
    if IsUpper(c) {
      assert false;
    }
  }

  /** The trimmed string sits in the original with only white space on
      either side of it. */
  lemma TrimFrame(h: string) returns (k: nat)
    ensures k + |Trim(h)| <= |h| && Trim(h) == h[k..k + |Trim(h)|]
    ensures forall i :: 0 <= i < k ==> IsSpace(h[i])
    ensures forall i :: k + |Trim(h)| <= i < |h| ==> IsSpace(h[i])
  {
    var t := TrimStart(h);
    k := |h| - |t|;
    assert t == h[k..];
    forall i | k + |Trim(h)| <= i < |h| ensures IsSpace(h[i]) {
      assert t[i - k] == h[i];
    }
  }

  /** Lower-casing a slice is slicing the lower-cased string. */
  lemma LowerSlice(h: string, k: nat, j: nat)
    requires k <= j <= |h|
    ensures Lower(h[k..j]) == Lower(h)[k..j]
  {
  }

  /** Trimming, lower-casing and removing white space leaves what removing
      white space from the lower-cased string leaves: the trim is
      subsumed. */
  lemma StripLowerTrim(h: string)
    ensures StripSpaces(Lower(Trim(h))) == Seqs.Filter(Lower(h), NotSpace)
  {
    var k := TrimFrame(h);
    var j := k + |Trim(h)|;
    var low := Lower(h);
    LowerSlice(h, k, j);
    assert forall i :: 0 <= i < k ==> low[i] == h[i];
    assert forall i :: j <= i < |h| ==> low[i] == h[i];
    Seqs.FilterFrame(low, k, j, NotSpace);
  }

  /** Removing white space keeps any property every character has. */
  lemma {:induction false} StripSpacesKeeps(s: string, p: char -> bool)
    requires forall i :: 0 <= i < |s| ==> p(s[i])
    ensures forall i :: 0 <= i < |StripSpaces(s)| ==> p(StripSpaces(s)[i])
  {
    if |s| > 0 {
      StripSpacesKeeps(s[1..], p);
    }
  }

  /** Three pieces joined by a separator they do not contain split back
      into the three. */
  lemma SplitThree(a: string, b: string, c: string, sep: char)
    requires sep !in a && sep !in b && sep !in c
    ensures Split(a + [sep] + b + [sep] + c, sep) == [a, b, c]
  {
    var parts := [a, b, c];
    assert parts[1..] == [b, c];
    assert parts[1..][1..] == [c];
    assert Join([c], sep) == c;
    assert Join([b, c], sep) == b + [sep] + c;
    assert Join(parts, sep) == a + [sep] + (b + [sep] + c);
    assert a + [sep] + (b + [sep] + c) == a + [sep] + b + [sep] + c;
    SplitJoin(parts, sep);
  }
}
