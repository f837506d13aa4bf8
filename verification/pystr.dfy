/** The Python `str` operations the program relies on: `isspace`, `strip`,
    `split`, `join`, `lower`, `upper`, `title` and `replace`, over `seq<char>`. */
module PyStr {

  /** `str.isspace()` for one character: the Unicode whitespace set that
      `strip()` and `split()` with no argument both use. */
  predicate IsSpace(c: char) {
    var n := c as int;
    || (9 <= n <= 13) || (28 <= n <= 32) || n == 0x85 || n == 0xA0 || n == 0x1680
    || (0x2000 <= n <= 0x200A) || n == 0x2028 || n == 0x2029 || n == 0x202F
    || n == 0x205F || n == 0x3000
  }

  predicate AllSpace(s: string) {
    forall i :: 0 <= i < |s| ==> IsSpace(s[i])
  }

  predicate NoSpace(s: string) {
    forall i :: 0 <= i < |s| ==> !IsSpace(s[i])
  }

  /** A string that `strip()` leaves alone and that is not empty. */
  predicate Stripped(s: string) {
    s != [] && !IsSpace(s[0]) && !IsSpace(s[|s| - 1])
  }

  predicate IsSuffix(a: string, b: string) {
    |a| <= |b| && b[|b| - |a|..] == a
  }

  /** Number of whitespace characters `lstrip()` removes. */
  function LeadingSpaces(s: string): (n: nat)
    ensures n <= |s|
    ensures n < |s| ==> !IsSpace(s[n])
  {
    if s != [] && IsSpace(s[0]) then 1 + LeadingSpaces(s[1..]) else 0
  }

  lemma {:induction false} LeadingSpacesAreSpaces(s: string)
    ensures forall i :: 0 <= i < LeadingSpaces(s) ==> IsSpace(s[i])
    ensures LeadingSpaces(s) == |s| <==> AllSpace(s)
  {
    if s != [] && IsSpace(s[0]) {
      LeadingSpacesAreSpaces(s[1..]);
      forall i | 1 <= i < LeadingSpaces(s) ensures IsSpace(s[i]) {
        assert s[i] == s[1..][i - 1];
      }
    }
  }

  /** Number of whitespace characters `rstrip()` removes. */
  function TrailingSpaces(s: string): (n: nat)
    ensures n <= |s|
    ensures n < |s| ==> !IsSpace(s[|s| - n - 1])
  {
    if s != [] && IsSpace(s[|s| - 1]) then 1 + TrailingSpaces(s[..|s| - 1]) else 0
  }

  lemma {:induction false} TrailingSpacesAreSpaces(s: string)
    ensures forall i :: |s| - TrailingSpaces(s) <= i < |s| ==> IsSpace(s[i])
  {
    if s != [] && IsSpace(s[|s| - 1]) {
      TrailingSpacesAreSpaces(s[..|s| - 1]);
      forall i | |s| - TrailingSpaces(s) <= i < |s| - 1 ensures IsSpace(s[i]) {
        assert s[i] == s[..|s| - 1][i];
      }
    }
  }

  /** `str.strip()` with no argument. */
  function Strip(s: string): (r: string)
    ensures LeadingSpaces(s) + |r| <= |s|
    ensures r == s[LeadingSpaces(s)..LeadingSpaces(s) + |r|]
    ensures forall i :: LeadingSpaces(s) + |r| <= i < |s| ==> IsSpace(s[i])
    ensures r == [] <==> AllSpace(s)
    ensures r != [] ==> Stripped(r)
    ensures s == [] || Stripped(s) ==> r == s
  {
    StripTail(s);
    StripBlank(s);
    StripEnds(s);
    StripOfStripped(s);
    s[LeadingSpaces(s)..StripEnd(s)]
  }

  /** Where `strip()` stops: before the trailing whitespace of what
      follows the leading whitespace. */
  function StripEnd(s: string): (e: nat)
    ensures LeadingSpaces(s) <= e <= |s|
  {
    |s| - TrailingSpaces(s[LeadingSpaces(s)..])
  }

  lemma StripTail(s: string)
    ensures forall i :: StripEnd(s) <= i < |s| ==> IsSpace(s[i])
  {
    TrailingSpacesAreSpaces(s[LeadingSpaces(s)..]);
    forall i | StripEnd(s) <= i < |s| ensures IsSpace(s[i]) {
      assert s[i] == s[LeadingSpaces(s)..][i - LeadingSpaces(s)];
    }
  }

  lemma StripBlank(s: string)
    ensures StripEnd(s) == LeadingSpaces(s) <==> AllSpace(s)
  {
    LeadingSpacesAreSpaces(s);
    if LeadingSpaces(s) < |s| {
      TrailingSpacesAreSpaces(s[LeadingSpaces(s)..]);
      assert s[LeadingSpaces(s)..][0] == s[LeadingSpaces(s)];
    }
  }

  lemma StripEnds(s: string)
    ensures StripEnd(s) > LeadingSpaces(s) ==> Stripped(s[LeadingSpaces(s)..StripEnd(s)])
  {
    if StripEnd(s) > LeadingSpaces(s) {
      LastBeforeTrailing(s, LeadingSpaces(s), s[LeadingSpaces(s)..]);
      StrippedSlice(s, LeadingSpaces(s), StripEnd(s));
    }
  }

  lemma StripOfStripped(s: string)
    ensures s == [] || Stripped(s) ==> LeadingSpaces(s) == 0 && StripEnd(s) == |s|
  {
    if s != [] && Stripped(s) {
      assert s[0..] == s;
    }
  }

  lemma LastBeforeTrailing(s: string, k: nat, t: string)
    requires k <= |s| && t == s[k..] && TrailingSpaces(t) < |t|
    ensures !IsSpace(s[|s| - TrailingSpaces(t) - 1])
  {
    assert s[|s| - TrailingSpaces(t) - 1] == t[|t| - TrailingSpaces(t) - 1];
  }

  lemma StrippedSlice(s: string, i: nat, j: nat)
    requires i < j <= |s| && !IsSpace(s[i]) && !IsSpace(s[j - 1])
    ensures Stripped(s[i..j])
  {
    assert s[i..j][0] == s[i] && s[i..j][j - i - 1] == s[j - 1];
  }

  /** Length of the maximal non-whitespace prefix. */
  function WordLength(t: string): (k: nat)
    ensures k <= |t|
    ensures t != [] && !IsSpace(t[0]) ==> k > 0
  {
    if t != [] && !IsSpace(t[0]) then 1 + WordLength(t[1..]) else 0
  }

  lemma {:induction false} WordLengthSpec(t: string)
    ensures NoSpace(t[..WordLength(t)])
    ensures WordLength(t) < |t| ==> IsSpace(t[WordLength(t)])
  {
    if t != [] && !IsSpace(t[0]) {
      WordLengthSpec(t[1..]);
      assert t[..WordLength(t)] == [t[0]] + t[1..][..WordLength(t[1..])];
    }
  }

  /** `s.lstrip()`. */
  function LStrip(s: string): (r: string)
    ensures |r| <= |s|
    ensures r != [] ==> !IsSpace(r[0]) && r[|r| - 1] == s[|s| - 1]
  {
    s[LeadingSpaces(s)..]
  }

  /** The first maximal run of non-whitespace, after the leading whitespace. */
  function FirstWord(s: string): string {
    LStrip(s)[..WordLength(LStrip(s))]
  }

  /** What follows the first word. */
  function AfterWord(s: string): (r: string)
    ensures |r| <= |s| && (LStrip(s) != [] ==> |r| < |s|)
    ensures r != [] ==> r[|r| - 1] == s[|s| - 1]
  {
    LStrip(s)[WordLength(LStrip(s))..]
  }

  /** `str.split()` with no separator: the maximal runs of non-whitespace. */
  function Words(s: string): (ws: seq<string>)
    decreases |s|
  {
    if LStrip(s) == [] then [] else [FirstWord(s)] + Words(AfterWord(s))
  }

  /** `str.split(maxsplit=m)` with no separator: at most `m` splits; the
      remainder after the last split loses its leading whitespace and keeps
      everything else, internal whitespace included. */
  function Split(s: string, m: nat): (parts: seq<string>)
    ensures |parts| <= m + 1
    decreases |s|
  {
    if LStrip(s) == [] then []
    else if m == 0 then [LStrip(s)]
    else [FirstWord(s)] + Split(AfterWord(s), m - 1)
  }

  /** There is nothing to split exactly when the string is all whitespace. */
  lemma LStripEmpty(s: string)
    ensures LStrip(s) == [] <==> AllSpace(s)
  {
    LeadingSpacesAreSpaces(s);
  }

  /** The first word is a non-empty run of non-whitespace; the rest, if
      any, starts with whitespace. */
  lemma FirstWordSpec(s: string)
    requires LStrip(s) != []
    ensures FirstWord(s) != [] && NoSpace(FirstWord(s))
    ensures LStrip(s) == FirstWord(s) + AfterWord(s)
    ensures AfterWord(s) != [] ==> IsSpace(AfterWord(s)[0])
  {
    WordLengthSpec(LStrip(s));
  }

  /** Every word is a non-empty run of non-whitespace; there are none
      exactly when the string is all whitespace. */
  lemma {:induction false} WordsAreWords(s: string)
    ensures forall i :: 0 <= i < |Words(s)| ==> Words(s)[i] != [] && NoSpace(Words(s)[i])
    ensures Words(s) == [] <==> AllSpace(s)
    decreases |s|
  {
    LStripEmpty(s);
    if LStrip(s) != [] {
      FirstWordSpec(s);
      WordsAreWords(AfterWord(s));
      ConsWords(FirstWord(s), Words(AfterWord(s)));
    }
  }

  lemma ConsWords(w: string, ws: seq<string>)
    requires w != [] && NoSpace(w)
    requires forall i :: 0 <= i < |ws| ==> ws[i] != [] && NoSpace(ws[i])
    ensures forall i :: 0 <= i < |[w] + ws| ==> ([w] + ws)[i] != [] && NoSpace(([w] + ws)[i])
  {
  }

  /** Leading whitespace does not change the words. */
  lemma WordsOfLStrip(s: string)
    ensures Words(LStrip(s)) == Words(s)
  {
    var t := LStrip(s);
    assert LeadingSpaces(t) == 0;
    assert LStrip(t) == t;
  }

  /** The last part of a split; the empty string when there are none. */
  function Last(ps: seq<string>): string {
    if ps == [] then [] else ps[|ps| - 1]
  }

  /** All parts but the last. */
  function Init(ps: seq<string>): seq<string> {
    if ps == [] then [] else ps[..|ps| - 1]
  }

  lemma ConsLast(x: string, ps: seq<string>)
    requires ps != []
    ensures Last([x] + ps) == Last(ps) && Init([x] + ps) == [x] + Init(ps)
  {
    assert ([x] + ps)[..|ps|] == [x] + ps[..|ps| - 1];
  }

  /** A bounded split is the full split with its tail left unsplit: the parts
      it returns are the words themselves when fewer than `m` splits were
      possible, and otherwise the first `m` words followed by a remainder
      whose own words are the rest. */
  lemma SplitRefinesWords(s: string, m: nat)
    ensures |Split(s, m)| <= m ==> Split(s, m) == Words(s)
    ensures |Split(s, m)| == m + 1 ==> Words(s) == Init(Split(s, m)) + Words(Last(Split(s, m)))
  {
    if |Split(s, m)| <= m {
      ShortSplitIsWords(s, m);
    } else {
      FullSplitRefinesWords(s, m);
    }
  }

  lemma {:induction false} ShortSplitIsWords(s: string, m: nat)
    requires |Split(s, m)| <= m
    ensures Split(s, m) == Words(s)
    decreases |s|
  {
    if LStrip(s) != [] {
      var n: nat := m - 1;
      SplitUnfold(s, m, n);
      ShortSplitIsWords(AfterWord(s), n);
    }
  }

  lemma {:induction false} FullSplitRefinesWords(s: string, m: nat)
    requires |Split(s, m)| == m + 1
    ensures Words(s) == Init(Split(s, m)) + Words(Last(Split(s, m)))
    decreases |s|
  {
    if m == 0 {
      WordsOfLStrip(s);
      assert Init(Split(s, m)) == [];
    } else {
      var n: nat := m - 1;
      SplitUnfold(s, m, n);
      FullSplitRefinesWords(AfterWord(s), n);
      FullSplitStep(s, m, n);
    }
  }

  lemma InitUnfold(s: string, m: nat, n: nat)
    requires m == n + 1 && LStrip(s) != [] && |Split(AfterWord(s), n)| == n + 1
    ensures Init(Split(s, m)) == [FirstWord(s)] + Init(Split(AfterWord(s), n))
    ensures Last(Split(s, m)) == Last(Split(AfterWord(s), n))
  {
    SplitUnfold(s, m, n);
    ConsLast(FirstWord(s), Split(AfterWord(s), n));
  }

  lemma WordsUnfold(s: string)
    requires LStrip(s) != []
    ensures Words(s) == [FirstWord(s)] + Words(AfterWord(s))
  {
  }

  lemma AppendAssoc<T>(x: seq<T>, a: seq<T>, b: seq<T>)
    ensures x + (a + b) == (x + a) + b
  {
  }

  lemma FullSplitStep(s: string, m: nat, n: nat)
    requires m == n + 1 && LStrip(s) != [] && |Split(AfterWord(s), n)| == n + 1
    requires Words(AfterWord(s)) == Init(Split(AfterWord(s), n)) + Words(Last(Split(AfterWord(s), n)))
    ensures Words(s) == Init(Split(s, m)) + Words(Last(Split(s, m)))
  {
    InitUnfold(s, m, n);
    WordsUnfold(s);
    AppendAssoc([FirstWord(s)], Init(Split(AfterWord(s), n)), Words(Last(Split(AfterWord(s), n))));
  }

  /** The parts of a split: each non-empty and starting with
      non-whitespace, each but the last a single word. */
  predicate SplitShape(ps: seq<string>) {
    && (forall i :: 0 <= i < |ps| ==> ps[i] != [] && !IsSpace(ps[i][0]))
    && (forall i :: 0 <= i < |ps| - 1 ==> NoSpace(ps[i]))
  }

  lemma ConsSplitShape(w: string, ps: seq<string>)
    requires w != [] && NoSpace(w) && SplitShape(ps)
    ensures SplitShape([w] + ps)
  {
    var r := [w] + ps;
    forall i | 1 <= i < |r| ensures r[i] == ps[i - 1] { }
  }

  /** Every part is non-empty and starts with a non-whitespace character;
      every part but the last is a single word. */
  lemma {:induction false} SplitParts(s: string, m: nat)
    ensures SplitShape(Split(s, m))
    ensures Split(s, m) == [] <==> AllSpace(s)
    decreases |s|
  {
    LStripEmpty(s);
    if LStrip(s) != [] {
      if m == 0 {
        assert Split(s, m) == [LStrip(s)];
      } else {
        var n: nat := m - 1;
        FirstWordSpec(s);
        SplitUnfold(s, m, n);
        SplitParts(AfterWord(s), n);
        ConsSplitShape(FirstWord(s), Split(AfterWord(s), n));
      }
    }
  }

  /** One step of `Split` for `m == n + 1`: the first word, then the split
      of the rest with one split fewer. */
  lemma SplitUnfold(s: string, m: nat, n: nat)
    requires m == n + 1
    ensures LStrip(s) != [] ==> Split(s, m) == [FirstWord(s)] + Split(AfterWord(s), n)
  {
    SplitUnfoldPred(s, m);
    SplitArg(AfterWord(s), m - 1, n);
  }

  lemma SplitUnfoldPred(s: string, m: nat)
    requires m > 0
    ensures LStrip(s) != [] ==> Split(s, m) == [FirstWord(s)] + Split(AfterWord(s), m - 1)
  {
  }

  lemma SplitArg(s: string, a: nat, b: nat)
    requires a == b
    ensures Split(s, a) == Split(s, b)
  {
  }

  /** A run of non-whitespace is one word. */
  lemma {:induction false} WordLengthOfWord(t: string)
    requires NoSpace(t)
    ensures WordLength(t) == |t|
  {
    if t != [] {
      assert NoSpace(t[1..]) by {
        forall i | 0 <= i < |t[1..]| ensures !IsSpace(t[1..][i]) {
          assert t[1..][i] == t[i + 1];
        }
      }
      WordLengthOfWord(t[1..]);
    }
  }

  /** `w.split() == [w]` for a single word `w`. */
  lemma WordsOfWord(t: string)
    requires t != [] && NoSpace(t)
    ensures Words(t) == [t]
  {
    WordLengthOfWord(t);
    assert LeadingSpaces(t) == 0;
    assert LStrip(t) == t;
    assert FirstWord(t) == t;
    assert AfterWord(t) == [];
    assert Words([]) == [];
  }

  /** The word ending at a space: `WordLength(w + x) == |w|` when `x` starts
      with whitespace. */
  lemma {:induction false} WordLengthBeforeSpace(w: string, x: string)
    requires NoSpace(w) && x != [] && IsSpace(x[0])
    ensures WordLength(w + x) == |w|
  {
    if w == [] {
      assert (w + x)[0] == x[0];
    } else {
      assert (w + x)[0] == w[0];
      assert (w + x)[1..] == w[1..] + x;
      assert NoSpace(w[1..]) by {
        forall i | 0 <= i < |w[1..]| ensures !IsSpace(w[1..][i]) {
          assert w[1..][i] == w[i + 1];
        }
      }
      WordLengthBeforeSpace(w[1..], x);
    }
  }

  /** Leading whitespace does not change the words. */
  lemma WordsAfterSpace(r: string)
    ensures Words(" " + r) == Words(r)
  {
    var s := " " + r;
    assert s[1..] == r;
    assert LStrip(s) == LStrip(r);
  }

  /** `(w + " " + r).split() == [w] + r.split()` for a word `w`. */
  lemma WordsPrependWord(w: string, r: string)
    requires w != [] && NoSpace(w)
    ensures Words(w + " " + r) == [w] + Words(r)
  {
    var s := w + " " + r;
    assert s == w + (" " + r);
    WordLengthBeforeSpace(w, " " + r);
    assert LeadingSpaces(s) == 0 by {
      assert s[0] == w[0];
    }
    assert LStrip(s) == s;
    assert FirstWord(s) == w;
    assert AfterWord(s) == " " + r;
    WordsAfterSpace(r);
  }

  /** A stripped string with a single word is that word. */
  lemma SingleWordStripped(p: string)
    requires Stripped(p) && |Words(p)| == 1
    ensures Words(p) == [p]
  {
    LStripOfStripped(p);
    WordsUnfold(p);
    WordsAreWords(AfterWord(p));
    SpaceAfterWordEndsString(p);
    FirstWordSpec(p);
    assert AfterWord(p) == [];
    assert FirstWord(p) == p;
    WordsOfEmpty();
  }

  lemma LStripOfStripped(p: string)
    requires Stripped(p)
    ensures LStrip(p) == p
  {
    assert LeadingSpaces(p) == 0;
  }

  lemma SpaceAfterWordEndsString(p: string)
    requires AllSpace(AfterWord(p))
    ensures AfterWord(p) != [] ==> IsSpace(p[|p| - 1])
  {
  }

  lemma WordsOfEmpty()
    ensures Words([]) == []
  {
  }

  /** When a bounded split makes all `m` splits, its last part runs to
      the end of the string. */
  lemma {:induction false} SplitLastEndsString(s: string, m: nat)
    requires |Split(s, m)| == m + 1
    ensures Last(Split(s, m)) != [] && Last(Split(s, m))[|Last(Split(s, m))| - 1] == s[|s| - 1]
    decreases m, 1
  {
    if m == 0 {
      assert Split(s, 0) == [LStrip(s)];
    } else {
      SplitLastEndsStep(s, m, m - 1);
    }
  }

  lemma {:induction false} SplitLastEndsStep(s: string, m: nat, n: nat)
    requires m == n + 1 && |Split(s, m)| == m + 1
    ensures Last(Split(s, m)) != [] && Last(Split(s, m))[|Last(Split(s, m))| - 1] == s[|s| - 1]
    decreases m, 0
  {
    SplitUnfold(s, m, n);
    ConsLast(FirstWord(s), Split(AfterWord(s), n));
    SplitLastEndsString(AfterWord(s), n);
  }

  /** Of a stripped string, a bounded split that makes all its splits
      ends in a stripped part. */
  lemma SplitLastStripped(s: string, m: nat)
    requires Stripped(s) && |Split(s, m)| == m + 1
    ensures Stripped(Last(Split(s, m)))
  {
    SplitParts(s, m);
    SplitLastEndsString(s, m);
  }

  /** `sep.join(ps)`. */
  function Join(ps: seq<string>, sep: string): (r: string)
    ensures ps == [] ==> r == []
    ensures |ps| > 0 ==> ps[0] <= r && IsSuffix(ps[|ps| - 1], r)
  {
    if ps == [] then []
    else if |ps| == 1 then ps[0]
    else
      var tail := ps[1..];
      var rest := Join(tail, sep);
      assert ps[|ps| - 1] == tail[|tail| - 1];
      ps[0] + sep + rest
  }

  lemma JoinTwo(a: string, b: string, sep: string)
    ensures Join([a, b], sep) == a + sep + b
  {
    assert [a, b][1..] == [b];
  }

  predicate IsAsciiUpper(c: char) { 'A' <= c <= 'Z' }
  predicate IsAsciiLower(c: char) { 'a' <= c <= 'z' }
  predicate IsAsciiLetter(c: char) { IsAsciiUpper(c) || IsAsciiLower(c) }
  predicate IsAsciiDigit(c: char) { '0' <= c <= '9' }

  /** `str.lower()` on one character, exact wherever the result is compared
      with an ASCII word: ASCII capitals and the KELVIN SIGN (the one other
      character Python lowers to a single ASCII letter) are mapped; every
      other character is left as it is. */
  function LowerChar(c: char): char {
    if IsAsciiUpper(c) then (c as int + 32) as char
    else if c == '\U{212A}' then 'k'
    else c
  }

  /** `str.upper()` on one character, ASCII letters only. */
  function UpperChar(c: char): char {
    if IsAsciiLower(c) then (c as int - 32) as char else c
  }

  function Lower(s: string): (r: string)
    ensures |r| == |s|
    ensures forall i :: 0 <= i < |s| ==> r[i] == LowerChar(s[i])
  {
    seq(|s|, i requires 0 <= i < |s| => LowerChar(s[i]))
  }

  function Upper(s: string): (r: string)
    ensures |r| == |s|
    ensures forall i :: 0 <= i < |s| ==> r[i] == UpperChar(s[i])
  {
    seq(|s|, i requires 0 <= i < |s| => UpperChar(s[i]))
  }

  /** `s.replace(a, b)` for single characters `a` and `b`. */
  function ReplaceChar(s: string, a: char, b: char): (r: string)
    ensures |r| == |s|
    ensures forall i :: 0 <= i < |s| ==> r[i] == (if s[i] == a then b else s[i])
  {
    seq(|s|, i requires 0 <= i < |s| => if s[i] == a then b else s[i])
  }

  /** `str.title()` on ASCII text: a letter is upper-cased when the character
      before it is not a letter and lower-cased otherwise. */
  function TitleCase(s: string): (r: string)
    ensures |r| == |s|
    ensures s != [] ==> r[0] == UpperChar(s[0])
    ensures forall i :: 0 < i < |s| ==>
      r[i] == (if IsAsciiLetter(s[i - 1]) then LowerChar(s[i]) else UpperChar(s[i]))
  {
    TitleFrom(s, false)
  }

  function TitleFrom(s: string, previousCased: bool): (r: string)
    ensures |r| == |s|
    ensures s != [] ==> r[0] == (if previousCased then LowerChar(s[0]) else UpperChar(s[0]))
    ensures forall i :: 0 < i < |s| ==>
      r[i] == (if IsAsciiLetter(s[i - 1]) then LowerChar(s[i]) else UpperChar(s[i]))
  {
    if s == [] then []
    else
      var c := if previousCased then LowerChar(s[0]) else UpperChar(s[0]);
      var rest := TitleFrom(s[1..], IsAsciiLetter(s[0]));
      var r := [c] + rest;
      forall i | 1 < i < |s| ensures r[i] == rest[i - 1] && s[i - 1] == s[1..][i - 2] { }
      r
  }
}
