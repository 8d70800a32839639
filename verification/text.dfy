/** String operations with the meaning Python's `str` methods give them,
    restricted to ASCII case folding and ASCII whitespace. */
module Text {

  import opened Wrappers

  predicate IsAsciiLetter(c: char) {
    ('a' <= c <= 'z') || ('A' <= c <= 'Z')
  }

  predicate IsAsciiDigit(c: char) {
    '0' <= c <= '9'
  }

  /** The class `[a-zA-Z0-9_]` of Python's regular expressions. */
  predicate IsWordChar(c: char) {
    IsAsciiLetter(c) || IsAsciiDigit(c) || c == '_'
  }

  /** The ASCII characters `str.split()`, `str.strip()` and the regular
      expression class `\s` treat as blanks: space, the tab, line and page
      controls, and the four separators U+001C-U+001F. */
  predicate IsSpace(c: char) {
    || c == ' ' || c == '\t' || c == '\n' || c == '\r' || c == '\U{B}' || c == '\U{C}'
    || '\U{1C}' <= c <= '\U{1F}'
  }

  function LowerChar(c: char): char {
    if 'A' <= c <= 'Z' then (c as int + 32) as char else c
  }

  /** `s.lower()` on ASCII letters. */
  function Lower(s: string): (r: string)
    ensures |r| == |s|
    ensures forall i :: 0 <= i < |s| ==> r[i] == LowerChar(s[i])
  {
    if s == [] then [] else [LowerChar(s[0])] + Lower(s[1..])
  }

  function LStrip(s: string): (r: string)
    ensures |r| <= |s| && r == s[|s| - |r|..]
    ensures r != [] ==> !IsSpace(r[0])
  {
    if s != [] && IsSpace(s[0]) then LStrip(s[1..]) else s
  }

  function RStrip(s: string): (r: string)
    ensures |r| <= |s| && r == s[..|r|]
    ensures r != [] ==> !IsSpace(r[|r| - 1])
  {
    if s != [] && IsSpace(s[|s| - 1]) then RStrip(s[..|s| - 1]) else s
  }

  /** `s.strip()`. */
  function Strip(s: string): (r: string)
    ensures |r| <= |s|
    ensures r != [] ==> !IsSpace(r[0]) && !IsSpace(r[|r| - 1])
  {
    var l := LStrip(s);
    var r := RStrip(l);
    assert r != [] ==> r[0] == l[0];
    r
  }

  /** `s.rstrip(c)`: every trailing copy of `c` removed. */
  function RStripChar(s: string, c: char): (r: string)
    ensures |r| <= |s| && r == s[..|r|]
    ensures r == [] || r[|r| - 1] != c
    ensures forall i :: |r| <= i < |s| ==> s[i] == c
  {
    if s != [] && s[|s| - 1] == c then RStripChar(s[..|s| - 1], c) else s
  }

  predicate IsPrefix(p: string, s: string) {
    |p| <= |s| && s[..|p|] == p
  }

  predicate IsSuffix(p: string, s: string) {
    |p| <= |s| && s[|s| - |p|..] == p
  }

  /** A text ends with whatever its own ending ends with. */
  lemma {:induction false} SuffixOfSuffix(p: string, q: string, s: string)
    requires IsSuffix(p, q) && IsSuffix(q, s)
    ensures IsSuffix(p, s)
  {
    assert s[|s| - |p|..] == s[|s| - |q|..][|q| - |p|..];
  }

  /** A concatenation ends with its second part. */
  lemma {:induction false} SuffixOfConcat(a: string, b: string)
    ensures IsSuffix(b, a + b)
  {
    assert (a + b)[|a|..] == b;
  }

  /** `sub in s`; the empty string occurs in every string. */
  predicate Contains(s: string, sub: string)
    decreases |s|
  {
    IsPrefix(sub, s) || (s != [] && Contains(s[1..], sub))
  }

  /** Index of the first occurrence of `sub` in `s` (`s.find(sub)`). */
  function IndexOf(s: string, sub: string): (r: Option<nat>)
    ensures r.Some? ==> r.value + |sub| <= |s| && s[r.value..r.value + |sub|] == sub
    ensures r.None? <==> !Contains(s, sub)
    decreases |s|
  {
    if IsPrefix(sub, s) then Some(0)
    else if s == [] then None
    else match IndexOf(s[1..], sub)
      case Some(i) => Some(i + 1)
      case None => None
  }

  /** An occurrence at position `i` is found by `Contains`. */
  lemma {:induction false} ContainsAt(s: string, sub: string, i: nat)
    requires i + |sub| <= |s| && s[i..i + |sub|] == sub
    ensures Contains(s, sub)
    decreases i
  {
    if i > 0 {
      assert s[1..][i - 1..i - 1 + |sub|] == sub;
      ContainsAt(s[1..], sub, i - 1);
    }
  }

  /** A text that contains `q` contains every prefix of `q`. */
  lemma {:induction false} ContainsPrefixOf(t: string, p: string, q: string)
    requires IsPrefix(p, q) && Contains(t, q)
    ensures Contains(t, p)
    decreases |t|
  {
    if IsPrefix(q, t) {
      assert t[..|p|] == q[..|p|];
    } else {
      ContainsPrefixOf(t[1..], p, q);
    }
  }

  /** The text before the first occurrence of `sub` does not contain it. */
  lemma {:induction false} BeforeIndexLacks(s: string, sub: string)
    requires sub != [] && IndexOf(s, sub).Some?
    ensures !Contains(s[..IndexOf(s, sub).value], sub)
    decreases |s|
  {
    var i := IndexOf(s, sub).value;
    if i > 0 {
      assert !IsPrefix(sub, s);
      BeforeIndexLacks(s[1..], sub);
      assert s[..i][1..] == s[1..][..i - 1];
    }
  }

  /** A search result moved `k` characters to the right. */
  function Shift(found: Option<nat>, k: nat): Option<nat> {
    match found
    case Some(j) => Some(j + k)
    case None => None
  }

  /** A search in a text that does not start with `sub` resumes one
      character later. */
  lemma IndexOfStep(s: string, sub: string)
    requires s != [] && !IsPrefix(sub, s)
    ensures IndexOf(s, sub) == Shift(IndexOf(s[1..], sub), 1)
  {}

  /** A search that starts with `k` characters unlike the first of `sub`
      resumes after them. */
  lemma {:induction false} IndexOfSkip(s: string, sub: string, k: nat)
    requires sub != [] && k <= |s|
    requires forall i :: 0 <= i < k ==> s[i] != sub[0]
    ensures IndexOf(s, sub) == Shift(IndexOf(s[k..], sub), k)
    decreases k
  {
    if k > 0 {
      assert !IsPrefix(sub, s) by {
        if |sub| <= |s| { assert s[..|sub|][0] == s[0]; }
      }
      var t := s[1..];
      assert t[k - 1..] == s[k..];
      forall i | 0 <= i < k - 1 ensures t[i] != sub[0] {
        assert t[i] == s[i + 1];
      }
      IndexOfSkip(t, sub, k - 1);
      IndexOfStep(s, sub);
      var rest := IndexOf(s[k..], sub);
      assert IndexOf(t, sub) == Shift(rest, k - 1);
      assert Shift(Shift(rest, k - 1), 1) == Shift(rest, k);
    }
  }

  /** Every non-overlapping occurrence of `pat`, scanning left to right,
      replaced by `rep` (`s.replace(pat, rep)`). */
  function ReplaceAll(s: string, pat: string, rep: string): string
    requires pat != []
    decreases |s|
  {
    if |s| < |pat| then s
    else if s[..|pat|] == pat then rep + ReplaceAll(s[|pat|..], pat, rep)
    else [s[0]] + ReplaceAll(s[1..], pat, rep)
  }

  /** A string that does not start with `pat` is rewritten after its first character. */
  lemma ReplaceCons(c: char, x: string, pat: string, rep: string)
    requires pat != [] && !IsPrefix(pat, [c] + x)
    ensures ReplaceAll([c] + x, pat, rep) == [c] + ReplaceAll(x, pat, rep)
  {
    assert ([c] + x)[1..] == x;
  }

  /** A string that starts with `pat` has that occurrence rewritten first. */
  lemma ReplaceMatch(s: string, pat: string, rep: string)
    requires pat != [] && IsPrefix(pat, s)
    ensures ReplaceAll(s, pat, rep) == rep + ReplaceAll(s[|pat|..], pat, rep)
  {}

  /** Without the first character of `pat` there is nothing to rewrite. */
  lemma {:induction false} ReplaceAbsent(s: string, pat: string, rep: string)
    requires pat != [] && pat[0] !in s
    ensures ReplaceAll(s, pat, rep) == s
    decreases |s|
  {
    if |s| >= |pat| {
      assert s[..|pat|][0] == s[0];
      ReplaceAbsent(s[1..], pat, rep);
    }
  }

  /** Replacing `pat` by a character `c` that `s` lacks, then `c` by `pat`,
      gives back `s`. */
  lemma {:induction false} ReplaceInverse(s: string, pat: string, c: char)
    requires pat != [] && c !in s
    ensures ReplaceAll(ReplaceAll(s, pat, [c]), [c], pat) == s
    decreases |s|
  {
    if |s| < |pat| {
      ReplaceAbsent(s, [c], pat);
    } else if s[..|pat|] == pat {
      var x := ReplaceAll(s[|pat|..], pat, [c]);
      ReplaceInverse(s[|pat|..], pat, c);
      ReplaceMatch([c] + x, [c], pat);
      assert ([c] + x)[1..] == x;
      assert s == pat + s[|pat|..];
    } else {
      var x := ReplaceAll(s[1..], pat, [c]);
      ReplaceInverse(s[1..], pat, c);
      ReplaceCons(s[0], x, [c], pat);
      assert s == [s[0]] + s[1..];
    }
  }

  /** After replacing every `c` by a text without `c`, no `c` is left. */
  lemma {:induction false} ReplaceRemoves(s: string, c: char, rep: string)
    requires c !in rep
    ensures c !in ReplaceAll(s, [c], rep)
    decreases |s|
  {
    if |s| >= 1 {
      ReplaceRemoves(s[1..], c, rep);
    }
  }

  /** A character in neither the text nor the replacement stays absent. */
  lemma {:induction false} ReplaceKeepsAbsent(s: string, pat: string, rep: string, d: char)
    requires pat != [] && d !in s && d !in rep
    ensures d !in ReplaceAll(s, pat, rep)
    decreases |s|
  {
    if |s| >= |pat| {
      if s[..|pat|] == pat {
        ReplaceKeepsAbsent(s[|pat|..], pat, rep, d);
      } else {
        ReplaceKeepsAbsent(s[1..], pat, rep, d);
      }
    }
  }

  /** `s.replace(a, b)` for single characters changes no length and leaves no `a`. */
  lemma {:induction false} ReplaceCharSpec(s: string, a: char, b: char)
    ensures |ReplaceAll(s, [a], [b])| == |s|
    ensures forall i :: 0 <= i < |s| ==>
      ReplaceAll(s, [a], [b])[i] == (if s[i] == a then b else s[i])
    decreases |s|
  {
    if |s| >= 1 {
      ReplaceCharSpec(s[1..], a, b);
      var t := ReplaceAll(s[1..], [a], [b]);
      if s[..1] == [a] {
        assert ReplaceAll(s, [a], [b]) == [b] + t;
      } else {
        assert ReplaceAll(s, [a], [b]) == [s[0]] + t;
      }
    }
  }

  /** Position of the first `c` in `s`. */
  function FirstIndex(s: string, c: char): (i: nat)
    requires c in s
    ensures i < |s| && s[i] == c && c !in s[..i]
  {
    if s[0] == c then 0
    else
      var j := FirstIndex(s[1..], c);
      assert s[..j + 1] == [s[0]] + s[1..][..j];
      j + 1
  }

  /** The text after the first `sep`, or all of `s` when there is none:
      Python's `s.split(sep, 1)[-1]`. */
  function AfterFirst(s: string, sep: char): (r: string)
    ensures sep !in s ==> r == s
    ensures sep in s ==> r == s[FirstIndex(s, sep) + 1..]
  {
    if sep in s then s[FirstIndex(s, sep) + 1..] else s
  }

  /** The text before the first `sep`, or all of `s`: Python's `s.split(sep)[0]`. */
  function BeforeFirst(s: string, sep: char): (r: string)
    ensures IsPrefix(r, s) && sep !in r
    ensures |r| < |s| ==> s[|r|] == sep
  {
    if s == [] || s[0] == sep then [] else [s[0]] + BeforeFirst(s[1..], sep)
  }

  /** The text after the last `sep`: Python's `s.split(sep)[-1]`. */
  function AfterLast(s: string, sep: char): (r: string)
    ensures IsSuffix(r, s) && sep !in r
    ensures |r| < |s| ==> s[|s| - |r| - 1] == sep
    decreases |s|
  {
    if s == [] then []
    else if s[|s| - 1] == sep then []
    else AfterLast(s[..|s| - 1], sep) + [s[|s| - 1]]
  }

  /** Splitting `a + sep + b` at its first `sep` gives back `a` and `b`
      when `a` holds no `sep`. */
  lemma {:induction false} SplitFirstConcat(a: string, sep: char, b: string)
    requires sep !in a
    ensures BeforeFirst(a + [sep] + b, sep) == a
    ensures AfterFirst(a + [sep] + b, sep) == b
  {
    var s := a + [sep] + b;
    assert s[..|a|] == a;
    assert s[|a|] == sep;
    var i := FirstIndex(s, sep);
    assert s[i + 1..] == b;
    if a != [] {
      assert s[1..] == a[1..] + [sep] + b;
      SplitFirstConcat(a[1..], sep, b);
    }
  }

  /** The text after the last `sep` of `a + sep + b` is `b` when `b` holds
      no `sep`. */
  lemma {:induction false} AfterLastConcat(a: string, sep: char, b: string)
    requires sep !in b
    ensures AfterLast(a + [sep] + b, sep) == b
    decreases |b|
  {
    var s := a + [sep] + b;
    if b != [] {
      assert s[..|s| - 1] == a + [sep] + b[..|b| - 1];
      AfterLastConcat(a, sep, b[..|b| - 1]);
      assert b == b[..|b| - 1] + [b[|b| - 1]];
    }
  }

  /** `s.split()`: the maximal runs of non-blank characters, in order. */
  function Words(s: string): (ws: seq<string>)
    ensures forall w :: w in ws ==> w != [] && forall c :: c in w ==> !IsSpace(c)
    decreases |s|
  {
    var t := LStrip(s);
    if t == [] then []
    else
      var n := WordLen(t);
      [t[..n]] + Words(t[n..])
  }

  /** Length of the leading run of non-blank characters. */
  function WordLen(s: string): (n: nat)
    requires s != [] && !IsSpace(s[0])
    ensures 0 < n <= |s|
    ensures forall i :: 0 <= i < n ==> !IsSpace(s[i])
    ensures n < |s| ==> IsSpace(s[n])
    decreases |s|
  {
    if |s| == 1 || IsSpace(s[1]) then 1 else 1 + WordLen(s[1..])
  }

  /** A string whose ends are not blank is its own `strip()`. */
  lemma StripTrimmed(s: string)
    requires s != [] && !IsSpace(s[0]) && !IsSpace(s[|s| - 1])
    ensures Strip(s) == s
  {}

  /** A non-empty run of non-blank characters. */
  predicate IsToken(u: string) {
    u != [] && forall i :: 0 <= i < |u| ==> !IsSpace(u[i])
  }

  /** A single token splits into itself. */
  lemma WordsOfToken(u: string)
    requires IsToken(u)
    ensures Words(u) == [u]
  {
    assert LStrip(u) == u;
    WordLenUnique(u, |u|);
    assert u[..|u|] == u;
    assert u[|u|..] == [];
    assert Words([]) == [];
    assert Words(u) == [u[..WordLen(u)]] + Words(u[WordLen(u)..]);
  }

  lemma WordsSkipBlank(s: string)
    requires s != [] && IsSpace(s[0])
    ensures Words(s) == Words(s[1..])
  {
    var t := LStrip(s);
    assert t == LStrip(s[1..]);
    if t != [] {
      assert Words(s) == [t[..WordLen(t)]] + Words(t[WordLen(t)..]);
      assert Words(s[1..]) == [t[..WordLen(t)]] + Words(t[WordLen(t)..]);
    }
  }

  /** A text that starts with a non-blank splits off its first word. */
  lemma {:induction false} WordsUnfold(s: string)
    requires s != [] && !IsSpace(s[0])
    ensures Words(s) == [s[..WordLen(s)]] + Words(s[WordLen(s)..])
  {
    assert LStrip(s) == s;
  }

  /** A blank and then a token is that one token. */
  lemma {:induction false} WordsOfBlankToken(c: char, u: string)
    requires IsSpace(c) && IsToken(u)
    ensures Words([c] + u) == [u]
  {
    var rest := [c] + u;
    WordsSkipBlank(rest);
    assert rest[1..] == u;
    WordsOfToken(u);
  }

  /** A leading token followed by a blank, or by nothing, is the first word. */
  lemma {:induction false} WordsCons(s: string, n: nat)
    requires 0 < n <= |s| && forall i :: 0 <= i < n ==> !IsSpace(s[i])
    requires n == |s| || IsSpace(s[n])
    ensures Words(s) == [s[..n]] + Words(s[n..])
  {
    WordLenUnique(s, n);
    WordsUnfold(s);
  }

  /** The first step of `WordsPair`: `a` is split off as the first word. */
  lemma {:induction false} WordsPairHead(a: string, c: char, u: string)
    requires IsToken(a) && IsSpace(c)
    ensures var s := a + [c] + u; Words(s) == [s[..|a|]] + Words(s[|a|..])
  {
    var s := a + [c] + u;
    assert forall i :: 0 <= i < |a| ==> s[i] == a[i];
    assert s[|a|] == c;
    WordsCons(s, |a|);
  }

  /** The last step of `WordsPair`, on the two parts of the text. */
  lemma {:induction false} WordsPairJoin(a: string, u: string, s: string, t: string)
    requires |a| <= |s| && s[..|a|] == a && s[|a|..] == t
    requires Words(s) == [s[..|a|]] + Words(s[|a|..])
    requires Words(t) == [u]
    ensures Words(s) == [a, u]
  {}

  /** The two sides of a blank inserted into a text. */
  lemma {:induction false} SidesOfBlank(a: string, c: char, u: string)
    ensures |a| <= |a + [c] + u|
    ensures (a + [c] + u)[..|a|] == a && (a + [c] + u)[|a|..] == [c] + u
    ensures c in a + [c] + u
  {
    assert (a + [c] + u)[|a|] == c;
  }

  /** Two tokens joined by a space split back into the two tokens. */
  lemma {:induction false} WordsPair(a: string, u: string)
    requires IsToken(a) && IsToken(u)
    ensures Words(a + [' '] + u) == [a, u]
  {
    WordsPairHead(a, ' ', u);
    SidesOfBlank(a, ' ', u);
    WordsOfBlankToken(' ', u);
    WordsPairJoin(a, u, a + [' '] + u, [' '] + u);
  }

  /** `WordLen` is the position of the first blank, or the length. */
  lemma WordLenUnique(s: string, m: nat)
    requires 0 < m <= |s| && !IsSpace(s[0])
    requires forall i :: 0 <= i < m ==> !IsSpace(s[i])
    requires m == |s| || IsSpace(s[m])
    ensures WordLen(s) == m
  {
  }

  // ---------------------------------------------------------------------
  // Code-point order on strings, as Python's `sorted` uses it.

  /** `a < b` on strings: a proper prefix comes first, otherwise the first
      differing character decides. */
  predicate LexLess(a: string, b: string)
    decreases |a|
  {
    if a == [] then b != []
    else if b == [] then false
    else a[0] < b[0] || (a[0] == b[0] && LexLess(a[1..], b[1..]))
  }

  lemma {:induction false} LexLessIrreflexive(a: string)
    ensures !LexLess(a, a)
    decreases |a|
  {
    if a != [] {
      LexLessIrreflexive(a[1..]);
    }
  }

  lemma {:induction false} LexLessTransitive(a: string, b: string, c: string)
    requires LexLess(a, b) && LexLess(b, c)
    ensures LexLess(a, c)
    decreases |a|
  {
    if a != [] && a[0] == b[0] && b[0] == c[0] {
      LexLessTransitive(a[1..], b[1..], c[1..]);
    }
  }

  lemma {:induction false} LexLessTotal(a: string, b: string)
    requires a != b
    ensures LexLess(a, b) || LexLess(b, a)
    decreases |a|
  {
    if a != [] && b != [] && a[0] == b[0] {
      assert a == [a[0]] + a[1..] && b == [b[0]] + b[1..];
      LexLessTotal(a[1..], b[1..]);
    }
  }

  lemma {:induction false} LexLessAsymmetric(a: string, b: string)
    requires LexLess(a, b)
    ensures !LexLess(b, a)
  {
    if LexLess(b, a) {
      LexLessTransitive(a, b, a);
      LexLessIrreflexive(a);
    }
  }

  predicate StrictlySorted(s: seq<string>) {
    forall i, j :: 0 <= i < j < |s| ==> LexLess(s[i], s[j])
  }

  /** Inserts `x` into a strictly sorted list unless it is already there. */
  function InsertUnique(x: string, s: seq<string>): (r: seq<string>)
    requires StrictlySorted(s)
    ensures StrictlySorted(r)
    ensures forall y :: y in r <==> y == x || y in s
    ensures r != [] && (r[0] == x || (s != [] && r[0] == s[0]))
  {
    if s == [] then [x]
    else if s[0] == x then s
    else if LexLess(x, s[0]) then
      var r := [x] + s;
      assert forall j :: 0 < j < |s| ==> LexLess(s[0], s[j]);
      forall j | 0 < j < |r| ensures LexLess(x, r[j]) {
        if j > 1 { LexLessTransitive(x, s[0], r[j]); }
      }
      r
    else
      LexLessTotal(x, s[0]);
      var t := InsertUnique(x, s[1..]);
      var r := [s[0]] + t;
      forall j | 0 < j < |r| ensures LexLess(s[0], r[j]) {
        assert r[j] in t;
      }
      r
  }

  /** Python's `sorted(set(items))`: the distinct items in code-point order. */
  function SortedUnique(items: seq<string>): (r: seq<string>)
    ensures StrictlySorted(r)
    ensures forall y :: y in r <==> y in items
  {
    if items == [] then [] else InsertUnique(items[0], SortedUnique(items[1..]))
  }

  /** A strictly sorted list is determined by its elements: the sorted list
      of a set is unique. */
  lemma HeadIn(s: seq<string>)
    ensures s != [] ==> s[0] in s
  {}

  lemma {:induction false} SortedUniqueIsUnique(r: seq<string>, t: seq<string>)
    requires StrictlySorted(r) && StrictlySorted(t)
    requires forall y :: y in r <==> y in t
    ensures r == t
    decreases |r|
  {
    if r != [] && t != [] {
      if r[0] != t[0] {
        LexLessTotal(r[0], t[0]);
        if LexLess(r[0], t[0]) {
          assert r[0] in t;
          var j :| 0 <= j < |t| && t[j] == r[0];
          LexLessAsymmetric(t[0], t[j]);
        } else {
          HeadIn(r);
          HeadIn(t);
          assert false;
        }
      }
      assert r[0] == t[0];
      assert r == [r[0]] + r[1..] && t == [t[0]] + t[1..];
      forall y ensures y in r[1..] <==> y in t[1..] {
        if y in r[1..] {
          var k :| 0 <= k < |r[1..]| && r[1..][k] == y;
          assert LexLess(r[0], r[k + 1]);
          LexLessIrreflexive(y);
          assert y in t && y != t[0];
        }
        if y in t[1..] {
          var k :| 0 <= k < |t[1..]| && t[1..][k] == y;
          assert LexLess(t[0], t[k + 1]);
          LexLessIrreflexive(y);
          assert y in r && y != r[0];
        }
      }
      SortedUniqueIsUnique(r[1..], t[1..]);
    } else if r != [] {
      HeadIn(r);
      assert false;
    } else if t != [] {
      HeadIn(t);
      assert false;
    }
  }

  /** `sep.join(parts)`. */
  function Join(parts: seq<string>, sep: string): string {
    if parts == [] then []
    else if |parts| == 1 then parts[0]
    else parts[0] + sep + Join(parts[1..], sep)
  }

  function DigitChar(d: nat): char
    requires d < 10
  {
    ('0' as int + d) as char
  }

  /** `str(n)` for a natural number. */
  function NatToString(n: nat): (r: string)
    ensures r != [] && forall c :: c in r ==> IsAsciiDigit(c)
  {
    if n < 10 then [DigitChar(n)] else NatToString(n / 10) + [DigitChar(n % 10)]
  }

  /** `str(n)` for any integer. */
  function IntToString(n: int): (r: string)
    ensures n >= 0 ==> r == NatToString(n)
    ensures n < 0 ==> r == "-" + NatToString(-n)
  {
    if n < 0 then "-" + NatToString(-n) else NatToString(n)
  }
}
