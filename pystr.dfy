/**
 * The Python string builtins the core relies on: `str.strip`, `str.rfind`,
 * `str.split`, `str.join`, `str.startswith`, `str(int)` and `int(str)`.
 * Whitespace is the set `str.isspace()` accepts; `int()` skips a slightly smaller set
 * and only ASCII digits are modelled.
 */
module PyStr {
  import opened Wrappers

  /** The characters `str.isspace()` accepts, which `str.strip()` and `str.split()` remove. */
  predicate IsSpace(c: char) {
    || '\t' <= c <= '\r'
    || '\U{1C}' <= c <= ' '
    || c == '\U{85}' || c == '\U{A0}' || c == '\U{1680}'
    || '\U{2000}' <= c <= '\U{200A}'
    || c == '\U{2028}' || c == '\U{2029}' || c == '\U{202F}' || c == '\U{205F}' || c == '\U{3000}'
  }

  /**
   * The whitespace `int()` skips around its digits: the same set without the four
   * separators U+001C-U+001F, which `int()` keeps and then rejects.
   */
  predicate IsIntSpace(c: char) {
    IsSpace(c) && !('\U{1C}' <= c <= '\U{1F}')
  }

  predicate IsDigit(c: char) {
    '0' <= c <= '9'
  }

  /** `s.lstrip()` */
  function LStrip(s: string): (r: string)
    ensures |r| <= |s|
  {
    if |s| > 0 && IsSpace(s[0]) then LStrip(s[1..]) else s
  }

  /** `s.rstrip()` */
  function RStrip(s: string): (r: string)
    ensures |r| <= |s|
  {
    if |s| > 0 && IsSpace(s[|s| - 1]) then RStrip(s[..|s| - 1]) else s
  }

  /** `lstrip` removes exactly the leading whitespace. */
  lemma {:induction false} LStripRemovesLeadingSpace(s: string)
    ensures var r := LStrip(s);
      && r == s[|s| - |r|..]
      && (r == [] || !IsSpace(r[0]))
      && forall i :: 0 <= i < |s| - |r| ==> IsSpace(s[i])
  {
    if |s| > 0 && IsSpace(s[0]) {
      LStripRemovesLeadingSpace(s[1..]);
    }
  }

  /** `rstrip` removes exactly the trailing whitespace. */
  lemma {:induction false} RStripRemovesTrailingSpace(s: string)
    ensures var r := RStrip(s);
      && r == s[..|r|]
      && (r == [] || !IsSpace(r[|r| - 1]))
      && forall i :: |r| <= i < |s| ==> IsSpace(s[i])
  {
    if |s| > 0 && IsSpace(s[|s| - 1]) {
      RStripRemovesTrailingSpace(s[..|s| - 1]);
    }
  }

  /** `s.strip()` */
  function Strip(s: string): string {
    RStrip(LStrip(s))
  }

  lemma StripUnchanged(s: string)
    requires s == [] || (!IsSpace(s[0]) && !IsSpace(s[|s| - 1]))
    ensures Strip(s) == s
  {
  }

  /** Leading whitespace is cut from the front part only when the rest starts with a non-space. */
  lemma {:induction false} LStripAppend(p: string, d: string)
    requires d != [] && !IsSpace(d[0])
    ensures LStrip(p + d) == LStrip(p) + d
  {
    if p != [] {
      assert (p + d)[1..] == p[1..] + d;
      LStripAppend(p[1..], d);
    } else {
      assert p + d == d;
    }
  }

  lemma RStripNoTrailing(s: string)
    requires s != [] && !IsSpace(s[|s| - 1])
    ensures RStrip(s) == s
  {
  }

  /** `s.startswith(p)` */
  predicate StartsWith(s: string, p: string) {
    |p| <= |s| && s[..|p|] == p
  }

  /** `t in s` for strings: `t` occurs in `s` at some position. */
  ghost predicate Contains(s: string, t: string) {
    exists i :: 0 <= i <= |s| && StartsWith(s[i..], t)
  }

  /** A text occurs in any string built around it. */
  lemma ContainsMiddle(a: string, t: string, b: string)
    ensures Contains(a + t + b, t)
  {
    var s := a + t + b;
    assert s[|a|..][..|t|] == t;
    assert StartsWith(s[|a|..], t);
  }

  /** `s.replace(t, u)`: every occurrence of `t`, left to right and not overlapping, becomes `u`. */
  function Replace(s: string, t: string, u: string): string
    decreases |s|
  {
    if t == [] then (if s == [] then u else u + [s[0]] + Replace(s[1..], t, u))
    else if |s| < |t| then s
    else if s[..|t|] == t then u + Replace(s[|t|..], t, u)
    else [s[0]] + Replace(s[1..], t, u)
  }

  /** A text that does not occur is not replaced. */
  lemma {:induction false} ReplaceAbsent(s: string, t: string, u: string)
    requires t != [] && !Contains(s, t)
    ensures Replace(s, t, u) == s
    decreases |s|
  {
    if |s| >= |t| {
      assert s[0..] == s;
      forall i | 0 <= i <= |s[1..]|
        ensures !StartsWith(s[1..][i..], t)
      {
        assert s[1..][i..] == s[i + 1..];
      }
      ReplaceAbsent(s[1..], t, u);
      assert [s[0]] + s[1..] == s;
    }
  }

  /** A leading occurrence is replaced. */
  lemma ReplaceFront(t: string, s: string, u: string)
    requires t != []
    ensures Replace(t + s, t, u) == u + Replace(s, t, u)
  {
    assert (t + s)[..|t|] == t && (t + s)[|t|..] == s;
  }

  /** A character that cannot start `t` does not make it occur. */
  lemma ContainsCons(c: char, s: string, t: string)
    requires t != [] && t[0] != c && !Contains(s, t)
    ensures !Contains([c] + s, t)
  {
    forall i | 0 < i <= |[c] + s|
      ensures !StartsWith(([c] + s)[i..], t)
    {
      assert ([c] + s)[i..] == s[i - 1..];
    }
    assert !StartsWith(([c] + s)[0..], t);
  }

  /** Stripping a space put before an already stripped string. */
  lemma StripSpaced(s: string)
    requires s == [] || (!IsSpace(s[0]) && !IsSpace(s[|s| - 1]))
    ensures Strip(" " + s) == s
  {
    assert (" " + s)[1..] == s;
    assert LStrip(" " + s) == s;
    if s != [] {
      RStripNoTrailing(s);
    }
  }

  /** `s.rfind(c)`: the last index holding `c`, or -1. */
  function RFind(s: string, c: char): (i: int)
    ensures -1 <= i < |s|
    ensures i >= 0 ==> s[i] == c
    ensures forall j :: i < j < |s| ==> s[j] != c
  {
    if |s| == 0 then -1
    else if s[|s| - 1] == c then |s| - 1
    else RFind(s[..|s| - 1], c)
  }

  lemma {:induction false} RFindAppend(u: string, d: string, c: char)
    requires c !in d
    ensures RFind(u + d, c) == RFind(u, c)
  {
    if d != [] {
      var init := d[..|d| - 1];
      assert (u + d)[..|u + d| - 1] == u + init;
      assert d[|d| - 1] != c;
      RFindAppend(u, init, c);
    } else {
      assert u + d == u;
    }
  }

  /** `s.split(sep)` for a one-character separator: never empty. */
  function Split(s: string, sep: char): (r: seq<string>)
    ensures |r| > 0
  {
    if s == [] then [""]
    else if s[0] == sep then [""] + Split(s[1..], sep)
    else
      var rest := Split(s[1..], sep);
      [[s[0]] + rest[0]] + rest[1..]
  }

  /** The first field of a split runs up to the first separator; there is a second field exactly when the separator occurs. */
  lemma {:induction false} SplitHead(s: string, sep: char)
    ensures var r := Split(s, sep);
      && sep !in r[0]
      && StartsWith(s, r[0])
      && (|r| > 1 <==> sep in s)
  {
    if s != [] && s[0] != sep {
      SplitHead(s[1..], sep);
      var h := Split(s[1..], sep)[0];
      assert s[..1 + |h|] == [s[0]] + s[1..][..|h|];
      assert sep in s <==> sep in s[1..] by {
        assert s == [s[0]] + s[1..];
      }
    }
  }

  /** The longest prefix of `s` without whitespace. */
  function NonSpacePrefix(s: string): (w: string)
    ensures |w| <= |s| && w == s[..|w|]
    ensures forall j :: 0 <= j < |w| ==> !IsSpace(w[j])
    ensures |w| < |s| ==> IsSpace(s[|w|])
  {
    if s == [] || IsSpace(s[0]) then [] else [s[0]] + NonSpacePrefix(s[1..])
  }

  /** `s.split()`: the maximal runs of non-whitespace characters. */
  function Words(s: string): (r: seq<string>)
    ensures forall i :: 0 <= i < |r| ==> r[i] != [] && forall j :: 0 <= j < |r[i]| ==> !IsSpace(r[i][j])
    decreases |s|
  {
    if s == [] then []
    else if IsSpace(s[0]) then Words(s[1..])
    else
      var w := NonSpacePrefix(s);
      [w] + Words(s[|w|..])
  }

  /** A command and one argument, separated by a space, split into those two words. */
  lemma WordsOfCommand(command: string, argument: string)
    requires command != [] && argument != []
    requires forall j :: 0 <= j < |command| ==> !IsSpace(command[j])
    requires forall j :: 0 <= j < |argument| ==> !IsSpace(argument[j])
    ensures Words(command + " " + argument) == [command, argument]
  {
    var tail := [' '] + argument;
    var s := command + tail;
    assert command + " " + argument == s;
    NonSpacePrefixWhole(command, tail);
    WordsFront(s, command);
    assert s[|command|..] == tail;
    assert tail[1..] == argument;
    WordsOfWord(argument);
  }

  /** A leading word is split off the front. */
  lemma WordsFront(s: string, w: string)
    requires w != [] && NonSpacePrefix(s) == w
    ensures Words(s) == [w] + Words(s[|w|..])
  {
  }

  lemma WordsOfWord(w: string)
    requires w != []
    requires forall j :: 0 <= j < |w| ==> !IsSpace(w[j])
    ensures Words(w) == [w]
  {
    NonSpacePrefixWhole(w, "");
    assert w + "" == w;
    assert w[|w|..] == [];
  }

  lemma {:induction false} NonSpacePrefixWhole(w: string, rest: string)
    requires forall j :: 0 <= j < |w| ==> !IsSpace(w[j])
    requires rest == [] || IsSpace(rest[0])
    ensures NonSpacePrefix(w + rest) == w
  {
    if w != [] {
      assert (w + rest)[1..] == w[1..] + rest;
      NonSpacePrefixWhole(w[1..], rest);
      assert [w[0]] + w[1..] == w;
    } else {
      assert w + rest == rest;
    }
  }

  /** `sep.join(xs)` */
  function Join(xs: seq<string>, sep: char): string {
    if |xs| == 0 then ""
    else if |xs| == 1 then xs[0]
    else xs[0] + [sep] + Join(xs[1..], sep)
  }

  /** `"".join(xs)` */
  function Concat(xs: seq<string>): string {
    if xs == [] then "" else Concat(xs[..|xs| - 1]) + xs[|xs| - 1]
  }

  lemma ConcatAppend(xs: seq<string>, x: string)
    ensures Concat(xs + [x]) == Concat(xs) + x
  {
    assert (xs + [x])[..|xs|] == xs;
  }

  lemma {:induction false} JoinAppend(xs: seq<string>, sep: char, x: string)
    requires |xs| > 0
    ensures Join(xs + [x], sep) == Join(xs, sep) + [sep] + x
    decreases |xs|
  {
    var ys := xs + [x];
    assert ys[0] == xs[0];
    if |xs| == 1 {
      assert ys[1..] == [x];
      assert Join(ys, sep) == xs[0] + [sep] + Join([x], sep);
    } else {
      var rest := xs[1..];
      assert ys[1..] == rest + [x];
      JoinAppend(rest, sep, x);
      assert Join(ys, sep) == xs[0] + [sep] + Join(rest + [x], sep);
      assert Join(xs, sep) == xs[0] + [sep] + Join(rest, sep);
    }
  }

  lemma {:induction false} SplitNoSep(a: string, sep: char)
    requires sep !in a
    ensures Split(a, sep) == [a]
  {
    if a != [] {
      assert a[0] != sep && sep !in a[1..];
      SplitNoSep(a[1..], sep);
      assert [a[0]] + a[1..] == a;
    }
  }

  lemma {:induction false} SplitAppend(a: string, sep: char, b: string)
    requires sep !in a
    ensures Split(a + [sep] + b, sep) == [a] + Split(b, sep)
  {
    var s := a + [sep] + b;
    if a == [] {
      assert s[1..] == b;
    } else {
      assert s[1..] == a[1..] + [sep] + b;
      SplitAppend(a[1..], sep, b);
      assert [a[0]] + a[1..] == a;
    }
  }

  /** Splitting a joined list gives the list back when no item holds the separator. */
  lemma {:induction false} SplitJoin(xs: seq<string>, sep: char)
    requires |xs| > 0
    requires forall k :: 0 <= k < |xs| ==> sep !in xs[k]
    ensures Split(Join(xs, sep), sep) == xs
  {
    if |xs| == 1 {
      SplitNoSep(xs[0], sep);
    } else {
      SplitJoin(xs[1..], sep);
      SplitAppend(xs[0], sep, Join(xs[1..], sep));
      assert [xs[0]] + xs[1..] == xs;
    }
  }

  function DigitChar(d: nat): (c: char)
    requires d < 10
    ensures IsDigit(c)
  {
    ('0' as int + d) as char
  }

  /** `str(n)` for a non-negative `n`: decimal digits without leading zeros. */
  function NatToString(n: nat): (r: string)
    ensures |r| > 0
    ensures forall i :: 0 <= i < |r| ==> IsDigit(r[i])
    decreases n
  {
    if n < 10 then [DigitChar(n)] else NatToString(n / 10) + [DigitChar(n % 10)]
  }

  /** `str(n)` */
  function IntToString(n: int): (r: string)
    ensures |r| > 0
  {
    if n < 0 then "-" + NatToString(-n) else NatToString(n)
  }

  lemma IntToStringHasNo(n: int, c: char)
    requires c == '-' || !IsDigit(c)
    requires n >= 0 || c != '-'
    ensures c !in IntToString(n)
  {
    var d := NatToString(if n < 0 then -n else n);
    assert forall i :: 0 <= i < |d| ==> d[i] != c;
    if n < 0 {
      assert IntToString(n) == ['-'] + d;
    }
  }

  /** `str(n)` is made of digits and a leading minus sign. */
  lemma IntToStringChars(n: int)
    ensures forall i :: 0 <= i < |IntToString(n)| ==> IsDigit(IntToString(n)[i]) || IntToString(n)[i] == '-'
  {
    if n < 0 {
      assert IntToString(n) == ['-'] + NatToString(-n);
    }
  }

  predicate DigitsOrUnderscores(d: string) {
    forall i :: 0 <= i < |d| ==> IsDigit(d[i]) || d[i] == '_'
  }

  /** In `int(s)`: digits with single underscores between them. */
  predicate WellFormedDigits(d: string) {
    && |d| > 0
    && IsDigit(d[0])
    && IsDigit(d[|d| - 1])
    && DigitsOrUnderscores(d)
    && forall i :: 0 <= i < |d| - 1 && d[i] == '_' ==> d[i + 1] != '_'
  }

  /** The value of a digit string, underscores ignored. */
  function DigitsValue(d: string): nat
    requires DigitsOrUnderscores(d)
  {
    if d == [] then 0
    else
      var c := d[|d| - 1];
      assert IsDigit(c) || c == '_';
      if c == '_' then DigitsValue(d[..|d| - 1])
      else DigitsValue(d[..|d| - 1]) * 10 + (c as int - '0' as int)
  }

  function ParseDigits(d: string): Option<nat> {
    if WellFormedDigits(d) then Some(DigitsValue(d)) else None
  }

  /** The whitespace `int()` cuts from the front of its argument. */
  function IntLStrip(s: string): (r: string)
    ensures |r| <= |s|
  {
    if |s| > 0 && IsIntSpace(s[0]) then IntLStrip(s[1..]) else s
  }

  /** The whitespace `int()` cuts from the back of its argument. */
  function IntRStrip(s: string): (r: string)
    ensures |r| <= |s|
  {
    if |s| > 0 && IsIntSpace(s[|s| - 1]) then IntRStrip(s[..|s| - 1]) else s
  }

  function IntStrip(s: string): string {
    IntRStrip(IntLStrip(s))
  }

  lemma IntStripUnchanged(s: string)
    requires s == [] || (!IsIntSpace(s[0]) && !IsIntSpace(s[|s| - 1]))
    ensures IntStrip(s) == s
  {
  }

  /** `int(s)`: None stands for the ValueError Python raises. */
  function ParseInt(s: string): Option<int> {
    var t := IntStrip(s);
    if |t| > 0 && (t[0] == '-' || t[0] == '+') then
      match ParseDigits(t[1..])
      case Some(v) =>
        var w: int := v;
        Some(if t[0] == '-' then -w else w)
      case None => None
    else
      ParseDigits(t)
  }

  /**
   * `int()` skips the whitespace `strip()` removes, except U+001C-U+001F: `int(" 7\n")`
   * is 7, while `int("\x1c7")` raises although `"\x1c7".strip()` is "7".
   */
  lemma IntSpaceNarrower()
    ensures ParseInt(" 7\n") == Some(7)
    ensures ParseInt("\U{1C}7") == None && Strip("\U{1C}7") == "7"
  {
    assert IntLStrip(" 7\n") == "7\n";
    assert IntStrip(" 7\n") == "7";
    assert DigitsValue("7") == DigitsValue("") * 10 + 7;
    assert IntStrip("\U{1C}7") == "\U{1C}7";
    assert LStrip("\U{1C}7") == "7";
  }

  lemma {:induction false} DigitsValueOfNat(n: nat)
    ensures DigitsValue(NatToString(n)) == n
    decreases n
  {
    var r := NatToString(n);
    if n >= 10 {
      DigitsValueOfNat(n / 10);
      assert r[..|r| - 1] == NatToString(n / 10);
    }
  }

  lemma ParseDigitsOfNat(m: nat)
    ensures ParseDigits(NatToString(m)) == Some(m)
  {
    var d := NatToString(m);
    assert DigitsOrUnderscores(d);
    assert WellFormedDigits(d);
    DigitsValueOfNat(m);
  }

  /** `int(str(n)) == n` */
  lemma ParseIntOfIntToString(n: int)
    ensures ParseInt(IntToString(n)) == Some(n)
  {
    var s := IntToString(n);
    if n < 0 {
      var d := NatToString(-n);
      assert s == ['-'] + d;
      assert IsDigit(d[|d| - 1]);
      assert s[|s| - 1] == d[|d| - 1];
      IntStripUnchanged(s);
      assert s[1..] == d;
      ParseDigitsOfNat(-n);
    } else {
      assert IsDigit(s[0]) && IsDigit(s[|s| - 1]);
      IntStripUnchanged(s);
      ParseDigitsOfNat(n);
    }
  }

  // ---- str ordering and sorted() ----

  /** Python's `a < b` on str: code point order, a proper prefix coming first. */
  predicate LexLess(a: string, b: string)
    decreases |a|
  {
    if a == [] then b != []
    else if b == [] then false
    else if a[0] != b[0] then a[0] < b[0]
    else LexLess(a[1..], b[1..])
  }

  lemma {:induction false} LexIrreflexive(a: string)
    ensures !LexLess(a, a)
    decreases |a|
  {
    if a != [] {
      LexIrreflexive(a[1..]);
    }
  }

  lemma {:induction false} LexTransitive(a: string, b: string, c: string)
    requires LexLess(a, b) && LexLess(b, c)
    ensures LexLess(a, c)
    decreases |a|
  {
    if a != [] && b != [] && c != [] && a[0] == b[0] && b[0] == c[0] {
      LexTransitive(a[1..], b[1..], c[1..]);
    }
  }

  lemma {:induction false} LexTotal(a: string, b: string)
    requires a != b
    ensures LexLess(a, b) || LexLess(b, a)
    decreases |a|
  {
    if a != [] && b != [] && a[0] == b[0] {
      assert a == [a[0]] + a[1..] && b == [b[0]] + b[1..];
      LexTotal(a[1..], b[1..]);
    }
  }

  lemma LexAsymmetric(a: string, b: string)
    requires LexLess(a, b)
    ensures !LexLess(b, a)
  {
    if LexLess(b, a) {
      LexTransitive(a, b, a);
      LexIrreflexive(a);
    }
  }

  /** Ascending with no repeats: what `sorted(set)` returns. */
  predicate StrictlySorted(s: seq<string>) {
    forall i, j :: 0 <= i < j < |s| ==> LexLess(s[i], s[j])
  }

  /** `x` put in its place in a strictly sorted list; nothing changes when it is present. */
  function Insert(x: string, s: seq<string>): (r: seq<string>)
    requires StrictlySorted(s)
    ensures StrictlySorted(r)
    ensures forall y :: y in r <==> y in s || y == x
  {
    if s == [] then [x]
    else if x == s[0] then s
    else if LexLess(x, s[0]) then
      assert forall j :: 0 <= j < |s| ==> LexLess(x, s[j]) by {
        forall j | 0 <= j < |s| ensures LexLess(x, s[j]) {
          if j > 0 { LexTransitive(x, s[0], s[j]); }
        }
      }
      [x] + s
    else
      var tail := Insert(x, s[1..]);
      assert LexLess(s[0], x) by { LexTotal(x, s[0]); }
      assert forall j :: 0 <= j < |tail| ==> LexLess(s[0], tail[j]) by {
        forall j | 0 <= j < |tail| ensures LexLess(s[0], tail[j]) {
          assert tail[j] in tail;
        }
      }
      [s[0]] + tail
  }

  /** `sorted(items)` of a set of strings, one element at a time. */
  method SortedStrings(items: set<string>) returns (r: seq<string>)
    ensures StrictlySorted(r)
    ensures forall y :: y in r <==> y in items
  {
    r := [];
    var rest := items;
    while rest != {}
      invariant StrictlySorted(r)
      invariant rest <= items
      invariant forall y :: y in r <==> y in items && y !in rest
      decreases rest
    {
      var x :| x in rest;
      r := Insert(x, r);
      rest := rest - {x};
    }
  }

  /** A strictly sorted list is determined by its elements. */
  lemma {:induction false} SortedUnique(a: seq<string>, b: seq<string>)
    requires StrictlySorted(a) && StrictlySorted(b)
    requires forall y :: y in a <==> y in b
    ensures a == b
    decreases |a|
  {
    if a != [] {
      assert a[0] in b;
    }
    if b != [] {
      assert b[0] in a;
    }
    if a != [] && b != [] {
      if a[0] != b[0] {
        assert a[0] in b;
        assert b[0] in a;
        var i :| 0 <= i < |b| && b[i] == a[0];
        var j :| 0 <= j < |a| && a[j] == b[0];
        assert i > 0 && j > 0;
        assert LexLess(b[0], a[0]) && LexLess(a[0], b[0]);
        LexAsymmetric(a[0], b[0]);
      }
      forall y
        ensures y in a[1..] <==> y in b[1..]
      {
        if y in a[1..] {
          var k :| 1 <= k < |a| && a[k] == y;
          assert LexLess(a[0], y);
          LexIrreflexive(y);
          assert y in a;
          var m :| 0 <= m < |b| && b[m] == y;
          assert m != 0;
          assert b[1..][m - 1] == y;
        }
        if y in b[1..] {
          var k :| 1 <= k < |b| && b[k] == y;
          assert LexLess(b[0], y);
          LexIrreflexive(y);
          assert y in b;
          var m :| 0 <= m < |a| && a[m] == y;
          assert m != 0;
          assert a[1..][m - 1] == y;
        }
      }
      SortedUnique(a[1..], b[1..]);
      assert a == [a[0]] + a[1..] && b == [b[0]] + b[1..];
    }
  }
}
