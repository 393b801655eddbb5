/** The part of Go's string handling that names, keys and data sources are built with. */
module Strings {

  // ---------- prefixes, suffixes, separators ----------

  predicate HasSuffix(s: string, t: string) {
    |t| <= |s| && s[|s| - |t|..] == t
  }

  /** Two separator-free heads in front of the same text are the same head. */
  lemma SplitUnique(a: string, b: string, c: string, d: string, sep: char)
    requires sep !in a && sep !in c
    requires a + [sep] + b == c + [sep] + d
    ensures a == c && b == d
  {
    var s, s' := a + [sep] + b, c + [sep] + d;
    assert s[|a|] == sep && s'[|c|] == sep;
    assert forall i | 0 <= i < |a| :: s[i] == a[i] && a[i] in a;
    assert forall i | 0 <= i < |c| :: s'[i] == c[i] && c[i] in c;
    assert a == s[..|a|] == c;
    assert b == s[|a| + 1..] == d;
  }

  /** The same for a path that is only a prefix of the other text. */
  lemma SplitPrefix(a: string, b: string, c: string, d: string, sep: char)
    requires sep !in a && sep !in c
    requires a + [sep] + b <= c + [sep] + d
    ensures a == c && b <= d
  {
    var p, s := a + [sep] + b, c + [sep] + d;
    assert s == a + [sep] + (b + s[|p|..]);
    SplitUnique(a, b + s[|p|..], c, d, sep);
  }

  /** The text before the first occurrence of a character, and the text after it. */
  function UpTo(s: string, c: char): string {
    if s == [] || s[0] == c then [] else [s[0]] + UpTo(s[1..], c)
  }

  function After(s: string, c: char): string {
    if s == [] then [] else if s[0] == c then s[1..] else After(s[1..], c)
  }

  lemma {:induction false} CutAt(a: string, c: char, b: string)
    requires c !in a
    ensures UpTo(a + [c] + b, c) == a && After(a + [c] + b, c) == b
  {
    var s := a + [c] + b;
    if a == [] {
      assert s[1..] == b;
    } else {
      assert s[0] == a[0] && s[1..] == a[1..] + [c] + b;
      CutAt(a[1..], c, b);
    }
  }

  lemma {:induction false} AfterShrinks(s: string, c: char)
    requires c in s
    ensures |After(s, c)| < |s|
    ensures s == UpTo(s, c) + [c] + After(s, c)
    ensures c !in UpTo(s, c)
  {
    if s[0] != c {
      AfterShrinks(s[1..], c);
    }
  }

  /** strings.Split with a one-character separator. */
  function Split(s: string, c: char): (parts: seq<string>)
    ensures |parts| > 0
    decreases |s|
  {
    if c in s then
      AfterShrinks(s, c);
      [UpTo(s, c)] + Split(After(s, c), c)
    else [s]
  }

  /** strings.TrimRight with a one-character cutset. */
  function TrimRight(s: string, c: char): string {
    if s != [] && s[|s| - 1] == c then TrimRight(s[..|s| - 1], c) else s
  }

  /** strings.TrimPrefix. */
  function TrimPrefix(s: string, prefix: string): string {
    if prefix <= s then s[|prefix|..] else s
  }

  // ---------- decimal numbers ----------

  function Digit(d: nat): char
    requires d < 10
  {
    ('0' as int + d) as char
  }

  function Digits(n: nat): string {
    if n < 10 then [Digit(n)] else Digits(n / 10) + [Digit(n % 10)]
  }

  /** The "%d" verb. */
  function Itoa(n: int): string {
    if n < 0 then "-" + Digits(-n) else Digits(n)
  }

  lemma {:induction false} DigitsAreDigits(n: nat)
    ensures |Digits(n)| > 0
    ensures forall c | c in Digits(n) :: '0' <= c <= '9'
  {
    if n >= 10 {
      DigitsAreDigits(n / 10);
    }
  }

  lemma {:induction false} DigitsInjective(m: nat, n: nat)
    requires Digits(m) == Digits(n)
    ensures m == n
  {
    DigitsAreDigits(m / 10);
    DigitsAreDigits(n / 10);
    var s := Digits(m);
    assert s[|s| - 1] == Digit(m % 10) == Digit(n % 10);
    if m >= 10 && n >= 10 {
      assert s[..|s| - 1] == Digits(m / 10) == Digits(n / 10);
      DigitsInjective(m / 10, n / 10);
    }
  }

  /** Different numbers are written differently. */
  lemma ItoaInjective(m: int, n: int)
    requires Itoa(m) == Itoa(n)
    ensures m == n
  {
    var a, b := if m < 0 then -m else m, if n < 0 then -n else n;
    DigitsAreDigits(a);
    DigitsAreDigits(b);
    assert Digits(a)[0] in Digits(a) && Digits(b)[0] in Digits(b);
    assert Itoa(m)[0] == Itoa(n)[0];
    assert m < 0 <==> n < 0;
    assert Digits(a) == if m < 0 then Itoa(m)[1..] else Itoa(m);
    DigitsInjective(a, b);
  }

  lemma ItoaHasNoSlash(n: int)
    ensures '/' !in Itoa(n)
  {
    DigitsAreDigits(if n < 0 then -n else n);
  }

  // ---------- substring replacement ----------

  predicate Contains(s: string, t: string) {
    |t| <= |s| && (t <= s || (|s| > 0 && Contains(s[1..], t)))
  }

  /** strings.Replace(s, from, to, 1). */
  function ReplaceFirst(s: string, from: string, to: string): string {
    if from <= s then to + s[|from|..]
    else if s == [] then s
    else [s[0]] + ReplaceFirst(s[1..], from, to)
  }

  /** strings.Replace(s, from, to, -1) for a nonempty from. */
  function ReplaceAll(s: string, from: string, to: string): string
    requires |from| > 0
  {
    if |s| < |from| then s
    else if from <= s then to + ReplaceAll(s[|from|..], from, to)
    else [s[0]] + ReplaceAll(s[1..], from, to)
  }

  lemma {:induction false} ReplaceFirstAt(a: string, b: string, c: char, to: string)
    requires c !in a
    ensures ReplaceFirst(a + [c] + b, [c], to) == a + to + b
  {
    var s := a + [c] + b;
    if a == [] {
      assert [c] <= s && s[1..] == b;
    } else {
      assert s[0] == a[0] && s[1..] == a[1..] + [c] + b;
      ReplaceFirstAt(a[1..], b, c, to);
    }
  }

  lemma PrefixBeforeSeparator(a: string, b: string, sep: char, from: string)
    requires sep !in from
    ensures from <= a + [sep] + b <==> from <= a
  {
    var s := a + [sep] + b;
    assert s[|a|] == sep;
    assert forall i | 0 <= i < |from| :: from[i] in from;
    assert forall i | 0 <= i < |a| :: s[i] == a[i];
  }

  /** A separator that the replaced text does not contain cuts the replacement in two. */
  lemma {:induction false} ReplaceAllSplit(a: string, b: string, sep: char, from: string, to: string)
    requires |from| > 0 && sep !in from
    ensures ReplaceAll(a + [sep] + b, from, to) == ReplaceAll(a, from, to) + [sep] + ReplaceAll(b, from, to)
    decreases |a|
  {
    var s := a + [sep] + b;
    PrefixBeforeSeparator(a, b, sep, from);
    if |s| < |from| {
      assert ReplaceAll(s, from, to) == s;
    } else if from <= a {
      assert s[|from|..] == a[|from|..] + [sep] + b;
      ReplaceAllSplit(a[|from|..], b, sep, from, to);
    } else if a == [] {
      assert s[0] == sep && s[1..] == b;
    } else {
      assert s[0] == a[0] && s[1..] == a[1..] + [sep] + b;
      ReplaceAllSplit(a[1..], b, sep, from, to);
      assert ReplaceAll(a, from, to) == [a[0]] + ReplaceAll(a[1..], from, to);
    }
  }

  lemma {:induction false} ReplaceAllAbsent(s: string, from: string, to: string)
    requires |from| > 0 && !Contains(s, from)
    ensures ReplaceAll(s, from, to) == s
  {
    if |s| >= |from| {
      ReplaceAllAbsent(s[1..], from, to);
    }
  }

  lemma {:induction false} ReplaceAllLength(s: string, from: string, to: string)
    requires |from| > 0
    ensures |to| == |from| ==> |ReplaceAll(s, from, to)| == |s|
    ensures |to| > |from| ==> |ReplaceAll(s, from, to)| >= |s| + (if Contains(s, from) then 1 else 0)
    ensures |to| < |from| ==> |ReplaceAll(s, from, to)| <= |s| - (if Contains(s, from) then 1 else 0)
  {
    if |s| < |from| {
    } else if from <= s {
      ReplaceAllLength(s[|from|..], from, to);
    } else {
      ReplaceAllLength(s[1..], from, to);
    }
  }

  /** Replacing by something else changes a text exactly when the text contains what is replaced. */
  lemma {:induction false} ReplaceAllChanges(s: string, from: string, to: string)
    requires |from| > 0 && from != to
    ensures ReplaceAll(s, from, to) == s <==> !Contains(s, from)
  {
    if !Contains(s, from) {
      ReplaceAllAbsent(s, from, to);
    } else {
      ReplaceAllLength(s, from, to);
      if |to| == |from| {
        if from <= s {
          assert ReplaceAll(s, from, to)[..|to|] == to;
          assert s[..|to|] == from;
        } else {
          ReplaceAllChanges(s[1..], from, to);
          assert ReplaceAll(s, from, to)[1..] == ReplaceAll(s[1..], from, to);
        }
      }
    }
  }

  lemma ReplaceAllSelf(from: string, to: string)
    requires |from| > 0
    ensures ReplaceAll(from, from, to) == to
  {
    assert from[|from|..] == [];
  }

  /** A suffix that begins with its only separator lies within what follows any separator. */
  lemma SuffixAfter(a: string, b: string, t: string)
    requires '/' !in t
    ensures HasSuffix(a + "/" + b, "/" + t) ==> HasSuffix("/" + b, "/" + t)
    ensures b == t ==> HasSuffix(a + "/" + b, "/" + t)
  {
    var s, end := a + "/" + b, "/" + t;
    assert s[|a|] == '/' && s[|a|..] == "/" + b;
    if HasSuffix(s, end) {
      var p := |s| - |end|;
      assert s[p..] == end;
      assert forall j | 0 < j < |end| :: s[p + j] == end[j] != '/' by {
        assert forall j | 0 < j < |end| :: s[p..][j] == end[j] == t[j - 1] && t[j - 1] in t;
      }
      assert p >= |a|;
      assert ("/" + b)[p - |a|..] == s[p..];
    }
  }
}
