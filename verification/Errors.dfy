/** The text of a list of errors, built in a buffer of exactly the right length. */
module Errors {
  import opened Monitor

  /** An error's text; a nil error prints as "<nil>". */
  function Text(e: Option<string>): string {
    match e
    case Some(s) => s
    case None => "<nil>"
  }

  /** The plain definition: the head, the separator, and the rest joined. */
  function Joined(a: seq<Option<string>>, sep: string): string {
    if |a| == 0 then ""
    else if |a| == 1 then Text(a[0])
    else Text(a[0]) + sep + Joined(a[1..], sep)
  }

  function SumOf(a: seq<Option<string>>): nat {
    if a == [] then 0 else SumOf(a[..|a| - 1]) + |Text(a[|a| - 1])|
  }

  /** Joining one more element at the end. */
  lemma {:induction false} JoinedLast(a: seq<Option<string>>, e: Option<string>, sep: string)
    requires a != []
    ensures Joined(a + [e], sep) == Joined(a, sep) + sep + Text(e)
  {
    if |a| == 1 {
      assert (a + [e])[1..] == [e];
    } else {
      assert (a + [e])[1..] == a[1..] + [e];
      JoinedLast(a[1..], e, sep);
    }
  }

  lemma {:induction false} JoinedLength(a: seq<Option<string>>, sep: string)
    requires a != []
    ensures |Joined(a, sep)| == |sep| * (|a| - 1) + SumOf(a)
  {
    var n := |a| - 1;
    assert a == a[..n] + [a[n]];
    if n == 0 {
      assert SumOf(a[..n]) == 0;
    } else {
      JoinedLength(a[..n], sep);
      JoinedLast(a[..n], a[n], sep);
      Distribute(|sep|, n);
    }
  }

  lemma Distribute(s: nat, n: nat)
    ensures s * n == s * (n - 1) + s
  {
  }

  /** A part of a list joins to a part of the text. */
  lemma {:induction false} JoinedPrefix(a: seq<Option<string>>, i: nat, sep: string)
    requires 0 < i <= |a|
    ensures Joined(a[..i], sep) <= Joined(a, sep)
    decreases |a| - i
  {
    if i == |a| {
      assert a[..i] == a;
    } else {
      assert a[..i + 1] == a[..i] + [a[i]];
      JoinedLast(a[..i], a[i], sep);
      JoinedPrefix(a, i + 1, sep);
    }
  }

  /** The built-in copy: as much of the text as fits from the offset on. */
  method Copy(b: array<char>, at: nat, s: string) returns (n: nat)
    requires at <= b.Length
    modifies b
    ensures n == if |s| <= b.Length - at then |s| else b.Length - at
    ensures b[..at] == old(b[..at]) && b[at..at + n] == s[..n] && b[at + n..] == old(b[at + n..])
  {
    n := if |s| <= b.Length - at then |s| else b.Length - at;
    for i := 0 to n
      invariant b[..at] == old(b[..at]) && b[at..at + i] == s[..i] && b[at + i..] == old(b[at + i..])
    {
      assert b[at + i + 1..] == b[at + i..][1..] == old(b[at + i..])[1..];
      b[at + i] := s[i];
      assert b[at..at + i + 1] == b[at..at + i] + [s[i]];
      assert s[..i + 1] == s[..i] + [s[i]];
    }
  }

  /** What fits is copied whole, and what was there before stays. */
  lemma CopyExtends(before: string, after: string, at: nat, s: string, n: nat)
    requires at + n <= |after| == |before| && n == |s|
    requires after[..at] == before[..at] && after[at..at + n] == s
    ensures after[..at + n] == before[..at] + s
  {
    assert after[..at + n] == after[..at] + after[at..at + n];
  }

  /** The length of the buffer. */
  method BufferLength(a: seq<Option<string>>, sep: string) returns (n: nat)
    requires a != []
    ensures n == |Joined(a, sep)|
  {
    n := |sep| * (|a| - 1);
    for i := 0 to |a|
      invariant n == |sep| * (|a| - 1) + SumOf(a[..i])
    {
      assert a[..i + 1][..i] == a[..i];
      if a[i].None? {
        n := n + |"<nil>"|;
      } else {
        n := n + |a[i].value|;
      }
    }
    assert a[..|a|] == a;
    JoinedLength(a, sep);
  }

  /** One separator and one element at the end of what is written. */
  method Append(b: array<char>, bp0: nat, sep: string, e: Option<string>, ghost done: string) returns (bp: nat)
    requires bp0 == |done| && bp0 + |sep| + |Text(e)| <= b.Length && b[..bp0] == done
    modifies b
    ensures bp == bp0 + |sep| + |Text(e)| && b[..bp] == done + sep + Text(e)
  {
    ghost var before := b[..];
    var n := Copy(b, bp0, sep);
    CopyExtends(before, b[..], bp0, sep, n);
    assert b[..bp0 + n] == done + sep;
    bp := bp0 + n;
    before := b[..];
    if e.None? {
      n := Copy(b, bp, "<nil>");
    } else {
      n := Copy(b, bp, e.value);
    }
    CopyExtends(before, b[..], bp, Text(e), n);
    assert b[..bp + n] == done + sep + Text(e);
    bp := bp + n;
  }

  /** join. The first error must not be nil: its text is taken without a check. */
  method Join(a: seq<Option<string>>, sep: string) returns (s: string)
    requires a != [] ==> a[0].Some?
    ensures s == Joined(a, sep)
  {
    hide Joined;
    JoinedFew(a, sep);
    if |a| == 0 { return ""; }
    if |a| == 1 { return a[0].value; }
    var n := BufferLength(a, sep);
    var b := new char[n](i => '\0');
    var bp := Fill(a, sep, b);
    return b[..];
  }

  /** The copies at the moving offset: every one fits, and the last one ends at the end of the buffer. */
  method Fill(a: seq<Option<string>>, sep: string, b: array<char>) returns (bp: nat)
    requires |a| > 0 && a[0].Some? && b.Length == |Joined(a, sep)|
    modifies b
    ensures bp == b.Length && b[..] == Joined(a, sep)
  {
    hide Joined;
    JoinedFew(a, sep);
    JoinedPrefix(a, 1, sep);
    ghost var before := b[..];
    bp := Copy(b, 0, a[0].value);
    CopyExtends(before, b[..], 0, a[0].value, bp);
    for i := 1 to |a|
      invariant 0 <= bp <= b.Length == |Joined(a, sep)|
      invariant b[..bp] == Joined(a[..i], sep)
    {
      OneMore(a, i, sep);
      bp := Append(b, bp, sep, a[i], b[..bp]);
    }
    assert a[..|a|] == a;
    assert b[..] == b[..bp];
  }

  lemma JoinedFew(a: seq<Option<string>>, sep: string)
    ensures |a| == 0 ==> Joined(a, sep) == ""
    ensures |a| > 0 ==> Joined(a[..1], sep) == Text(a[0])
    ensures |a| == 1 ==> Joined(a, sep) == Text(a[0])
  {
  }

  lemma OneMore(a: seq<Option<string>>, i: nat, sep: string)
    requires 0 < i < |a|
    ensures Joined(a[..i + 1], sep) == Joined(a[..i], sep) + sep + Text(a[i]) <= Joined(a, sep)
  {
    hide Joined;
    assert a[..i + 1] == a[..i] + [a[i]];
    JoinedLast(a[..i], a[i], sep);
    JoinedPrefix(a, i + 1, sep);
  }

  /** Errors.Error. */
  method ErrorText(errs: seq<Option<string>>) returns (s: string)
    requires errs != [] ==> errs[0].Some?
    ensures s == Joined(errs, ", ")
  {
    s := Join(errs, ", ");
  }
}
