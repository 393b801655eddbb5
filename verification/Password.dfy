/** Passwords that hold characters of every alphabet, wherever the truncation falls. */
module Password {

  const Sources: nat := 4

  /** Lower case, upper case, digits and punctuation. */
  function Source(k: nat): (s: string)
    requires k < Sources
    ensures |s| > 0
  {
    match k
    case 0 => seq(26, i requires 0 <= i < 26 => ('a' as int + i) as char)
    case 1 => seq(26, i requires 0 <= i < 26 => ('A' as int + i) as char)
    case 2 => seq(10, i requires 0 <= i < 10 => ('0' as int + i) as char)
    case _ => "_,;-"
  }

  /** How many characters come from a source. */
  function CountOf(s: string, source: string): nat {
    if s == [] then 0
    else CountOf(s[..|s| - 1], source) + if s[|s| - 1] in source then 1 else 0
  }

  lemma {:induction false} CountConcat(a: string, b: string, source: string)
    ensures CountOf(a + b, source) == CountOf(a, source) + CountOf(b, source)
  {
    if b == [] {
      assert a + b == a;
    } else {
      assert (a + b)[..|a + b| - 1] == a + b[..|b| - 1];
      CountConcat(a, b[..|b| - 1], source);
    }
  }

  lemma {:induction false} CountAtMost(s: string, source: string)
    ensures CountOf(s, source) <= |s|
  {
    if s != [] {
      CountAtMost(s[..|s| - 1], source);
    }
  }

  lemma CountUpdate(s: string, i: nat, c: char, source: string)
    requires i < |s|
    ensures CountOf(s[i := c],
                    source) + (if s[i] in source then 1 else 0) == CountOf(s, source) + if c in source then 1 else 0
  {
    var head, tail := s[..i], s[i + 1..];
    assert s == head + [s[i]] + tail && s[i := c] == head + [c] + tail;
    CountConcat(head + [s[i]], tail, source);
    CountConcat(head + [c], tail, source);
    CountConcat(head, [s[i]], source);
    CountConcat(head, [c], source);
  }

  /** Swapping two characters changes no count. */
  lemma CountSwap(s: string, i: nat, j: nat, source: string)
    requires i < |s| && j < |s|
    ensures CountOf(s[i := s[j]][j := s[i]], source) == CountOf(s, source)
  {
    CountUpdate(s, i, s[j], source);
    CountUpdate(s[i := s[j]], j, s[i], source);
  }

  /** Truncation costs a source at most the characters that are cut off. */
  lemma CountTruncated(s: string, size: nat, source: string)
    requires size <= |s|
    ensures CountOf(s[..size], source) >= CountOf(s, source) - (|s| - size)
  {
    assert s == s[..size] + s[size..];
    CountConcat(s[..size], s[size..], source);
    CountAtMost(s[size..], source);
  }

  predicate Allowed(c: char) {
    exists k | 0 <= k < Sources :: c in Source(k)
  }

  predicate FromSources(s: string) {
    forall i | 0 <= i < |s| :: Allowed(s[i])
  }

  lemma SwapKeeps(s: string, i: nat, j: nat)
    requires i < |s| && j < |s|
    ensures var t := s[i := s[j]][j := s[i]];
      && multiset(t) == multiset(s)
      && (forall source :: CountOf(t, source) == CountOf(s, source))
      && (FromSources(s) ==> FromSources(t))
  {
    hide CountOf, Allowed;
    forall source {
      CountSwap(s, i, j, source);
    }
  }

  /** rand.Intn. */
  method Intn(n: nat) returns (r: nat)
    requires n > 0
    ensures r < n
  {
    var choice: nat :| choice < n;
    r := choice;
  }

  /** As many swaps of random positions as there are characters, in place. */
  method Scramble(b: array<char>)
    modifies b
    ensures multiset(b[..]) == multiset(old(b[..]))
    ensures forall source :: CountOf(b[..], source) == CountOf(old(b[..]), source)
    ensures FromSources(old(b[..])) ==> FromSources(b[..])
  {
    hide CountOf, Source, Allowed, FromSources;
    for round := 0 to b.Length
      invariant multiset(b[..]) == multiset(old(b[..]))
      invariant forall source :: CountOf(b[..], source) == CountOf(old(b[..]), source)
      invariant FromSources(old(b[..])) ==> FromSources(b[..])
    {
      var pos1 := Intn(b.Length);
      var pos2 := Intn(b.Length);
      ghost var was := b[..];
      var a := b[pos1];
      b[pos1] := b[pos2];
      b[pos2] := a;
      assert b[..] == was[pos1 := was[pos2]][pos2 := was[pos1]];
      SwapKeeps(was, pos1, pos2);
    }
  }

  /** The inner loop: characters of one source. */
  method ChooseFrom(k: nat, count: nat) returns (s: string)
    requires k < Sources
    ensures |s| == count && FromSources(s) && CountOf(s, Source(k)) == count
  {
    hide Source;
    s := [];
    var source := Source(k);
    for i := 0 to count
      invariant |s| == i && FromSources(s) && CountOf(s, source) == i
    {
      var r := Intn(|source|);
      assert Allowed(source[r]);
      assert (s + [source[r]])[..i] == s;
      s := s + [source[r]];
    }
  }

  /** One more character than an equal share, from each source in turn. */
  method Choose(size: nat) returns (b: string)
    ensures |b| == Sources * (size / Sources + 1) && FromSources(b)
    ensures forall k | 0 <= k < Sources :: CountOf(b, Source(k)) >= size / Sources + 1
  {
    hide Source, CountOf, Allowed;
    b := [];
    var share := size / Sources + 1;
    for k := 0 to Sources
      invariant |b| == k * share && FromSources(b)
      invariant forall j | 0 <= j < k :: CountOf(b, Source(j)) >= share
    {
      var more := ChooseFrom(k, share);
      forall j | 0 <= j <= k {
        CountConcat(b, more, Source(j));
      }
      b := b + more;
    }
  }

  /**
   * Exactly the wanted length, only characters of the sources, and of each source at least a quarter's
   * share less what the truncation can cost: two of each for a length of twenty.
   */
  method GeneratePassword(size: nat) returns (password: string)
    ensures |password| == size && FromSources(password)
    ensures forall k | 0 <= k < Sources :: CountOf(password, Source(k)) >= size / 4 + size % 4 - 3
  {
    hide Source, CountOf, Allowed;
    var chosen := Choose(size);
    var b := new char[|chosen|](i requires 0 <= i < |chosen| => chosen[i]);
    assert b[..] == chosen;
    Scramble(b);
    password := b[..size];
    forall k | 0 <= k < Sources {
      CountTruncated(b[..], size, Source(k));
    }
    assert b[..][..size] == password;
  }
}
