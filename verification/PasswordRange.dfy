/** What `generatePassword` can come up with: the shuffle leaves no arrangement out and favours none, and no password is left out. */
module PasswordRange {
  import opened PasswordGenerator

  // ---- The shuffle ----

  lemma {:induction false} OnlyLaterDrawsMatter(s: string, i: nat, a: Draws, b: Draws, c: nat)
    requires i < |s| && forall n: nat :: n >= c ==> a(n) == b(n)
    ensures Shuffled(s, i, a, c) == Shuffled(s, i, b, c)
    decreases i
  {
    if i > 0 {
      OnlyLaterDrawsMatter(Swap(s, i, RandIndex(a(c), i + 1)), i - 1, a, b, c + 1);
    }
  }

  /** Equal multisets of the first characters, equal characters behind them. */
  predicate Rearranged(s: string, t: string, i: nat)
  {
    i < |s| == |t| && multiset(s[..i + 1]) == multiset(t[..i + 1]) && s[i + 1..] == t[i + 1..]
  }

  /** One swap puts the character `t` wants at `i` there. */
  lemma SwapRearranges(s: string, t: string, i: nat, j: nat)
    requires Rearranged(s, t, i) && 0 < i && j <= i && s[j] == t[i]
    ensures Rearranged(Swap(s, i, j), t, i - 1)
  {
    var s' := Swap(s, i, j);
    assert s'[..i + 1] == Swap(s[..i + 1], i, j);
    SwapIsAPermutation(s[..i + 1], i, j);
    assert s'[i] == t[i] && s'[i + 1..] == s[i + 1..];
    hide Swap;
    OneLess(s', t, i);
  }

  lemma OneLess(s: string, t: string, i: nat)
    requires Rearranged(s, t, i) && 0 < i && s[i] == t[i]
    ensures Rearranged(s, t, i - 1)
  {
    assert s[..i + 1] == s[..i] + [t[i]] && t[..i + 1] == t[..i] + [t[i]];
    SameWithoutLast(s[..i], t[..i], t[i]);
    assert s[i..] == [t[i]] + s[i + 1..] && t[i..] == [t[i]] + t[i + 1..];
  }

  lemma SameWithoutLast(a: string, b: string, c: char)
    requires multiset(a + [c]) == multiset(b + [c])
    ensures multiset(a) == multiset(b)
  {
    assert multiset(a) == multiset(a + [c]) - multiset{c};
    assert multiset(b) == multiset(b + [c]) - multiset{c};
  }

  lemma SmallDraw(j: nat, n: nat)
    requires j < n
    ensures RandIndex(j, n) == j
  {
  }

  lemma NothingToRearrange(s: string, t: string)
    requires Rearranged(s, t, 0)
    ensures s == t
  {
    assert s[..1] == [s[0]] && t[..1] == [t[0]];
    assert s[0] in multiset(s[..1]);
    assert s == [s[0]] + s[1..] && t == [t[0]] + t[1..];
  }

  /** The character `t` wants at `i` stands at or before it. */
  lemma FindWanted(s: string, t: string, i: nat) returns (j: nat)
    requires Rearranged(s, t, i)
    ensures j <= i && s[j] == t[i]
  {
    assert t[..i + 1][i] == t[i];
    assert t[i] in multiset(t[..i + 1]);
    assert t[i] in multiset(s[..i + 1]);
    j :| j < i + 1 && s[..i + 1][j] == t[i];
  }

  /** Some draws lead to every arrangement. */
  lemma {:induction false} ShuffleReaches(s: string, t: string, i: nat, c: nat) returns (draws: Draws)
    requires Rearranged(s, t, i)
    ensures Shuffled(s, i, draws, c) == t
    decreases i
  {
    hide RandIndex, Rearranged, Swap;
    assert i < |s| by { RearrangedFits(s, t, i); }
    if i == 0 {
      draws := n => 0;
      NothingToRearrange(s, t);
    } else {
      var j := FindWanted(s, t, i);
      SwapRearranges(s, t, i, j);
      var rest := ShuffleReaches(Swap(s, i, j), t, i - 1, c + 1);
      draws := n => if n == c then j else rest(n);
      SmallDraw(j, i + 1);
      OnlyLaterDrawsMatter(Swap(s, i, j), i - 1, draws, rest, c + 1);
    }
  }

  lemma RearrangedFits(s: string, t: string, i: nat)
    requires Rearranged(s, t, i)
    ensures i < |s| == |t|
  {
  }

  lemma {:induction false} ShuffleKeepsTheTail(s: string, i: nat, draws: Draws, c: nat, k: nat)
    requires i < k < |s|
    ensures Shuffled(s, i, draws, c)[k] == s[k]
    decreases i
  {
    if i > 0 {
      ShuffleKeepsTheTail(Swap(s, i, RandIndex(draws(c), i + 1)), i - 1, draws, c + 1, k);
    }
  }

  predicate AllDifferent(s: string)
  {
    forall j, k :: 0 <= j < k < |s| ==> s[j] != s[k]
  }

  /** The index the n-th turn of the shuffle picks: one of `i + 1 - n`. */
  function Picked(draws: Draws, i: nat, c: nat, n: nat): (j: nat)
    requires n < i
  {
    RandIndex(draws(c + n), i + 1 - n)
  }

  /** Every arrangement comes from one sequence of picks only, so all of them come from equally many: the shuffle favours none. */
  lemma {:induction false} ShuffleDetermines(s: string, i: nat, a: Draws, b: Draws, c: nat, n: nat)
    requires i < |s| && AllDifferent(s) && n < i
    requires Shuffled(s, i, a, c) == Shuffled(s, i, b, c)
    ensures Picked(a, i, c, n) == Picked(b, i, c, n)
    decreases i
  {
    hide RandIndex, Swap, AllDifferent;
    var j, k := RandIndex(a(c), i + 1), RandIndex(b(c), i + 1);
    ShuffleKeepsTheTail(Swap(s, i, j), i - 1, a, c + 1, i);
    ShuffleKeepsTheTail(Swap(s, i, k), i - 1, b, c + 1, i);
    SwapsTellApart(s, i, j, k);
    if n > 0 {
      ShuffleDetermines(Swap(s, i, j), i - 1, a, b, c + 1, n - 1);
      assert c + 1 + (n - 1) == c + n && i - 1 + 1 - (n - 1) == i + 1 - n;
    }
  }

  lemma SwapsTellApart(s: string, i: nat, j: nat, k: nat)
    requires AllDifferent(s) && i < |s| && j <= i && k <= i
    ensures Swap(s, i, j)[i] == Swap(s, i, k)[i] ==> j == k
    ensures AllDifferent(Swap(s, i, j))
  {
  }

  // ---- Filling ----

  /** Where the n-th character is drawn from. */
  function Group(n: nat): (g: string)
  {
    if n == 0 then UPPER else if n == 1 then LOWER else if n == 2 then DIGIT else if n == 3 then SYMBOL else ALL
  }

  ghost function IndexIn(g: string, c: char): (k: nat)
    requires c in g
    ensures k < |g| && g[k] == c
  {
    var k: nat :| k < |g| && g[k] == c;
    k
  }

  /** A draw for every character of `s`, if its group has it. */
  ghost function FillDraw(s: string, n: nat): (draw: nat)
  {
    if n < |s| && s[n] in Group(n) then IndexIn(Group(n), s[n]) else 0
  }

  ghost predicate Fillable(s: string)
  {
    |s| >= 4 && forall n: nat :: n < |s| ==> s[n] in Group(n)
  }

  lemma Groups()
    ensures Group(0) == UPPER && Group(1) == LOWER && Group(2) == DIGIT && Group(3) == SYMBOL
    ensures forall n: nat :: n >= 4 ==> Group(n) == ALL
  {
  }

  ghost predicate DrawsFor(s: string, draws: Draws)
  {
    Fillable(s) && forall n: nat :: n < |s| ==> draws(n) == FillDraw(s, n)
  }

  lemma Drawn(s: string, draws: Draws, n: nat, g: string)
    requires DrawsFor(s, draws) && n < |s| && Group(n) == g
    ensures |g| > 0 && g[RandIndex(draws(n), |g|)] == s[n]
  {
    hide Group, RandIndex;
    SmallDraw(draws(n), |g|);
  }

  lemma {:induction false} FilledIs(s: string, draws: Draws, k: nat)
    requires DrawsFor(s, draws) && 4 <= k <= |s|
    ensures Filled(draws, k) == s[..k]
    decreases k
  {
    hide Group, RandIndex, OnePerClass, DrawsFor;
    Groups();
    if k > 4 {
      FilledIs(s, draws, k - 1);
      Drawn(s, draws, k - 1, ALL);
      assert s[..k] == s[..k - 1] + [s[k - 1]];
    } else {
      FourAreFilled(s, draws);
    }
  }

  lemma FourAreFilled(s: string, draws: Draws)
    requires DrawsFor(s, draws) && |s| >= 4
    ensures OnePerClass(draws) == s[..4]
  {
    hide Group, RandIndex, DrawsFor;
    Groups();
    Drawn(s, draws, 0, UPPER);
    Drawn(s, draws, 1, LOWER);
    Drawn(s, draws, 2, DIGIT);
    Drawn(s, draws, 3, SYMBOL);
    assert s[..4] == [s[0], s[1], s[2], s[3]];
  }

  // ---- Every password ----

  /** In the alphabet the four ranges are the four groups. */
  lemma RangesAreGroups(c: char)
    requires c in ALL
    ensures 'A' <= c <= 'Z' ==> c in UPPER
    ensures 'a' <= c <= 'z' ==> c in LOWER
    ensures '0' <= c <= '9' ==> c in DIGIT
    ensures !('A' <= c <= 'Z') && !('a' <= c <= 'z') && !('0' <= c <= '9') ==> c in SYMBOL
  {
    if c in UPPER {
      var n: nat :| n < |UPPER| && UPPER[n] == c;
      GroupClasses(n, 0, 0, 0);
    } else if c in LOWER {
      var n: nat :| n < |LOWER| && LOWER[n] == c;
      GroupClasses(0, n, 0, 0);
    } else if c in DIGIT {
      var n: nat :| n < |DIGIT| && DIGIT[n] == c;
      GroupClasses(0, 0, n, 0);
    } else {
      assert c in SYMBOL by { OneOfFour(c); }
    }
  }

  lemma OneOfFour(c: char)
    requires c in ALL
    ensures c in UPPER || c in LOWER || c in DIGIT || c in SYMBOL
  {
    InOneOf(UPPER, LOWER, DIGIT, SYMBOL, c);
  }

  lemma InOneOf(a: string, b: string, d: string, e: string, c: char)
    requires c in a + b + d + e
    ensures c in a || c in b || c in d || c in e
  {
  }

  /** A character of a class that does not stand before `k` is brought to `k`. */
  lemma BringTo(s: string, k: nat, isClass: char -> bool) returns (s': string)
    requires k < |s| && (exists c :: c in s && isClass(c)) && forall m: nat :: m < k ==> !isClass(s[m])
    ensures multiset(s') == multiset(s) && |s'| == |s| && isClass(s'[k]) && forall m: nat :: m < k ==> s'[m] == s[m]
  {
    var c :| c in s && isClass(c);
    var j: nat :| j < |s| && s[j] == c;
    s' := Swap(s, k, j);
    SwapIsAPermutation(s, k, j);
  }

  /** Every character is one the generator knows. */
  predicate InAlphabet(s: string)
  {
    forall c :: c in s ==> c in Group(4)
  }

  predicate IsOther(c: char)
  {
    !('A' <= c <= 'Z') && !('a' <= c <= 'z') && !('0' <= c <= '9')
  }

  lemma RangeIsGroup(s: string, n: nat)
    requires InAlphabet(s) && n < |s|
    ensures 'A' <= s[n] <= 'Z' ==> s[n] in Group(0)
    ensures 'a' <= s[n] <= 'z' ==> s[n] in Group(1)
    ensures '0' <= s[n] <= '9' ==> s[n] in Group(2)
    ensures IsOther(s[n]) ==> s[n] in Group(3)
    ensures n >= 4 ==> s[n] in Group(n)
  {
    hide Group;
    Groups();
    assert s[n] in s;
    RangesAreGroups(s[n]);
  }

  lemma InItsGroups(s: string)
    requires |s| >= 4 && InAlphabet(s)
    requires 'A' <= s[0] <= 'Z' && 'a' <= s[1] <= 'z' && '0' <= s[2] <= '9' && IsOther(s[3])
    ensures Fillable(s)
  {
    hide Group, InAlphabet, IsOther;
    RangeIsGroup(s, 0);
    RangeIsGroup(s, 1);
    RangeIsGroup(s, 2);
    RangeIsGroup(s, 3);
    forall n: nat | n < |s|
      ensures s[n] in Group(n)
    {
      RangeIsGroup(s, n);
    }
  }

  lemma SameAlphabet(s: string, t: string)
    requires multiset(s) == multiset(t) && EveryClass(s)
    ensures |s| == |t| && EveryClass(t) && (InAlphabet(s) ==> InAlphabet(t))
  {
    hide EveryClass, Group;
    SameCharactersSameClasses(s, t);
  }

  lemma Classes(s: string)
    requires EveryClass(s)
    ensures (exists c :: c in s && 'A' <= c <= 'Z') && (exists c :: c in s && 'a' <= c <= 'z')
    ensures (exists c :: c in s && '0' <= c <= '9') && (exists c :: c in s && IsOther(c))
  {
  }

  lemma ArrangedToFill(t: string) returns (s: string)
    requires |t| >= 4 && EveryClass(t) && InAlphabet(t)
    ensures multiset(s) == multiset(t) && |s| == |t| && Fillable(s)
  {
    hide Group, InAlphabet, Fillable, EveryClass;
    Classes(t);
    var s1 := BringTo(t, 0, c => 'A' <= c <= 'Z');
    SameAlphabet(t, s1);
    Classes(s1);
    var s2 := BringTo(s1, 1, c => 'a' <= c <= 'z');
    SameAlphabet(s1, s2);
    Classes(s2);
    var s3 := BringTo(s2, 2, c => '0' <= c <= '9');
    SameAlphabet(s2, s3);
    Classes(s3);
    s := BringTo(s3, 3, c => IsOther(c));
    SameAlphabet(s3, s);
    InItsGroups(s);
  }

  lemma DrawsOf(t: string) returns (draws: Draws)
    requires |t| >= 4 && EveryClass(t) && InAlphabet(t)
    ensures Generated(|t|, draws) == t
  {
    hide EveryClass, InAlphabet, Swap, Fillable, Filled, Shuffled;
    var length := |t|;
    var s := ArrangedToFill(t);
    assert s[..length - 1 + 1] == s && t[..length - 1 + 1] == t;
    var picks := ShuffleReaches(s, t, length - 1, length);
    draws := (n: nat) => if n < length then FillDraw(s, n) else picks(n);
    FilledIs(s, draws, length);
    OnlyLaterDrawsMatter(s, length - 1, draws, picks, length);
  }

  /**
   * The generator gives exactly the passwords it should: for every length from four on, a text can come up if and
   * only if it has that length, at least one character of each class, and none outside the alphabet.
   */
  lemma GeneratedExactly(length: nat, t: string)
    requires length >= 4
    ensures (exists draws: Draws :: Generated(length, draws) == t)
      <==> |t| == length && EveryClass(t) && forall c :: c in t ==> c in ALL
  {
    hide EveryClass, Swap;
    if draws: Draws :| Generated(length, draws) == t {
      GeneratedHasEveryClass(length, draws);
    }
    if |t| == length && EveryClass(t) && forall c :: c in t ==> c in ALL {
      var draws := DrawsOf(t);
    }
  }
}
