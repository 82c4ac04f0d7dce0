/** `generatePassword` and `scorePassword` of apps/web/src/components/UploadDrop.tsx, for every sequence of random draws. */
module PasswordGenerator {

  const UPPER: string := "ABCDEFGHJKLMNPQRSTUVWXYZ"
  const LOWER: string := "abcdefghijkmnpqrstuvwxyz"
  const DIGIT: string := "23456789"
  const SYMBOL: string := "!@#$%^&*-_=+"
  const ALL: string := UPPER + LOWER + DIGIT + SYMBOL

  /** The n-th 32-bit word of the random generator. */
  type Draws = nat -> nat

  /** `randIndex`. */
  function RandIndex(draw: nat, n: nat): (r: nat)
    requires n > 0
    ensures r < n
  {
    draw % n
  }

  /** One character of each class, from the first four draws. */
  function OnePerClass(draws: Draws): (r: string)
    ensures |r| == 4
  {
    [UPPER[RandIndex(draws(0), |UPPER|)], LOWER[RandIndex(draws(1), |LOWER|)],
     DIGIT[RandIndex(draws(2), |DIGIT|)], SYMBOL[RandIndex(draws(3), |SYMBOL|)]]
  }

  /** Filled up from the whole alphabet to `k` characters, one draw each. */
  function Filled(draws: Draws, k: nat): (r: string)
    ensures |r| == if k > 4 then k else 4
  {
    if k <= 4 then OnePerClass(draws) else Filled(draws, k - 1) + [ALL[RandIndex(draws(k - 1), |ALL|)]]
  }

  function Swap(s: string, i: nat, j: nat): (r: string)
    requires i < |s| && j < |s|
    ensures |r| == |s|
  {
    s[i := s[j]][j := s[i]]
  }

  /** Fisher-Yates from position `i` down, the draws from `c` on. */
  function Shuffled(s: string, i: nat, draws: Draws, c: nat): (r: string)
    requires i < |s|
    ensures |r| == |s|
    decreases i
  {
    if i == 0 then s else Shuffled(Swap(s, i, RandIndex(draws(c), i + 1)), i - 1, draws, c + 1)
  }

  /** The password a sequence of draws gives. */
  function Generated(length: nat, draws: Draws): (r: string)
  {
    var s := Filled(draws, length);
    Shuffled(s, |s| - 1, draws, |s|)
  }

  /** The shuffle, in place. */
  method Shuffle(a: array<char>, draws: Draws, c: nat)
    requires a.Length > 0
    modifies a
    ensures a[..] == Shuffled(old(a[..]), a.Length - 1, draws, c)
  {
    hide RandIndex;
    var drawn := c;
    var i := a.Length - 1;
    while i > 0
      invariant 0 <= i < a.Length && |a[..]| == a.Length
      invariant Shuffled(a[..], i, draws, drawn) == Shuffled(old(a[..]), a.Length - 1, draws, c)
    {
      ghost var before := a[..];
      var j := RandIndex(draws(drawn), i + 1);
      a[i], a[j] := a[j], a[i];
      assert a[..] == Swap(before, i, j);
      drawn := drawn + 1;
      i := i - 1;
    }
  }

  /** `generatePassword`: fill, then shuffle. */
  method GeneratePassword(length: nat, draws: Draws) returns (pw: string)
    ensures pw == Generated(length, draws)
  {
    hide RandIndex, OnePerClass, Shuffled;
    var chars := OnePerClass(draws);
    var drawn := 4;
    while |chars| < length
      invariant 4 <= |chars| == drawn && (|chars| <= length || |chars| == 4)
      invariant chars == Filled(draws, |chars|)
    {
      chars := chars + [ALL[RandIndex(draws(drawn), |ALL|)]];
      drawn := drawn + 1;
    }
    assert chars == Filled(draws, length);
    var a := new char[|chars|](k requires 0 <= k < |chars| => chars[k]);
    assert a[..] == chars;
    Shuffle(a, draws, drawn);
    pw := a[..];
  }

  // ---- What every password has ----

  lemma SwapIsAPermutation(s: string, i: nat, j: nat)
    requires i < |s| && j < |s|
    ensures multiset(Swap(s, i, j)) == multiset(s)
  {
  }

  lemma {:induction false} ShuffleIsAPermutation(s: string, i: nat, draws: Draws, c: nat)
    requires i < |s|
    ensures multiset(Shuffled(s, i, draws, c)) == multiset(s)
    decreases i
  {
    if i > 0 {
      var j := RandIndex(draws(c), i + 1);
      SwapIsAPermutation(s, i, j);
      ShuffleIsAPermutation(Swap(s, i, j), i - 1, draws, c + 1);
    }
  }

  /** Some character of the text satisfies the class. */
  predicate HasUpper(s: string)
  {
    exists c :: c in s && 'A' <= c <= 'Z'
  }

  predicate HasLower(s: string)
  {
    exists c :: c in s && 'a' <= c <= 'z'
  }

  predicate HasDigit(s: string)
  {
    exists c :: c in s && '0' <= c <= '9'
  }

  predicate HasOther(s: string)
  {
    exists c :: c in s && !('A' <= c <= 'Z') && !('a' <= c <= 'z') && !('0' <= c <= '9')
  }

  predicate EveryClass(s: string)
  {
    HasUpper(s) && HasLower(s) && HasDigit(s) && HasOther(s)
  }

  lemma {:induction false} FilledHasEveryClass(draws: Draws, k: nat)
    ensures EveryClass(Filled(draws, k))
    ensures forall c :: c in Filled(draws, k) ==> c in ALL
    decreases k
  {
    if k > 4 {
      FilledHasEveryClass(draws, k - 1);
      MoreKeepsClasses(Filled(draws, k - 1), ALL[RandIndex(draws(k - 1), |ALL|)]);
    } else {
      OnePerClassHasEveryClass(draws);
    }
  }

  lemma MoreKeepsClasses(s: string, c: char)
    requires EveryClass(s)
    ensures EveryClass(s + [c])
  {
    assert forall x :: x in s ==> x in s + [c];
  }

  lemma OnePerClassHasEveryClass(draws: Draws)
    ensures EveryClass(OnePerClass(draws))
    ensures forall c :: c in OnePerClass(draws) ==> c in ALL
  {
    hide RandIndex;
    var s := OnePerClass(draws);
    GroupClasses(RandIndex(draws(0), |UPPER|), RandIndex(draws(1), |LOWER|), RandIndex(draws(2), |DIGIT|), RandIndex(draws(3), |SYMBOL|));
    assert s[0] in s && s[1] in s && s[2] in s && s[3] in s;
    forall c | c in s
      ensures c in ALL
    {
      assert c == s[0] || c == s[1] || c == s[2] || c == s[3];
    }
  }

  /** What the four groups hold. */
  lemma GroupClasses(u: nat, l: nat, d: nat, o: nat)
    requires u < |UPPER| && l < |LOWER| && d < |DIGIT| && o < |SYMBOL|
    ensures 'A' <= UPPER[u] <= 'Z' && 'a' <= LOWER[l] <= 'z' && '0' <= DIGIT[d] <= '9'
    ensures !('A' <= SYMBOL[o] <= 'Z') && !('a' <= SYMBOL[o] <= 'z') && !('0' <= SYMBOL[o] <= '9')
    ensures UPPER[u] in ALL && LOWER[l] in ALL && DIGIT[d] in ALL && SYMBOL[o] in ALL
  {
    var a, b := |UPPER|, |UPPER| + |LOWER|;
    assert ALL[u] == UPPER[u];
    assert ALL[a + l] == LOWER[l];
    assert ALL[b + d] == DIGIT[d];
    assert ALL[b + |DIGIT| + o] == SYMBOL[o];
  }

  lemma SameCharactersSameClasses(s: string, t: string)
    requires multiset(s) == multiset(t)
    ensures |s| == |t| && (forall c :: c in s <==> c in t)
    ensures EveryClass(s) ==> EveryClass(t)
  {
    assert |multiset(s)| == |s| && |multiset(t)| == |t|;
    assert forall c :: c in s <==> c in multiset(s);
    assert forall c :: c in t <==> c in multiset(t);
  }

  /**
   * For every sequence of draws and every length from four on, the password has exactly that length, at least one
   * character of each class, and no character outside the alphabet.
   */
  lemma GeneratedHasEveryClass(length: nat, draws: Draws)
    requires length >= 4
    ensures |Generated(length, draws)| == length
    ensures EveryClass(Generated(length, draws))
    ensures forall c :: c in Generated(length, draws) ==> c in ALL
  {
    hide EveryClass;
    var s := Filled(draws, length);
    FilledHasEveryClass(draws, length);
    ShuffleIsAPermutation(s, |s| - 1, draws, |s|);
    SameCharactersSameClasses(s, Generated(length, draws));
  }

  // ---- The strength meter ----

  function One(b: bool): (n: nat)
  {
    if b then 1 else 0
  }

  /** `scorePassword` as a sum: two length tiers and three of four classes, at most 3. */
  function Score(pw: string): (n: nat)
  {
    if pw == "" then 0
    else
      One(|pw| >= 8) + One(|pw| >= 14)
      + One(One(HasLower(pw)) + One(HasUpper(pw)) + One(HasDigit(pw)) + One(HasOther(pw)) >= 3)
  }

  method ScorePassword(pw: string) returns (score: nat)
    ensures score == Score(pw) <= 3
  {
    if pw == "" {
      return 0;
    }
    score := 0;
    if |pw| >= 8 {
      score := score + 1;
    }
    if |pw| >= 14 {
      score := score + 1;
    }
    var lower, upper, digit, other := false, false, false, false;
    for k := 0 to |pw|
      invariant lower == HasLower(pw[..k]) && upper == HasUpper(pw[..k])
      invariant digit == HasDigit(pw[..k]) && other == HasOther(pw[..k])
    {
      var c := pw[k];
      OneMoreCharacter(pw, k);
      lower := lower || 'a' <= c <= 'z';
      upper := upper || 'A' <= c <= 'Z';
      digit := digit || '0' <= c <= '9';
      other := other || !('A' <= c <= 'Z' || 'a' <= c <= 'z' || '0' <= c <= '9');
    }
    assert pw[..|pw|] == pw;
    var classes := One(lower) + One(upper) + One(digit) + One(other);
    if classes >= 3 {
      score := score + 1;
    }
  }

  lemma OneMoreCharacter(pw: string, k: nat)
    requires k < |pw|
    ensures HasLower(pw[..k + 1]) <==> HasLower(pw[..k]) || 'a' <= pw[k] <= 'z'
    ensures HasUpper(pw[..k + 1]) <==> HasUpper(pw[..k]) || 'A' <= pw[k] <= 'Z'
    ensures HasDigit(pw[..k + 1]) <==> HasDigit(pw[..k]) || '0' <= pw[k] <= '9'
    ensures HasOther(pw[..k + 1]) <==> HasOther(pw[..k]) || !('A' <= pw[k] <= 'Z' || 'a' <= pw[k] <= 'z' || '0' <= pw[k] <= '9')
  {
    assert pw[..k + 1] == pw[..k] + [pw[k]];
    assert pw[k] in pw[..k + 1];
    assert forall c :: c in pw[..k + 1] <==> c in pw[..k] || c == pw[k];
  }

  /** The meter reads "strong" for every generated password of 14 characters or more, the default 20 among them. */
  lemma GeneratedIsStrong(length: nat, draws: Draws)
    requires length >= 14
    ensures Score(Generated(length, draws)) == 3
  {
    GeneratedHasEveryClass(length, draws);
  }
}
