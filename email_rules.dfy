/** `detectBotByEmail`: two rules on the shape of the local part and one on
    the domain. */
module EmailRules {
  import opened Text
  import opened Patterns

  /** `/^[a-z]+\d{2,4}@/i` */
  const LettersThenDigits: Regex := Regex(true, [Plus(Letter), Atom(Digit, 2, AtMost(4)), One(Char('@'))], false)
  /** `/^[a-z0-9]{10,}@/i` */
  const LongLocalPart: Regex := Regex(true, [Atom(LetterOrDigit, 10, Unbounded), One(Char('@'))], false)
  /** `/\d{2,4}@/` */
  const DigitsBeforeAt: Regex := Regex(false, [Atom(Digit, 2, AtMost(4)), One(Char('@'))], false)

  const DisposableDomains: seq<string> :=
    ["tempmail.com", "guerrillamail.com", "mailinator.com", "10minutemail.com", "throwaway.email", "yopmail.com"]

  /** `email.split('@')[1]?.toLowerCase()`: absent when there is no `@`. */
  function Domain(email: string): (d: Option<string>)
    ensures d.Some? <==> '@' in email
    ensures d.Some? ==> '@' !in d.value
  {
    var parts := Split(email, '@');
    if |parts| > 1 then Some(Lower(parts[1])) else None
  }

  /** Letters followed by two to four digits right before the first `@` (+35). */
  predicate LettersThenDigitsRule(email: string): (b: bool)
    ensures b <==> exists k: nat, j: nat :: LettersThenDigitsAt(email, k, j)
  {
    LettersThenDigitsMeaning(email);
    Test(LettersThenDigits, email)
  }

  /** Ten or more letters and digits before an `@`, unless some two to four
      digits sit right before an `@` (+45). */
  predicate LongLocalPartRule(email: string): (b: bool)
    ensures b <==> (exists j: nat :: LongLocalPartAt(email, j)) && !exists i: nat, j: nat :: DigitsBeforeAtAt(email, i, j)
  {
    LongLocalPartMeaning(email);
    DigitsBeforeAtMeaning(email);
    Test(LongLocalPart, email) && !Test(DigitsBeforeAt, email)
  }

  /** The domain is on the disposable list (+30). */
  predicate DisposableRule(email: string): (b: bool)
    ensures b ==> '@' in email
  {
    var d := Domain(email);
    d.Some? && d.value in DisposableDomains
  }

  /** `detectBotByEmail`: at most 75, and positive exactly when a rule fires. */
  function EmailScore(email: string): (r: nat)
    ensures r <= 75
    ensures r > 0 <==> LettersThenDigitsRule(email) || LongLocalPartRule(email) || DisposableRule(email)
  {
    LocalPartRulesExclusive(email);
    (if LettersThenDigitsRule(email) then 35 else 0)
    + (if LongLocalPartRule(email) then 45 else 0)
    + (if DisposableRule(email) then 30 else 0)
  }

  // ---------------------------------------------------------------------------
  // What the patterns mean

  /** `e` opens with `k >= 1` letters, then the digits `e[k..j]`, two to
      four of them, then an `@`. */
  ghost predicate LettersThenDigitsAt(e: string, k: nat, j: nat) {
    1 <= k && k + 2 <= j <= k + 4 && j < |e| && e[j] == '@'
    && (forall m :: 0 <= m < k ==> IsAsciiLetter(e[m]))
    && (forall m :: k <= m < j ==> IsDigit(e[m]))
  }

  /** `e` opens with `j >= 10` letters and digits, then an `@`. */
  ghost predicate LongLocalPartAt(e: string, j: nat) {
    10 <= j < |e| && e[j] == '@' && forall m :: 0 <= m < j ==> IsAsciiLetter(e[m]) || IsDigit(e[m])
  }

  /** The digits `e[i..j]`, two to four of them, are followed by an `@`. */
  ghost predicate DigitsBeforeAtAt(e: string, i: nat, j: nat) {
    i + 2 <= j <= i + 4 && j < |e| && e[j] == '@' && forall m :: i <= m < j ==> IsDigit(e[m])
  }

  lemma AtChunk(s: string, k: nat, j: nat)
    ensures Chunk(One(Char('@')), s, k, j) <==> j == k + 1 <= |s| && s[k] == '@'
  {
  }

  lemma LettersThenDigitsMeaning(e: string)
    ensures Test(LettersThenDigits, e) <==> exists k: nat, j: nat :: LettersThenDigitsAt(e, k, j)
  {
    if Matches(LettersThenDigits, e) {
      var end: nat :| MatchesAt(LettersThenDigits.body, e, 0, end);
      var k, j := LettersThenDigitsSplit(e, end);
    }
    if exists k: nat, j: nat :: LettersThenDigitsAt(e, k, j) {
      var k: nat, j: nat :| LettersThenDigitsAt(e, k, j);
      LettersThenDigitsJoin(e, k, j);
    }
  }

  lemma LettersThenDigitsSplit(e: string, end: nat) returns (k: nat, j: nat)
    requires MatchesAt(LettersThenDigits.body, e, 0, end)
    ensures LettersThenDigitsAt(e, k, j)
  {
    var b := LettersThenDigits.body;
    ThreeAtoms(b[0], b[1], b[2], e, 0, end);
    k, j :| Chunk(b[0], e, 0, k) && Chunk(b[1], e, k, j) && Chunk(b[2], e, j, end);
    AtChunk(e, j, end);
  }

  lemma LettersThenDigitsJoin(e: string, k: nat, j: nat)
    requires LettersThenDigitsAt(e, k, j)
    ensures Matches(LettersThenDigits, e)
  {
    var b := LettersThenDigits.body;
    AtChunk(e, j, j + 1);
    assert Chunk(b[0], e, 0, k) && Chunk(b[1], e, k, j) && Chunk(b[2], e, j, j + 1);
    ThreeAtoms(b[0], b[1], b[2], e, 0, j + 1);
    Found(LettersThenDigits, e, 0, j + 1);
  }

  lemma LongLocalPartMeaning(e: string)
    ensures Test(LongLocalPart, e) <==> exists j: nat :: LongLocalPartAt(e, j)
  {
    var b := LongLocalPart.body;
    if Matches(LongLocalPart, e) {
      var i: nat, end: nat :| i == 0 && MatchesAt(b, e, i, end);
      TwoAtoms(b[0], b[1], e, 0, end);
      var j: nat :| Chunk(b[0], e, 0, j) && Chunk(b[1], e, j, end);
      AtChunk(e, j, end);
      assert LongLocalPartAt(e, j);
    }
    if exists j: nat :: LongLocalPartAt(e, j) {
      var j: nat :| LongLocalPartAt(e, j);
      AtChunk(e, j, j + 1);
      assert Chunk(b[0], e, 0, j) && Chunk(b[1], e, j, j + 1);
      TwoAtoms(b[0], b[1], e, 0, j + 1);
      Found(LongLocalPart, e, 0, j + 1);
    }
  }

  lemma DigitsBeforeAtMeaning(e: string)
    ensures Test(DigitsBeforeAt, e) <==> exists i: nat, j: nat :: DigitsBeforeAtAt(e, i, j)
  {
    var b := DigitsBeforeAt.body;
    if Matches(DigitsBeforeAt, e) {
      var i: nat, end: nat :| MatchesAt(b, e, i, end);
      TwoAtoms(b[0], b[1], e, i, end);
      var j: nat :| Chunk(b[0], e, i, j) && Chunk(b[1], e, j, end);
      AtChunk(e, j, end);
      assert DigitsBeforeAtAt(e, i, j);
    }
    if exists i: nat, j: nat :: DigitsBeforeAtAt(e, i, j) {
      var i: nat, j: nat :| DigitsBeforeAtAt(e, i, j);
      AtChunk(e, j, j + 1);
      assert Chunk(b[0], e, i, j) && Chunk(b[1], e, j, j + 1);
      TwoAtoms(b[0], b[1], e, i, j + 1);
      Found(DigitsBeforeAt, e, i, j + 1);
    }
  }

  // ---------------------------------------------------------------------------
  // Properties

  /** The two local-part rules never both fire: a match of the first puts two
      to four digits right before an `@`, which switches the second off. */
  lemma LocalPartRulesExclusive(email: string)
    ensures !(LettersThenDigitsRule(email) && LongLocalPartRule(email))
  {
    LettersThenDigitsMeaning(email);
    DigitsBeforeAtMeaning(email);
    if LettersThenDigitsRule(email) {
      var k: nat, j: nat :| LettersThenDigitsAt(email, k, j);
      assert DigitsBeforeAtAt(email, k, j);
    }
  }

  /** Hence the email sub-score takes one of six values. */
  lemma EmailScoreValues(email: string)
    ensures EmailScore(email) in {0, 30, 35, 45, 65, 75}
  {
    LocalPartRulesExclusive(email);
  }

  /** The domain rule looks at the text between the first `@` and the next
      one (or the end), lower-cased, and fires exactly when that text is one
      of the six listed domains. */
  lemma DisposableRuleMeaning(local: string, domain: string, rest: string)
    requires '@' !in local && '@' !in domain && (rest == [] || rest[0] == '@')
    ensures DisposableRule(local + "@" + domain + rest) <==> Lower(domain) in DisposableDomains
  {
    DomainOf(local, domain, rest);
  }

  /** The domain read is the text between the first `@` and the next one
      (or the end), lower-cased. */
  lemma DomainOf(local: string, domain: string, rest: string)
    requires '@' !in local && '@' !in domain && (rest == [] || rest[0] == '@')
    ensures Domain(local + "@" + domain + rest) == Some(Lower(domain))
  {
    assert local + "@" + domain + rest == local + ['@'] + (domain + rest);
    SplitSecond('@', local, domain + rest);
    SplitFirst(domain, rest, '@');
  }

  /** An address with no `@` matches none of the three rules. */
  lemma NoAtScoresZero(email: string)
    requires '@' !in email
    ensures EmailScore(email) == 0
  {
    Absent(LettersThenDigits, 2, email);
    Absent(LongLocalPart, 1, email);
  }

  /** A listed domain scores at least 30, whatever the local part looks like. */
  lemma DisposableDomainScores(local: string, domain: string)
    requires '@' !in local && '@' !in domain && Lower(domain) in DisposableDomains
    ensures EmailScore(local + "@" + domain) >= 30
  {
    DisposableRuleMeaning(local, domain, []);
    assert local + "@" + domain + [] == local + "@" + domain;
  }
}
