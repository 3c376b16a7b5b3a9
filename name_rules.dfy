/** `detectBotByName`: a placeholder identity, two numeric names, or two
    long random-looking names. */
module NameRules {
  import opened Text
  import opened Patterns

  /** `/^\d+$/` */
  const AllDigits: Regex := Regex(true, [Plus(Digit)], true)
  /** `/^[a-z]{8,}$/i` */
  const LongLetters: Regex := Regex(true, [Atom(Letter, 8, Unbounded)], true)
  /** `/[aeiou]/i` */
  const AnyVowel: Regex := Regex(false, [One(Vowel)], false)

  /** `john` / `doe`, compared after lower-casing (+50). */
  predicate PlaceholderRule(firstName: string, lastName: string): (b: bool)
    ensures b ==> |firstName| == 4 && |lastName| == 3 && IsAsciiLetter(firstName[0]) && IsAsciiLetter(lastName[0])
  {
    Lower(firstName) == "john" && Lower(lastName) == "doe"
  }

  /** Both names are digits only (+50 when equal, +35 otherwise). */
  predicate NumericRule(firstName: string, lastName: string): (b: bool)
    ensures b <==> |firstName| >= 1 && (forall m :: 0 <= m < |firstName| ==> IsDigit(firstName[m]))
                   && |lastName| >= 1 && (forall m :: 0 <= m < |lastName| ==> IsDigit(lastName[m]))
  {
    AllDigitsMeaning(firstName);
    AllDigitsMeaning(lastName);
    Test(AllDigits, firstName) && Test(AllDigits, lastName)
  }

  /** Both names are eight or more letters, and the first has no vowel or is
      longer than twelve characters (+35). */
  predicate RandomLettersRule(firstName: string, lastName: string): (b: bool)
    ensures b <==> |firstName| >= 8 && (forall m :: 0 <= m < |firstName| ==> IsAsciiLetter(firstName[m]))
                   && |lastName| >= 8 && (forall m :: 0 <= m < |lastName| ==> IsAsciiLetter(lastName[m]))
                   && ((forall m :: 0 <= m < |firstName| ==> !IsVowel(firstName[m])) || |firstName| > 12)
  {
    LongLettersMeaning(firstName);
    LongLettersMeaning(lastName);
    AnyVowelMeaning(firstName);
    Test(LongLetters, firstName) && Test(LongLetters, lastName)
    && (!Test(AnyVowel, firstName) || |firstName| > 12)
  }

  /** `detectBotByName`: at most 50, and positive exactly when a rule fires. */
  function NameScore(firstName: string, lastName: string): (r: nat)
    ensures r <= 50
    ensures r > 0 <==> PlaceholderRule(firstName, lastName) || NumericRule(firstName, lastName) || RandomLettersRule(firstName, lastName)
  {
    RulesExclusive(firstName, lastName);
    (if PlaceholderRule(firstName, lastName) then 50 else 0)
    + (if NumericRule(firstName, lastName) then (if firstName == lastName then 50 else 35) else 0)
    + (if RandomLettersRule(firstName, lastName) then 35 else 0)
  }

  // ---------------------------------------------------------------------------
  // What the patterns mean

  lemma AllDigitsMeaning(s: string)
    ensures Test(AllDigits, s) <==> |s| >= 1 && forall m :: 0 <= m < |s| ==> IsDigit(s[m])
  {
    WholeRun(Digit, 1, s);
  }

  lemma LongLettersMeaning(s: string)
    ensures Test(LongLetters, s) <==> |s| >= 8 && forall m :: 0 <= m < |s| ==> IsAsciiLetter(s[m])
  {
    WholeRun(Letter, 8, s);
  }

  lemma AnyVowelMeaning(s: string)
    ensures Test(AnyVowel, s) <==> exists m :: 0 <= m < |s| && IsVowel(s[m])
  {
    ContainsClass(Vowel, s);
  }

  // ---------------------------------------------------------------------------
  // Properties

  /** At most one of the three rules fires: the placeholder names are four
      and three letters long, too short for the random-letters rule and not
      numeric, and a non-empty name cannot be all digits and all letters. */
  lemma RulesExclusive(firstName: string, lastName: string)
    ensures PlaceholderRule(firstName, lastName) ==> !NumericRule(firstName, lastName) && !RandomLettersRule(firstName, lastName)
    ensures !(NumericRule(firstName, lastName) && RandomLettersRule(firstName, lastName))
  {
    AllDigitsMeaning(firstName);
    LongLettersMeaning(firstName);
    if PlaceholderRule(firstName, lastName) {
      assert LowerChar(firstName[0]) == 'j';
    }
    if NumericRule(firstName, lastName) {
      assert IsDigit(firstName[0]);
    }
  }

  /** So the name sub-score is 0, 35 or 50. */
  lemma NameScoreValues(firstName: string, lastName: string)
    ensures NameScore(firstName, lastName) in {0, 35, 50}
  {
    RulesExclusive(firstName, lastName);
  }

  /** `John Doe` in any mix of cases scores 50. */
  lemma PlaceholderScores(firstName: string, lastName: string)
    requires Lower(firstName) == "john" && Lower(lastName) == "doe"
    ensures NameScore(firstName, lastName) == 50
  {
    RulesExclusive(firstName, lastName);
  }

  /** Two names made of digits score 50 when they are the same string and 35
      when they differ. */
  lemma NumericNamesScore(firstName: string, lastName: string)
    requires |firstName| >= 1 && forall m :: 0 <= m < |firstName| ==> IsDigit(firstName[m])
    requires |lastName| >= 1 && forall m :: 0 <= m < |lastName| ==> IsDigit(lastName[m])
    ensures NameScore(firstName, lastName) == if firstName == lastName then 50 else 35
  {
    AllDigitsMeaning(firstName);
    AllDigitsMeaning(lastName);
    RulesExclusive(firstName, lastName);
  }

  /** Two names of eight or more letters score 35 exactly when the first has
      no vowel or more than twelve letters. */
  lemma RandomLettersScore(firstName: string, lastName: string)
    requires |firstName| >= 8 && forall m :: 0 <= m < |firstName| ==> IsAsciiLetter(firstName[m])
    requires |lastName| >= 8 && forall m :: 0 <= m < |lastName| ==> IsAsciiLetter(lastName[m])
    ensures NameScore(firstName, lastName) ==
            if (forall m :: 0 <= m < |firstName| ==> !IsVowel(firstName[m])) || |firstName| > 12 then 35 else 0
  {
    LongLettersMeaning(firstName);
    LongLettersMeaning(lastName);
    AnyVowelMeaning(firstName);
    RulesExclusive(firstName, lastName);
  }

  /** Empty or missing names score nothing. */
  lemma EmptyNamesScoreZero()
    ensures NameScore("", "") == 0
  {
    AllDigitsMeaning("");
    LongLettersMeaning("");
    assert Lower("") == "";
  }
}
