/** `detectBotByAddress`: the three address lines are joined with spaces,
    lower-cased, and searched for four templates that automated sign-ups
    reuse. Each template adds its points at most once. */
module AddressRules {
  import opened Text
  import opened Patterns

  /** `street\s*`, shared by the literal and the generic street template. */
  const StreetHead: Pattern := Lits("street") + [Star(Space)]
  /** `\s*apt\s*` */
  const AptMiddle: Pattern := [Star(Space)] + Lits("apt") + [Star(Space)]

  /** `/street\s*10\s*apt\s*2/` */
  const StreetTenAptTwo: Regex := Regex(false, StreetHead + Lits("10") + AptMiddle + Lits("2"), false)
  /** `/house\s*number\s*43/` */
  const HouseNumber43: Regex := Regex(false, Lits("house") + [Star(Space)] + Lits("number") + [Star(Space)] + Lits("43"), false)
  /** `/gray\s*colony/` */
  const GrayColony: Regex := Regex(false, Lits("gray") + [Star(Space)] + Lits("colony"), false)
  /** `/bellevue.*98006/` */
  const Bellevue98006: Regex := Regex(false, Lits("bellevue") + [Star(NotLineTerminator)] + Lits("98006"), false)
  /** `/street\s*\d+\s*apt\s*\d+/` */
  const StreetDigitsAptDigits: Regex := Regex(false, StreetHead + [Plus(Digit)] + AptMiddle + [Plus(Digit)], false)

  /** The text the templates are searched in: `${address1} ${address2} ${city}`, lower-cased. */
  function JoinedAddress(address1: string, address2: string, city: string): (t: string)
    ensures |t| == |address1| + |address2| + |city| + 2
    ensures t[|address1|] == ' ' && t[|address1| + 1 + |address2|] == ' '
    ensures t == Lower(address1) + " " + Lower(address2) + " " + Lower(city)
  {
    LowerAppend(address1 + " " + address2 + " ", city);
    LowerAppend(address1 + " " + address2, " ");
    LowerAppend(address1 + " ", address2);
    LowerAppend(address1, " ");
    Lower(address1 + " " + address2 + " " + city)
  }

  /** The points the four templates give a joined, lower-cased text. */
  function TextScore(t: string): (r: nat)
    ensures r <= 160
    ensures r > 0 <==> Test(StreetTenAptTwo, t) || Test(HouseNumber43, t) || Test(GrayColony, t)
                       || Test(Bellevue98006, t) || Test(StreetDigitsAptDigits, t)
  {
    (if Test(StreetTenAptTwo, t) then 50 else 0)
    + (if Test(HouseNumber43, t) || Test(GrayColony, t) then 45 else 0)
    + (if Test(Bellevue98006, t) then 30 else 0)
    + (if Test(StreetDigitsAptDigits, t) then 35 else 0)
  }

  /** `detectBotByAddress`: lower-casing the joined text is joining the
      lower-cased lines. */
  function AddressScore(address1: string, address2: string, city: string): (r: nat)
    ensures r <= 160
    ensures r == TextScore(Lower(address1) + " " + Lower(address2) + " " + Lower(city))
  {
    TextScore(JoinedAddress(address1, address2, city))
  }

  // ---------------------------------------------------------------------------
  // Properties

  /** The literal digits of `street 10 apt 2` are digit runs, so the generic
      template matches wherever the literal one does. */
  lemma StreetTenAptTwoIsGeneric(t: string)
    ensures Test(StreetTenAptTwo, t) ==> Test(StreetDigitsAptDigits, t)
  {
    if Matches(StreetTenAptTwo, t) {
      var i: nat, j: nat :| MatchesAt(StreetTenAptTwo.body, t, i, j);
      DigitWordIsDigitRun("10", t);
      DigitWordIsDigitRun("2", t);
      assert StreetHead + Lits("10") + (AptMiddle + Lits("2")) == StreetTenAptTwo.body;
      Widen(StreetHead, Lits("10"), [Plus(Digit)], AptMiddle + Lits("2"), t, i, j);
      assert MatchesAt(StreetHead + [Plus(Digit)] + (AptMiddle + Lits("2")), t, i, j);
      assert StreetHead + [Plus(Digit)] + (AptMiddle + Lits("2")) == StreetHead + [Plus(Digit)] + AptMiddle + Lits("2") + [];
      Widen(StreetHead + [Plus(Digit)] + AptMiddle, Lits("2"), [Plus(Digit)], [], t, i, j);
      assert StreetHead + [Plus(Digit)] + AptMiddle + [Plus(Digit)] + [] == StreetDigitsAptDigits.body;
      Found(StreetDigitsAptDigits, t, i, j);
    }
  }

  /** Every match of a non-empty word of digits is a match of `\d+`. */
  lemma DigitWordIsDigitRun(w: string, t: string)
    requires |w| >= 1 && forall n :: 0 <= n < |w| ==> IsDigit(w[n])
    ensures forall a: nat, b: nat :: MatchesAt(Lits(w), t, a, b) ==> MatchesAt([Plus(Digit)], t, a, b)
  {
    forall a: nat, b: nat | MatchesAt(Lits(w), t, a, b)
      ensures MatchesAt([Plus(Digit)], t, a, b)
    {
      LitsAt(w, t, a, b);
      assert forall m :: a <= m < b ==> t[m] == w[m - a];
      SingleAt(Plus(Digit), t, a, b);
    }
  }

  /** Each template adds its points at most once, the house-number and
      gray-colony pair adds 45 even when both match, and the literal street
      template brings the generic one with it: the address sub-score is one
      of these twelve values, never more than 160, and at least 85 whenever
      `street 10 apt 2` matches. */
  lemma TextScoreValues(t: string)
    ensures TextScore(t) in {0, 30, 35, 45, 65, 75, 80, 85, 110, 115, 130, 160}
    ensures TextScore(t) <= 160
    ensures Test(StreetTenAptTwo, t) ==> TextScore(t) >= 85
  {
    StreetTenAptTwoIsGeneric(t);
    RuleSumValues(Test(StreetTenAptTwo, t), Test(HouseNumber43, t) || Test(GrayColony, t),
                  Test(Bellevue98006, t), Test(StreetDigitsAptDigits, t));
  }

  /** The sum of the four template points, when the literal street template
      implies the generic one. */
  lemma RuleSumValues(street: bool, houseOrGray: bool, bellevue: bool, generic: bool)
    requires street ==> generic
    ensures (if street then 50 else 0) + (if houseOrGray then 45 else 0) + (if bellevue then 30 else 0)
            + (if generic then 35 else 0) in {0, 30, 35, 45, 65, 75, 80, 85, 110, 115, 130, 160}
  {
  }

  /** `bellevue` starts at `i`, `98006` starts at `k` after it, and no line
      break lies between them. */
  ghost predicate BellevueThen98006(t: string, i: nat, k: nat) {
    i + 8 <= k && k + 5 <= |t| && t[i..i + 8] == "bellevue" && t[k..k + 5] == "98006"
    && forall m :: i + 8 <= m < k ==> !IsLineTerminator(t[m])
  }

  /** `bellevue.*98006`: `bellevue` occurs, and `98006` occurs later with no
      line break in between; `98006` before `bellevue` does not count. */
  lemma BellevueOrder(t: string)
    ensures Test(Bellevue98006, t) <==> exists i: nat, k: nat :: BellevueThen98006(t, i, k)
  {
    if Matches(Bellevue98006, t) {
      var i: nat, j: nat :| MatchesAt(Bellevue98006.body, t, i, j);
      var k := BellevueMatchIsOrdered(t, i, j);
    }
    if exists i: nat, k: nat :: BellevueThen98006(t, i, k) {
      var i: nat, k: nat :| BellevueThen98006(t, i, k);
      OrderedIsBellevueMatch(t, i, k);
    }
  }

  lemma BellevueMatchIsOrdered(t: string, i: nat, j: nat) returns (k: nat)
    requires MatchesAt(Bellevue98006.body, t, i, j)
    ensures BellevueThen98006(t, i, k)
  {
    WordRunWordSplit("bellevue", NotLineTerminator, "98006", t, i, j);
    k :| WordRunWordAt("bellevue", NotLineTerminator, "98006", t, i, k, j);
  }

  lemma OrderedIsBellevueMatch(t: string, i: nat, k: nat)
    requires BellevueThen98006(t, i, k)
    ensures Matches(Bellevue98006, t)
  {
    assert WordRunWordAt("bellevue", NotLineTerminator, "98006", t, i, k, k + 5);
    WordRunWordJoin("bellevue", NotLineTerminator, "98006", t, i, k, k + 5);
    Found(Bellevue98006, t, i, k + 5);
  }

  /** The Bellevue rule needs the zip code in the text: without a `9` it
      stays silent, whatever the city. */
  lemma NoZipNoBellevue(t: string)
    requires forall m :: 0 <= m < |t| ==> t[m] != '9'
    ensures !Test(Bellevue98006, t)
  {
    assert Bellevue98006.body[9] == One(Char('9'));
    Absent(Bellevue98006, 9, t);
  }

  /** `street 10 apt 2`, written with single spaces, is found by the
      literal template. */
  lemma StreetTenAptTwoAt(t: string, i: nat)
    requires i + 15 <= |t| && t[i..i + 15] == "street 10 apt 2"
    ensures Test(StreetTenAptTwo, t)
  {
    assert forall m :: i <= m < i + 15 ==> t[m] == "street 10 apt 2"[m - i];
    assert t[i..i + 6] == "street" && t[i + 7..i + 9] == "10";
    assert t[i + 10..i + 13] == "apt" && t[i + 14..i + 15] == "2";
    SpacedStreetTenAptTwo(t, i);
  }

  lemma SpacedStreetTenAptTwo(t: string, i: nat)
    requires i + 15 <= |t| && t[i + 6] == ' ' && t[i + 9] == ' ' && t[i + 13] == ' '
    requires t[i..i + 6] == "street" && t[i + 7..i + 9] == "10"
    requires t[i + 10..i + 13] == "apt" && t[i + 14..i + 15] == "2"
    ensures Test(StreetTenAptTwo, t)
  {
    var sp := [Star(Space)];
    WordGapWordAt("street", Space, "10", t, i);
    WordGapWordAt("apt", Space, "2", t, i + 10);
    SingleAt(Star(Space), t, i + 9, i + 10);
    ConcatJoin(sp, Lits("apt") + sp + Lits("2"), t, i + 9, i + 10, i + 15);
    ConcatJoin(Lits("street") + sp + Lits("10"), sp + (Lits("apt") + sp + Lits("2")), t, i, i + 9, i + 15);
    assert StreetTenAptTwo.body == Lits("street") + sp + Lits("10") + (sp + (Lits("apt") + sp + Lits("2")));
    Found(StreetTenAptTwo, t, i, i + 15);
  }

  /** `gray colony`, written with a single space, is found by its template. */
  lemma GrayColonyAt(t: string, i: nat)
    requires i + 11 <= |t| && t[i..i + 11] == "gray colony"
    ensures Test(GrayColony, t)
  {
    assert forall m :: i <= m < i + 11 ==> t[m] == "gray colony"[m - i];
    assert t[i..i + 4] == "gray";
    assert t[i + 5..i + 11] == "colony";
    WordGapWordAt("gray", Space, "colony", t, i);
    Found(GrayColony, t, i, i + 11);
  }

  // ---------------------------------------------------------------------------
  // What the templates mean

  /** `street` at `i`, whitespace up to `n`, `10` at `n`, whitespace up to
      `a`, `apt` at `a`, whitespace up to `d`, `2` at `d`. */
  ghost predicate StreetTenAptTwoShape(t: string, i: nat, n: nat, a: nat, d: nat) {
    WordAt(t, i, "street") && Run(Space, t, i + 6, n) && WordAt(t, n, "10")
    && Run(Space, t, n + 2, a) && WordAt(t, a, "apt") && Run(Space, t, a + 3, d) && WordAt(t, d, "2")
  }

  lemma StreetTenAptTwoMeaning(t: string)
    ensures Test(StreetTenAptTwo, t) <==> exists i: nat, n: nat, a: nat, d: nat :: StreetTenAptTwoShape(t, i, n, a, d)
  {
    FourWordsMeaning("street", "10", "apt", "2", Space, t);
    assert forall i: nat, n: nat, a: nat, d: nat ::
      StreetTenAptTwoShape(t, i, n, a, d) <==> FourWordsAt("street", "10", "apt", "2", Space, t, i, n, a, d);
  }

  /** `house` at `i`, whitespace up to `n`, `number` at `n`, whitespace up
      to `d`, `43` at `d`. */
  ghost predicate HouseNumber43Shape(t: string, i: nat, n: nat, d: nat) {
    WordAt(t, i, "house") && Run(Space, t, i + 5, n) && WordAt(t, n, "number")
    && Run(Space, t, n + 6, d) && WordAt(t, d, "43")
  }

  lemma HouseNumber43Meaning(t: string)
    ensures Test(HouseNumber43, t) <==> exists i: nat, n: nat, d: nat :: HouseNumber43Shape(t, i, n, d)
  {
    ThreeWordsMeaning("house", "number", "43", Space, t);
    assert forall i: nat, n: nat, d: nat ::
      HouseNumber43Shape(t, i, n, d) <==> ThreeWordsAt("house", "number", "43", Space, t, i, n, d);
  }

  /** `gray` at `i`, whitespace up to `c`, `colony` at `c`. */
  ghost predicate GrayColonyShape(t: string, i: nat, c: nat) {
    WordAt(t, i, "gray") && Run(Space, t, i + 4, c) && WordAt(t, c, "colony")
  }

  lemma GrayColonyMeaning(t: string)
    ensures Test(GrayColony, t) <==> exists i: nat, c: nat :: GrayColonyShape(t, i, c)
  {
    TwoWordsMeaning("gray", "colony", Space, t);
    assert forall i: nat, c: nat :: GrayColonyShape(t, i, c) <==> TwoWordsAt("gray", "colony", Space, t, i, c);
  }

  /** `street` at `i`, whitespace up to `d1`, digits over `d1..e1`,
      whitespace up to `a`, `apt` at `a`, whitespace up to `d2`, digits over
      `d2..j`. */
  ghost predicate StreetDigitsAptDigitsShape(t: string, i: nat, d1: nat, e1: nat, a: nat, d2: nat, j: nat) {
    WordAt(t, i, "street") && Run(Space, t, i + 6, d1) && d1 < e1 && Run(Digit, t, d1, e1)
    && Run(Space, t, e1, a) && WordAt(t, a, "apt") && Run(Space, t, a + 3, d2) && d2 < j && Run(Digit, t, d2, j)
  }

  lemma StreetDigitsAptDigitsMeaning(t: string)
    ensures Test(StreetDigitsAptDigits, t) <==>
            exists i: nat, d1: nat, e1: nat, a: nat, d2: nat, j: nat :: StreetDigitsAptDigitsShape(t, i, d1, e1, a, d2, j)
  {
    WordAtomWordAtomMeaning("street", "apt", Space, Plus(Digit), t);
    assert forall i: nat, d1: nat, e1: nat, a: nat, d2: nat, j: nat ::
      StreetDigitsAptDigitsShape(t, i, d1, e1, a, d2, j) <==> WordAtomWordAtomAt("street", "apt", Space, Plus(Digit), t, i, d1, e1, a, d2, j);
  }

  /** Matching ignores case: address lines that agree once lower-cased
      score the same. */
  lemma CaseInsensitive(a1: string, a2: string, c: string, b1: string, b2: string, d: string)
    requires Lower(a1) == Lower(b1) && Lower(a2) == Lower(b2) && Lower(c) == Lower(d)
    ensures AddressScore(a1, a2, c) == AddressScore(b1, b2, d)
  {
  }

  /** A text made of whitespace only matches no template: each of them
      starts with a letter. */
  lemma BlankTextScoresZero(t: string)
    requires forall m :: 0 <= m < |t| ==> IsSpace(t[m])
    ensures TextScore(t) == 0
  {
    FirstAtoms();
    Absent(StreetTenAptTwo, 0, t);
    Absent(HouseNumber43, 0, t);
    Absent(GrayColony, 0, t);
    Absent(Bellevue98006, 0, t);
    Absent(StreetDigitsAptDigits, 0, t);
  }

  /** The letter each template opens with. */
  lemma FirstAtoms()
    ensures StreetTenAptTwo.body[0] == One(Char('s')) && StreetDigitsAptDigits.body[0] == One(Char('s'))
    ensures HouseNumber43.body[0] == One(Char('h')) && GrayColony.body[0] == One(Char('g'))
    ensures Bellevue98006.body[0] == One(Char('b'))
  {
    assert StreetHead[0] == One(Char('s'));
  }

  /** Empty or missing address lines leave only the two joining spaces, so
      the address sub-score is 0. */
  lemma EmptyAddressScoresZero()
    ensures AddressScore("", "", "") == 0
  {
    var t := JoinedAddress("", "", "");
    assert t == "  ";
    BlankTextScoresZero(t);
  }
}
