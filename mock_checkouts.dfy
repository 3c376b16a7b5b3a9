/** The two sample checkouts that server.js returns from
    `fetchAbandonedCheckouts`, scored end to end. */
module MockCheckouts {
  import opened Text
  import opened Patterns
  import AddressRules
  import EmailRules
  import NameRules
  import opened BotDetector

  /** `john.doe@example.com`, John Doe, `street 10 apt 2`, Bellevue (zip 98006,
      which the scorer does not read). */
  const First: Checkout :=
    Checkout(Some("john.doe@example.com"),
             Some(Customer(Some("john.doe@example.com"), Some("John"), Some("Doe"))),
             Some(ShippingAddress(Some("street 10 apt 2"), None, Some("Bellevue"))))

  /** `allen690@gmail.com`, Allen 690, `House Number 43`, `Gray Colony`, Bellevue. */
  const Second: Checkout :=
    Checkout(Some("allen690@gmail.com"),
             Some(Customer(Some("allen690@gmail.com"), Some("Allen"), Some("690"))),
             Some(ShippingAddress(Some("House Number 43"), Some("Gray Colony"), Some("Bellevue"))))

  // ---------------------------------------------------------------------------
  // The first checkout

  /** In `street 10 apt 2  bellevue` the literal street template matches,
      and so the generic one does too; no `h` or `g` starts the house-number
      or gray-colony template, and no `9` completes the Bellevue one. */
  lemma FirstAddressText(t: string)
    requires t == "street 10 apt 2  bellevue"
    ensures AddressRules.TextScore(t) == 85
  {
    FirstStreet(t);
    FirstNoHouse(t);
    FirstNoGray(t);
    AddressRules.NoZipNoBellevue(t);
    AddressRules.StreetTenAptTwoIsGeneric(t);
  }

  lemma FirstStreet(t: string)
    requires t == "street 10 apt 2  bellevue"
    ensures Test(AddressRules.StreetTenAptTwo, t)
  {
    assert t[0..15] == "street 10 apt 2";
    AddressRules.StreetTenAptTwoAt(t, 0);
  }

  lemma FirstNoHouse(t: string)
    requires t == "street 10 apt 2  bellevue"
    ensures !Test(AddressRules.HouseNumber43, t)
  {
    Absent(AddressRules.HouseNumber43, 0, t);
  }

  lemma FirstNoGray(t: string)
    requires t == "street 10 apt 2  bellevue"
    ensures !Test(AddressRules.GrayColony, t)
  {
    Absent(AddressRules.GrayColony, 0, t);
  }

  lemma FirstAddress()
    ensures AddressRules.AddressScore("street 10 apt 2", "", "Bellevue") == 85
  {
    FirstJoined();
    FirstAddressText(AddressRules.JoinedAddress("street 10 apt 2", "", "Bellevue"));
  }

  lemma FirstJoined()
    ensures AddressRules.JoinedAddress("street 10 apt 2", "", "Bellevue") == "street 10 apt 2  bellevue"
  {
    LowerWord("street 10 apt 2", "street 10 apt 2");
    LowerBellevue();
  }

  lemma LowerBellevue()
    ensures Lower("Bellevue") == "bellevue"
  {
    LowerWord("Bellevue", "bellevue");
  }

  /** `john.doe@example.com` has no digit, a `.` in its local part and an
      ordinary domain: no email rule fires. */
  lemma FirstEmailText(e: string)
    requires e == "john.doe@example.com"
    ensures EmailRules.EmailScore(e) == 0
  {
    FirstEmailNoDigits(e);
    FirstEmailShortLocal(e);
    FirstEmailDomain(e);
  }

  lemma FirstEmailNoDigits(e: string)
    requires e == "john.doe@example.com"
    ensures !EmailRules.LettersThenDigitsRule(e)
  {
    Absent(EmailRules.LettersThenDigits, 1, e);
  }

  lemma FirstEmailShortLocal(e: string)
    requires e == "john.doe@example.com"
    ensures !Test(EmailRules.LongLocalPart, e)
  {
    EmailRules.LongLocalPartMeaning(e);
    assert e[4] == '.';
  }

  lemma FirstEmailDomain(e: string)
    requires e == "john.doe@example.com"
    ensures !EmailRules.DisposableRule(e)
  {
    assert e == "john.doe" + "@" + "example.com" + [];
    LowerWord("example.com", "example.com");
    OrdinaryDomain(e, "john.doe", "example.com");
  }

  /** An address whose only `@` is followed by a domain off the list. */
  lemma OrdinaryDomain(e: string, local: string, domain: string)
    requires e == local + "@" + domain + [] && '@' !in local && '@' !in domain
    requires Lower(domain) !in EmailRules.DisposableDomains
    ensures !EmailRules.DisposableRule(e)
  {
    EmailRules.DisposableRuleMeaning(local, domain, []);
  }

  lemma FirstName()
    ensures NameRules.NameScore("John", "Doe") == 50
  {
    assert Lower("John") == "john";
    assert Lower("Doe") == "doe";
    NameRules.PlaceholderScores("John", "Doe");
  }

  /** The first checkout: address 50 + 35 (the Bellevue rule stays silent, as
      the zip is not part of the address text), email 0, name 50: a bot with
      high confidence and two reasons. */
  lemma FirstIsBot()
    ensures DetectBot(First) ==
            Detection(true, 135, High, ["Suspicious address pattern (score: 85)", "Suspicious name pattern (score: 50)"])
  {
    FirstScores(ExtractFields(First));
    FirstAssessment();
  }

  lemma FirstAssessment()
    ensures Assess(85, 0, 50) ==
            Detection(true, 135, High, ["Suspicious address pattern (score: 85)", "Suspicious name pattern (score: 50)"])
  {
    assert Assess(85, 0, 50) == Detection(true, 135, High, [Reason(AddressGroup, 85), Reason(NameGroup, 50)]);
    AddressReason85();
    NameReason50();
  }

  lemma AddressReason85()
    ensures Reason(AddressGroup, 85) == "Suspicious address pattern (score: 85)"
  {
    AddressPrefix();
    TwoDigits(85, "85");
    AddressReasonTexts(ReasonPrefix(AddressGroup));
  }

  lemma NameReason50()
    ensures Reason(NameGroup, 50) == "Suspicious name pattern (score: 50)"
  {
    NamePrefix();
    TwoDigits(50, "50");
    NameReasonText(ReasonPrefix(NameGroup));
  }

  lemma FirstScores(f: Fields)
    requires f == ExtractFields(First)
    ensures DetectBot(First) == Assess(85, 0, 50)
  {
    assert f == Fields("john.doe@example.com", "John", "Doe", "street 10 apt 2", "", "Bellevue");
    FirstAddress();
    FirstEmailText(f.email);
    FirstName();
  }

  // ---------------------------------------------------------------------------
  // The reason strings of the two checkouts

  lemma TwoDigits(points: nat, digits: string)
    requires 10 <= points < 100 && digits == [DigitChar(points / 10), DigitChar(points % 10)]
    ensures Decimal(points) == digits
  {
    assert Decimal(points / 10) == [DigitChar(points / 10)];
  }

  lemma AddressPrefix()
    ensures ReasonPrefix(AddressGroup) == "Suspicious address pattern (score: "
  {
  }

  lemma EmailPrefix()
    ensures ReasonPrefix(EmailGroup) == "Suspicious email pattern (score: "
  {
  }

  lemma NamePrefix()
    ensures ReasonPrefix(NameGroup) == "Suspicious name pattern (score: "
  {
  }

  lemma AddressReasonTexts(p: string)
    requires p == "Suspicious address pattern (score: "
    ensures p + "85" + ")" == "Suspicious address pattern (score: 85)"
    ensures p + "45" + ")" == "Suspicious address pattern (score: 45)"
  {
  }

  lemma EmailReasonText(p: string)
    requires p == "Suspicious email pattern (score: "
    ensures p + "35" + ")" == "Suspicious email pattern (score: 35)"
  {
  }

  lemma NameReasonText(p: string)
    requires p == "Suspicious name pattern (score: "
    ensures p + "50" + ")" == "Suspicious name pattern (score: 50)"
  {
  }

  // ---------------------------------------------------------------------------
  // The second checkout

  /** In `house number 43 gray colony bellevue` no `t` follows the `s` of a
      street template, `gray colony` matches, and no `9` completes the
      Bellevue template. */
  lemma SecondAddressText(t: string)
    requires t == "house number 43 gray colony bellevue"
    ensures AddressRules.TextScore(t) == 45
  {
    SecondNoStreet(t);
    SecondGray(t);
    AddressRules.NoZipNoBellevue(t);
  }

  lemma SecondNoStreet(t: string)
    requires t == "house number 43 gray colony bellevue"
    ensures !Test(AddressRules.StreetTenAptTwo, t) && !Test(AddressRules.StreetDigitsAptDigits, t)
  {
    assert AddressRules.StreetHead[1] == One(Char('t'));
    assert AddressRules.StreetTenAptTwo.body[1] == One(Char('t'));
    assert AddressRules.StreetDigitsAptDigits.body[1] == One(Char('t'));
    Absent(AddressRules.StreetTenAptTwo, 1, t);
    Absent(AddressRules.StreetDigitsAptDigits, 1, t);
  }

  lemma SecondGray(t: string)
    requires t == "house number 43 gray colony bellevue"
    ensures Test(AddressRules.GrayColony, t)
  {
    assert t[16..27] == "gray colony";
    AddressRules.GrayColonyAt(t, 16);
  }

  lemma SecondAddress()
    ensures AddressRules.AddressScore("House Number 43", "Gray Colony", "Bellevue") == 45
  {
    SecondJoined();
    SecondAddressText(AddressRules.JoinedAddress("House Number 43", "Gray Colony", "Bellevue"));
  }

  lemma SecondJoined()
    ensures AddressRules.JoinedAddress("House Number 43", "Gray Colony", "Bellevue") == "house number 43 gray colony bellevue"
  {
    LowerHouse();
    LowerGray();
    LowerBellevue();
    Joined("House Number 43", "Gray Colony", "Bellevue", "house number 43", "gray colony", "bellevue");
    SecondText();
  }

  lemma SecondText()
    ensures "house number 43" + " " + "gray colony" + " " + "bellevue" == "house number 43 gray colony bellevue"
  {
  }

  lemma Joined(a1: string, a2: string, c: string, l1: string, l2: string, l3: string)
    requires Lower(a1) == l1 && Lower(a2) == l2 && Lower(c) == l3
    ensures AddressRules.JoinedAddress(a1, a2, c) == l1 + " " + l2 + " " + l3
  {
  }

  lemma LowerHouse()
    ensures Lower("House Number 43") == "house number 43"
  {
    LowerWord("House Number 43", "house number 43");
  }

  lemma LowerGray()
    ensures Lower("Gray Colony") == "gray colony"
  {
    LowerWord("Gray Colony", "gray colony");
  }

  /** Lower-casing a literal, one character at a time. */
  lemma LowerWord(w: string, l: string)
    requires |w| == |l| && forall n :: 0 <= n < |w| ==> LowerChar(w[n]) == l[n]
    ensures Lower(w) == l
  {
  }

  /** `allen690@gmail.com`: five letters, three digits, then `@`, so the
      letters-then-digits rule fires, which keeps the long-local-part rule
      off; `gmail.com` is not disposable. */
  lemma SecondEmailText(e: string)
    requires e == "allen690@gmail.com"
    ensures EmailRules.EmailScore(e) == 35
  {
    SecondEmailDigits(e);
    EmailRules.LocalPartRulesExclusive(e);
    SecondEmailDomain(e);
  }

  lemma SecondEmailDigits(e: string)
    requires e == "allen690@gmail.com"
    ensures EmailRules.LettersThenDigitsRule(e)
  {
    EmailRules.LettersThenDigitsMeaning(e);
    assert EmailRules.LettersThenDigitsAt(e, 5, 8);
  }

  lemma SecondEmailDomain(e: string)
    requires e == "allen690@gmail.com"
    ensures !EmailRules.DisposableRule(e)
  {
    assert e == "allen690" + "@" + "gmail.com" + [];
    LowerWord("gmail.com", "gmail.com");
    OrdinaryDomain(e, "allen690", "gmail.com");
  }

  lemma SecondName()
    ensures NameRules.NameScore("Allen", "690") == 0
  {
    NameRules.AllDigitsMeaning("Allen");
    NameRules.LongLettersMeaning("690");
    assert !IsDigit("Allen"[0]);
    assert |Lower("Allen")| == 5;
  }

  /** The second checkout: address 45, email 35 (`allen690@`), name 0
      (`Allen` is not numeric): 80, medium confidence, not a bot. */
  lemma SecondIsNotBot()
    ensures DetectBot(Second) ==
            Detection(false, 80, Medium, ["Suspicious address pattern (score: 45)", "Suspicious email pattern (score: 35)"])
  {
    SecondScores(ExtractFields(Second));
    SecondAssessment();
  }

  lemma SecondAssessment()
    ensures Assess(45, 35, 0) ==
            Detection(false, 80, Medium, ["Suspicious address pattern (score: 45)", "Suspicious email pattern (score: 35)"])
  {
    assert Assess(45, 35, 0) == Detection(false, 80, Medium, [Reason(AddressGroup, 45), Reason(EmailGroup, 35)]);
    AddressReason45();
    EmailReason35();
  }

  lemma AddressReason45()
    ensures Reason(AddressGroup, 45) == "Suspicious address pattern (score: 45)"
  {
    AddressPrefix();
    TwoDigits(45, "45");
    AddressReasonTexts(ReasonPrefix(AddressGroup));
  }

  lemma EmailReason35()
    ensures Reason(EmailGroup, 35) == "Suspicious email pattern (score: 35)"
  {
    EmailPrefix();
    TwoDigits(35, "35");
    EmailReasonText(ReasonPrefix(EmailGroup));
  }

  lemma SecondScores(f: Fields)
    requires f == ExtractFields(Second)
    ensures DetectBot(Second) == Assess(45, 35, 0)
  {
    assert f == Fields("allen690@gmail.com", "Allen", "690", "House Number 43", "Gray Colony", "Bellevue");
    SecondAddress();
    SecondEmailText(f.email);
    SecondName();
  }
}
