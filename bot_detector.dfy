/** `detectBot`: reads the fields of a checkout, adds up the address, email
    and name sub-scores, and turns the total into a verdict, a confidence band
    and one reason per group that scored. */
module BotDetector {
  import opened Text
  import AddressRules
  import EmailRules
  import NameRules

  // ---------------------------------------------------------------------------
  // The checkout record, as far as the scorer reads it

  datatype Customer = Customer(email: Option<string>, firstName: Option<string>, lastName: Option<string>)

  datatype ShippingAddress = ShippingAddress(address1: Option<string>, address2: Option<string>, city: Option<string>)

  /** A checkout: a top-level email and the optional `customer` and
      `shipping_address` objects. */
  datatype Checkout = Checkout(email: Option<string>, customer: Option<Customer>, shippingAddress: Option<ShippingAddress>)

  /** The six strings the rules look at. */
  datatype Fields = Fields(email: string, firstName: string, lastName: string,
                           address1: string, address2: string, city: string)

  datatype Confidence = Low | Medium | High | VeryHigh

  datatype Detection = Detection(isBot: bool, score: nat, confidence: Confidence, reasons: seq<string>)

  datatype Group = AddressGroup | EmailGroup | NameGroup

  const BotThreshold: nat := 100

  // ---------------------------------------------------------------------------
  // Reading the fields

  /** `x || fallback` for a string that may be missing: the empty string is
      falsy, so it falls through too. */
  function OrElse(x: Option<string>, fallback: string): (r: string)
    ensures x.Some? && x.value != "" ==> r == x.value
    ensures x.None? || x.value == "" ==> r == fallback
    ensures r == "" <==> (x.None? || x.value == "") && fallback == ""
  {
    if x.Some? && x.value != "" then x.value else fallback
  }

  /** The value read for a field: a missing field reads as the empty string. */
  function Read(x: Option<string>): string {
    if x.Some? then x.value else ""
  }

  /** The customer's email wins when it is there and not empty; otherwise the
      top-level email is used; every other field reads as empty when it or
      its enclosing object is missing. */
  function ExtractFields(c: Checkout): (f: Fields)
    ensures c.customer.Some? && c.customer.value.email.Some? && c.customer.value.email.value != ""
            ==> f.email == c.customer.value.email.value
    ensures (c.customer.None? || c.customer.value.email.None? || c.customer.value.email.value == "")
            ==> f.email == Read(c.email)
    ensures f.firstName == (if c.customer.Some? then Read(c.customer.value.firstName) else "")
    ensures f.lastName == (if c.customer.Some? then Read(c.customer.value.lastName) else "")
    ensures f.address1 == (if c.shippingAddress.Some? then Read(c.shippingAddress.value.address1) else "")
    ensures f.address2 == (if c.shippingAddress.Some? then Read(c.shippingAddress.value.address2) else "")
    ensures f.city == (if c.shippingAddress.Some? then Read(c.shippingAddress.value.city) else "")
  {
    var customerEmail := if c.customer.Some? then c.customer.value.email else None;
    var firstName := if c.customer.Some? then c.customer.value.firstName else None;
    var lastName := if c.customer.Some? then c.customer.value.lastName else None;
    var address1 := if c.shippingAddress.Some? then c.shippingAddress.value.address1 else None;
    var address2 := if c.shippingAddress.Some? then c.shippingAddress.value.address2 else None;
    var city := if c.shippingAddress.Some? then c.shippingAddress.value.city else None;
    Fields(OrElse(customerEmail, OrElse(c.email, "")), OrElse(firstName, ""), OrElse(lastName, ""),
           OrElse(address1, ""), OrElse(address2, ""), OrElse(city, ""))
  }

  // ---------------------------------------------------------------------------
  // Reasons

  function Label(g: Group): string {
    match g
    case AddressGroup => "address"
    case EmailGroup => "email"
    case NameGroup => "name"
  }

  function ReasonPrefix(g: Group): string {
    "Suspicious " + Label(g) + " pattern (score: "
  }

  /** `Suspicious <group> pattern (score: <points>)` */
  function Reason(g: Group, points: nat): string {
    ReasonPrefix(g) + Decimal(points) + ")"
  }

  /** The points a reason of group `g` states, if `s` is one. */
  function ParseReasonOf(g: Group, s: string): Option<nat> {
    var n := |ReasonPrefix(g)|;
    if n + 2 <= |s| && s[..n] == ReasonPrefix(g) && s[|s| - 1] == ')'
       && forall m :: n <= m < |s| - 1 ==> IsDigit(s[m])
    then Some(DigitsValue(s[n..|s| - 1]))
    else None
  }

  /** The group and points a reason string states. */
  function ParseReason(s: string): Option<(Group, nat)> {
    match ParseReasonOf(AddressGroup, s)
    case Some(p) => Some((AddressGroup, p))
    case None =>
      match ParseReasonOf(EmailGroup, s)
      case Some(p) => Some((EmailGroup, p))
      case None =>
        match ParseReasonOf(NameGroup, s)
        case Some(p) => Some((NameGroup, p))
        case None => None
  }

  /** The one reason per group that scored, in the order address, email, name. */
  function Reasons(addressScore: nat, emailScore: nat, nameScore: nat): (rs: seq<string>)
    ensures |rs| == Flag(addressScore) + Flag(emailScore) + Flag(nameScore)
    ensures rs == [] <==> addressScore == 0 && emailScore == 0 && nameScore == 0
    ensures addressScore > 0 ==> rs[0] == Reason(AddressGroup, addressScore)
    ensures nameScore > 0 ==> rs[|rs| - 1] == Reason(NameGroup, nameScore)
  {
    (if addressScore > 0 then [Reason(AddressGroup, addressScore)] else [])
    + (if emailScore > 0 then [Reason(EmailGroup, emailScore)] else [])
    + (if nameScore > 0 then [Reason(NameGroup, nameScore)] else [])
  }

  // ---------------------------------------------------------------------------
  // Verdict and score

  /** The bands split the scores at 70, 100 and 150. */
  function ConfidenceOf(score: nat): (c: Confidence)
    ensures c == VeryHigh <==> score >= 150
    ensures c == High <==> 100 <= score < 150
    ensures c == Medium <==> 70 <= score < 100
    ensures c == Low <==> score < 70
  {
    if score >= 150 then VeryHigh
    else if score >= 100 then High
    else if score >= 70 then Medium
    else Low
  }

  /** The result for the three sub-scores. */
  function Assess(addressScore: nat, emailScore: nat, nameScore: nat): (d: Detection)
    ensures d.score == addressScore + emailScore + nameScore
    ensures d.isBot <==> d.score >= BotThreshold
    ensures d.confidence == ConfidenceOf(d.score)
    ensures d.reasons == [] <==> d.score == 0
  {
    var total := addressScore + emailScore + nameScore;
    Detection(total >= BotThreshold, total, ConfidenceOf(total), Reasons(addressScore, emailScore, nameScore))
  }

  /** `detectBot`: a bot verdict comes exactly with a high or very high
      confidence, a score of 0 exactly with no reasons, and the score never
      exceeds 160 + 75 + 50. */
  function DetectBot(c: Checkout): (d: Detection)
    ensures d.isBot <==> d.confidence == High || d.confidence == VeryHigh
    ensures d.reasons == [] <==> d.score == 0
    ensures |d.reasons| <= 3
    ensures d.score <= 285
  {
    var f := ExtractFields(c);
    Assess(AddressRules.AddressScore(f.address1, f.address2, f.city),
           EmailRules.EmailScore(f.email),
           NameRules.NameScore(f.firstName, f.lastName))
  }

  // ---------------------------------------------------------------------------
  // Properties

  function Points(g: Group, addressScore: nat, emailScore: nat, nameScore: nat): nat {
    match g
    case AddressGroup => addressScore
    case EmailGroup => emailScore
    case NameGroup => nameScore
  }

  function Rank(g: Group): nat {
    match g
    case AddressGroup => 0
    case EmailGroup => 1
    case NameGroup => 2
  }

  function Flag(points: nat): nat {
    if points > 0 then 1 else 0
  }

  /** A reason string gives back the group and the points it was made from. */
  lemma ReasonRoundTrip(g: Group, points: nat)
    ensures ParseReason(Reason(g, points)) == Some((g, points))
  {
    ParseOwnReason(g, points);
    forall h | h != g
      ensures ParseReasonOf(h, Reason(g, points)) == None
    {
      ParseOtherReason(h, g, points);
    }
  }

  lemma ParseOwnReason(g: Group, points: nat)
    ensures ParseReasonOf(g, Reason(g, points)) == Some(points)
  {
    var s := Reason(g, points);
    var n := |ReasonPrefix(g)|;
    assert s[..n] == ReasonPrefix(g);
    assert s[n..|s| - 1] == Decimal(points);
    DecimalRoundTrip(points);
  }

  /** The twelfth character, the first of the label, tells the groups apart. */
  lemma ParseOtherReason(h: Group, g: Group, points: nat)
    requires h != g
    ensures ParseReasonOf(h, Reason(g, points)) == None
  {
    var s := Reason(g, points);
    assert s[11] == Label(g)[0];
    assert ReasonPrefix(h)[11] == Label(h)[0];
  }

  /** `reasons` has one entry per group with a positive sub-score, in the
      order address, email, name, and each entry states its group and that
      group's sub-score. */
  lemma ReasonsFaithful(addressScore: nat, emailScore: nat, nameScore: nat)
    ensures var rs := Reasons(addressScore, emailScore, nameScore);
      |rs| == Flag(addressScore) + Flag(emailScore) + Flag(nameScore)
      && (forall k :: 0 <= k < |rs| ==>
            ParseReason(rs[k]).Some?
            && ParseReason(rs[k]).value.1 == Points(ParseReason(rs[k]).value.0, addressScore, emailScore, nameScore) > 0)
      && (forall k, l :: 0 <= k < l < |rs| ==>
            Rank(ParseReason(rs[k]).value.0) < Rank(ParseReason(rs[l]).value.0))
  {
    var rs := Reasons(addressScore, emailScore, nameScore);
    var gs := ScoredGroups(addressScore, emailScore, nameScore);
    ReasonsOfScoredGroups(addressScore, emailScore, nameScore);
    forall k | 0 <= k < |rs|
      ensures ParseReason(rs[k]) == Some((gs[k], Points(gs[k], addressScore, emailScore, nameScore)))
    {
      ReasonRoundTrip(gs[k], Points(gs[k], addressScore, emailScore, nameScore));
    }
  }

  /** The groups with a positive sub-score, in the order address, email, name. */
  function ScoredGroups(addressScore: nat, emailScore: nat, nameScore: nat): (gs: seq<Group>)
    ensures |gs| == Flag(addressScore) + Flag(emailScore) + Flag(nameScore)
    ensures forall k :: 0 <= k < |gs| ==> Points(gs[k], addressScore, emailScore, nameScore) > 0
    ensures forall k, l :: 0 <= k < l < |gs| ==> Rank(gs[k]) < Rank(gs[l])
  {
    (if addressScore > 0 then [AddressGroup] else [])
    + (if emailScore > 0 then [EmailGroup] else [])
    + (if nameScore > 0 then [NameGroup] else [])
  }

  /** `reasons` holds the reason of each scored group, in order. */
  lemma ReasonsOfScoredGroups(addressScore: nat, emailScore: nat, nameScore: nat)
    ensures var rs := Reasons(addressScore, emailScore, nameScore);
      var gs := ScoredGroups(addressScore, emailScore, nameScore);
      |rs| == |gs| && forall k :: 0 <= k < |rs| ==> rs[k] == Reason(gs[k], Points(gs[k], addressScore, emailScore, nameScore))
  {
  }

  /** `isBot` holds exactly from the threshold up, and the bands split the
      scores at 70, 100 and 150, so a bot verdict always comes with a high or
      very high confidence, and only then. */
  lemma VerdictAndBands(addressScore: nat, emailScore: nat, nameScore: nat)
    ensures var d := Assess(addressScore, emailScore, nameScore);
      (d.isBot <==> d.score >= 100)
      && (d.confidence == VeryHigh <==> d.score >= 150)
      && (d.confidence == High <==> 100 <= d.score < 150)
      && (d.confidence == Medium <==> 70 <= d.score < 100)
      && (d.confidence == Low <==> d.score < 70)
      && (d.isBot <==> d.confidence in {High, VeryHigh})
  {
  }

  /** The total is the sum of the three sub-scores of the fields read from
      the checkout, so it is never negative and never above 285. */
  lemma ScoreIsSum(c: Checkout)
    ensures var f := ExtractFields(c);
      var a := AddressRules.AddressScore(f.address1, f.address2, f.city);
      var e := EmailRules.EmailScore(f.email);
      var n := NameRules.NameScore(f.firstName, f.lastName);
      DetectBot(c).score == a + e + n
      && 0 <= DetectBot(c).score <= 285
  {
    var f := ExtractFields(c);
    AddressRules.TextScoreValues(AddressRules.JoinedAddress(f.address1, f.address2, f.city));
    EmailRules.EmailScoreValues(f.email);
    NameRules.NameScoreValues(f.firstName, f.lastName);
  }

  predicate Blank(x: Option<string>) {
    x.None? || x.value == ""
  }

  /** A checkout whose fields are all missing or empty scores 0: not a bot,
      low confidence, no reasons. */
  lemma EmptyCheckoutIsClean(c: Checkout)
    requires Blank(c.email)
    requires c.customer.Some? ==> Blank(c.customer.value.email) && Blank(c.customer.value.firstName) && Blank(c.customer.value.lastName)
    requires c.shippingAddress.Some? ==>
               Blank(c.shippingAddress.value.address1) && Blank(c.shippingAddress.value.address2) && Blank(c.shippingAddress.value.city)
    ensures DetectBot(c) == Detection(false, 0, Low, [])
  {
    assert ExtractFields(c) == Fields("", "", "", "", "", "");
    AddressRules.EmptyAddressScoresZero();
    EmailRules.NoAtScoresZero("");
    NameRules.EmptyNamesScoreZero();
  }
}
