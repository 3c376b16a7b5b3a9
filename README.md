# Checkout bot scorer

A model of the checkout scoring engine of a store-cleaning tool. `detectBot`
reads six fields from an abandoned-checkout record: the email, the first and
last name, and two address lines with the city. Three independent groups of
rules score those fields:

- the address rules, which search the joined, lower-cased address for four
  templates;
- the email rules, two on the local part and one on the domain;
- the name rules: a placeholder identity, numeric names, and random-looking
  names.

The total of the three sub-scores gives the verdict (`isBot` from 100 up) and a
confidence band. Each group that scored adds one human-readable reason.

The engine is pure, so the model is made of datatypes, functions and lemmas:

- `Text`: the JavaScript built-ins the scorer leans on. It covers ASCII
  `toLowerCase`, `split` with its round trip through `join`, and the
  decimal rendering of a number inside a template string.
- `Patterns`: the regular expressions the rules use. An expression is a
  sequence of atoms, each a character class with a minimum and maximum
  repetition, plus the `^`/`$` anchors. Its meaning is given declaratively
  (`MatchesAt`, `Matches`). `Test` is a backtracking matcher in the manner
  of `RegExp.prototype.test`, proved equivalent to that meaning. The
  character classes follow ECMAScript without the `u` flag:
  - `\s` is the WhiteSpace and LineTerminator set;
  - `\d` is the ASCII digits;
  - `[a-z]` under `i` is exactly the ASCII letters;
  - `.` is everything but the four line terminators.
- `AddressRules`, `EmailRules`, `NameRules`: the three sub-scorers. Every
  pattern is also given an explicit meaning (a lemma "`Test` holds iff …").
- `BotDetector`: field extraction with the `||` fallbacks, the reasons, the
  verdict and the bands.
- `MockCheckouts`: the two sample checkouts that server.js:60-98
  (`fetchAbandonedCheckouts`) returns, scored end to end.

## Model

| member | source | states |
|---|---|---|
| Text.Lower | bot-detector.js:106-107 | `toLowerCase` keeps the length and lowers each character on its own; lowering keeps digits digits and letters letters, and leaves no upper-case ASCII letter |
| Text.Split | bot-detector.js:95 | `split('@')` yields at least one piece, no piece contains the separator, and there is more than one piece exactly when the text contains the separator |
| Text.JoinSplit | bot-detector.js:95 | splitting loses nothing: joining the pieces with the separator gives back the original text |
| Text.SplitSecond | bot-detector.js:95 | after a first `@`, the second piece is the text up to the next `@`, and the first piece is the text before it |
| Text.DecimalRoundTrip | bot-detector.js:19 | the decimal numeral written into a reason reads back as the sub-score |
| Patterns.Test | bot-detector.js:55 | the backtracking matcher answers yes exactly when some substring (anchored at the start for `^`, at the end for `$`) matches the pattern |
| Patterns.MatchHereCorrect | bot-detector.js:55 | matching from a position succeeds exactly when some end position makes the text between them a match |
| Patterns.WholeRun | bot-detector.js:115 | an anchored `x{min,}` (`/^\d+$/`, `/^[a-z]{8,}$/i`) matches exactly the texts of at least `min` characters, all in the class |
| Patterns.ContainsClass | bot-detector.js:125 | an unanchored one-character class (`/[aeiou]/i`) matches exactly the texts that contain a character of the class |
| AddressRules.TextScore | bot-detector.js:54-74 | the points of the four templates are at most 160 in all, and are positive exactly when one of the five patterns matches |
| AddressRules.AddressScore | bot-detector.js:50-75 | `detectBotByAddress` gives at most 160, and lower-casing the joined text is the same as joining the lower-cased lines |
| AddressRules.JoinedAddress | bot-detector.js:52 | the searched text is the three lower-cased parts joined by single spaces, with the two spaces at the positions the part lengths fix |
| AddressRules.TextScoreValues | bot-detector.js:54-72 | each template adds at most once and house-number or gray-colony adds 45 once, so the address score is one of twelve values and at most 160; whenever `street 10 apt 2` matches, the score is at least 85 |
| AddressRules.StreetTenAptTwoIsGeneric | bot-detector.js:55-71 | every text the literal street template matches is also matched by the generic `street \d+ apt \d+` template |
| AddressRules.StreetTenAptTwoMeaning | bot-detector.js:55 | `/street\s*10\s*apt\s*2/` matches exactly when `street`, `10`, `apt` and `2` occur in that order with only whitespace (possibly none) between them |
| AddressRules.HouseNumber43Meaning | bot-detector.js:60 | `/house\s*number\s*43/` matches exactly when `house`, `number` and `43` occur in that order with only whitespace between them |
| AddressRules.GrayColonyMeaning | bot-detector.js:60 | `/gray\s*colony/` matches exactly when `gray` is followed, after whitespace only, by `colony` |
| AddressRules.StreetDigitsAptDigitsMeaning | bot-detector.js:70 | `/street\s*\d+\s*apt\s*\d+/` matches exactly when `street`, a non-empty run of digits, `apt` and another non-empty run of digits occur in that order with only whitespace between them |
| AddressRules.StreetTenAptTwoAt | bot-detector.js:55 | `street 10 apt 2` with single spaces, anywhere in the text, makes the literal template match |
| AddressRules.GrayColonyAt | bot-detector.js:60 | `gray colony` with a single space, anywhere in the text, makes its template match |
| AddressRules.BellevueOrder | bot-detector.js:65 | `/bellevue.*98006/` matches exactly when `bellevue` occurs and `98006` starts after it, with no line break in between |
| AddressRules.NoZipNoBellevue | bot-detector.js:65 | a text without the digit `9`, so without the zip `98006`, never fires the Bellevue rule, whatever the city |
| AddressRules.CaseInsensitive | bot-detector.js:52 | address lines that agree once lower-cased get the same address score |
| AddressRules.BlankTextScoresZero | bot-detector.js:50-75 | a text made of whitespace only matches no template and scores 0 |
| AddressRules.EmptyAddressScoresZero | bot-detector.js:50-75 | empty or missing address lines score 0 |
| EmailRules.Domain | bot-detector.js:95 | `email.split('@')[1]?.toLowerCase()` is present exactly when the email contains `@`, and contains no `@` itself |
| EmailRules.DomainOf | bot-detector.js:95 | for an email `local@domain…` whose local part and domain hold no `@`, the domain read is the domain, lower-cased, whatever follows a second `@` |
| EmailRules.LettersThenDigitsRule | bot-detector.js:81 | the +35 rule fires exactly when the email opens with letters, then two to four digits, then an `@` |
| EmailRules.LongLocalPartRule | bot-detector.js:86 | the +45 rule fires exactly when the email opens with ten or more letters and digits then an `@`, and no two to four digits sit right before any `@` |
| EmailRules.DisposableRule | bot-detector.js:96 | the +30 rule can fire only for an email that contains `@` |
| EmailRules.EmailScore | bot-detector.js:77-101 | `detectBotByEmail` gives at most 75, and is positive exactly when one of the three rules fires |
| EmailRules.LettersThenDigitsMeaning | bot-detector.js:81 | `/^[a-z]+\d{2,4}@/i` matches exactly when the email opens with letters, then two to four digits, then an `@` |
| EmailRules.LongLocalPartMeaning | bot-detector.js:86 | `/^[a-z0-9]{10,}@/i` matches exactly when the email opens with ten or more letters and digits followed by an `@` |
| EmailRules.DigitsBeforeAtMeaning | bot-detector.js:86 | `/\d{2,4}@/` matches exactly when two to four digits sit right before some `@` |
| EmailRules.LocalPartRulesExclusive | bot-detector.js:81-88 | the letters-then-digits rule and the long-local-part rule never both fire |
| EmailRules.EmailScoreValues | bot-detector.js:77-101 | the email score is one of 0, 30, 35, 45, 65, 75 |
| EmailRules.DisposableRuleMeaning | bot-detector.js:91-98 | the domain rule fires exactly when the text between the first `@` and the next one (or the end), lower-cased, is one of the six listed domains |
| EmailRules.NoAtScoresZero | bot-detector.js:77-101 | an email with no `@` scores 0 |
| EmailRules.DisposableDomainScores | bot-detector.js:91-98 | a listed domain after the only `@` scores at least 30, whatever the local part |
| NameRules.PlaceholderRule | bot-detector.js:110 | the placeholder rule can fire only for a four-character first name and a three-character last name, both opening with a letter |
| NameRules.NumericRule | bot-detector.js:115 | the numeric rule fires exactly when both names are non-empty and made of ASCII digits |
| NameRules.RandomLettersRule | bot-detector.js:124-126 | the random-letters rule fires exactly when both names are eight or more ASCII letters and the first has no vowel or is longer than twelve |
| NameRules.NameScore | bot-detector.js:103-132 | `detectBotByName` gives at most 50, and is positive exactly when one of the three rules fires |
| NameRules.AllDigitsMeaning | bot-detector.js:115 | `/^\d+$/` holds exactly for non-empty all-digit names |
| NameRules.LongLettersMeaning | bot-detector.js:124 | `/^[a-z]{8,}$/i` holds exactly for names of eight or more ASCII letters |
| NameRules.AnyVowelMeaning | bot-detector.js:125 | `/[aeiou]/i` holds exactly when the name contains a vowel of either case |
| NameRules.RulesExclusive | bot-detector.js:109-129 | at most one of the three name rules fires |
| NameRules.NameScoreValues | bot-detector.js:103-132 | the name score is 0, 35 or 50 |
| NameRules.PlaceholderScores | bot-detector.js:106-112 | `john`/`doe` in any mix of cases scores exactly 50 |
| NameRules.NumericNamesScore | bot-detector.js:115-121 | two all-digit names score 50 when they are the same string and 35 when they differ |
| NameRules.RandomLettersScore | bot-detector.js:124-129 | two names of eight or more letters score 35 exactly when the first has no vowel or is longer than twelve, and 0 otherwise |
| NameRules.EmptyNamesScoreZero | bot-detector.js:103-132 | empty or missing names score 0 |
| BotDetector.OrElse | bot-detector.js:8-13 | `x \|\| fallback`: a present, non-empty value wins; a missing or empty one gives the fallback; the result is empty exactly when both are |
| BotDetector.ExtractFields | bot-detector.js:8-13 | a non-empty customer email wins; otherwise the top-level email is read; every other field reads as its value, or as empty when it or its enclosing object is missing |
| BotDetector.Reasons | bot-detector.js:16-34 | one reason per group with a positive sub-score, none when all three are 0; the address reason comes first and the name reason last when they are present |
| BotDetector.ConfidenceOf | bot-detector.js:38-40 | very high iff the score is at least 150, high iff 100–149, medium iff 70–99, low below 70 |
| BotDetector.Assess | bot-detector.js:16-47 | the score is the sum of the three sub-scores, `isBot` iff it reaches the threshold of 100, the band is that of the score, and the reasons are empty exactly when the score is 0 |
| BotDetector.DetectBot | bot-detector.js:3-48 | `isBot` iff the band is high or very high; no reasons exactly when the score is 0; at most three reasons; a score of at most 285 |
| BotDetector.ReasonRoundTrip | bot-detector.js:19-33 | a reason string parses back to exactly the group and the points it was built from |
| BotDetector.ScoredGroups | bot-detector.js:16-34 | the groups with a positive sub-score, one per flagged group, each positive, in the order address, email, name |
| BotDetector.ReasonsOfScoredGroups | bot-detector.js:16-34 | `reasons` holds the reason of each scored group with that group's sub-score, in order |
| BotDetector.ReasonsFaithful | bot-detector.js:16-34 | `reasons` has one entry per group with a positive sub-score; each entry parses to that group and its sub-score; the entries come in the order address, email, name |
| BotDetector.VerdictAndBands | bot-detector.js:37-40 | `isBot` iff the score is at least 100; very high iff ≥ 150, high iff 100–149, medium iff 70–99, low below 70; so `isBot` iff the band is high or very high |
| BotDetector.ScoreIsSum | bot-detector.js:16-34 | the total is the sum of the three sub-scores of the extracted fields, between 0 and 285 |
| BotDetector.EmptyCheckoutIsClean | bot-detector.js:8-47 | a checkout whose fields are all missing or empty scores 0, is not a bot, has low confidence and no reasons |
| MockCheckouts.FirstAddress | server.js:70-75 | `street 10 apt 2` in Bellevue scores 85 (50 + 35); the Bellevue rule stays silent because the zip is not part of the address text |
| MockCheckouts.FirstEmailText | server.js:64-68 | `john.doe@example.com` scores 0 |
| MockCheckouts.FirstName | server.js:66-67 | John Doe scores 50 |
| MockCheckouts.FirstIsBot | server.js:62-78 | the first sample is a bot with score 135, high confidence, and an address reason and a name reason |
| MockCheckouts.SecondAddress | server.js:87-93 | `House Number 43`, `Gray Colony`, Bellevue scores 45 |
| MockCheckouts.SecondEmailText | server.js:81-85 | `allen690@gmail.com` scores 35 |
| MockCheckouts.SecondName | server.js:84-85 | Allen 690 scores 0: `Allen` is not numeric |
| MockCheckouts.SecondIsNotBot | server.js:79-96 | the second sample is not a bot: score 80, medium confidence, an address reason and an email reason |

## Left out

- The HTTP server, its routes and its statistics (server.js), the store API calls (shopify-api.js), token persistence (token-store.js) and the dashboard (public/app.js) are input/output glue around the scorer and are not part of this model. Only the sample checkouts of server.js are used, as test vectors.
- bot-detector.js:135-163 is setup prose, not code.
- Fields the scorer never reads (`province`, `zip`, `id`, timestamps, cart tokens) are absent from the record type; `created_at` comes from the clock.
- Lower: `toLowerCase` is modelled as ASCII lower-casing. The only characters whose full Unicode lower case contains an ASCII letter are U+0130 (to `i` plus a combining dot) and U+212A (to `k`). No address template, no placeholder name and no listed domain can be reached through them: the templates and the placeholder names contain neither `i` nor `k`, and the combining dot cannot be part of a listed domain. So the verdicts agree, but the model does not prove this.
- JavaScript strings are UTF-16 code units; the model's `char` is a Unicode scalar value. They differ only outside the Basic Multilingual Plane. The one place the scorer reads a length, the `> 12` check of the name rule (bot-detector.js:126), runs only after `/^[a-z]{8,}$/i` has matched the first name, so that name is ASCII there and both counts agree.
- A `null` or `undefined` checkout makes bot-detector.js:8 throw when it reads `checkout.email`. The model's `Checkout` is always a record, so that error is not modelled.
- Fields holding non-string values (a number in `first_name`, say) make the source throw or coerce. The record type only admits strings or missing fields.
- Patterns.Test answers the boolean of `RegExp.prototype.test`; which match is found first and the `lastIndex` state are not modelled, as the scorer only uses the boolean.

## Notes on the code

Facts about the code that a reader of the rules might not expect:

- The Bellevue rule `/bellevue.*98006/` is ordered: it needs `bellevue` first, with no line break before `98006`. It searches only address1, address2 and city and never reads the zip, so neither sample checkout triggers it (`AddressRules.BellevueOrder`).
- The first sample's address scores 85, not 50: the generic `street \d+ apt \d+` template fires alongside the literal one (`AddressRules.TextScoreValues`, `MockCheckouts.FirstAddress`).
- The second sample's name, `Allen`/`690`, scores 0: the numeric rule needs both names to be numeric, and `Allen` is not (`MockCheckouts.SecondName`).
- The bot threshold is the constant 100 (`BotDetector.BotThreshold`); nothing configures it.
