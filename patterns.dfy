/** The fragment of JavaScript regular expressions that the scoring rules use:
    a sequence of atoms, each a character class repeated between a lower and
    an optional upper bound (`c`, `\s*`, `\d+`, `\d{2,4}`, `[a-z0-9]{10,}`),
    optionally anchored by `^` and `$` (without the `m` flag), and asked
    `RegExp.prototype.test`, i.e. whether some substring matches.

    `MatchesAt` and `Matches` say declaratively what a match is; `Test` is the
    backtracking matcher, proved to agree with them. */
module Patterns {
  import opened Text

  datatype CharClass =
    | Char(c: char)        // a literal character
    | Digit                // \d
    | Space                // \s
    | Letter               // [a-z] with the i flag
    | LetterOrDigit        // [a-z0-9] with the i flag
    | Vowel                // [aeiou] with the i flag
    | NotLineTerminator    // .

  predicate InClass(k: CharClass, c: char) {
    match k
    case Char(d) => c == d
    case Digit => IsDigit(c)
    case Space => IsSpace(c)
    case Letter => IsAsciiLetter(c)
    case LetterOrDigit => IsAsciiLetter(c) || IsDigit(c)
    case Vowel => IsVowel(c)
    case NotLineTerminator => !IsLineTerminator(c)
  }

  datatype Bound = Unbounded | AtMost(n: nat)

  predicate Within(b: Bound, n: nat) {
    b.Unbounded? || n <= b.n
  }

  /** One class, repeated at least `min` and at most `max` times. */
  datatype Atom = Atom(cls: CharClass, min: nat, max: Bound)

  type Pattern = seq<Atom>

  /** `atStart` stands for a leading `^`, `atEnd` for a trailing `$`. */
  datatype Regex = Regex(atStart: bool, body: Pattern, atEnd: bool)

  function One(k: CharClass): Atom { Atom(k, 1, AtMost(1)) }
  function Star(k: CharClass): Atom { Atom(k, 0, Unbounded) }
  function Plus(k: CharClass): Atom { Atom(k, 1, Unbounded) }

  /** A literal word, one atom per character. */
  function Lits(w: string): (p: Pattern)
    ensures |p| == |w|
    ensures forall n :: 0 <= n < |w| ==> p[n] == One(Char(w[n]))
  {
    seq(|w|, n requires 0 <= n < |w| => One(Char(w[n])))
  }

  // ---------------------------------------------------------------------------
  // Declarative semantics

  /** Every character of `s[i..j]` belongs to class `k`. */
  ghost predicate Run(k: CharClass, s: string, i: nat, j: nat) {
    i <= j <= |s| && forall m :: i <= m < j ==> InClass(k, s[m])
  }

  /** `s[i..j]` is one admissible repetition of atom `a`. */
  ghost predicate Chunk(a: Atom, s: string, i: nat, j: nat) {
    Run(a.cls, s, i, j) && a.min <= j - i && Within(a.max, j - i)
  }

  /** Pattern `p` matches exactly `s[i..j]`: `s[i..j]` cuts into consecutive
      chunks, one per atom. */
  ghost predicate MatchesAt(p: Pattern, s: string, i: nat, j: nat)
    ensures MatchesAt(p, s, i, j) ==> i <= j <= |s|
    decreases |p|
  {
    if p == [] then i == j <= |s|
    else exists k: nat :: i <= k <= j && Chunk(p[0], s, i, k) && MatchesAt(p[1..], s, k, j)
  }

  /** `r.test(s)`: some substring of `s` matches the body, starting at 0 when
      `r` has `^` and ending at `|s|` when it has `$`. */
  ghost predicate Matches(r: Regex, s: string) {
    exists i: nat, j: nat :: (r.atStart ==> i == 0) && (r.atEnd ==> j == |s|) && MatchesAt(r.body, s, i, j)
  }

  // ---------------------------------------------------------------------------
  // The backtracking matcher

  /** Does `p` match a prefix of `s[i..]` (all of it, when `atEnd`)? */
  function MatchHere(p: Pattern, s: string, i: nat, atEnd: bool): bool
    requires i <= |s|
    decreases |p|, 1, 0
  {
    if p == [] then !atEnd || i == |s|
    else Extend(p[0], p[1..], s, i, i, atEnd)
  }

  /** Atom `a` has consumed `s[i..k]` so far; either stop here and match
      `rest` from `k`, or consume one more character. */
  function Extend(a: Atom, rest: Pattern, s: string, i: nat, k: nat, atEnd: bool): bool
    requires i <= k <= |s| && Within(a.max, k - i)
    decreases |rest| + 1, 0, |s| - k
  {
    (a.min <= k - i && MatchHere(rest, s, k, atEnd))
    || (k < |s| && InClass(a.cls, s[k]) && Within(a.max, k + 1 - i) && Extend(a, rest, s, i, k + 1, atEnd))
  }

  /** Does `p` match some substring of `s` that starts at or after `i`? */
  function SearchFrom(p: Pattern, s: string, i: nat, atEnd: bool): bool
    requires i <= |s|
    decreases |s| - i
  {
    MatchHere(p, s, i, atEnd) || (i < |s| && SearchFrom(p, s, i + 1, atEnd))
  }

  /** `RegExp.prototype.test`: the matcher agrees with the declarative semantics. */
  function Test(r: Regex, s: string): (b: bool)
    ensures b <==> Matches(r, s)
  {
    if r.atStart then
      assert Matches(r, s) <==> MatchHere(r.body, s, 0, r.atEnd) by {
        MatchHereCorrect(r.body, s, 0, r.atEnd);
        if Matches(r, s) {
          var i: nat, j: nat :| i == 0 && (r.atEnd ==> j == |s|) && MatchesAt(r.body, s, i, j);
          assert (r.atEnd ==> j == |s|) && MatchesAt(r.body, s, 0, j);
        }
        if MatchHere(r.body, s, 0, r.atEnd) {
          var j: nat :| (r.atEnd ==> j == |s|) && MatchesAt(r.body, s, 0, j);
          assert (r.atStart ==> 0 == 0) && (r.atEnd ==> j == |s|) && MatchesAt(r.body, s, 0, j);
        }
      }
      MatchHere(r.body, s, 0, r.atEnd)
    else
      assert Matches(r, s) <==> SearchFrom(r.body, s, 0, r.atEnd) by {
        SearchFromCorrect(r.body, s, 0, r.atEnd);
        if Matches(r, s) {
          var i: nat, j: nat :| (r.atEnd ==> j == |s|) && MatchesAt(r.body, s, i, j);
          assert 0 <= i && (r.atEnd ==> j == |s|) && MatchesAt(r.body, s, i, j);
        }
        if SearchFrom(r.body, s, 0, r.atEnd) {
          var i: nat, j: nat :| 0 <= i && (r.atEnd ==> j == |s|) && MatchesAt(r.body, s, i, j);
          assert (r.atStart ==> i == 0) && (r.atEnd ==> j == |s|) && MatchesAt(r.body, s, i, j);
        }
      }
      SearchFrom(r.body, s, 0, r.atEnd)
  }

  // ---------------------------------------------------------------------------
  // Correctness of the matcher

  /** The matcher answers yes exactly when some end position `j` makes
      `s[i..j]` a match of `p`. */
  lemma {:induction false} MatchHereCorrect(p: Pattern, s: string, i: nat, atEnd: bool)
    requires i <= |s|
    ensures MatchHere(p, s, i, atEnd) <==> exists j: nat :: (atEnd ==> j == |s|) && MatchesAt(p, s, i, j)
    decreases |p|, 1, 0
  {
    if p == [] {
      if !atEnd || i == |s| {
        assert MatchesAt(p, s, i, i);
      }
    } else {
      ExtendCorrect(p[0], p[1..], s, i, i, atEnd);
      if exists j: nat :: (atEnd ==> j == |s|) && MatchesAt(p, s, i, j) {
        var j: nat :| (atEnd ==> j == |s|) && MatchesAt(p, s, i, j);
        var k: nat :| i <= k <= j && Chunk(p[0], s, i, k) && MatchesAt(p[1..], s, k, j);
        assert i <= k && (atEnd ==> j == |s|) && Chunk(p[0], s, i, k) && MatchesAt(p[1..], s, k, j);
        assert exists k': nat, j': nat :: i <= k' && (atEnd ==> j' == |s|) && Chunk(p[0], s, i, k') && MatchesAt(p[1..], s, k', j');
        assert Extend(p[0], p[1..], s, i, i, atEnd);
      }
      if MatchHere(p, s, i, atEnd) {
        var k: nat, j: nat :| i <= k && (atEnd ==> j == |s|) && Chunk(p[0], s, i, k) && MatchesAt(p[1..], s, k, j);
        assert MatchesAt(p, s, i, j);
      }
      assert MatchHere(p, s, i, atEnd) == Extend(p[0], p[1..], s, i, i, atEnd);
    }
  }

  /** Having consumed `s[i..k]`, the matcher succeeds exactly when the atom
      can end at some `k' >= k` with the rest matching after it. */
  lemma {:induction false} ExtendCorrect(a: Atom, rest: Pattern, s: string, i: nat, k: nat, atEnd: bool)
    requires i <= k <= |s| && Run(a.cls, s, i, k) && Within(a.max, k - i)
    ensures Extend(a, rest, s, i, k, atEnd) <==>
            exists k': nat, j: nat :: k <= k' && (atEnd ==> j == |s|) && Chunk(a, s, i, k') && MatchesAt(rest, s, k', j)
    decreases |rest| + 1, 0, |s| - k
  {
    MatchHereCorrect(rest, s, k, atEnd);
    var more := k < |s| && InClass(a.cls, s[k]) && Within(a.max, k + 1 - i);
    if more {
      ExtendCorrect(a, rest, s, i, k + 1, atEnd);
    }
    if Extend(a, rest, s, i, k, atEnd) && a.min <= k - i && MatchHere(rest, s, k, atEnd) {
      var j: nat :| (atEnd ==> j == |s|) && MatchesAt(rest, s, k, j);
      assert Chunk(a, s, i, k);
    }
    if exists k': nat, j: nat :: k <= k' && (atEnd ==> j == |s|) && Chunk(a, s, i, k') && MatchesAt(rest, s, k', j) {
      var k': nat, j: nat :| k <= k' && (atEnd ==> j == |s|) && Chunk(a, s, i, k') && MatchesAt(rest, s, k', j);
      if k' > k {
        assert InClass(a.cls, s[k]);
        assert more;
        assert k + 1 <= k';
      }
    }
  }

  /** The search succeeds exactly when a match starts at or after `i`. */
  lemma {:induction false} SearchFromCorrect(p: Pattern, s: string, i: nat, atEnd: bool)
    requires i <= |s|
    ensures SearchFrom(p, s, i, atEnd) <==>
            exists i': nat, j: nat :: i <= i' && (atEnd ==> j == |s|) && MatchesAt(p, s, i', j)
    decreases |s| - i
  {
    MatchHereCorrect(p, s, i, atEnd);
    if i < |s| {
      SearchFromCorrect(p, s, i + 1, atEnd);
    }
    if exists i': nat, j: nat :: i <= i' && (atEnd ==> j == |s|) && MatchesAt(p, s, i', j) {
      var i': nat, j: nat :| i <= i' && (atEnd ==> j == |s|) && MatchesAt(p, s, i', j);
      if i' > i {
        assert i + 1 <= i';
      }
    }
  }

  // ---------------------------------------------------------------------------
  // Facts about matches

  /** A match of `p + q` cuts into a match of `p` followed by a match of `q`. */
  lemma {:induction false} ConcatSplit(p: Pattern, q: Pattern, s: string, i: nat, j: nat)
    requires MatchesAt(p + q, s, i, j)
    ensures exists k: nat :: MatchesAt(p, s, i, k) && MatchesAt(q, s, k, j)
    decreases |p|
  {
    if p == [] {
      assert p + q == q;
      assert MatchesAt(p, s, i, i);
    } else {
      assert (p + q)[0] == p[0] && (p + q)[1..] == p[1..] + q;
      var k: nat :| i <= k <= j && Chunk(p[0], s, i, k) && MatchesAt(p[1..] + q, s, k, j);
      ConcatSplit(p[1..], q, s, k, j);
      var m: nat :| MatchesAt(p[1..], s, k, m) && MatchesAt(q, s, m, j);
      assert i <= k <= m && Chunk(p[0], s, i, k) && MatchesAt(p[1..], s, k, m);
      assert MatchesAt(p, s, i, m);
    }
  }

  /** A match of `p` followed by a match of `q` is a match of `p + q`. */
  lemma {:induction false} ConcatJoin(p: Pattern, q: Pattern, s: string, i: nat, k: nat, j: nat)
    requires MatchesAt(p, s, i, k) && MatchesAt(q, s, k, j)
    ensures MatchesAt(p + q, s, i, j)
    decreases |p|
  {
    if p == [] {
      assert p + q == q;
    } else {
      assert (p + q)[0] == p[0] && (p + q)[1..] == p[1..] + q;
      var m: nat :| i <= m <= k && Chunk(p[0], s, i, m) && MatchesAt(p[1..], s, m, k);
      ConcatJoin(p[1..], q, s, m, k, j);
      assert i <= m <= j && Chunk(p[0], s, i, m) && MatchesAt(p[1..] + q, s, m, j);
    }
  }

  /** A literal word matches exactly the places where it occurs. */
  lemma {:induction false} LitsAt(w: string, s: string, i: nat, j: nat)
    ensures MatchesAt(Lits(w), s, i, j) <==> j == i + |w| <= |s| && s[i..j] == w
    decreases |w|
  {
    if w != [] {
      var p := Lits(w);
      assert p[0] == One(Char(w[0])) && p[1..] == Lits(w[1..]);
      if MatchesAt(p, s, i, j) {
        var k: nat :| i <= k <= j && Chunk(p[0], s, i, k) && MatchesAt(p[1..], s, k, j);
        LitsAt(w[1..], s, k, j);
        assert k == i + 1 && s[i] == w[0];
        assert s[i..j] == [s[i]] + s[k..j];
      }
      if j == i + |w| <= |s| && s[i..j] == w {
        LitsAt(w[1..], s, i + 1, j);
        assert s[i + 1..j] == w[1..];
        assert s[i] == w[0];
        assert Chunk(p[0], s, i, i + 1);
      }
    }
  }

  /** An atom that must repeat at least once leaves a character of its class
      inside every match. */
  lemma {:induction false} Occurs(p: Pattern, n: nat, s: string, i: nat, j: nat)
    requires MatchesAt(p, s, i, j) && n < |p| && p[n].min >= 1
    ensures exists m :: i <= m < j && InClass(p[n].cls, s[m])
    decreases n
  {
    var k: nat :| i <= k <= j && Chunk(p[0], s, i, k) && MatchesAt(p[1..], s, k, j);
    if n == 0 {
      assert InClass(p[0].cls, s[i]);
    } else {
      Occurs(p[1..], n - 1, s, k, j);
    }
  }

  /** So a regular expression with such an atom never matches a text that has
      no character of that class. */
  lemma Absent(r: Regex, n: nat, s: string)
    requires n < |r.body| && r.body[n].min >= 1
    requires forall m :: 0 <= m < |s| ==> !InClass(r.body[n].cls, s[m])
    ensures !Matches(r, s)
  {
    if Matches(r, s) {
      var i: nat, j: nat :| (r.atStart ==> i == 0) && (r.atEnd ==> j == |s|) && MatchesAt(r.body, s, i, j);
      Occurs(r.body, n, s, i, j);
    }
  }

  /** A match found at a place satisfying the anchors makes `test` succeed. */
  lemma Found(r: Regex, s: string, i: nat, j: nat)
    requires (r.atStart ==> i == 0) && (r.atEnd ==> j == |s|) && MatchesAt(r.body, s, i, j)
    ensures Matches(r, s)
  {
  }

  /** One atom matches exactly the admissible repetitions of it. */
  lemma SingleAt(a: Atom, s: string, i: nat, j: nat)
    ensures MatchesAt([a], s, i, j) <==> Chunk(a, s, i, j)
  {
    assert [a][1..] == [];
    if Chunk(a, s, i, j) {
      assert MatchesAt([a][1..], s, j, j);
    }
  }

  /** With both anchors, one unbounded atom `x{min,}` matches exactly the texts
      of at least `min` characters, all of its class (`/^\d+$/`, `/^[a-z]{8,}$/i`). */
  lemma WholeRun(k: CharClass, min: nat, s: string)
    ensures Matches(Regex(true, [Atom(k, min, Unbounded)], true), s) <==>
            |s| >= min && forall m :: 0 <= m < |s| ==> InClass(k, s[m])
  {
    var r := Regex(true, [Atom(k, min, Unbounded)], true);
    SingleAt(Atom(k, min, Unbounded), s, 0, |s|);
    if Matches(r, s) {
      var i: nat, j: nat :| i == 0 && j == |s| && MatchesAt(r.body, s, i, j);
    }
  }

  /** Unanchored, one single-character class matches exactly the texts that
      contain a character of the class (`/[aeiou]/i`). */
  lemma ContainsClass(k: CharClass, s: string)
    ensures Matches(Regex(false, [One(k)], false), s) <==> exists m :: 0 <= m < |s| && InClass(k, s[m])
  {
    var r := Regex(false, [One(k)], false);
    if Matches(r, s) {
      var i: nat, j: nat :| MatchesAt(r.body, s, i, j);
      SingleAt(One(k), s, i, j);
      assert InClass(k, s[i]);
    }
    if exists m :: 0 <= m < |s| && InClass(k, s[m]) {
      var m :| 0 <= m < |s| && InClass(k, s[m]);
      SingleAt(One(k), s, m, m + 1);
      Found(r, s, m, m + 1);
    }
  }

  /** Replacing a part of a pattern by one that matches at least as much
      keeps every match. */
  lemma Widen(p: Pattern, x: Pattern, y: Pattern, q: Pattern, s: string, i: nat, j: nat)
    requires forall a: nat, b: nat :: MatchesAt(x, s, a, b) ==> MatchesAt(y, s, a, b)
    requires MatchesAt(p + x + q, s, i, j)
    ensures MatchesAt(p + y + q, s, i, j)
  {
    ConcatSplit(p + x, q, s, i, j);
    var k: nat :| MatchesAt(p + x, s, i, k) && MatchesAt(q, s, k, j);
    ConcatSplit(p, x, s, i, k);
    var m: nat :| MatchesAt(p, s, i, m) && MatchesAt(x, s, m, k);
    ConcatJoin(p, y, s, i, m, k);
    ConcatJoin(p + y, q, s, i, k, j);
  }

  /** `w1` then a run of class `k` then `w2` (as in `/bellevue.*98006/`)
      matches exactly where `w1` starts at `i` and `w2` starts at some `h`
      after it, with only characters of `k` in between. */
  ghost predicate WordRunWordAt(w1: string, k: CharClass, w2: string, t: string, i: nat, h: nat, j: nat) {
    i + |w1| <= h && h + |w2| == j <= |t| && t[i..i + |w1|] == w1 && t[h..j] == w2 && Run(k, t, i + |w1|, h)
  }

  lemma WordRunWordSplit(w1: string, k: CharClass, w2: string, t: string, i: nat, j: nat)
    requires MatchesAt(Lits(w1) + [Star(k)] + Lits(w2), t, i, j)
    ensures exists h: nat :: WordRunWordAt(w1, k, w2, t, i, h, j)
  {
    var gap := [Star(k)];
    ConcatSplit(Lits(w1) + gap, Lits(w2), t, i, j);
    var h: nat :| MatchesAt(Lits(w1) + gap, t, i, h) && MatchesAt(Lits(w2), t, h, j);
    ConcatSplit(Lits(w1), gap, t, i, h);
    var e: nat :| MatchesAt(Lits(w1), t, i, e) && MatchesAt(gap, t, e, h);
    LitsAt(w1, t, i, e);
    LitsAt(w2, t, h, j);
    SingleAt(Star(k), t, e, h);
    assert WordRunWordAt(w1, k, w2, t, i, h, j);
  }

  lemma WordRunWordJoin(w1: string, k: CharClass, w2: string, t: string, i: nat, h: nat, j: nat)
    requires WordRunWordAt(w1, k, w2, t, i, h, j)
    ensures MatchesAt(Lits(w1) + [Star(k)] + Lits(w2), t, i, j)
  {
    var gap := [Star(k)];
    LitsAt(w1, t, i, i + |w1|);
    LitsAt(w2, t, h, j);
    SingleAt(Star(k), t, i + |w1|, h);
    ConcatJoin(Lits(w1), gap, t, i, i + |w1|, h);
    ConcatJoin(Lits(w1) + gap, Lits(w2), t, i, h, j);
  }

  /** Two words separated by exactly one character of class `k` match
      `w1`, a run of `k`, then `w2`. */
  lemma WordGapWordAt(w1: string, k: CharClass, w2: string, t: string, i: nat)
    requires i + |w1| + 1 + |w2| <= |t| && InClass(k, t[i + |w1|])
    requires t[i..i + |w1|] == w1 && t[i + |w1| + 1..i + |w1| + 1 + |w2|] == w2
    ensures MatchesAt(Lits(w1) + [Star(k)] + Lits(w2), t, i, i + |w1| + 1 + |w2|)
  {
    assert WordRunWordAt(w1, k, w2, t, i, i + |w1| + 1, i + |w1| + 1 + |w2|);
    WordRunWordJoin(w1, k, w2, t, i, i + |w1| + 1, i + |w1| + 1 + |w2|);
  }

  /** A pattern that starts with atom `a` matches where `a` takes a chunk and
      the rest matches after it. */
  lemma ConsAt(a: Atom, p: Pattern, s: string, i: nat, j: nat)
    ensures MatchesAt([a] + p, s, i, j) <==> exists k: nat :: Chunk(a, s, i, k) && MatchesAt(p, s, k, j)
  {
    assert ([a] + p)[0] == a && ([a] + p)[1..] == p;
  }

  /** Two atoms match where each takes its own chunk, back to back. */
  lemma TwoAtoms(a: Atom, b: Atom, s: string, i: nat, j: nat)
    ensures MatchesAt([a, b], s, i, j) <==> exists k: nat :: Chunk(a, s, i, k) && Chunk(b, s, k, j)
  {
    assert [a, b] == [a] + [b];
    ConsAt(a, [b], s, i, j);
    forall k: nat {
      SingleAt(b, s, k, j);
    }
  }

  /** Three atoms match where each takes its own chunk, back to back. */
  lemma ThreeAtoms(a: Atom, b: Atom, c: Atom, s: string, i: nat, j: nat)
    ensures MatchesAt([a, b, c], s, i, j) <==>
            exists k: nat, m: nat :: Chunk(a, s, i, k) && Chunk(b, s, k, m) && Chunk(c, s, m, j)
  {
    assert [a, b, c] == [a] + [b, c];
    ConsAt(a, [b, c], s, i, j);
    forall k: nat {
      TwoAtoms(b, c, s, k, j);
    }
  }

  /** A pattern followed by one more atom matches where the pattern matches
      up to some `e` and the atom takes `s[e..j]`. */
  lemma SnocAt(p: Pattern, a: Atom, s: string, i: nat, j: nat)
    ensures MatchesAt(p + [a], s, i, j) <==> exists e: nat :: MatchesAt(p, s, i, e) && Chunk(a, s, e, j)
  {
    if MatchesAt(p + [a], s, i, j) {
      ConcatSplit(p, [a], s, i, j);
      var e: nat :| MatchesAt(p, s, i, e) && MatchesAt([a], s, e, j);
      SingleAt(a, s, e, j);
    }
    if exists e: nat :: MatchesAt(p, s, i, e) && Chunk(a, s, e, j) {
      var e: nat :| MatchesAt(p, s, i, e) && Chunk(a, s, e, j);
      SingleAt(a, s, e, j);
      ConcatJoin(p, [a], s, i, e, j);
    }
  }

  /** A pattern followed by a literal word matches where the word ends the
      text matched and the pattern matches up to the word's start. */
  lemma SnocWordAt(p: Pattern, w: string, s: string, i: nat, j: nat)
    ensures MatchesAt(p + Lits(w), s, i, j) <==>
            |w| <= j <= |s| && s[j - |w|..j] == w && MatchesAt(p, s, i, j - |w|)
  {
    if MatchesAt(p + Lits(w), s, i, j) {
      ConcatSplit(p, Lits(w), s, i, j);
      var e: nat :| MatchesAt(p, s, i, e) && MatchesAt(Lits(w), s, e, j);
      LitsAt(w, s, e, j);
    }
    if |w| <= j <= |s| && s[j - |w|..j] == w && MatchesAt(p, s, i, j - |w|) {
      LitsAt(w, s, j - |w|, j);
      ConcatJoin(p, Lits(w), s, i, j - |w|, j);
    }
  }

  /** `w` occurs in `s` at `i`. */
  ghost predicate WordAt(s: string, i: nat, w: string) {
    i + |w| <= |s| && s[i..i + |w|] == w
  }

  /** A match of `p`, a run of `k` and the word `w` cuts at the end `e` of
      `p`'s part and the start `h` of the word. */
  lemma RunWordSplit(p: Pattern, k: CharClass, w: string, s: string, i: nat, j: nat) returns (e: nat, h: nat)
    requires MatchesAt(p + [Star(k)] + Lits(w), s, i, j)
    ensures MatchesAt(p, s, i, e) && Run(k, s, e, h) && WordAt(s, h, w) && j == h + |w|
  {
    SnocWordAt(p + [Star(k)], w, s, i, j);
    h := j - |w|;
    SnocAt(p, Star(k), s, i, h);
    e :| MatchesAt(p, s, i, e) && Chunk(Star(k), s, e, h);
  }

  lemma RunWordJoin(p: Pattern, k: CharClass, w: string, s: string, i: nat, e: nat, h: nat)
    requires MatchesAt(p, s, i, e) && Run(k, s, e, h) && WordAt(s, h, w)
    ensures MatchesAt(p + [Star(k)] + Lits(w), s, i, h + |w|)
  {
    assert Chunk(Star(k), s, e, h);
    SnocAt(p, Star(k), s, i, h);
    SnocWordAt(p + [Star(k)], w, s, i, h + |w|);
  }

  /** A match of `p`, a run of `k` and the atom `a` cuts at the end `e` of
      `p`'s part and the start `h` of `a`'s chunk. */
  lemma RunAtomSplit(p: Pattern, k: CharClass, a: Atom, s: string, i: nat, j: nat) returns (e: nat, h: nat)
    requires MatchesAt(p + [Star(k)] + [a], s, i, j)
    ensures MatchesAt(p, s, i, e) && Run(k, s, e, h) && Chunk(a, s, h, j)
  {
    SnocAt(p + [Star(k)], a, s, i, j);
    h :| MatchesAt(p + [Star(k)], s, i, h) && Chunk(a, s, h, j);
    SnocAt(p, Star(k), s, i, h);
    e :| MatchesAt(p, s, i, e) && Chunk(Star(k), s, e, h);
  }

  lemma RunAtomJoin(p: Pattern, k: CharClass, a: Atom, s: string, i: nat, e: nat, h: nat, j: nat)
    requires MatchesAt(p, s, i, e) && Run(k, s, e, h) && Chunk(a, s, h, j)
    ensures MatchesAt(p + [Star(k)] + [a], s, i, j)
  {
    assert Chunk(Star(k), s, e, h);
    SnocAt(p, Star(k), s, i, h);
    SnocAt(p + [Star(k)], a, s, i, j);
  }

  /** A literal word alone matches where it occurs. */
  lemma WordStart(w: string, s: string, i: nat, e: nat)
    ensures MatchesAt(Lits(w), s, i, e) <==> e == i + |w| && WordAt(s, i, w)
  {
    LitsAt(w, s, i, e);
  }

  // ---------------------------------------------------------------------------
  // Words separated by runs of one class (the address templates)

  /** `w1` at `i`, a run of `k` up to `h`, `w2` at `h`. */
  ghost predicate TwoWordsAt(w1: string, w2: string, k: CharClass, t: string, i: nat, h: nat) {
    WordAt(t, i, w1) && Run(k, t, i + |w1|, h) && WordAt(t, h, w2)
  }

  lemma TwoWordsMeaning(w1: string, w2: string, k: CharClass, t: string)
    ensures Matches(Regex(false, Lits(w1) + [Star(k)] + Lits(w2), false), t) <==>
            exists i: nat, h: nat :: TwoWordsAt(w1, w2, k, t, i, h)
  {
    var r := Regex(false, Lits(w1) + [Star(k)] + Lits(w2), false);
    if Matches(r, t) {
      var i: nat, j: nat :| MatchesAt(r.body, t, i, j);
      var e, h := RunWordSplit(Lits(w1), k, w2, t, i, j);
      WordStart(w1, t, i, e);
      assert TwoWordsAt(w1, w2, k, t, i, h);
    }
    if exists i: nat, h: nat :: TwoWordsAt(w1, w2, k, t, i, h) {
      var i: nat, h: nat :| TwoWordsAt(w1, w2, k, t, i, h);
      WordStart(w1, t, i, i + |w1|);
      RunWordJoin(Lits(w1), k, w2, t, i, i + |w1|, h);
      Found(r, t, i, h + |w2|);
    }
  }

  /** `w1` at `i`, a run of `k`, `w2` at `h1`, a run of `k`, `w3` at `h2`. */
  ghost predicate ThreeWordsAt(w1: string, w2: string, w3: string, k: CharClass, t: string, i: nat, h1: nat, h2: nat) {
    WordAt(t, i, w1) && Run(k, t, i + |w1|, h1) && WordAt(t, h1, w2)
    && Run(k, t, h1 + |w2|, h2) && WordAt(t, h2, w3)
  }

  lemma ThreeWordsMeaning(w1: string, w2: string, w3: string, k: CharClass, t: string)
    ensures Matches(Regex(false, Lits(w1) + [Star(k)] + Lits(w2) + [Star(k)] + Lits(w3), false), t) <==>
            exists i: nat, h1: nat, h2: nat :: ThreeWordsAt(w1, w2, w3, k, t, i, h1, h2)
  {
    var r := Regex(false, Lits(w1) + [Star(k)] + Lits(w2) + [Star(k)] + Lits(w3), false);
    if Matches(r, t) {
      var i: nat, j: nat :| MatchesAt(r.body, t, i, j);
      var h1, h2 := ThreeWordsSplit(w1, w2, w3, k, t, i, j);
    }
    if exists i: nat, h1: nat, h2: nat :: ThreeWordsAt(w1, w2, w3, k, t, i, h1, h2) {
      var i: nat, h1: nat, h2: nat :| ThreeWordsAt(w1, w2, w3, k, t, i, h1, h2);
      ThreeWordsJoin(w1, w2, w3, k, t, i, h1, h2);
      Found(r, t, i, h2 + |w3|);
    }
  }

  lemma ThreeWordsSplit(w1: string, w2: string, w3: string, k: CharClass, t: string, i: nat, j: nat) returns (h1: nat, h2: nat)
    requires MatchesAt(Lits(w1) + [Star(k)] + Lits(w2) + [Star(k)] + Lits(w3), t, i, j)
    ensures ThreeWordsAt(w1, w2, w3, k, t, i, h1, h2) && j == h2 + |w3|
  {
    var e2: nat, e1: nat;
    e2, h2 := RunWordSplit(Lits(w1) + [Star(k)] + Lits(w2), k, w3, t, i, j);
    e1, h1 := RunWordSplit(Lits(w1), k, w2, t, i, e2);
    WordStart(w1, t, i, e1);
  }

  lemma ThreeWordsJoin(w1: string, w2: string, w3: string, k: CharClass, t: string, i: nat, h1: nat, h2: nat)
    requires ThreeWordsAt(w1, w2, w3, k, t, i, h1, h2)
    ensures MatchesAt(Lits(w1) + [Star(k)] + Lits(w2) + [Star(k)] + Lits(w3), t, i, h2 + |w3|)
  {
    WordStart(w1, t, i, i + |w1|);
    RunWordJoin(Lits(w1), k, w2, t, i, i + |w1|, h1);
    RunWordJoin(Lits(w1) + [Star(k)] + Lits(w2), k, w3, t, i, h1 + |w2|, h2);
  }

  /** Four words with runs of `k` between them: `w1` at `i`, `w2` at `h1`,
      `w3` at `h2`, `w4` at `h3`. */
  ghost predicate FourWordsAt(w1: string, w2: string, w3: string, w4: string, k: CharClass, t: string,
                              i: nat, h1: nat, h2: nat, h3: nat) {
    ThreeWordsAt(w1, w2, w3, k, t, i, h1, h2) && Run(k, t, h2 + |w3|, h3) && WordAt(t, h3, w4)
  }

  /** The pattern written as `w1\s*` + `w2` + `\s*w3\s*` + `w4`, the way
      the street template is put together. */
  lemma FourWordsMeaning(w1: string, w2: string, w3: string, w4: string, k: CharClass, t: string)
    ensures Matches(Regex(false, (Lits(w1) + [Star(k)]) + Lits(w2) + ([Star(k)] + Lits(w3) + [Star(k)]) + Lits(w4), false), t) <==>
            exists i: nat, h1: nat, h2: nat, h3: nat :: FourWordsAt(w1, w2, w3, w4, k, t, i, h1, h2, h3)
  {
    var r := Regex(false, (Lits(w1) + [Star(k)]) + Lits(w2) + ([Star(k)] + Lits(w3) + [Star(k)]) + Lits(w4), false);
    assert r.body == Lits(w1) + [Star(k)] + Lits(w2) + [Star(k)] + Lits(w3) + [Star(k)] + Lits(w4);
    if Matches(r, t) {
      var i: nat, j: nat :| MatchesAt(r.body, t, i, j);
      var h1, h2, h3 := FourWordsSplit(w1, w2, w3, w4, k, t, i, j);
    }
    if exists i: nat, h1: nat, h2: nat, h3: nat :: FourWordsAt(w1, w2, w3, w4, k, t, i, h1, h2, h3) {
      var i: nat, h1: nat, h2: nat, h3: nat :| FourWordsAt(w1, w2, w3, w4, k, t, i, h1, h2, h3);
      FourWordsJoin(w1, w2, w3, w4, k, t, i, h1, h2, h3);
      Found(r, t, i, h3 + |w4|);
    }
  }

  lemma FourWordsSplit(w1: string, w2: string, w3: string, w4: string, k: CharClass, t: string, i: nat, j: nat)
    returns (h1: nat, h2: nat, h3: nat)
    requires MatchesAt(Lits(w1) + [Star(k)] + Lits(w2) + [Star(k)] + Lits(w3) + [Star(k)] + Lits(w4), t, i, j)
    ensures FourWordsAt(w1, w2, w3, w4, k, t, i, h1, h2, h3)
  {
    var e3: nat;
    e3, h3 := RunWordSplit(Lits(w1) + [Star(k)] + Lits(w2) + [Star(k)] + Lits(w3), k, w4, t, i, j);
    h1, h2 := ThreeWordsSplit(w1, w2, w3, k, t, i, e3);
  }

  lemma FourWordsJoin(w1: string, w2: string, w3: string, w4: string, k: CharClass, t: string,
                      i: nat, h1: nat, h2: nat, h3: nat)
    requires FourWordsAt(w1, w2, w3, w4, k, t, i, h1, h2, h3)
    ensures MatchesAt(Lits(w1) + [Star(k)] + Lits(w2) + [Star(k)] + Lits(w3) + [Star(k)] + Lits(w4), t, i, h3 + |w4|)
  {
    ThreeWordsJoin(w1, w2, w3, k, t, i, h1, h2);
    RunWordJoin(Lits(w1) + [Star(k)] + Lits(w2) + [Star(k)] + Lits(w3), k, w4, t, i, h2 + |w3|, h3);
  }

  /** `w1` at `i`, a run of `k`, a chunk of `a` over `d1..e1`, a run of `k`,
      `w2` at `h`, a run of `k`, a chunk of `a` over `d2..j`. */
  ghost predicate WordAtomWordAtomAt(w1: string, w2: string, k: CharClass, a: Atom, t: string,
                                     i: nat, d1: nat, e1: nat, h: nat, d2: nat, j: nat) {
    WordAt(t, i, w1) && Run(k, t, i + |w1|, d1) && Chunk(a, t, d1, e1) && Run(k, t, e1, h)
    && WordAt(t, h, w2) && Run(k, t, h + |w2|, d2) && Chunk(a, t, d2, j)
  }

  /** The pattern written as `w1\s*` + `a` + `\s*w2\s*` + `a`, the way the
      generic street template is put together. */
  lemma WordAtomWordAtomMeaning(w1: string, w2: string, k: CharClass, a: Atom, t: string)
    ensures Matches(Regex(false, (Lits(w1) + [Star(k)]) + [a] + ([Star(k)] + Lits(w2) + [Star(k)]) + [a], false), t) <==>
            exists i: nat, d1: nat, e1: nat, h: nat, d2: nat, j: nat :: WordAtomWordAtomAt(w1, w2, k, a, t, i, d1, e1, h, d2, j)
  {
    var r := Regex(false, (Lits(w1) + [Star(k)]) + [a] + ([Star(k)] + Lits(w2) + [Star(k)]) + [a], false);
    assert r.body == Lits(w1) + [Star(k)] + [a] + [Star(k)] + Lits(w2) + [Star(k)] + [a];
    if Matches(r, t) {
      var i: nat, j: nat :| MatchesAt(r.body, t, i, j);
      var d1, e1, h, d2 := WordAtomWordAtomSplit(w1, w2, k, a, t, i, j);
    }
    if exists i: nat, d1: nat, e1: nat, h: nat, d2: nat, j: nat :: WordAtomWordAtomAt(w1, w2, k, a, t, i, d1, e1, h, d2, j) {
      var i: nat, d1: nat, e1: nat, h: nat, d2: nat, j: nat :| WordAtomWordAtomAt(w1, w2, k, a, t, i, d1, e1, h, d2, j);
      WordAtomWordAtomJoin(w1, w2, k, a, t, i, d1, e1, h, d2, j);
      Found(r, t, i, j);
    }
  }

  lemma WordAtomWordAtomSplit(w1: string, w2: string, k: CharClass, a: Atom, t: string, i: nat, j: nat)
    returns (d1: nat, e1: nat, h: nat, d2: nat)
    requires MatchesAt(Lits(w1) + [Star(k)] + [a] + [Star(k)] + Lits(w2) + [Star(k)] + [a], t, i, j)
    ensures WordAtomWordAtomAt(w1, w2, k, a, t, i, d1, e1, h, d2, j)
  {
    var p2 := Lits(w1) + [Star(k)] + [a];
    var p3 := p2 + [Star(k)] + Lits(w2);
    var e3, e0: nat;
    e3, d2 := RunAtomSplit(p3, k, a, t, i, j);
    e1, h := RunWordSplit(p2, k, w2, t, i, e3);
    e0, d1 := RunAtomSplit(Lits(w1), k, a, t, i, e1);
    WordStart(w1, t, i, e0);
  }

  lemma WordAtomWordAtomJoin(w1: string, w2: string, k: CharClass, a: Atom, t: string,
                             i: nat, d1: nat, e1: nat, h: nat, d2: nat, j: nat)
    requires WordAtomWordAtomAt(w1, w2, k, a, t, i, d1, e1, h, d2, j)
    ensures MatchesAt(Lits(w1) + [Star(k)] + [a] + [Star(k)] + Lits(w2) + [Star(k)] + [a], t, i, j)
  {
    var p2 := Lits(w1) + [Star(k)] + [a];
    var p3 := p2 + [Star(k)] + Lits(w2);
    WordStart(w1, t, i, i + |w1|);
    RunAtomJoin(Lits(w1), k, a, t, i, i + |w1|, d1, e1);
    RunWordJoin(p2, k, w2, t, i, e1, h);
    RunAtomJoin(p3, k, a, t, i, h + |w2|, d2, j);
  }
}
