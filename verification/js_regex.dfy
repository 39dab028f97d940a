/**
 * The fragment of ECMAScript regular expressions that the config-file test
 * uses: literal characters, `.`, `\d`, concatenation, alternation, `*` and `+`.
 *
 * An ECMAScript string is a sequence of UTF-16 code units, and a pattern
 * compiled without the `u` flag reads its input one code unit at a time: `.`
 * takes a single code unit, so a character outside the Basic Multilingual
 * Plane, stored as a surrogate pair, is two characters to it. Inputs here are
 * therefore sequences of code units, lone surrogates included.
 *
 * Matching is given as language membership. For a pattern written between the
 * anchors `^` and `$` without the `m` flag, `RegExp.prototype.test` succeeds
 * exactly when the whole input is in the language of the pattern between the
 * anchors: backtracking explores every split and every alternative, and none of
 * these constructs has a lookaround or a back-reference.
 */
module JsRegex {
  import opened JsStrings

  datatype Regex =
    | Literal(w: JsString)             // a run of literal code units
    | AnyChar                          // `.`: any one code unit but a line terminator
    | Digit                            // `\d`: an ASCII digit
    | Concat(left: Regex, right: Regex)
    | Alt(left: Regex, right: Regex)   // `|`
    | Star(body: Regex)                // `*`

  /** The code units `.` refuses without the `s` flag (section 22.2.2.9 of ECMA-262). */
  predicate LineTerminator(c: CodeUnit) {
    c == 0x0A || c == 0x0D || c == 0x2028 || c == 0x2029
  }

  /** `0` to `9`. */
  predicate IsDigit(c: CodeUnit) {
    0x30 <= c <= 0x39
  }

  predicate NoLineTerminator(s: JsString) {
    forall i | 0 <= i < |s| :: !LineTerminator(s[i])
  }

  /** Printable ASCII encodes to no line terminator. */
  lemma PrintableNoLineTerminator(s: string)
    requires Printable(s)
    ensures NoLineTerminator(Utf16(s))
  {
    Utf16Bmp(s);
  }

  /** `r+` is `r r*`. */
  function Plus(r: Regex): Regex {
    Concat(r, Star(r))
  }

  /** The patterns that match exactly one code unit. */
  predicate SingleChar(r: Regex) {
    (r.Literal? && |r.w| == 1) || r.AnyChar? || r.Digit?
  }

  predicate CharMatches(r: Regex, ch: CodeUnit)
    requires SingleChar(r)
  {
    match r
    case Literal(w) => ch == w[0]
    case AnyChar => !LineTerminator(ch)
    case Digit => IsDigit(ch)
  }

  /** `s` is in the language of `r`. */
  predicate Matches(r: Regex, s: JsString)
    decreases r, |s|, |s| + 1
  {
    match r
    case Literal(w) => s == w
    case AnyChar => |s| == 1 && !LineTerminator(s[0])
    case Digit => |s| == 1 && IsDigit(s[0])
    case Concat(a, b) => SplitFrom(a, b, s, 0)
    case Alt(a, b) => Matches(a, s) || Matches(b, s)
    case Star(a) => s == [] || StarFrom(a, s, 1)
  }

  /** Some split of `s` at a position `k` or later puts an `a` in front of a `b`. */
  predicate SplitFrom(a: Regex, b: Regex, s: JsString, k: nat)
    decreases Concat(a, b), |s|, |s| - k
  {
    k <= |s| && ((Matches(a, s[..k]) && Matches(b, s[k..])) || SplitFrom(a, b, s, k + 1))
  }

  /** Some non-empty first iteration of `a*`, ending at `k` or later, is followed by more of `a*`. */
  predicate StarFrom(a: Regex, s: JsString, k: nat)
    requires k >= 1
    decreases Star(a), |s|, |s| - k
  {
    k <= |s| && ((Matches(a, s[..k]) && Matches(Star(a), s[k..])) || StarFrom(a, s, k + 1))
  }

  lemma {:induction false} SplitFromExists(a: Regex, b: Regex, s: JsString, k: nat)
    ensures SplitFrom(a, b, s, k) <==> exists j | k <= j <= |s| :: Matches(a, s[..j]) && Matches(b, s[j..])
    decreases |s| - k
  {
    if k <= |s| {
      SplitFromExists(a, b, s, k + 1);
    }
  }

  lemma {:induction false} StarFromExists(a: Regex, s: JsString, k: nat)
    requires k >= 1
    ensures StarFrom(a, s, k) <==> exists j | k <= j <= |s| :: Matches(a, s[..j]) && Matches(Star(a), s[j..])
    decreases |s| - k
  {
    if k <= |s| {
      StarFromExists(a, s, k + 1);
    }
  }

  /** Concatenation: some split point puts an `a` in front of a `b`. */
  lemma ConcatMatches(a: Regex, b: Regex, s: JsString)
    ensures Matches(Concat(a, b), s) <==> exists k | 0 <= k <= |s| :: Matches(a, s[..k]) && Matches(b, s[k..])
  {
    SplitFromExists(a, b, s, 0);
  }

  /** Iteration: empty, or a non-empty `a` followed by more of `a*`. */
  lemma StarMatches(a: Regex, s: JsString)
    ensures Matches(Star(a), s) <==> s == [] || exists k | 1 <= k <= |s| :: Matches(a, s[..k]) && Matches(Star(a), s[k..])
  {
    StarFromExists(a, s, 1);
  }

  lemma SingleCharMatches(r: Regex, s: JsString)
    requires SingleChar(r)
    ensures Matches(r, s) <==> |s| == 1 && CharMatches(r, s[0])
  {
  }

  /** A single-character pattern under `*` matches exactly the strings all of whose code units it accepts. */
  lemma {:induction false} StarSingleChar(r: Regex, s: JsString)
    requires SingleChar(r)
    ensures Matches(Star(r), s) <==> forall i | 0 <= i < |s| :: CharMatches(r, s[i])
    decreases |s|
  {
    if s != [] {
      StarMatches(r, s);
      StarSingleChar(r, s[1..]);
      if Matches(Star(r), s) {
        var k :| 1 <= k <= |s| && Matches(r, s[..k]) && Matches(Star(r), s[k..]);
        SingleCharMatches(r, s[..k]);
        forall i | 0 <= i < |s|
          ensures CharMatches(r, s[i])
        {
          if i == 0 {
            assert s[..k][0] == s[0];
          } else {
            assert s[i] == s[1..][i - 1];
          }
        }
      }
      if forall i | 0 <= i < |s| :: CharMatches(r, s[i]) {
        SingleCharMatches(r, s[..1]);
        forall i | 0 <= i < |s[1..]|
          ensures CharMatches(r, s[1..][i])
        {
          assert s[1..][i] == s[i + 1];
        }
        assert Matches(r, s[..1]) && Matches(Star(r), s[1..]);
      }
    }
  }

  /** A single-character pattern under `+` matches the non-empty strings all of whose code units it accepts. */
  lemma PlusSingleChar(r: Regex, s: JsString)
    requires SingleChar(r)
    ensures Matches(Plus(r), s) <==> |s| >= 1 && forall i | 0 <= i < |s| :: CharMatches(r, s[i])
  {
    ConcatSingleFirst(r, Star(r), s);
    if |s| >= 1 {
      StarSingleChar(r, s[1..]);
      assert forall i | 1 <= i < |s| :: s[i] == s[1..][i - 1];
    }
  }

  /** Splitting off a leading single-character pattern. */
  lemma ConcatSingleFirst(r: Regex, b: Regex, s: JsString)
    requires SingleChar(r)
    ensures Matches(Concat(r, b), s) <==> |s| >= 1 && CharMatches(r, s[0]) && Matches(b, s[1..])
  {
    ConcatMatches(r, b, s);
    if Matches(Concat(r, b), s) {
      var k :| 0 <= k <= |s| && Matches(r, s[..k]) && Matches(b, s[k..]);
      SingleCharMatches(r, s[..k]);
    }
    if |s| >= 1 && CharMatches(r, s[0]) && Matches(b, s[1..]) {
      SingleCharMatches(r, s[..1]);
      assert Matches(r, s[..1]) && Matches(b, s[1..]);
    }
  }

  /** Splitting off a trailing single-character pattern. */
  lemma ConcatSingleLast(a: Regex, r: Regex, s: JsString)
    requires SingleChar(r)
    ensures Matches(Concat(a, r), s) <==> |s| >= 1 && CharMatches(r, s[|s| - 1]) && Matches(a, s[..|s| - 1])
  {
    ConcatMatches(a, r, s);
    if Matches(Concat(a, r), s) {
      var k :| 0 <= k <= |s| && Matches(a, s[..k]) && Matches(r, s[k..]);
      SingleCharMatches(r, s[k..]);
    }
    if |s| >= 1 && CharMatches(r, s[|s| - 1]) && Matches(a, s[..|s| - 1]) {
      SingleCharMatches(r, s[|s| - 1..]);
      assert Matches(a, s[..|s| - 1]) && Matches(r, s[|s| - 1..]);
    }
  }

  /** Splitting off a trailing literal. */
  lemma ConcatLitLast(a: Regex, w: JsString, s: JsString)
    ensures Matches(Concat(a, Literal(w)), s) <==> |s| >= |w| && s[|s| - |w|..] == w && Matches(a, s[..|s| - |w|])
  {
    ConcatMatches(a, Literal(w), s);
    if Matches(Concat(a, Literal(w)), s) {
      var k :| 0 <= k <= |s| && Matches(a, s[..k]) && Matches(Literal(w), s[k..]);
    }
    if |s| >= |w| && s[|s| - |w|..] == w && Matches(a, s[..|s| - |w|]) {
      assert Matches(a, s[..|s| - |w|]) && Matches(Literal(w), s[|s| - |w|..]);
    }
  }

  /** A string has no line terminator exactly when neither side of any split has one. */
  lemma NoLineTerminatorSplit(s: JsString, k: nat)
    requires k <= |s|
    ensures NoLineTerminator(s) <==> NoLineTerminator(s[..k]) && NoLineTerminator(s[k..])
  {
    if NoLineTerminator(s[..k]) && NoLineTerminator(s[k..]) {
      forall i | 0 <= i < |s|
        ensures !LineTerminator(s[i])
      {
        if i < k {
          assert s[i] == s[..k][i];
        } else {
          assert s[i] == s[k..][i - k];
        }
      }
    }
  }

  /** `a r w`, for a single-character `r` and a literal `w`, taken apart from the right. */
  lemma ConcatSingleLitLast(a: Regex, r: Regex, w: JsString, s: JsString)
    requires SingleChar(r)
    ensures Matches(Concat(Concat(a, r), Literal(w)), s) <==>
      |s| >= |w| + 1 && s[|s| - |w|..] == w && CharMatches(r, s[|s| - |w| - 1]) && Matches(a, s[..|s| - |w| - 1])
  {
    var n := |s|;
    ConcatLitLast(Concat(a, r), w, s);
    if n >= |w| {
      SingleLast(a, r, s, n - |w|);
    }
  }

  /** `a r` on the prefix of `s` of length `m`, read off `s` directly. */
  lemma SingleLast(a: Regex, r: Regex, s: JsString, m: nat)
    requires SingleChar(r)
    requires m <= |s|
    ensures Matches(Concat(a, r), s[..m]) <==> m >= 1 && CharMatches(r, s[m - 1]) && Matches(a, s[..m - 1])
  {
    var q := s[..m];
    ConcatSingleLast(a, r, q);
    if m >= 1 {
      assert q[..m - 1] == s[..m - 1];
    }
  }

  /** `a v r w`, for literals `v`, `w` and a single-character `r`, taken apart from the right. */
  lemma ConcatLitSingleLitLast(a: Regex, v: JsString, r: Regex, w: JsString, s: JsString)
    requires SingleChar(r)
    ensures Matches(Concat(Concat(Concat(a, Literal(v)), r), Literal(w)), s) <==>
      && |s| >= |v| + 1 + |w|
      && s[|s| - |w|..] == w
      && CharMatches(r, s[|s| - |w| - 1])
      && s[|s| - |w| - 1 - |v|..|s| - |w| - 1] == v
      && Matches(a, s[..|s| - |w| - 1 - |v|])
  {
    var n := |s|;
    ConcatSingleLitLast(Concat(a, Literal(v)), r, w, s);
    if n >= |w| + 1 {
      var m := n - |w| - 1;
      LitLast(a, v, s, m);
      assert m - |v| == n - |w| - 1 - |v|;
    }
  }

  /** `a v` on the prefix of `s` of length `m`, read off `s` directly. */
  lemma LitLast(a: Regex, v: JsString, s: JsString, m: nat)
    requires m <= |s|
    ensures Matches(Concat(a, Literal(v)), s[..m]) <==> m >= |v| && s[m - |v|..m] == v && Matches(a, s[..m - |v|])
  {
    var t := s[..m];
    ConcatLitLast(a, v, t);
    if m >= |v| {
      assert t[m - |v|..] == s[m - |v|..m];
      assert t[..m - |v|] == s[..m - |v|];
    }
  }
}
