/**
 * Scan eligibility: whether the tag search runs over a file or an open
 * document (src/utils/exclude.ts).
 */
module Exclude {
  import opened JsStrings
  import opened JsRegex

  /** An open editor document: untitled documents have no file behind them. */
  datatype Document = Document(isUntitled: bool, path: JsString)

  /**
   * The glob library's answer to "does `path` match `glob`": a parameter, so
   * every property below holds whatever glob semantics it implements. Only the
   * path is read code unit by code unit here; the glob is passed through.
   */
  type GlobMatcher = (JsString, string) -> bool

  // The fixed characters of the pattern, as code units.

  /** `\` */
  const Backslash: CodeUnit := 0x5C

  /** `settings` */
  const SettingsWord: JsString := [0x73, 0x65, 0x74, 0x74, 0x69, 0x6E, 0x67, 0x73]

  /** `json` */
  const JsonWord: JsString := [0x6A, 0x73, 0x6F, 0x6E]

  /** `vscode` */
  const VscodeWord: JsString := [0x76, 0x73, 0x63, 0x6F, 0x64, 0x65]

  // The source pattern `^(?:\\\d+\\.*|.*settings.json|.*.vscode)$`, between its
  // anchors. The grouping of each concatenation is immaterial to the language.

  /** `\\\d+\\.*` */
  const NumberedPattern: Regex :=
    Concat(Literal([Backslash]), Concat(Plus(Digit), Concat(Literal([Backslash]), Star(AnyChar))))

  /** `.*settings.json`, where the `.` before `json` is an unescaped wildcard. */
  const SettingsPattern: Regex :=
    Concat(Concat(Concat(Star(AnyChar), Literal(SettingsWord)), AnyChar), Literal(JsonWord))

  /** `.*.vscode`, where the `.` before `vscode` is an unescaped wildcard. */
  const VscodePattern: Regex :=
    Concat(Concat(Star(AnyChar), AnyChar), Literal(VscodeWord))

  const ConfigFilePattern: Regex :=
    Alt(NumberedPattern, Alt(SettingsPattern, VscodePattern))

  /** A backslash, one or more ASCII digits, a backslash, then anything. */
  predicate StartsNumbered(path: JsString) {
    |path| >= 3 && path[0] == Backslash &&
    exists j | 2 <= j < |path| :: path[j] == Backslash && forall i | 1 <= i < j :: IsDigit(path[i])
  }

  /** Ends with `settings`, any one character, then `json`. */
  predicate EndsSettingsJson(path: JsString) {
    |path| >= 13 && path[|path| - 13..|path| - 5] == SettingsWord && path[|path| - 4..] == JsonWord
  }

  /** Ends with any one character followed by `vscode`. */
  predicate EndsVscode(path: JsString) {
    |path| >= 7 && path[|path| - 6..] == VscodeWord
  }

  /**
   * The config-file test, on the whole path (not its last segment). Every
   * alternative of the pattern spans the whole path with `.` or fixed
   * characters, so a path holding a line terminator never qualifies.
   */
  predicate IsConfigFile(path: JsString) {
    NoLineTerminator(path) && (StartsNumbered(path) || EndsSettingsJson(path) || EndsVscode(path))
  }

  /** The glob test of `isExcludedFile`: the library decides. */
  predicate IsExcludedFile(path: JsString, exclude: string, globMatches: GlobMatcher) {
    globMatches(path, exclude)
  }

  /** Whether the tag search runs over the file at `path`. */
  function ShouldSearchFile(path: JsString, exclude: string, globMatches: GlobMatcher): (r: bool)
    ensures r <==> !Matches(ConfigFilePattern, path) && !globMatches(path, exclude)
  {
    IsConfigFileIsRegexMatch(path);
    !IsConfigFile(path) && !IsExcludedFile(path, exclude, globMatches)
  }

  /** Whether the tag search runs over an open document. */
  function ShouldSearchDocument(doc: Document, exclude: string, globMatches: GlobMatcher): (r: bool)
    ensures doc.isUntitled ==> !r
    ensures !doc.isUntitled ==> (r <==> ShouldSearchFile(doc.path, exclude, globMatches))
    ensures r ==> !Matches(ConfigFilePattern, doc.path) && !globMatches(doc.path, exclude)
  {
    !doc.isUntitled && ShouldSearchFile(doc.path, exclude, globMatches)
  }

  /** The explicit predicate decides exactly what the source's regular expression decides. */
  lemma IsConfigFileIsRegexMatch(path: JsString)
    ensures IsConfigFile(path) <==> Matches(ConfigFilePattern, path)
  {
    NumberedPatternMatches(path);
    SettingsPatternMatches(path);
    VscodePatternMatches(path);
  }

  /** `\d+\\.*`, spelled out over a string. */
  predicate DigitsThenBackslash(t: JsString) {
    exists k | 1 <= k < |t| :: t[k] == Backslash && (forall i | 0 <= i < k :: IsDigit(t[i])) && NoLineTerminator(t[k + 1..])
  }

  lemma NumberedPatternMatches(p: JsString)
    ensures Matches(NumberedPattern, p) <==> NoLineTerminator(p) && StartsNumbered(p)
  {
    ConcatSingleFirst(Literal([Backslash]), Concat(Plus(Digit), Concat(Literal([Backslash]), Star(AnyChar))), p);
    if |p| >= 1 {
      NumberedTail(p[1..]);
      if p[0] == Backslash && DigitsThenBackslash(p[1..]) {
        NumberedShapeForward(p);
      }
      if NoLineTerminator(p) && StartsNumbered(p) {
        NumberedShapeBackward(p);
      }
    }
  }

  lemma NumberedShapeForward(p: JsString)
    requires |p| >= 1 && p[0] == Backslash && DigitsThenBackslash(p[1..])
    ensures NoLineTerminator(p) && StartsNumbered(p)
  {
    var t := p[1..];
    var k :| 1 <= k < |t| && t[k] == Backslash && (forall i | 0 <= i < k :: IsDigit(t[i])) && NoLineTerminator(t[k + 1..]);
    assert forall i | 1 <= i < k + 1 :: p[i] == t[i - 1];
    assert p[k + 2..] == t[k + 1..];
    NumberedWitness(p, k + 1);
  }

  /** A numbered path given its closing backslash at `j`. */
  lemma NumberedWitness(p: JsString, j: nat)
    requires 2 <= j < |p| && p[0] == Backslash && p[j] == Backslash
    requires forall i | 1 <= i < j :: IsDigit(p[i])
    requires NoLineTerminator(p[j + 1..])
    ensures NoLineTerminator(p) && StartsNumbered(p)
  {
    forall i | 0 <= i < |p|
      ensures !LineTerminator(p[i])
    {
      if j < i {
        assert p[i] == p[j + 1..][i - j - 1];
      }
    }
  }

  lemma NumberedShapeBackward(p: JsString)
    requires NoLineTerminator(p) && StartsNumbered(p)
    ensures p[0] == Backslash && DigitsThenBackslash(p[1..])
  {
    var t := p[1..];
    var j :| 2 <= j < |p| && p[j] == Backslash && forall i | 1 <= i < j :: IsDigit(p[i]);
    var k := j - 1;
    assert t[k] == Backslash;
    assert forall i | 0 <= i < k :: t[i] == p[i + 1];
    assert t[k + 1..] == p[j + 1..];
    NoLineTerminatorSplit(p, j + 1);
  }

  /** `\d+\\.*`: a digit run, a backslash, then no line terminator. */
  lemma NumberedTail(t: JsString)
    ensures Matches(Concat(Plus(Digit), Concat(Literal([Backslash]), Star(AnyChar))), t) <==> DigitsThenBackslash(t)
  {
    var rest := Concat(Literal([Backslash]), Star(AnyChar));
    ConcatMatches(Plus(Digit), rest, t);
    if Matches(Concat(Plus(Digit), rest), t) {
      var k :| 0 <= k <= |t| && Matches(Plus(Digit), t[..k]) && Matches(rest, t[k..]);
      NumberedTailSplitMatch(t, k);
    }
    if DigitsThenBackslash(t) {
      var k :| 1 <= k < |t| && t[k] == Backslash && (forall i | 0 <= i < k :: IsDigit(t[i])) && NoLineTerminator(t[k + 1..]);
      NumberedTailSplitShape(t, k);
    }
  }

  lemma NumberedTailSplitMatch(t: JsString, k: nat)
    requires k <= |t|
    requires Matches(Plus(Digit), t[..k]) && Matches(Concat(Literal([Backslash]), Star(AnyChar)), t[k..])
    ensures DigitsThenBackslash(t)
  {
    PlusSingleChar(Digit, t[..k]);
    ConcatSingleFirst(Literal([Backslash]), Star(AnyChar), t[k..]);
    StarSingleChar(AnyChar, t[k..][1..]);
    assert t[k..][1..] == t[k + 1..];
    assert forall i | 0 <= i < k :: t[i] == t[..k][i];
    assert t[k] == t[k..][0];
  }

  lemma NumberedTailSplitShape(t: JsString, k: nat)
    requires 1 <= k < |t| && t[k] == Backslash && NoLineTerminator(t[k + 1..])
    requires forall i | 0 <= i < k :: IsDigit(t[i])
    ensures Matches(Plus(Digit), t[..k]) && Matches(Concat(Literal([Backslash]), Star(AnyChar)), t[k..])
  {
    PlusSingleChar(Digit, t[..k]);
    ConcatSingleFirst(Literal([Backslash]), Star(AnyChar), t[k..]);
    assert t[k..][1..] == t[k + 1..];
    StarSingleChar(AnyChar, t[k + 1..]);
  }

  lemma SettingsPatternMatches(p: JsString)
    ensures Matches(SettingsPattern, p) <==> NoLineTerminator(p) && EndsSettingsJson(p)
  {
    var n := |p|;
    ConcatLitSingleLitLast(Star(AnyChar), SettingsWord, AnyChar, JsonWord, p);
    if n >= 13 {
      StarSingleChar(AnyChar, p[..n - 13]);
      if EndsSettingsJson(p) {
        SettingsNoLineTerminator(p);
      }
    }
  }

  lemma VscodePatternMatches(p: JsString)
    ensures Matches(VscodePattern, p) <==> NoLineTerminator(p) && EndsVscode(p)
  {
    var n := |p|;
    ConcatSingleLitLast(Star(AnyChar), AnyChar, VscodeWord, p);
    if n >= 7 {
      StarSingleChar(AnyChar, p[..n - 7]);
      if EndsVscode(p) {
        VscodeNoLineTerminator(p);
      }
    }
  }

  /**
   * The letters `settings` and `json` hold no line terminator, so such a path
   * has none exactly when its front and the wildcard character have none.
   */
  lemma SettingsNoLineTerminator(p: JsString)
    requires EndsSettingsJson(p)
    ensures NoLineTerminator(p) <==> NoLineTerminator(p[..|p| - 13]) && !LineTerminator(p[|p| - 5])
  {
    var n := |p|;
    var front, word, tail := p[..n - 13], p[n - 13..n - 5], p[n - 4..];
    assert NoLineTerminator(word) && NoLineTerminator(tail);
    if NoLineTerminator(front) && !LineTerminator(p[n - 5]) {
      forall i | 0 <= i < n
        ensures !LineTerminator(p[i])
      {
        if i < n - 13 {
          assert p[i] == front[i];
        } else if i < n - 5 {
          assert p[i] == word[i - (n - 13)];
        } else if n - 5 < i {
          assert p[i] == tail[i - (n - 4)];
        }
      }
    }
    if NoLineTerminator(p) {
      forall i | 0 <= i < |front|
        ensures !LineTerminator(front[i])
      {
        assert front[i] == p[i];
      }
    }
  }

  /**
   * The letters `vscode` hold no line terminator, so such a path has none
   * exactly when its front and the wildcard character have none.
   */
  lemma VscodeNoLineTerminator(p: JsString)
    requires EndsVscode(p)
    ensures NoLineTerminator(p) <==> NoLineTerminator(p[..|p| - 7]) && !LineTerminator(p[|p| - 7])
  {
    var n := |p|;
    var front, word := p[..n - 7], p[n - 6..];
    assert NoLineTerminator(word);
    if NoLineTerminator(front) && !LineTerminator(p[n - 7]) {
      forall i | 0 <= i < n
        ensures !LineTerminator(p[i])
      {
        if i < n - 7 {
          assert p[i] == front[i];
        } else if n - 7 < i {
          assert p[i] == word[i - (n - 6)];
        }
      }
    }
    if NoLineTerminator(p) {
      forall i | 0 <= i < |front|
        ensures !LineTerminator(front[i])
      {
        assert front[i] == p[i];
      }
    }
  }

  /** The code-unit constants spell the words they are named after. */
  lemma WordsSpelled()
    ensures Spells(SettingsWord, "settings")
    ensures Spells(JsonWord, "json")
    ensures Spells(VscodeWord, "vscode")
  {
  }

  /** Two config files, a numbered path, and an ordinary source file. */
  lemma ConfigFileExamples()
    ensures IsConfigFile(Utf16("/ws/.vscode"))
    ensures IsConfigFile(Utf16("/ws/foo/settings.json"))
    ensures IsConfigFile(Utf16("\\12\\backup.ts"))
    ensures !IsConfigFile(Utf16("/ws/src/app.ts"))
  {
    DotVscodeExample();
    SettingsFooExample();
    NumberedExample();
    AppTsExample();
  }

  lemma DotVscodeExample()
    ensures IsConfigFile(Utf16("/ws/.vscode"))
  {
    VscodeExample("/ws/.vscode");
  }

  lemma SettingsFooExample()
    ensures IsConfigFile(Utf16("/ws/foo/settings.json"))
  {
    var p := "/ws/foo/settings.json";
    assert p[8..16] == "settings" by {
      assert forall i | 0 <= i < 8 :: p[8..16][i] == p[8 + i];
    }
    SettingsExample(p);
  }

  lemma NumberedExample()
    ensures IsConfigFile(Utf16("\\12\\backup.ts"))
  {
    NumberedPathExample("\\12\\backup.ts");
  }

  /** A printable path opening with a backslash, two digits and a backslash is a config file. */
  lemma NumberedPathExample(p: string)
    requires Printable(p) && |p| >= 4
    requires p[0] == '\\' && '0' <= p[1] <= '9' && '0' <= p[2] <= '9' && p[3] == '\\'
    ensures IsConfigFile(Utf16(p))
  {
    var u := Utf16(p);
    Utf16Bmp(p);
    PrintableNoLineTerminator(p);
    NoLineTerminatorSplit(u, 4);
    NumberedWitness(u, 3);
  }

  lemma AppTsExample()
    ensures !IsConfigFile(Utf16("/ws/src/app.ts"))
  {
    var p := "/ws/src/app.ts";
    assert p[0] == '/' && p[1..9][0] != 's' && p[8..][0] != 'v';
    NotConfigExample(p);
  }

  /** A printable path ending in any character and `vscode` is a config file. */
  lemma VscodeExample(p: string)
    requires Printable(p)
    requires |p| >= 7 && p[|p| - 6..] == "vscode"
    ensures IsConfigFile(Utf16(p))
  {
    PrintableNoLineTerminator(p);
    WordsSpelled();
    Utf16BmpSliceIs(p, |p| - 6, |p|, VscodeWord, "vscode");
  }

  /** A printable path ending in `settings`, any character and `json` is a config file. */
  lemma SettingsExample(p: string)
    requires Printable(p)
    requires |p| >= 13 && p[|p| - 13..|p| - 5] == "settings" && p[|p| - 4..] == "json"
    ensures IsConfigFile(Utf16(p))
  {
    PrintableNoLineTerminator(p);
    WordsSpelled();
    Utf16BmpSliceIs(p, |p| - 13, |p| - 5, SettingsWord, "settings");
    Utf16BmpSliceIs(p, |p| - 4, |p|, JsonWord, "json");
  }

  /**
   * A printable path that neither starts with a backslash nor ends in
   * `settings`, a character and `json`, nor in `vscode`, is no config file.
   */
  lemma NotConfigExample(p: string)
    requires Printable(p) && |p| >= 1 && p[0] != '\\'
    requires |p| < 13 || p[|p| - 13..|p| - 5] != "settings" || p[|p| - 4..] != "json"
    requires |p| < 7 || p[|p| - 6..] != "vscode"
    ensures !IsConfigFile(Utf16(p))
  {
    Utf16Bmp(p);
    NotSettingsJson(p);
    NotVscode(p);
  }

  lemma NotSettingsJson(p: string)
    requires Printable(p)
    requires |p| < 13 || p[|p| - 13..|p| - 5] != "settings" || p[|p| - 4..] != "json"
    ensures !EndsSettingsJson(Utf16(p))
  {
    if |p| >= 13 {
      if p[|p| - 13..|p| - 5] != "settings" {
        WordsSpelled();
        Utf16BmpSliceIs(p, |p| - 13, |p| - 5, SettingsWord, "settings");
      } else {
        WordsSpelled();
        Utf16BmpSliceIs(p, |p| - 4, |p|, JsonWord, "json");
      }
    }
  }

  lemma NotVscode(p: string)
    requires Printable(p)
    requires |p| < 7 || p[|p| - 6..] != "vscode"
    ensures !EndsVscode(Utf16(p))
  {
    if |p| >= 7 {
      WordsSpelled();
      Utf16BmpSliceIs(p, |p| - 6, |p|, VscodeWord, "vscode");
    }
  }

  /**
   * Because both dots are unescaped and nothing anchors them to a path
   * separator, paths that are not editor configuration qualify too.
   */
  lemma ConfigFileLooseMatches()
    ensures IsConfigFile(Utf16("/home/me/notes.vscode"))
    ensures IsConfigFile(Utf16("/src/myvscode"))
    ensures IsConfigFile(Utf16("/src/appsettings_json"))
    ensures !IsConfigFile(Utf16("/ws/.vscode/launch.json"))
  {
    LooseVscodeExample();
    LooseSettingsExample();
    LaunchJsonExample();
  }

  lemma LaunchJsonExample()
    ensures !IsConfigFile(Utf16("/ws/.vscode/launch.json"))
  {
    var p := "/ws/.vscode/launch.json";
    assert p[0] == '/' && p[10..18][0] != 's' && p[17..][0] != 'v';
    NotConfigExample(p);
  }

  lemma LooseVscodeExample()
    ensures IsConfigFile(Utf16("/home/me/notes.vscode"))
    ensures IsConfigFile(Utf16("/src/myvscode"))
  {
    VscodeExample("/home/me/notes.vscode");
    VscodeExample("/src/myvscode");
  }

  lemma LooseSettingsExample()
    ensures IsConfigFile(Utf16("/src/appsettings_json"))
  {
    SettingsExample("/src/appsettings_json");
  }

  /**
   * `.` takes one code unit, so a character outside the Basic Multilingual
   * Plane between `settings` and `json`, stored as a surrogate pair (here the
   * one of U+1F600, see `SurrogatePairEncoding`), leaves the path no config
   * file, and the search runs over it unless the glob excludes it. One code
   * unit in that place makes a config file.
   */
  lemma SurrogatePairWildcard(exclude: string, globMatches: GlobMatcher)
    ensures !IsConfigFile(Utf16("/x/settings") + [0xD83D, 0xDE00] + Utf16("json"))
    ensures !globMatches(Utf16("/x/settings") + [0xD83D, 0xDE00] + Utf16("json"), exclude) ==>
      ShouldSearchFile(Utf16("/x/settings") + [0xD83D, 0xDE00] + Utf16("json"), exclude, globMatches)
    ensures IsConfigFile(Utf16("/x/settings_json"))
  {
    SurrogatePairNotConfig();
    UnderscoreExample();
  }

  lemma UnderscoreExample()
    ensures IsConfigFile(Utf16("/x/settings_json"))
  {
    SettingsExample("/x/settings_json");
  }

  /** U+1F600 is stored as the surrogate pair D83D DE00. */
  lemma SurrogatePairEncoding()
    ensures Utf16("/x/settings\U{1F600}json") == Utf16("/x/settings") + [0xD83D, 0xDE00] + Utf16("json")
  {
    assert "/x/settings\U{1F600}json" == "/x/settings" + ("\U{1F600}" + "json");
    Utf16Append("/x/settings", "\U{1F600}" + "json");
    Utf16Append("\U{1F600}", "json");
    EmojiUnits();
  }

  lemma EmojiUnits()
    ensures Utf16("\U{1F600}") == [0xD83D, 0xDE00]
  {
    assert !AllBmp("\U{1F600}");
  }

  lemma SurrogatePairNotConfig()
    ensures !IsConfigFile(Utf16("/x/settings") + [0xD83D, 0xDE00] + Utf16("json"))
  {
    SurrogatePairFront();
    JsonLength();
    SurrogatePairShape(Utf16("/x/settings"), Utf16("json"));
  }

  lemma SurrogatePairFront()
    ensures |Utf16("/x/settings")| == 11
    ensures Utf16("/x/settings")[0] == '/' as int && Utf16("/x/settings")[4] == 'e' as int
  {
    Utf16Bmp("/x/settings");
  }

  lemma JsonLength()
    ensures |Utf16("json")| == 4
  {
    Utf16Bmp("json");
  }

  /** The shape of that path: eleven code units starting `/x/se`, the pair, and four more. */
  lemma SurrogatePairShape(front: JsString, tail: JsString)
    requires |front| == 11 && |tail| == 4
    requires front[0] == '/' as int && front[4] == 'e' as int
    ensures !IsConfigFile(front + [0xD83D, 0xDE00] + tail)
  {
    var p := front + [0xD83D, 0xDE00] + tail;
    assert p[0] == '/' as int;
    assert p[4..12][0] == 'e' as int;
    assert p[11..][0] == 0xD83D;
  }

  /** The glob-test examples: an excluded path and an ordinary source file. */
  lemma ShouldSearchFileExamples(globMatches: GlobMatcher)
    requires globMatches(Utf16("/ws/node_modules/x.js"), "**/node_modules/*")
    requires !globMatches(Utf16("/ws/src/x.js"), "**/node_modules/*")
    ensures !ShouldSearchFile(Utf16("/ws/node_modules/x.js"), "**/node_modules/*", globMatches)
    ensures ShouldSearchFile(Utf16("/ws/src/x.js"), "**/node_modules/*", globMatches)
  {
    SrcFileExample();
  }

  lemma SrcFileExample()
    ensures !IsConfigFile(Utf16("/ws/src/x.js"))
  {
    var p := "/ws/src/x.js";
    assert p[0] == '/' && p[6..][0] != 'v';
    NotConfigExample(p);
  }
}
