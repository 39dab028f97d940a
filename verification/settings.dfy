/**
 * Loading the extension's settings from the `tagger` configuration section
 * (src/classes/settings.ts): scalar defaults, the status bar, and the tag
 * patterns merged against the default pattern.
 */
module TaggerSettings {
  import opened Wrappers

  /** A decoration style, merged shallowly key by key. */
  type Style = map<string, string>

  /** One `patterns` entry as the configuration store holds it. */
  datatype RawPattern = RawPattern(
    name: Option<string>,
    pattern: Option<string>,
    flags: Option<string>,
    style: Option<Style>)

  /** The configuration section as read: every key may be absent. */
  datatype RawConfig = RawConfig(
    updateOn: Option<string>,
    includeGlob: Option<string>,
    excludeGlob: Option<string>,
    goToBehaviour: Option<string>,
    statusBarEnabled: Option<bool>,
    statusBarOutput: Option<string>,
    defaultFlags: Option<string>,
    defaultStyle: Option<Style>,
    patterns: Option<seq<RawPattern>>)

  /** The fallback every pattern entry is merged onto. */
  datatype DefaultPattern = DefaultPattern(flags: string, style: Style)

  /** A tag pattern: its name, regular-expression source, match flags and style. */
  datatype Pattern = Pattern(name: string, source: string, flags: string, style: Style)

  datatype StatusBar = StatusBar(enabled: bool, output: string)

  datatype Settings = Settings(
    updateOn: string,
    includeGlob: string,
    excludeGlob: string,
    goToBehaviour: string,
    statusBar: StatusBar,
    patterns: seq<Pattern>)

  /** The mandatory entry field a load stopped at. */
  datatype MissingField = MissingName | MissingPattern {
    function Message(): string {
      match this
      case MissingName => "Missing property: 'name' in pattern object"
      case MissingPattern => "Missing property: 'pattern' in pattern object"
    }
  }

  /** The fields after a load, and the error shown to the user, if any. */
  datatype LoadResult = LoadResult(settings: Settings, error: Option<MissingField>)

  const DefaultUpdateOn := "change"
  const DefaultInclude := "**/*"
  const DefaultExclude := "**/node_modules/*"
  const DefaultGoToBehaviour := "end"
  const DefaultStatusBarOutput := "$(tag) {all}"
  const DefaultFlags := "g"

  /** The field values a fresh object holds before its first load. */
  const Initial := Settings("", "", "", "", StatusBar(true, ""), [])

  /** A string value JavaScript treats as true: present and non-empty. */
  predicate Truthy(v: Option<string>) {
    v.Some? && v.value != ""
  }

  /** JavaScript `v || fallback` on a string value. */
  function OrElse(v: Option<string>, fallback: string): string {
    if Truthy(v) then v.value else fallback
  }

  /** The `patterns` list, empty when absent. */
  function Entries(raw: RawConfig): seq<RawPattern> {
    raw.patterns.GetOr([])
  }

  /** An entry that passes both checks of the loop. */
  predicate Valid(e: RawPattern) {
    Truthy(e.name) && Truthy(e.pattern)
  }

  /** The default pattern read from `defaultPattern.flags` and `defaultPattern.style`. */
  function DefaultPatternOf(raw: RawConfig): (d: DefaultPattern)
    ensures d.flags != ""
    ensures Truthy(raw.defaultFlags) ==> d.flags == raw.defaultFlags.value
    ensures !Truthy(raw.defaultFlags) ==> d.flags == DefaultFlags
    ensures raw.defaultStyle.None? ==> d.style == map[]
    ensures raw.defaultStyle.Some? ==> d.style == raw.defaultStyle.value
  {
    DefaultPattern(OrElse(raw.defaultFlags, DefaultFlags), raw.defaultStyle.GetOr(map[]))
  }

  /** One valid entry merged with the default pattern. */
  function Merge(e: RawPattern, d: DefaultPattern): (p: Pattern)
    requires Valid(e)
    ensures p.name != "" && p.name == e.name.value
    ensures p.source != "" && p.source == e.pattern.value
    ensures Truthy(e.flags) ==> p.flags == e.flags.value
    ensures !Truthy(e.flags) ==> p.flags == d.flags
    ensures p.style.Keys == d.style.Keys + e.style.GetOr(map[]).Keys
    ensures forall k | k in e.style.GetOr(map[]) :: p.style[k] == e.style.GetOr(map[])[k]
    ensures forall k | k in d.style && k !in e.style.GetOr(map[]) :: p.style[k] == d.style[k]
  {
    Pattern(e.name.value, e.pattern.value, OrElse(e.flags, d.flags), d.style + e.style.GetOr(map[]))
  }

  /** The position of the first entry missing its name or pattern, or the length when there is none. */
  function FirstInvalid(entries: seq<RawPattern>): (k: nat)
    ensures k <= |entries|
    ensures forall j | 0 <= j < k :: Valid(entries[j])
    ensures k < |entries| ==> !Valid(entries[k])
  {
    if |entries| == 0 || !Valid(entries[0]) then 0
    else
      var k := 1 + FirstInvalid(entries[1..]);
      assert forall j | 1 <= j < k :: entries[j] == entries[1..][j - 1];
      k
  }

  /**
   * The pattern loop from entry `i` on: each valid entry is merged and
   * appended; the first entry without a name, or else without a pattern,
   * ends the load with that error, and what was appended stays.
   */
  function LoadPatterns(s: Settings, entries: seq<RawPattern>, d: DefaultPattern, i: nat): LoadResult
    requires i <= |entries|
    decreases |entries| - i
  {
    if i == |entries| then LoadResult(s, None)
    else if !Truthy(entries[i].name) then LoadResult(s, Some(MissingName))
    else if !Truthy(entries[i].pattern) then LoadResult(s, Some(MissingPattern))
    else LoadPatterns(s.(patterns := s.patterns + [Merge(entries[i], d)]), entries, d, i + 1)
  }

  /**
   * Loading from the fields `prev` held before: every scalar and the status
   * bar are assigned first, then the patterns are rebuilt from nothing.
   */
  function Load(prev: Settings, raw: RawConfig): (r: LoadResult)
    ensures Truthy(raw.updateOn) ==> r.settings.updateOn == raw.updateOn.value
    ensures !Truthy(raw.updateOn) ==> r.settings.updateOn == DefaultUpdateOn
    ensures Truthy(raw.includeGlob) ==> r.settings.includeGlob == raw.includeGlob.value
    ensures !Truthy(raw.includeGlob) ==> r.settings.includeGlob == DefaultInclude
    ensures Truthy(raw.excludeGlob) ==> r.settings.excludeGlob == raw.excludeGlob.value
    ensures !Truthy(raw.excludeGlob) ==> r.settings.excludeGlob == DefaultExclude
    ensures Truthy(raw.goToBehaviour) ==> r.settings.goToBehaviour == raw.goToBehaviour.value
    ensures !Truthy(raw.goToBehaviour) ==> r.settings.goToBehaviour == DefaultGoToBehaviour
    ensures raw.statusBarEnabled.None? ==> r.settings.statusBar.enabled
    ensures raw.statusBarEnabled.Some? ==> r.settings.statusBar.enabled == raw.statusBarEnabled.value
    ensures Truthy(raw.statusBarOutput) ==> r.settings.statusBar.output == raw.statusBarOutput.value
    ensures !Truthy(raw.statusBarOutput) ==> r.settings.statusBar.output == DefaultStatusBarOutput
    ensures |r.settings.patterns| == FirstInvalid(Entries(raw))
    ensures forall i | 0 <= i < |r.settings.patterns| ::
      r.settings.patterns[i] == Merge(Entries(raw)[i], DefaultPatternOf(raw))
    ensures r.error.None? <==> FirstInvalid(Entries(raw)) == |Entries(raw)|
    ensures r.error == Some(MissingName) <==>
      var k := FirstInvalid(Entries(raw));
      k < |Entries(raw)| && !Truthy(Entries(raw)[k].name)
    ensures r.error == Some(MissingPattern) <==>
      var k := FirstInvalid(Entries(raw));
      k < |Entries(raw)| && Truthy(Entries(raw)[k].name) && !Truthy(Entries(raw)[k].pattern)
  {
    var scalars := prev.(
      updateOn := OrElse(raw.updateOn, DefaultUpdateOn),
      includeGlob := OrElse(raw.includeGlob, DefaultInclude),
      excludeGlob := OrElse(raw.excludeGlob, DefaultExclude),
      goToBehaviour := OrElse(raw.goToBehaviour, DefaultGoToBehaviour));
    var withStatusBar := scalars.(statusBar := scalars.statusBar.(
      enabled := raw.statusBarEnabled.GetOr(true),
      output := OrElse(raw.statusBarOutput, DefaultStatusBarOutput)));
    var cleared := withStatusBar.(patterns := []);
    LoadPatternsFromStart(cleared, Entries(raw), DefaultPatternOf(raw));
    LoadPatterns(cleared, Entries(raw), DefaultPatternOf(raw), 0)
  }

  /** The whole pattern loop, started on an emptied list. */
  lemma LoadPatternsFromStart(s: Settings, entries: seq<RawPattern>, d: DefaultPattern)
    requires s.patterns == []
    ensures
      var r := LoadPatterns(s, entries, d, 0);
      var k := FirstInvalid(entries);
      && r.settings == s.(patterns := r.settings.patterns)
      && |r.settings.patterns| == k
      && (forall j | 0 <= j < k :: r.settings.patterns[j] == Merge(entries[j], d))
      && (r.error.None? <==> k == |entries|)
      && (r.error == Some(MissingName) <==> k < |entries| && !Truthy(entries[k].name))
      && (r.error == Some(MissingPattern) <==> k < |entries| && Truthy(entries[k].name) && !Truthy(entries[k].pattern))
  {
    LoadPatternsSpec(s, entries, d, 0);
  }

  /**
   * The loop from entry `i` up to the first invalid entry: the fields other
   * than `patterns` are left alone, the patterns already there stay in front,
   * the merged entries follow in order, and the error names the field the
   * first invalid entry lacks.
   */
  lemma {:induction false} LoadPatternsSpec(s: Settings, entries: seq<RawPattern>, d: DefaultPattern, i: nat)
    requires i <= FirstInvalid(entries)
    ensures
      var r := LoadPatterns(s, entries, d, i);
      var k := FirstInvalid(entries);
      && r.settings == s.(patterns := r.settings.patterns)
      && |r.settings.patterns| == |s.patterns| + (k - i)
      && r.settings.patterns[..|s.patterns|] == s.patterns
      && (forall j | i <= j < k :: r.settings.patterns[|s.patterns| + j - i] == Merge(entries[j], d))
      && (r.error.None? <==> k == |entries|)
      && (k < |entries| && !Truthy(entries[k].name) ==> r.error == Some(MissingName))
      && (k < |entries| && Truthy(entries[k].name) ==> r.error == Some(MissingPattern))
    decreases |entries| - i
  {
    var k := FirstInvalid(entries);
    if i < k {
      var s' := s.(patterns := s.patterns + [Merge(entries[i], d)]);
      LoadPatternsSpec(s', entries, d, i + 1);
      var r := LoadPatterns(s', entries, d, i + 1);
      assert r == LoadPatterns(s, entries, d, i);
      assert r.settings.patterns[..|s'.patterns|] == s'.patterns;
      assert r.settings.patterns[..|s.patterns|] == s'.patterns[..|s.patterns|];
      assert r.settings.patterns[|s.patterns|] == s'.patterns[|s.patterns|];
    }
  }

  /** Each produced pattern's flags: the entry's own, else the default pattern's, else `g`. */
  lemma LoadFlags(prev: Settings, raw: RawConfig)
    ensures var ps := Load(prev, raw).settings.patterns;
      forall i | 0 <= i < |ps| ::
        && ps[i].flags != ""
        && (Truthy(Entries(raw)[i].flags) ==> ps[i].flags == Entries(raw)[i].flags.value)
        && (!Truthy(Entries(raw)[i].flags) && Truthy(raw.defaultFlags) ==> ps[i].flags == raw.defaultFlags.value)
        && (!Truthy(Entries(raw)[i].flags) && !Truthy(raw.defaultFlags) ==> ps[i].flags == DefaultFlags)
  {
  }

  /**
   * Each produced pattern's style holds every key of the entry's style with
   * the entry's value, every other key of the default style with the default
   * value, and nothing else.
   */
  lemma LoadStyle(prev: Settings, raw: RawConfig)
    ensures var ps := Load(prev, raw).settings.patterns;
      var base := raw.defaultStyle.GetOr(map[]);
      forall i | 0 <= i < |ps| ::
        var own := Entries(raw)[i].style.GetOr(map[]);
        && ps[i].style.Keys == base.Keys + own.Keys
        && (forall key | key in own :: ps[i].style[key] == own[key])
        && (forall key | key in base && key !in own :: ps[i].style[key] == base[key])
  {
  }

  /** Every produced pattern carries a non-empty name and a non-empty source. */
  lemma LoadPatternsNamed(prev: Settings, raw: RawConfig)
    ensures forall p | p in Load(prev, raw).settings.patterns :: p.name != "" && p.source != ""
  {
  }

  /** A load reports no error exactly when every entry produced a pattern. */
  lemma LoadCompleteIffNoError(prev: Settings, raw: RawConfig)
    ensures var r := Load(prev, raw);
      r.error.None? <==> |r.settings.patterns| == |Entries(raw)|
    ensures var r := Load(prev, raw);
      r.error.Some? ==> |r.settings.patterns| < |Entries(raw)|
  {
  }

  /**
   * Nothing of the previous load survives: reloading gives what a newly
   * constructed object loads, and every pattern comes from an entry of this load.
   */
  lemma LoadForgetsPrevious(prev: Settings, raw: RawConfig)
    ensures Load(prev, raw) == Load(Initial, raw)
    ensures forall p | p in Load(prev, raw).settings.patterns ::
      exists i | 0 <= i < |Entries(raw)| :: Valid(Entries(raw)[i]) && p == Merge(Entries(raw)[i], DefaultPatternOf(raw))
  {
    var ps := Load(prev, raw).settings.patterns;
    forall p | p in ps
      ensures exists i | 0 <= i < |Entries(raw)| :: Valid(Entries(raw)[i]) && p == Merge(Entries(raw)[i], DefaultPatternOf(raw))
    {
      var i :| 0 <= i < |ps| && ps[i] == p;
      assert Valid(Entries(raw)[i]) && p == Merge(Entries(raw)[i], DefaultPatternOf(raw));
    }
  }

  /** A configuration section with no keys loads the literal defaults of every scalar and the status bar. */
  lemma DefaultsWhenUnset(prev: Settings)
    ensures Load(prev, RawConfig(None, None, None, None, None, None, None, None, None)) ==
      LoadResult(Settings("change", "**/*", "**/node_modules/*", "end", StatusBar(true, "$(tag) {all}"), []), None)
  {
  }

  /** An explicit `false` for the status bar is kept; only an absent value means `true`. */
  lemma StatusBarExplicitFalse(prev: Settings, raw: RawConfig)
    requires raw.statusBarEnabled == Some(false)
    ensures !Load(prev, raw).settings.statusBar.enabled
  {
  }

  /**
   * An entry with no flags and no style takes the default's flags and style;
   * an entry's `color` overrides the default's while the default's
   * `fontWeight` survives.
   */
  lemma MergeExamples()
    ensures Merge(RawPattern(Some("todo"), Some("TODO"), None, None), DefaultPattern("gi", map["color" := "red"]))
      == Pattern("todo", "TODO", "gi", map["color" := "red"])
    ensures Merge(RawPattern(Some("todo"), Some("TODO"), None, Some(map["color" := "blue"])),
                  DefaultPattern("g", map["color" := "red", "fontWeight" := "bold"])).style
      == map["color" := "blue", "fontWeight" := "bold"]
  {
  }

  /**
   * A load that stops at an entry without a name keeps the patterns merged
   * before it, drops every pattern of the previous load, and has already set
   * the scalars.
   */
  lemma PartialLoadOnMissingName(prev: Settings)
    ensures
      var good := RawPattern(Some("todo"), Some("TODO"), None, None);
      var bad := RawPattern(Some(""), Some("FIXME"), None, None);
      var raw := RawConfig(Some("save"), None, None, None, None, None, None, None, Some([good, bad, good]));
      Load(prev, raw) == LoadResult(
        Settings("save", "**/*", "**/node_modules/*", "end", StatusBar(true, "$(tag) {all}"),
                 [Pattern("todo", "TODO", "g", map[])]),
        Some(MissingName))
  {
  }
}
