# Tagger settings and scan eligibility in Dafny

This project models the two pieces of decision logic in the Tagger editor
extension, which highlights tags in source files:

- **Loading the settings** (`Settings.load`, `TaggerSettings` in `settings.dfy`).
  The `tagger` configuration section becomes a record. It holds the
  `updateOn`, `include`, `exclude` and `goToBehaviour` strings, the status-bar
  settings, and the list of tag patterns. Each pattern entry is merged with the
  default pattern: the entry's own flags win when non-empty, and style keys are
  merged shallowly with the entry's keys winning. The load stops at the first
  entry that lacks a `name` or a `pattern`.
- **Scan eligibility** (`Exclude` in `exclude.dfy`). This decides whether a file
  or open document is searched for tags. A path is never searched when it looks
  like an editor configuration file or matches the exclude glob. An untitled
  document is never searched.

`JsRegex` (`js_regex.dfy`) gives language semantics to the small fragment of
ECMAScript regular expressions used by the config-file test. `JsStrings`
(`js_string.dfy`) models ECMAScript string values as UTF-16 code units.
`Wrappers` (`wrappers.dfy`) holds `Option`.

## How the source is represented

- The configuration section is a `RawConfig` value. Each key is an `Option`
  because it may be absent. Every string default uses JavaScript `||`, so a
  present but empty string also falls back (`OrElse`, `Truthy`).
  `statusBar.enabled` is different: only an absent value falls back to `true`.
- `load` mutates the object's fields in place. Here it is the pure function
  `Load(prev, raw)`. `prev` is the field values before the call: `Initial` for
  the constructor (src/classes/settings.ts:30-35), or the current settings for
  `update`. Both just call `load`. The error message the extension would show is
  returned as `LoadResult.error`; `MissingField.Message` gives its text.
- The loop over pattern entries is `LoadPatterns`. It is a recursion over the
  entry index that carries the partly built settings, and it stops at the first
  bad entry just as the loop's `return` does.
- A path (`fsPath`) is a JavaScript string, so it is a `JsString`: a sequence
  of UTF-16 code units, lone surrogates included. The regular expression has no
  `u` flag, so it reads the path one code unit at a time. A character above
  U+FFFF is a surrogate pair, which is two code units and so two characters to
  `.`. `Utf16` encodes a Dafny string this way; the examples use it to write
  their paths.
- The glob library is the parameter `globMatches: (JsString, string) -> bool`.
  `IsExcludedFile` applies it. Every property about eligibility holds whatever
  glob semantics the library implements.
- `IsConfigFile` spells out the anchored pattern
  `^(?:\\\d+\\.*|.*settings.json|.*.vscode)$` as a predicate on code-unit
  sequences. `Exclude.IsConfigFileIsRegexMatch` proves that, for every such
  sequence, it is equivalent to matching that pattern, written as a
  `JsRegex.Regex`. In ECMAScript `.` does not match a line terminator (`\n`,
  `\r`, U+2028, U+2029). So a path containing one is never a config file. `\d`
  is an ASCII digit.

### Consequences of the code worth knowing

- The config-file test covers the whole `fsPath`, not only its last segment.
  Any path of at least seven characters that ends in `vscode` qualifies, and so
  does any path ending in `settings`, one character, then `json`. A path
  starting with a backslash, digits and a backslash qualifies too
  (`ConfigFileLooseMatches`, `ConfigFileExamples`).
- The one character between `settings` and `json` is one code unit. A
  character above U+FFFF there, such as U+1F600, is two code units, so that
  path is not a config file and is searched unless the glob excludes it
  (`SurrogatePairWildcard`, `SurrogatePairEncoding`).
- Loading is not all-or-nothing. The scalars and the status bar are set before
  the entries are checked, and `patterns` is emptied first. Patterns merged
  before a bad entry stay in place (`PartialLoadOnMissingName`,
  `LoadPatternsSpec`).
- The only errors are the two missing-field errors. Regular expressions are
  compiled in the `Pattern` constructor, which is not modelled (see Left out).

## Model

| member | source | states |
|---|---|---|
| TaggerSettings.Load | src/classes/settings.ts:44-110 | Each of updateOn, include, exclude, goToBehaviour and statusBar.output is the configured value when present and non-empty, and otherwise its literal default ("change", "**/*", "**/node_modules/*", "end", "$(tag) {all}"). statusBar.enabled is true when unset and the configured value otherwise. The i-th pattern is the merge of the i-th entry. The number of patterns is the position of the first invalid entry. The error is absent exactly when all entries are valid, and otherwise names `name` (checked first) or else `pattern`. |
| TaggerSettings.DefaultPatternOf | src/classes/settings.ts:70-73 | The default flags are the configured ones when non-empty, and otherwise "g", so they are never empty. The default style is the configured one, or empty when unset. |
| TaggerSettings.Merge | src/classes/settings.ts:98-108 | The merged pattern keeps the entry's non-empty name and source. Its flags are the entry's when non-empty, else the default's. Its style keys are the union of the default's and the entry's keys; entry keys take the entry's value, and the other default keys keep the default value. |
| TaggerSettings.FirstInvalid | src/classes/settings.ts:84-96 | Every entry before the returned position has a non-empty name and pattern. The entry at that position, if there is one, lacks one of them. |
| TaggerSettings.LoadPatternsSpec | src/classes/settings.ts:84-109 | From any point of the loop up to the first bad entry: the fields other than patterns are untouched, the patterns already built stay in front, and the merges of the remaining valid entries follow in declaration order. The result is error-free exactly when no bad entry exists, and otherwise the error names the missing field. |
| TaggerSettings.LoadFlags | src/classes/settings.ts:99 | Each produced pattern's flags are non-empty. They are the entry's flags when non-empty; otherwise the configured default flags when non-empty; otherwise "g". |
| TaggerSettings.LoadStyle | src/classes/settings.ts:100 | Each produced pattern's style has exactly the keys of the default style and the entry style. Entry keys carry the entry's values, and every default key the entry does not override keeps the default value. |
| TaggerSettings.LoadPatternsNamed | src/classes/settings.ts:86-96 | Every produced pattern has a non-empty name and a non-empty pattern source. |
| TaggerSettings.LoadCompleteIffNoError | src/classes/settings.ts:84-109 | A load reports no error if and only if it produced one pattern per entry. After an error, fewer patterns than entries were produced. |
| TaggerSettings.LoadForgetsPrevious | src/classes/settings.ts:24-67 | Reloading gives exactly what a newly constructed object loads, whatever fields it held before. Every resulting pattern is the merge of a valid entry of this load, so no pattern of an earlier load survives. |
| TaggerSettings.DefaultsWhenUnset | src/classes/settings.ts:50-76 | An empty configuration section loads the literal defaults of src/classes/settings.ts:50-61, with no patterns and no error. |
| TaggerSettings.StatusBarExplicitFalse | src/classes/settings.ts:59-60 | An explicit `false` for the status bar stays `false`. |
| TaggerSettings.MergeExamples | src/classes/settings.ts:98-100 | An entry without flags or style takes the default's ("gi", color red). An entry style `color: blue` over a default `color: red, fontWeight: bold` gives `color: blue, fontWeight: bold`. |
| TaggerSettings.PartialLoadOnMissingName | src/classes/settings.ts:84-90 | With entries [good, nameless, good], the load reports the missing name and keeps only the first merged pattern, and the configured updateOn is already set. Earlier patterns are gone. |
| Exclude.IsConfigFileIsRegexMatch | src/utils/exclude.ts:7-9 | For every path as a sequence of UTF-16 code units, the explicit three-way predicate holds exactly when the whole path matches the source's anchored regular expression, read code unit by code unit as a pattern without the `u` flag is. |
| Exclude.ShouldSearchFile | src/utils/exclude.ts:11-19 | A file is searched if and only if its whole path does not match the config-file expression and the glob library does not match it against the exclude glob. |
| Exclude.ShouldSearchDocument | src/utils/exclude.ts:21-24 | An untitled document is never searched, whatever the glob. A titled document is searched exactly when its path would be. A searched document's path is never a config file and never excluded. |
| Exclude.ConfigFileExamples | src/utils/exclude.ts:8 | As UTF-16 strings, "/ws/.vscode", "/ws/foo/settings.json" and a backslash-numbered path are config files. "/ws/src/app.ts" is not. |
| Exclude.ConfigFileLooseMatches | src/utils/exclude.ts:8 | Because the dots are unescaped and the test covers the whole path, "/home/me/notes.vscode", "/src/myvscode" and "/src/appsettings_json" count as config files. "/ws/.vscode/launch.json" does not. |
| Exclude.ShouldSearchFileExamples | src/utils/exclude.ts:17-18 | If the glob library matches "/ws/node_modules/x.js" against "**/node_modules/*" and not "/ws/src/x.js", the first file is skipped and the second is searched. |
| Exclude.SurrogatePairWildcard | src/utils/exclude.ts:8-18 | The path "/x/settings", the surrogate pair D83D DE00, then "json" is not a config file, because `.` takes one code unit and the pair is two. So when the glob does not match it, the file is searched. With the single code unit "_" in that place the path is a config file. |
| Exclude.SurrogatePairEncoding | src/utils/exclude.ts:8 | The fsPath string "/x/settings\u{1F600}json" is exactly that code-unit sequence, since U+1F600 is stored as the pair D83D DE00. |
| JsStrings.Utf16Append | src/utils/exclude.ts:8 | The UTF-16 string of a concatenation is the concatenation of the UTF-16 strings, so a path's code units are found part by part. |
| JsRegex.StarSingleChar | src/utils/exclude.ts:8 | A one-character class under `*` (as in `.*`) matches exactly the code-unit sequences whose every code unit is in the class. |
| JsRegex.PlusSingleChar | src/utils/exclude.ts:8 | A one-character class under `+` (as in `\d+`) matches exactly the non-empty code-unit sequences whose every code unit is in the class. |
| JsRegex.ConcatMatches | src/utils/exclude.ts:8 | A concatenation matches a code-unit sequence if and only if some split point puts a match of the first part in front of a match of the second. |

## Left out

- Reading the configuration store is not modelled. The section is the input record `RawConfig`. Values of the wrong type (a number or `null` where a string or boolean is expected) cannot be represented.
- Logging (`log.Info`) and `showErrorMessage` are not modelled as side effects. The message is part of the result.
- `SVG.reset()` (src/classes/settings.ts:81) is not modelled. It clears a rendering cache in a file that is not part of this model.
- The `Pattern` class is not part of this model. Its regular-expression compilation and flag validation are left out, so a pattern that fails to compile is not modelled. `Pattern` is the plain record (name, source, flags, style).
- Glob matching (minimatch) is not modelled. It is the uninterpreted parameter `globMatches`. Its `*`/`**` semantics and how it handles malformed globs are not modelled.
- `vscode.Uri` and `TextDocument` are not modelled. A file is its `fsPath` string, and a document is that path plus its `isUntitled` flag.
- How the editor turns a file-system path into the `fsPath` string is not modelled. The path is already a sequence of UTF-16 code units. `Utf16` only serves to write example paths, and its encoding of characters above U+FFFF into surrogate pairs is the standard one.
- Style values are not modelled in full. Decoration style values can be nested objects; here they are strings. The merge is shallow, so it never looks inside a value.
- In-place mutation is not modelled. The source mutates the settings object (and its `statusBar` object) field by field, and other holders of a reference see each change. `Load` returns a new value, and concurrency is not modelled.
