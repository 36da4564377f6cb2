# LulzBot Conan recipes: a verified model of their logic

The LulzBot Conan index is mostly declarative package recipes. A small number
of them, and two helper scripts, carry real decision logic. This project
models that logic in Dafny and proves what it promises:

- **Translation templates.** This covers three pieces. `settingspot.py` is the
  standalone settings-to-template script. `extract_strings.py` is the
  standalone extraction driver. `translationextractor/all` is the extractor
  recipes call from `generate()`. The model covers:
  - how a Uranium settings tree and a `plugin.json` become gettext entries;
  - how values are escaped and the POT header is written;
  - how a template's header and comments are stripped before old and new
    contents are compared;
  - which templates are restored or removed;
  - which `xgettext`, `msginit` and `msgmerge` command lines are run.
- **pyproject toolchains.** These are the two `PyProjectToolchain`
  generators. The model covers:
  - the context of every block;
  - the PyPI version spelling;
  - the libc++ flag table, the compiler and linker flag lists, and empty-flag
    filtering;
  - the block order with its optional PyQt-builder block.
- **Version selection.** This covers three rules:
  - `LulzBaseConanfile._lulz_data` chooses a `conandata.yml` entry by channel
    and recipe version;
  - the `twisted` and `pyparsing` recipes choose a wheel by OS and Python
    version;
  - `UltimakerBase.set_version` derives a version from the git branch, tag and
    commit.
- **PyPI reshaping.** `create_pypi_recipe.py` turns `requires_dist` into Conan
  references. `create_pypi_conandata.py` reduces the releases to their wheels.
- **Small rules.** The model covers:
  - the options, validation, binary name and release name of `SentryLibrary`;
  - the version sanitising, naming and argument merge of the npm
    `package.json`.

The file system, the clock, the network, Jinja and the external tools are not
modelled. Everything they deliver becomes a parameter:
- a parsed JSON document;
- a map from path to file content;
- a date string;
- the list of files a directory walk finds, in the order it finds them;
- the output of a Conan helper.

Python exceptions become the error side of a `Result`.

Module layout (one module per source file, plus shared foundations):

| module | file | models |
|---|---|---|
| `Wrappers` | wrappers.dfy | `Option`, `Result` and the Python exceptions the recipes raise |
| `Strings` | strings.dfy | Python `str` operations: `split`, `join`, `replace`, `in`, `startswith`, slicing, `lower`, `capitalize`, decimal digits |
| `Seqs` | seqs.dfy | list filtering, reversal and folding |
| `Lines` | lines.dfy | `str.splitlines(keepends=True)` and its inverse |
| `Json` | json.dfy | parsed JSON with ordered objects, Python `in` and `[]` on them, `dict` assignment |
| `Versions` | versions.dfy | a version `major.minor.patch[-pre]` with its total order |
| `Gettext` | gettext.dfy | PO entries (chapter 3 of the GNU gettext manual), escaping, the header fields, the sanitising rewrite |
| `SettingsTree` | settings_tree.dfy | the settings-tree walk both settings extractors share, and a reference list of the strings it finds |
| `Plugin` | plugin.dfy | the `plugin.json` validity rule and its strings |
| `SettingsPot` | settingspot.dfy | `settingspot.py` |
| `ExtractStrings` | extract_strings.dfy | `extract_strings.py` |
| `ExtractTranslations` | extract_translations.dfy | `translationextractor/all/conanfile.py` |
| `PyProjectToolchain` | pyproject_toolchain.dfy | `pyprojecttoolchain/conanfile.py` |
| `PyProjectToolchainAll` | pyproject_toolchain_all.dfy | `pyprojecttoolchain/all/conanfile.py` |
| `LulzBase` | lulzbase.dfy | `lulzbase/all/conanfile.py` |
| `PypiWheel` | pypi_wheel.dfy | `twisted/conanfile.py` and `pyparsing/conanfile.py` |
| `UltimakerBase` | ultimaker.dfy | `ultimakerconanfile/conanfile.py` |
| `PypiRecipe` | create_pypi_recipe.dfy | `scripts/create_pypi_recipe.py` |
| `PypiConandata` | create_pypi_conandata.dfy | `scripts/create_pypi_conandata.py` |
| `SentryLibrary` | sentry.dfy | `sentrylibrary/all/conanfile.py` |
| `NpmPackage` | npm.dfy | `npmpackage/all/conanfile.py` |

## Model

| member | source | states |
|---|---|---|
| Gettext.EscapeIsPerCharacter | recipes/translationextractor/settingspot.py:57 | The two chained `replace` calls escape each character on its own: a newline becomes `\n`, a quote `\"`, everything else stays |
| Gettext.EscapedIsOneQuotedLine | recipes/translationextractor/settingspot.py:57 | An escaped value has no raw newline, and every quote in it is preceded by a backslash |
| Gettext.UnescapeEscape | recipes/translationextractor/settingspot.py:57 | Reading a msgid back gives the value, for values without backslashes |
| Gettext.EscapeNotInjective | recipes/translationextractor/settingspot.py:57 | Backslashes are not escaped: a newline and the two characters `\n` give the same msgid |
| Gettext.LocatedEntryLines | recipes/translationextractor/settingspot.py:56-57 | A located entry is exactly five lines: `#: file`, `msgctxt`, `msgid`, `msgstr ""`, blank |
| Gettext.LocatedIsLocationPlusUnlocated | recipes/translationextractor/all/conanfile.py:154-155 | The recipe's setting entry is the script's entry without its `#:` location line |
| Gettext.EntriesAreTerminated | recipes/translationextractor/all/conanfile.py:154-158 | All three entry shapes are non-empty and end in a newline |
| Gettext.HeaderFieldsAreLines | recipes/translationextractor/settingspot.py:88-98 | The header entry is eleven break-free lines, the fifth carrying the creation date |
| Gettext.HeaderFieldsDetermineDate | recipes/translationextractor/all/conanfile.py:162-180 | Two headers are equal exactly when their dates are: the date is the only variable part |
| Gettext.SanitizeWithoutPatterns | recipes/translationextractor/all/conanfile.py:190 | A template with no `#: <root>/` and no `charset=CHARSET` is left unchanged by the rewrite |
| Gettext.SanitizeRewritesEveryOccurrence | recipes/translationextractor/extract_strings.py:147 | The rewrite replaces every occurrence of each pattern, not only the first |
| SettingsTree.ProcessSettings | recipes/translationextractor/all/conanfile.py:135-152 | A settings value that is not an object raises `AttributeError`, and an empty one yields no text |
| SettingsTree.SettingEntries | recipes/translationextractor/all/conanfile.py:137-150 | `in` on a number, boolean or null setting raises `TypeError` |
| SettingsTree.TextEntry | recipes/translationextractor/all/conanfile.py:138-145 | A text field raises only when the setting is a scalar or the field is present |
| SettingsTree.OptionEntries | recipes/translationextractor/all/conanfile.py:146-148 | The option loop fails exactly when some option description is not a string |
| SettingsTree.TextFieldOf | recipes/translationextractor/settingspot.py:63-73 | A field yields an entry only when the setting has it, with that setting's name and that field |
| SettingsTree.OptionFields | recipes/translationextractor/settingspot.py:75-77 | One entry per option, in option order, with field `option <key>` and the option's description |
| SettingsTree.ProcessSettingsRendersFields | recipes/translationextractor/settingspot.py:60-82 | The text of the walk is the pre-order list of strings (text fields in the fixed order, then options, then children), each rendered as one entry; both fail with the same error |
| SettingsTree.FieldsAppend | recipes/translationextractor/settingspot.py:62 | Settings are visited in map order: splitting the object lists the first part's strings before the second's |
| SettingsTree.RenderAllEmpty | recipes/translationextractor/settingspot.py:46 | The entries text is empty exactly when no string was found |
| Plugin.Texts | recipes/translationextractor/extract_strings.py:123-129 | An invalid manifest yields nothing; a valid one yields its name last, preceded by its description when it has one; a scalar manifest raises `TypeError` |
| Plugin.TextsOfManifest | recipes/translationextractor/all/conanfile.py:100-106 | A valid manifest yields exactly its description (when present) and then its name |
| Plugin.NoVersionNoTexts | recipes/translationextractor/extract_strings.py:123 | A manifest without `version` is skipped whatever else it holds |
| SettingsPot.WriteSettingText | recipes/translationextractor/settingspot.py:35-53 | A scalar document raises; without `settings` nothing is written; a written file is `<destination>/<name>.pot` and starts with the header |
| SettingsPot.WriteSettingTextWritesFields | recipes/translationextractor/settingspot.py:41-51 | A file is written exactly when the settings hold a string, and holds the header then one located entry per string in walk order |
| SettingsPot.HeaderLines | recipes/translationextractor/settingspot.py:85-100 | The header is 13 lines, starts with `#, fuzzy`, has the date on its sixth line and ends with a blank line |
| SettingsPot.HeaderDeterminesDate | recipes/translationextractor/settingspot.py:92 | The creation date is the header's only variable part |
| ExtractStrings.GettextPrefix | recipes/translationextractor/extract_strings.py:28-29 | The gettext path gains a trailing separator exactly when it is non-empty |
| ExtractStrings.FileName | recipes/translationextractor/extract_strings.py:127 | `path.name` contains no separator |
| ExtractStrings.XgettextArgs | recipes/translationextractor/extract_strings.py:73-83 | Thirteen arguments: the tool, options only, then `-o`, the template and the source file |
| ExtractStrings.ExtractPython | recipes/translationextractor/extract_strings.py:66-85 | One run per Python file outside `venv`, in the order found |
| ExtractStrings.ExtractQml | recipes/translationextractor/extract_strings.py:88-105 | One JavaScript-language run per QML file, with no file skipped |
| ExtractStrings.VenvFilteredForPythonOnly | recipes/translationextractor/extract_strings.py:68-90 | A Python file under `venv` is skipped while a QML file there is scanned |
| ExtractStrings.VenvPythonSkipped | recipes/translationextractor/extract_strings.py:68-70 | Python files under `venv` add no run, whatever their number |
| ExtractStrings.ExtractPlugin | recipes/translationextractor/extract_strings.py:113-135 | Plugin entries are only appended: the template's previous content is kept as its prefix |
| ExtractStrings.ExtractPluginAppend | recipes/translationextractor/extract_strings.py:113-135 | Manifests are handled in order: later ones extend the template the earlier ones left, and the first failing manifest's error is the result |
| ExtractStrings.TestManifestsIgnored | recipes/translationextractor/extract_strings.py:115 | Manifests whose path contains `test` add nothing |
| ExtractStrings.PluginEntriesOfManifest | recipes/translationextractor/extract_strings.py:126-138 | A valid manifest appends its description entry, then its name entry, each located by the file name |
| ExtractStrings.ExtractSettings | recipes/translationextractor/extract_strings.py:107-111 | The first file outside `test` paths whose script fails stops the extraction with that error; otherwise at most one template per such file |
| ExtractStrings.ExtractSettingsAppend | recipes/translationextractor/extract_strings.py:107-111 | Templates come in the order of the files: those of a list are its first part's followed by the rest's, and an error in the first part is the one reported |
| ExtractStrings.ExtractSettingsOfOne | recipes/translationextractor/extract_strings.py:110-111 | One file outside `test` paths gives the template the script writes for it, nothing, or the script's error |
| ExtractStrings.TestSettingsIgnored | recipes/translationextractor/extract_strings.py:109-111 | Files under a `test` path change nothing, wherever they stand before the others |
| ExtractStrings.SanitizePotFiles | recipes/translationextractor/extract_strings.py:140-149 | Every template is kept, each holding `SanitizeContent` of its text; one without the patterns is unchanged |
| ExtractStrings.SanitizePotFilesRewritesEveryOccurrence | recipes/translationextractor/extract_strings.py:147 | Each template has every location prefix `#: <root>/` and every `charset=CHARSET` rewritten, stated as a split at the pattern and a join with its replacement |
| ExtractStrings.MsgmergeArgs | recipes/translationextractor/extract_strings.py:51-62 | The tool, its options, the po file and then the pot file, plus `-q` exactly when the logger is not at debug level |
| ExtractStrings.MsgmergeQuietUnlessDebug | recipes/translationextractor/extract_strings.py:61-62 | The debug level changes only the trailing `-q` |
| ExtractStrings.UpdatePoFiles | recipes/translationextractor/extract_strings.py:46-64 | One merge run per `.po` file found, the first template's runs first, each merging that template into its file |
| ExtractStrings.UpdatePoFilesOfOne | recipes/translationextractor/extract_strings.py:49-64 | One template gives one run per `.po` file found for it, in the order found, merging the template into that file |
| ExtractStrings.UpdatePoFilesAppend | recipes/translationextractor/extract_strings.py:46-64 | Templates are handled in order: the runs of a list are those of its first part followed by those of the rest |
| ExtractTranslations.WriteSettingText | recipes/translationextractor/all/conanfile.py:118-133 | Nothing is written exactly when the file inherits; otherwise the header-led template goes to `<destination>/<name>.pot` |
| ExtractTranslations.WriteSettingTextWritesFields | recipes/translationextractor/all/conanfile.py:122-132 | A non-inheriting file is always written, even with no string: the header and one unlocated entry per string of its `settings` (or of the whole document) |
| ExtractTranslations.ExtractPlugin | recipes/translationextractor/all/conanfile.py:92-110 | Plugin entries are only appended to the all-strings template |
| ExtractTranslations.PluginEntriesOfManifest | recipes/translationextractor/all/conanfile.py:100-110 | A valid manifest appends its description entry when it has one, then its name entry, each opened by a blank line and without a location |
| ExtractTranslations.ExtractPluginAppend | recipes/translationextractor/all/conanfile.py:92-110 | Manifests are handled in order: later ones extend the template the earlier ones left, and the first failing manifest's error is the result |
| ExtractTranslations.TestManifestsIgnored | recipes/translationextractor/all/conanfile.py:94 | Manifests whose path contains `test` add nothing |
| ExtractTranslations.ExtractSources | recipes/translationextractor/all/conanfile.py:74-90 | One `xgettext` command per source file outside `venv`, in the order found |
| ExtractTranslations.VenvFilesSkipped | recipes/translationextractor/all/conanfile.py:76-87 | Files under `venv` add no command |
| ExtractTranslations.XgettextCommandWords | recipes/translationextractor/all/conanfile.py:79-81 | A command line splits back into its arguments when the paths have no spaces |
| ExtractTranslations.DropLinesKeepsRest | recipes/translationextractor/all/conanfile.py:37-38 | Dropping `n` lines keeps the rest verbatim; the result is empty exactly when there are at most `n` lines |
| ExtractTranslations.RemoveCommentsKeepsOtherLines | recipes/translationextractor/all/conanfile.py:40-41 | The result's lines are exactly the lines not starting with `#`, in order |
| ExtractTranslations.RemoveCommentsIdempotent | recipes/translationextractor/all/conanfile.py:40-41 | Removing comments twice is removing them once |
| ExtractTranslations.HeaderLines | recipes/translationextractor/all/conanfile.py:160-180 | The recipe's header is 18 lines |
| ExtractTranslations.RemovePotHeaderLeavesEntries | recipes/translationextractor/all/conanfile.py:37-38 | Removing the header from a written template leaves exactly its entries |
| ExtractTranslations.ChangedExactlyWhenEntriesDiffer | recipes/translationextractor/all/conanfile.py:48-51 | With the header removed exactly, a settings template is changed exactly when its entries differ, whatever the dates |
| ExtractTranslations.NewTemplatesAreKept | recipes/translationextractor/all/conanfile.py:49-50 | A template not loaded before never counts as changed and is never restored |
| ExtractTranslations.SameContentIsUnchanged | recipes/translationextractor/all/conanfile.py:51-59 | A template compared with itself is unchanged and keeps its content |
| ExtractTranslations.OnlyUpdatePotFilesWhenChanged | recipes/translationextractor/all/conanfile.py:48-59 | As written, with 20 header lines cut: every loaded template that comparison finds unchanged gets back its old content, the others keep the new one, and the flag is set exactly when that comparison finds a change |
| ExtractTranslations.OnlyUpdatePotFilesWhenChangedIntended | recipes/translationextractor/all/conanfile.py:48-59 | The same with the 18 header lines removed exactly, so a change in the first entry is seen |
| ExtractTranslations.SanitizePotFiles | recipes/translationextractor/all/conanfile.py:182-190 | A template survives exactly when it contains `msgctxt`, and survivors hold the rewritten content |
| ExtractTranslations.Pairs | recipes/translationextractor/all/conanfile.py:28-30 | Every template is paired with every language folder |
| ExtractTranslations.UpdateCommands | recipes/translationextractor/all/conanfile.py:26-35 | Every (template, language) pair gets a `msgmerge` into `<language>/<stem>.po` |
| ExtractTranslations.PairCommands | recipes/translationextractor/all/conanfile.py:32-35 | A pair whose `.po` file exists gets only `msgmerge`; otherwise `msginit` immediately followed by `msgmerge`, on the same files |
| ExtractTranslations.UpdateCommandsAppend | recipes/translationextractor/all/conanfile.py:26-35 | Commands follow the pair order: those of a list are its first part's followed by the rest's, the first part's `.po` files then counting as existing |
| ExtractTranslations.UpdateCommandsInPairOrder | recipes/translationextractor/all/conanfile.py:28-35 | The commands of the first `i + 1` pairs extend those of the first `i` by exactly the `i`-th pair's commands |
| ExtractTranslations.MergesEveryPair | recipes/translationextractor/all/conanfile.py:28-35 | Every template is merged into every language folder |
| ExtractTranslations.UpdateCommandsCount | recipes/translationextractor/all/conanfile.py:32-35 | One `msgmerge` per pair and one `msginit` per `.po` file that did not exist yet |
| ExtractTranslations.PoUpdates | recipes/translationextractor/all/conanfile.py:196-199 | No `.po` file is touched unless a template changed; then every template is merged into every language |
| ExtractTranslations.AsWrittenDropsFirstEntry | recipes/translationextractor/all/conanfile.py:38 | Dropping 20 lines also drops the first entry's `msgctxt` and `msgid` lines |
| ExtractTranslations.AsWrittenMissesFirstEntry | recipes/translationextractor/all/conanfile.py:48-51 | As written, templates that differ only in their first entry count as unchanged |
| ExtractTranslations.AsWrittenLosesOnlyChange | recipes/translationextractor/all/conanfile.py:48-59 | As written, a change to a template's only string is not seen, while the exact comparison sees it |
| ExtractTranslations.RenamedLabelIsLost | recipes/translationextractor/all/conanfile.py:48-59 | Concrete case: renaming a label from `Old` to `New` goes unnoticed as written |
| Versions.LeTotal | recipes/lulzbase/all/conanfile.py:54 | Any two versions are comparable, so sorting is defined |
| Versions.LeAntisymmetric | recipes/lulzbase/all/conanfile.py:54 | Versions at most each other are equal |
| Versions.LeTransitive | recipes/lulzbase/all/conanfile.py:54 | The order is transitive |
| Versions.LtIsStrict | recipes/twisted/conanfile.py:51 | `<` is `<=` without equality |
| Versions.CoreIsUpperBound | recipes/lulzbase/all/conanfile.py:57 | Dropping the prerelease never lowers a version |
| Versions.ParseToString | recipes/lulzbase/all/conanfile.py:61-63 | The text of a version parses back to it |
| Versions.ToolsVersion | recipes/pyprojecttoolchain/conanfile.py:59 | `conans.tools.Version`: succeeds exactly on parseable text, with its version; otherwise the `ConanError` naming the text |
| LulzBase.BestIndex | recipes/lulzbase/all/conanfile.py:54-61 | The position `sorted(...)[-1]` takes: a greatest version, the last of the greatest |
| LulzBase.LastGreatestUnique | recipes/lulzbase/all/conanfile.py:54-61 | That position is unique |
| LulzBase.Candidates | recipes/lulzbase/all/conanfile.py:45-51 | Exactly the keys that parse, with their versions; the others are skipped |
| LulzBase.CandidateOrigins | recipes/lulzbase/all/conanfile.py:45-51 | The candidates come from increasing positions of conandata, one for each key that parses |
| LulzBase.Selected | recipes/lulzbase/all/conanfile.py:53-61 | The greatest key at most the recipe version; failing that, the greatest by major.minor.patch; failing that, none. Of equal greatest versions, the last in conandata order, as the stable sort and `[-1]` take |
| LulzBase.SelectionDetermined | recipes/lulzbase/all/conanfile.py:53-61 | Only one key is both greatest and last of the greatest, so the contract of `Selected` fixes its result |
| LulzBase.LulzData | recipes/lulzbase/all/conanfile.py:18-70 | `testing` and an empty channel read the `None` entry; another channel reads its own entry when it is a key; a missing key raises `KeyError` |
| LulzBase.StableTakesGreatestBelow | recipes/lulzbase/all/conanfile.py:44-63 | On the stable channel, a recipe version that is not a key takes the entry of the greatest version key at most it |
| LulzBase.StableUsesSelected | recipes/lulzbase/all/conanfile.py:61-63 | The stable channel reads the entry of the key the search selects |
| LulzBase.StableFallsBackToNone | recipes/lulzbase/all/conanfile.py:55-60 | With no key below, even by major.minor.patch, the stable channel reads the `None` entry |
| LulzBase.EmptyChannelIsTesting | recipes/lulzbase/all/conanfile.py:34-38 | An empty channel reads the `None` entry whatever the version, so the `""` alternative is dead |
| LulzBase.VenvBinPath | recipes/lulzbase/all/conanfile.py:72-76 | `Scripts` exactly on Windows, `bin` elsewhere |
| LulzBase.QuotePart | recipes/lulzbase/all/conanfile.py:93 | A component with a space is wrapped in double quotes; others are unchanged |
| LulzBase.UnquoteQuotePart | recipes/lulzbase/all/conanfile.py:93 | Quoting a component loses nothing |
| LulzBase.WindowsParts | recipes/lulzbase/all/conanfile.py:92-93 | On Windows exactly the components with a space change; elsewhere none does |
| LulzBase.WindowsPartsRoundTrip | recipes/lulzbase/all/conanfile.py:92-93 | The quoted Windows path names the same components |
| LulzBase.PythonInterp | recipes/lulzbase/all/conanfile.py:78-95 | The `cpython` dependency's interpreter when there is one, else the running one, in Windows spelling on Windows |
| PypiWheel.OsKey | recipes/twisted/conanfile.py:36-42 | The OS key when listed, else `Any`, else `InvalidConfiguration` |
| PypiWheel.ScanFrom | recipes/twisted/conanfile.py:49-53 | The loop keeps its invariant: the choice qualifies, no qualifying key is above it, and every qualifying key before it is strictly below it |
| PypiWheel.Scan | recipes/twisted/conanfile.py:49-53 | The loop fails exactly when a key does not parse; otherwise its choice is the first greatest qualifying key, or none |
| PypiWheel.SourceAsWritten | recipes/twisted/conanfile.py:35-59 | As written, the search never reports "No compatible Python Version" |
| PypiWheel.AsWrittenLooksUpFloorKey | recipes/twisted/conanfile.py:46-59 | As written, a search that finds nothing looks up the key `1.0`, and raises `KeyError` unless that key is listed |
| PypiWheel.Source | recipes/twisted/conanfile.py:35-59 | A missing OS key raises the OS error |
| PypiWheel.NoCompatibleVersion | recipes/twisted/conanfile.py:55-56 | As intended, a search that finds nothing raises "No compatible Python Version" |
| PypiWheel.QualifyingWheelIsTaken | recipes/twisted/conanfile.py:49-59 | When some wheel qualifies, both readings take the wheel of a greatest qualifying version |
| PypiWheel.TwistedSource | recipes/twisted/conanfile.py:35-59 | As written: the OS error first, then an unparseable `cpython` version, then the as-written search, which never reports "No compatible Python Version" |
| PypiWheel.TwistedSourceIntended | recipes/twisted/conanfile.py:35-59 | As intended: the same errors, then the search whose guard works |
| PypiWheel.TwistedRaisesKeyErrorWhenNothingQualifies | recipes/twisted/conanfile.py:44-59 | When no wheel fits the `cpython` version and none is listed under `1.0`, the code raises `KeyError('1.0')` where the intended reading reports that no Python version is compatible |
| PypiWheel.PyparsingPythonVersion | recipes/pyparsing/conanfile.py:22-27 | The `python_version` option, `3.0` by default |
| PypiWheel.PyparsingSource | recipes/pyparsing/conanfile.py:33-57 | As written, driven by the option: the OS error, then an unparseable option, then the as-written search, never "No compatible Python Version" |
| PypiWheel.PyparsingSourceIntended | recipes/pyparsing/conanfile.py:33-57 | As intended: the OS error, then an unparseable option, then the search whose guard works |
| PypiWheel.PackageIdOf | recipes/twisted/conanfile.py:68-72 | The condition always holds: the build type is always pinned, and `header_only` is unreachable |
| PyProjectToolchain.BuildSystemContext | recipes/pyprojecttoolchain/conanfile.py:27-34 | The default requirements are `setuptools>=40.8.0` and `wheel`; a backend line exists exactly when the option is set |
| PyProjectToolchain.BackendLineNamesBackend | recipes/pyprojecttoolchain/conanfile.py:33 | The backend line gives back the backend it names |
| PyProjectToolchain.RequiredPythonVersion | recipes/pyprojecttoolchain/conanfile.py:51-57 | The option wins, then the `cpython` version; with neither, `InvalidConfiguration` |
| PyProjectToolchain.PypiVersion | recipes/pyprojecttoolchain/conanfile.py:59-66 | major.minor.patch, extended only for a prerelease; an empty first prerelease part raises `IndexError` |
| PyProjectToolchain.PypiVersionOfNumberedPrerelease | recipes/pyprojecttoolchain/conanfile.py:62-64 | A prerelease `tag.n` appends the tag's first letter and `n` |
| PyProjectToolchain.PypiVersionOfPlainPrerelease | recipes/pyprojecttoolchain/conanfile.py:65-66 | A one-part prerelease appends its first letter |
| PyProjectToolchain.PypiVersionExample | recipes/pyprojecttoolchain/conanfile.py:59-64 | `1.2.3-beta.4` becomes `1.2.3b4` |
| PyProjectToolchain.MetadataContext | recipes/pyprojecttoolchain/conanfile.py:50-76 | A missing Python version raises `InvalidConfiguration` first; then an unparseable recipe version raises the `ConanError` of `conans.tools.Version`, and an empty first prerelease part `IndexError`, and nothing else fails; otherwise it carries the PyPI spelling of the parsed version, the Python version, and the recipe's name, description, url, author and license |
| PyProjectToolchain.MetadataOfVersion | recipes/pyprojecttoolchain/conanfile.py:60-76 | Once the recipe version is read, only the PyPI spelling can fail, with `IndexError`; the fields pass through |
| PyProjectToolchain.TargetDir | recipes/pyprojecttoolchain/conanfile.py:124-127 | Under the package folder when set, else under the build folder |
| PyProjectToolchain.PythonVersionText | recipes/pyprojecttoolchain/conanfile.py:92-101 | The `py_version` option, else the `cpython` version text, else none |
| PyProjectToolchain.ProjectContext | recipes/pyprojecttoolchain/conanfile.py:91-138 | Raises the `ConanError` of `conans.tools.Version` exactly when the known Python version text does not parse, and never without one; the version lines name the parsed version of the `py_version` option, else of the `cpython` version, and exist exactly when one is known; the include line is the option when set, else `<root>/<first include dir>/python<major>.<minor>` of `cpython`, else none; the generator, source and build folders |
| PyProjectToolchain.OptionVersionWins | recipes/pyprojecttoolchain/conanfile.py:91-126 | With `py_version` set, the version of `cpython` changes nothing in the block, not even whether it raises |
| PyProjectToolchain.FilterEmpty | recipes/pyprojecttoolchain/conanfile.py:169-171 | Exactly the set, non-empty flags |
| PyProjectToolchain.FilterEmptyAppend | recipes/pyprojecttoolchain/conanfile.py:169-171 | Filtering keeps the original order |
| PyProjectToolchain.SysrootFlag | recipes/pyprojecttoolchain/conanfile.py:173-178 | A flag exactly when a non-empty sysroot is set: `--sysroot ` followed by the sysroot character by character, each backslash turned into `/`, so no backslash is left |
| PyProjectToolchain.RuntimeFlag | recipes/pyprojecttoolchain/conanfile.py:180-184 | A set runtime flag gets a leading `-` |
| PyProjectToolchain.LibcxxFlag | recipes/pyprojecttoolchain/conanfile.py:186-205 | No flag without a library; clang flags are `-stdlib=` flags |
| PyProjectToolchain.LibcxxFlagOfClang | recipes/pyprojecttoolchain/conanfile.py:194-198 | clang and apple-clang map the libstdc++ libraries and libc++ to their `-stdlib=` flags, and nothing else |
| PyProjectToolchain.LibcxxFlagOfOtherCompilers | recipes/pyprojecttoolchain/conanfile.py:199-205 | sun-cc uses its table, qcc passes the library as `-Y _<lib>`, any other compiler gets no flag |
| PyProjectToolchain.CompilerBaseTakesPrecedence | recipes/pyprojecttoolchain/conanfile.py:192 | A set `compiler.base` decides alone |
| PyProjectToolchain.ExtraCompilerArgs | recipes/pyprojecttoolchain/conanfile.py:207-215 | No empty flag; `-fPIC` when asked; every configured flag kept |
| PyProjectToolchain.ExtraCompilerArgsOrder | recipes/pyprojecttoolchain/conanfile.py:207-215 | The fixed flags, the configured ones, then `-fPIC`, each left out when empty |
| PyProjectToolchain.NoFpicUnlessAsked | recipes/pyprojecttoolchain/conanfile.py:212-213 | `-fPIC` appears only when the option or a configured flag asks for it |
| PyProjectToolchain.LinkerArgs | recipes/pyprojecttoolchain/conanfile.py:217-221 | No empty flag, every configured link flag kept, and nothing but those and the three fixed flags |
| PyProjectToolchain.LinkerArgsOrder | recipes/pyprojecttoolchain/conanfile.py:217-221 | The architecture, sysroot and Apple flags, then the shared-library flags, then the executable flags, each without its unset and empty entries |
| PyProjectToolchain.BuildStatic | recipes/pyprojecttoolchain/conanfile.py:227-242 | `str(not shared)` over the `shared` setting with default `True`: `True` exactly when the setting is the empty text, `False` when it is unset or any other text |
| PyProjectToolchain.BuildStaticIntended | recipes/pyprojecttoolchain/conanfile.py:227-242 | The corrected reading: `True` exactly when the `shared` option is false (shared by default) |
| PyProjectToolchain.BuildDebug | recipes/pyprojecttoolchain/conanfile.py:226-243 | `True` exactly for a Debug build (Release by default) |
| PyProjectToolchain.BindingsContext | recipes/pyprojecttoolchain/conanfile.py:223-244 | The dependencies' libraries and directories, the recipe's include directories after theirs, the flags as given; `build-static` is `True` exactly for an empty `shared` setting, `build-debug` exactly for a Debug build |
| PyProjectToolchain.BindingsContextIntended | recipes/pyprojecttoolchain/conanfile.py:223-244 | The corrected block: `build-static` is `True` exactly when the `shared` option is false, and every other field equals the block as written |
| PyProjectToolchain.StaticOptionIsIgnored | recipes/pyprojecttoolchain/conanfile.py:227-242 | With no `shared` setting, `build-static` is `False` as written and `True` as intended for the option `shared=False` |
| PyProjectToolchainAll.MetadataContext | recipes/pyprojecttoolchain/all/conanfile.py:47-74 | A missing Python version raises `InvalidConfiguration`, then an empty first prerelease part `IndexError`, and nothing else fails; the PyPI spelling, the Python version, the recipe's name, description, url, author and license, and a description file that is always `README.md` |
| PyProjectToolchainAll.LibsOfComponent | recipes/pyprojecttoolchain/all/conanfile.py:90-97 | A failed library lookup leaves the `py_lib` option in place |
| PyProjectToolchainAll.PyQtBuilderContext | recipes/pyprojecttoolchain/all/conanfile.py:86-107 | `link-full-dll` exactly on Windows unless not shared; `qml-debug` exactly for Debug; the option directory wins |
| PyProjectToolchainAll.PyQtBuilderFromComponent | recipes/pyprojecttoolchain/all/conanfile.py:90-94 | A complete `python` component supplies the directory and the library |
| PyProjectToolchainAll.PyQtBuilderPartialLookup | recipes/pyprojecttoolchain/all/conanfile.py:92-97 | A component without libraries sets the directory and keeps the option's library |
| PyProjectToolchainAll.HeaderPath | recipes/pyprojecttoolchain/all/conanfile.py:140 | Empty exactly on Windows, `python<major>.<minor>` elsewhere |
| PyProjectToolchainAll.JoinPath | recipes/pyprojecttoolchain/all/conanfile.py:142 | An empty part adds nothing to the path |
| PyProjectToolchainAll.ComponentInclude | recipes/pyprojecttoolchain/all/conanfile.py:138-146 | A line exactly when the component has an include directory |
| PyProjectToolchainAll.ProjectContext | recipes/pyprojecttoolchain/all/conanfile.py:122-169 | `compile` is false and the build directory `<build>/sip`; the version lines name the `py_version` option, else the `cpython` version; without the include option the line comes from the `python` component, and is absent when that lookup fails |
| PyProjectToolchainAll.IncludeDirFollowsOption | recipes/pyprojecttoolchain/all/conanfile.py:135-143 | The `py_version` option names the header directory |
| PyProjectToolchainAll.WindowsIncludeDirIsComponentDir | recipes/pyprojecttoolchain/all/conanfile.py:140-143 | On Windows the component's include directory is used as it is |
| PyProjectToolchainAll.CompileContext | recipes/pyprojecttoolchain/all/conanfile.py:191-195 | Exactly the set, non-empty flags |
| PyProjectToolchainAll.FilterEmptyKeepsSetFlags | recipes/pyprojecttoolchain/all/conanfile.py:193-194 | Set, non-empty flags are kept as they are |
| PyProjectToolchainAll.CompileContextKeepsOrder | recipes/pyprojecttoolchain/all/conanfile.py:193 | An unset or empty flag leaves out only itself |
| PyProjectToolchainAll.AggregateMergesLastFirst | recipes/pyprojecttoolchain/all/conanfile.py:214-218 | The dependency last in topological order is merged first |
| PyProjectToolchainAll.AggregateMergesFirstLast | recipes/pyprojecttoolchain/all/conanfile.py:214-218 | The dependency first in topological order is merged last |
| PyProjectToolchainAll.BindingsContext | recipes/pyprojecttoolchain/all/conanfile.py:211-236 | The aggregated libraries and directories, the recipe's include directories after theirs; `build-static` is `True` exactly for an empty `shared` setting, `build-debug` exactly for a Debug build |
| PyProjectToolchainAll.BindingsContextIntended | recipes/pyprojecttoolchain/all/conanfile.py:211-236 | The corrected block: `build-static` is `True` exactly when the `shared` option is false, and every other field equals the block as written |
| PyProjectToolchainAll.StaticOptionIsIgnored | recipes/pyprojecttoolchain/all/conanfile.py:220-234 | With no `shared` setting, `build-static` is `False` as written and `True` as intended for the option `shared=False` |
| PyProjectToolchainAll.Blocks | recipes/pyprojecttoolchain/all/conanfile.py:253-264 | The fixed blocks in order, with `pyqt_builder` fourth exactly when `PyQt-builder` occurs in the option |
| PyProjectToolchainAll.BlocksOrder | recipes/pyprojecttoolchain/all/conanfile.py:253-264 | Leaving out the PyQt-builder block, the order is the same either way |
| PyProjectToolchainAll.NoBuildRequiresNoPyQtBuilder | recipes/pyprojecttoolchain/all/conanfile.py:258 | Without the option there is no PyQt-builder block |
| UltimakerBase.PlainBranchName | recipes/ultimakerconanfile/conanfile.py:9 | A branch without `conan/` is used unchanged |
| UltimakerBase.Rev | recipes/ultimakerconanfile/conanfile.py:10 | At most six characters, a prefix of the commit, and exactly six for a long enough commit |
| UltimakerBase.Kind | recipes/ultimakerconanfile/conanfile.py:11-25 | Master exactly on `master`; a release branch exactly when the branch parses; tagged exactly when the tag is non-empty |
| UltimakerBase.DevelopmentLabel | recipes/ultimakerconanfile/conanfile.py:30-33 | Characters 5 to 8 of the branch name when it contains `CURA-` anywhere, which are the four after the prefix for a branch starting with it; else the whole branch |
| UltimakerBase.SetVersionAsWritten | recipes/ultimakerconanfile/conanfile.py:6-33 | On master `<version>-a+<rev>`; a tagged release the tag's major.minor.patch; an untagged release the version unchanged; a beta build only `-b+<rev>`; a development branch `<version>-a+<label>.<rev>` with the `DevelopmentLabel` of the branch |
| UltimakerBase.SetVersion | recipes/ultimakerconanfile/conanfile.py:6-33 | The same, except that a beta build is `<version>-b+<rev>`; every result but a tagged release's starts with the version |
| UltimakerBase.AsWrittenDiffersOnlyOnBeta | recipes/ultimakerconanfile/conanfile.py:27-28 | The two readings differ only on a beta build, where the intended one keeps the version in front |
| UltimakerBase.AsWrittenBetaLosesVersion | recipes/ultimakerconanfile/conanfile.py:27-28 | As written, the beta version does not start with the recipe version |
| UltimakerBase.TicketBranchSuffix | recipes/ultimakerconanfile/conanfile.py:30-31 | On `CURA-<nnnn>…` the suffix is `-a+<nnnn>.<rev>` |
| UltimakerBase.OtherBranchSuffix | recipes/ultimakerconanfile/conanfile.py:32-33 | Any other development branch gives `<version>-a+<branch>.<rev>`, in both readings |
| PypiRecipe.Range | scripts/create_pypi_recipe.py:22 | The closing parenthesis dropped and the rest bracketed as `RangeText`: no comma is left |
| PypiRecipe.RangeTextIsReplaces | scripts/create_pypi_recipe.py:22 | The two chained replacements drop every space and turn every comma into a space, keeping all else: the per-character reference `RangeText` |
| PypiRecipe.TwoClauseRange | scripts/create_pypi_recipe.py:22 | `a, b)` becomes `[a b]` for clauses without spaces or commas |
| PypiRecipe.Entry | scripts/create_pypi_recipe.py:19-25 | A quoted reference ending in `@lulzbot/testing` |
| PypiRecipe.MarkerIsDropped | scripts/create_pypi_recipe.py:19 | The environment marker after `;` does not change the reference |
| PypiRecipe.BareNameTakesAnyVersion | scripts/create_pypi_recipe.py:23-25 | A bare name gets `[>=0.0.0]` |
| PypiRecipe.SpecifierGivesRange | scripts/create_pypi_recipe.py:20-25 | A parenthesised specifier gives that specifier's range |
| PypiRecipe.LinesAreJoinedEntries | scripts/create_pypi_recipe.py:18-25 | The loop's text is the entries joined by the separator, plus a final separator |
| PypiRecipe.AppendLines | scripts/create_pypi_recipe.py:17-27 | The leading separator alone for no entry; otherwise the entries joined, with the trailing separator cut |
| PypiRecipe.RequirementsText | scripts/create_pypi_recipe.py:16-29 | Empty without `requires_dist`; the untrimmed leading separator for an empty list; otherwise the joined references |
| PypiRecipe.Render | scripts/create_pypi_recipe.py:34-41 | The name capitalised: first letter upper-cased, the rest lower-cased; the requirements text lower-cased character by character |
| PypiConandata.Conandata | scripts/create_pypi_conandata.py:16-29 | Nothing exactly when there is no release list; otherwise one `sources` table |
| PypiConandata.LastWheel | scripts/create_pypi_conandata.py:19-21 | None exactly when no file is a wheel; otherwise the last wheel listed |
| PypiConandata.AddWheelsFresh | scripts/create_pypi_conandata.py:19-21 | A release adds at most its last wheel, at the end |
| PypiConandata.AddReleasesFresh | scripts/create_pypi_conandata.py:18-21 | The loops build the reference table of wheel sources |
| PypiConandata.ConandataIsWheelSources | scripts/create_pypi_conandata.py:16-29 | The document is `sources` over each release with a wheel, once, in response order, with its last wheel |
| PypiConandata.WheelSourcesKeys | scripts/create_pypi_conandata.py:20-21 | A release has an entry exactly when one of its files is a wheel |
| SentryLibrary.ConfigOptions | recipes/sentrylibrary/all/conanfile.py:25-27 | An empty project becomes the recipe name; otherwise the options are unchanged |
| SentryLibrary.ConfigOptionsIdempotent | recipes/sentrylibrary/all/conanfile.py:25-27 | Configuring twice is configuring once |
| SentryLibrary.ConfValue | recipes/sentrylibrary/all/conanfile.py:40-41 | The configured value of `user.sentry:<name>`, empty by default |
| SentryLibrary.RequiredConfs | recipes/sentrylibrary/all/conanfile.py:35-37 | `url` first; organization and token exactly when binaries are sent |
| SentryLibrary.FirstMissing | recipes/sentrylibrary/all/conanfile.py:39-42 | None exactly when all are configured; otherwise the first one missing |
| SentryLibrary.Validate | recipes/sentrylibrary/all/conanfile.py:33-42 | Passes when Sentry is off or every required configuration is set; otherwise the error names the first required configuration missing |
| SentryLibrary.ValidateAccepts | recipes/sentrylibrary/all/conanfile.py:33-42 | Passes exactly when Sentry is off or the url (and, when sending binaries, organization and token) are non-empty |
| SentryLibrary.UrlIsCheckedFirst | recipes/sentrylibrary/all/conanfile.py:35-42 | A missing url is reported first |
| SentryLibrary.Requirements | recipes/sentrylibrary/all/conanfile.py:44-46 | `sentry-native/0.7.15` exactly when Sentry is enabled |
| SentryLibrary.Environment | recipes/sentrylibrary/all/conanfile.py:48-49 | The configured environment, `development` by default |
| SentryLibrary.BinaryName | recipes/sentrylibrary/all/conanfile.py:71-78 | The basename for an application, else the basename and the library extension |
| SentryLibrary.LibraryExtensions | recipes/sentrylibrary/all/conanfile.py:73-78 | `.dylib` on Macos and `.so` elsewhere when shared, shared by default; `.a` exactly when static |
| SentryLibrary.ReleaseVersion | recipes/sentrylibrary/all/conanfile.py:93-96 | The version in production; elsewhere `+` and six commit characters, or `KeyError` without a commit |
| SentryLibrary.SendDebugFiles | recipes/sentrylibrary/all/conanfile.py:59-102 | Nothing unless both switches are on; an error without `sentry-cli`; `KeyError('commit')` for a release without a commit; otherwise the binary, the stripping by OS and the release |
| SentryLibrary.ValidatedUploadHasCredentials | recipes/sentrylibrary/all/conanfile.py:33-42 | A validated upload has its url, organization and token |
| SentryLibrary.DevelopmentReleaseCarriesCommit | recipes/sentrylibrary/all/conanfile.py:93-96 | Without a configured environment, a release carries the commit |
| NpmPackage.SanitizeVersion | recipes/npmpackage/all/conanfile.py:8-10 | Same length, each `+` turned into `-`, all else unchanged |
| NpmPackage.SanitizeIdempotent | recipes/npmpackage/all/conanfile.py:8-10 | No `+` remains, and sanitising again changes nothing |
| NpmPackage.PackageName | recipes/npmpackage/all/conanfile.py:16 | `@`, the lower-cased author, `/`, the lower-cased name, `js` |
| NpmPackage.Defaults | recipes/npmpackage/all/conanfile.py:15-31 | Nine distinct keys, with the name, the sanitised version and `bin/<entry point>` |
| NpmPackage.MergeGet | recipes/npmpackage/all/conanfile.py:32 | After the merge an argument's key reads the argument, every other key what it read before |
| NpmPackage.MergeKeepsKeyOrder | recipes/npmpackage/all/conanfile.py:32 | Existing keys stay where they were |
| NpmPackage.ConfPackageJson | recipes/npmpackage/all/conanfile.py:13-35 | `IndexError` exactly without a `.js` file; the key is `user.<name>:package_json` |
| NpmPackage.PackageJsonFields | recipes/npmpackage/all/conanfile.py:13-35 | Without an overriding argument, `name` and `version` are the defaults; an argument wins |

## Left out

- Running the external tools is not modelled. This covers `xgettext`, `msginit`, `msgmerge`, `venv`, `pip`, `objcopy`, `dsymutil` and `sentry-cli`. The tools appear only as the argument lists or command lines they are given.
- File and network I/O is not modelled: `load`, `save`, `rm`, `open`, `rglob` walks, `requests.get`, YAML and JSON parsing. Parsed documents are inputs, the file system is a map from path to content, and walks are the lists of paths in the order found.
- Jinja rendering is not modelled. The pyproject blocks and the PyPI recipe are modelled up to the context they are rendered with. The PyPI template itself is not part of this model, so whether the trim of the last entry's closing quote is made up for there is unknown.
- The clock is not modelled: the header's creation date is a parameter.
- Conan's `Version` parsing and ordering are foreign. `Versions` uses its own grammar `N[.N[.N]][-pre]`, with a release above any of its prereleases and prereleases compared as text. Results that depend on Conan's exact grammar hold for this one.
- Conan's helpers are inputs. This covers `cppstd_flag`, `architecture_flag`, `msvc_runtime_flag` and `apple_min_version_flag`, `CppInfo.merge`, `ToolchainBlocks` and `AutotoolsToolchain`.
- `PyProjectToolchainAll.Aggregate` only states the empty case; its order of merges is stated by the two lemmas after it. `CppInfo.merge` itself is a parameter.
- `ToolSipBindingsExtraSourcesBlock` always renders empty lists, which has nothing to state.
- `PyProjectToolchain.ProjectContext` and `PyProjectToolchainAll.ProjectContext` take paths as `/`-joined text. `Path.as_posix()` normalisation is not modelled.
- `PyProjectToolchain.BindingsContext`, `PyProjectToolchain.BindingsContextIntended`, `PyProjectToolchainAll.BindingsContext` and `PyProjectToolchainAll.BindingsContextIntended` pass the library and include directories through as given. The source turns each into `Path(d).as_posix()` (recipes/pyprojecttoolchain/conanfile.py:230-231, recipes/pyprojecttoolchain/all/conanfile.py:224-225), and that normalisation is not modelled.
- `PyProjectToolchainAll.PyQtBuilderContext` passes `py_lib_dir` through as given, from the option or the `python` component. The source applies `Path(...).as_posix()` to both (recipes/pyprojecttoolchain/all/conanfile.py:93, 99), and that normalisation is not modelled.
- `PyProjectToolchain.BuildStatic`: the `shared` setting is the text `settings.get_safe` returns. Which texts Conan lets a setting hold is Conan's own business and is not modelled.
- `LulzBase._py_venv_interp`, `_site_packages_path` and `_generate_virtual_python_env` are not modelled: they run the interpreter and touch the file system.
- `SentryLibrary.configure` (setting the `sentry-native` backend) and `setup_cmake_toolchain_sentry` are not modelled. They only copy values already modelled into Conan objects.
- `Strings.Lower` and `Strings.Capitalize` change ASCII letters only. Python's Unicode case mapping is not modelled.
- JSON objects are assumed to have distinct keys where a lemma needs it. How an `OrderedDict` keeps duplicate keys is not modelled.
- `ExtractTranslations.RemoveCommentsKeepsOtherLines`: requires text without `\r`. Python splits `\r\n` as one break, and the lemma is stated for texts where line splitting and rejoining are exact.
- `ExtractTranslations.RemoveCommentsIdempotent`: requires text without `\r`, for the same reason.
- `SettingsTree.ProcessSettings`: its own contract covers only the error and empty cases. The full text is stated by `SettingsTree.ProcessSettingsRendersFields` against the reference list `SettingsTree.Fields`.
- The git queries of `set_version` are inputs. A branch of `None` is modelled as the text `None`, as `str(None)` gives.
- `NpmPackage.ConfPackageJson`: the author is a string. An author of `None` would raise on `.lower()`, and that case is not modelled.
- The PyPI `info` fields passed verbatim to the recipe template (summary, license, home page, project URL) are not modelled.
- `ExtractStrings.UpdatePoFiles`: the `.po` files each template's search finds are an input, in the order the walk finds them.
- `ExtractStrings.GettextPrefix` and `ExtractStrings.FileName`: the separator is `/`. The script uses `os.path.sep`, which is `\` on Windows, and that platform's paths are not modelled.
- `PyProjectToolchainAll.MetadataContext`: takes the recipe version as `conan.tools.scm.Version` has read it. That class accepts any text, and how it reads a text outside the grammar of `Versions` is not modelled.
- `PyProjectToolchainAll.MetadataContext`: renders a missing minor or patch as `0`. Conan 2's `scm.Version` gives `None` there, so `1.2` would be published as `1.2.None`; the model's version type does not record how many components were written.

## Findings

| source | as written | input that shows it | evidently intended | confidence | as-written member | corrected member |
|---|---|---|---|---|---|---|
| recipes/translationextractor/all/conanfile.py:37-38 | `_remove_pot_header` drops 20 lines, but `_create_pot_header` (lines 160-180) writes 18, so the first entry's `msgctxt` and `msgid` lines are never compared | a settings file whose only setting `speed` has its label renamed from `Old` to `New`: the change is not seen, and the old template is restored | drop exactly the header's 18 lines | not executed | ExtractTranslations.RenamedLabelIsLost | ExtractTranslations.ChangedExactlyWhenEntriesDiffer |
| recipes/twisted/conanfile.py:55-56 | `python_version is Version("1.0")` compares identity with a fresh object, so it is never true, and a search that found nothing goes on to look up the key `1.0` | wheels listed only under `3.12`, with a `cpython` dependency at `3.10`: `KeyError('1.0')` instead of the intended message | raise "No compatible Python Version" when no wheel qualifies | not executed | PypiWheel.AsWrittenLooksUpFloorKey | PypiWheel.NoCompatibleVersion |
| recipes/pyparsing/conanfile.py:53-54 | the same identity guard in `pyparsing` | wheels listed only under `3.12` with the default option `3.0`: `KeyError('1.0')` | raise "No compatible Python Version" | not executed | PypiWheel.PyparsingSource | PypiWheel.PyparsingSourceIntended |
| recipes/ultimakerconanfile/conanfile.py:27-28 | `self.version = f"-b+{rev}"` replaces the version instead of extending it | version `5.1` on branch `5.1` tagged `beta` at commit `abcdef1`: `-b+abcdef` | `5.1-b+abcdef` | not executed | UltimakerBase.AsWrittenBetaLosesVersion | UltimakerBase.AsWrittenDiffersOnlyOnBeta |
| recipes/pyprojecttoolchain/conanfile.py:227-242 | `build_static` is `str(not settings.get_safe("shared", True))`, but `shared` is an option of the recipe, not a setting | a recipe built with the option `shared=False`: the settings have no `shared`, so the default `True` is read and `build-static` is rendered `False` | `build-static` follows the `shared` option, as `options.get_safe("shared", True)` does for `link_full_dll` at recipes/pyprojecttoolchain/all/conanfile.py:102 | not executed | PyProjectToolchain.StaticOptionIsIgnored | PyProjectToolchain.BindingsContextIntended |
| recipes/pyprojecttoolchain/all/conanfile.py:221-234 | the same `settings.get_safe("shared", True)` in the bindings block of the `all` variant | the option `shared=False`: `build-static` is rendered `False` | `build-static` follows the `shared` option | not executed | PyProjectToolchainAll.StaticOptionIsIgnored | PyProjectToolchainAll.BindingsContextIntended |
