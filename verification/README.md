# creatio-tests field checker, modelled in Dafny

`creatio_tests` drives a browser against a Creatio form and checks that each
configured field looks the way a JSON page configuration says it should: the
label reads as expected (exactly or as a substring), the field is or is not
readonly, and a lookup offers every expected option. This project models the
decision logic of that checker as pure Dafny functions and proves properties
of it. The browser itself is not modelled. Every DOM query, click or script
result becomes an input value that describes what the page answered. Every
deadline loop becomes a finite sequence of observations, one per tick that
fits before the deadline.

The modules follow the source files:

- `Conversions`, `PageLoader`, `AuthLoader`: the two configuration loaders. They cover
  `int()`, the lenient boolean reading, `str()`/`repr()` of JSON values, and
  every exception with its message.
- `PageObject`, `FieldIndex`, `AuthPage`: the page registry, the
  first-registration-wins index of `element-name` codes, and the
  index-building loop that stops when the index has settled.
- `Fields` (base field), `BooleanField`, `LookupField`, `FieldFactory`: the
  field kinds, their probes, and the check pipeline
  (probe → title → readonly → options).
- `ReadonlyDetector`, `LabelResolver`, `OverlayService`, `DomQueries`,
  `Waits`, `Logger`: the services the fields use.
- `ValidationResults`, `FieldTypes`: the result record and the kind
  enumeration.
- `Wrappers`, `Strings`, `Values`, `OrderedMaps`: shared vocabulary. That is
  Option/Result, Python `strip`/`lower`/`upper`/`join`/`in` on strings,
  parsed JSON values with Python truthiness, `str`, `int` and `repr`, and an
  insertion-ordered dict.

Three facts about the code shape the model:

- There is no required-state classifier, no required check in the field
  pipeline and no awaited per-field check. `required` is only handed on to
  the field factory, which does not accept it, and `await_check_all` calls
  an `await_for_check` that no field class defines (see Findings).
- Two driver exceptions escape: `find_trigger` raises when no trigger
  exists, and an unclickable trigger raises out of `OverlayService.open`.
  The model carries these as the `Raised` error of `OverlayService.Open`,
  `LookupField.Check` and `PageObject.CheckAll`.
- The two configuration loaders are modelled in full.

## Model

| member | source | states |
|---|---|---|
| Conversions.ConfigPath | creatio_tests/utils/page_loader.py:34 | A missing or empty path falls back to the default file name; any other path is used as given |
| Conversions.LenientBool | creatio_tests/utils/page_loader.py:19-30 | Booleans read as themselves and numbers by truthiness. A string reads true or false exactly when its stripped, lower-cased form is one of the five true words or one of the five false words. null, lists and dicts have no reading |
| Conversions.WordsDisjoint | creatio_tests/utils/page_loader.py:24-27 | No word is both a true word and a false word, so the order of the two tests does not matter |
| Conversions.LenientBoolVersusTruthy | creatio_tests/utils/page_loader.py:19-30 | Off strings the reading equals Python truthiness. On strings it does not: "0" is truthy yet reads false |
| Conversions.BoolTextReadsBack | creatio_tests/utils/page_loader.py:23-27 | The text `str(b)` of a boolean reads back as `b` |
| Conversions.PaddingIgnored | creatio_tests/utils/page_loader.py:23 | Surrounding whitespace never changes how a string reads |
| Conversions.IntOf | creatio_tests/utils/page_loader.py:40 | `int(v)` succeeds exactly when the value has an integer reading. Otherwise a string gives ValueError "invalid literal …" and null, a list or a dict gives TypeError naming the type |
| Conversions.IntOfRendered | creatio_tests/utils/page_loader.py:83-85 | An integer, and its decimal text, both convert back to that integer |
| Conversions.OptionalInt | creatio_tests/utils/page_loader.py:83-85 | An absent or null per-field wait is None; otherwise it is `int(v)`, with that call's error |
| Values.IntStrRoundTrip | creatio_tests/utils/page_loader.py:85 | `int(str(i)) == i` for every integer |
| Values.GetOptional | creatio_tests/utils/page_loader.py:59-60 | `d.get(k)` is not None exactly when the key is present with a non-null value, and then it is that value |
| PageLoader.TypeNamesBijective | creatio_tests/utils/page_loader.py:10-16 | The type-name table is a bijection between the five upper-case names and the five field kinds |
| PageLoader.OptionalBool | creatio_tests/utils/page_loader.py:63-77 | An absent or null `readonly`/`required` is unset. A present value must have a lenient reading, which becomes the setting; otherwise ValueError "invalid <key> for field <code>" |
| PageLoader.ParseField | creatio_tests/utils/page_loader.py:49-85 | A non-dict entry raises AttributeError. An unknown type raises "unknown field type at index i: 'T'". A blank code raises "missing code for field at index i". On success the kind is the table entry for the stripped, upper-cased type text, and the code is the stripped, non-empty code text |
| PageLoader.ParseSettings | creatio_tests/utils/page_loader.py:59-85 | The settings of one entry, with errors in source order (readonly, required, lookup_values not a list, wait). On success: title is `str(title)` when present; readonly/required are the lenient readings; strict_title defaults to true and falls back to false when unreadable; the lookup values are the configured list's items as they are, whatever their types; the wait is `int(v)` |
| PageLoader.SettingsRendered | creatio_tests/utils/page_loader.py:59-85 | Round trip: parsing the settings of a rendered field specification gives that specification back |
| PageLoader.ParseRendered | creatio_tests/utils/page_loader.py:49-85 | Round trip: a field specification with a stripped, non-empty code, written out as a JSON entry, parses back to itself |
| PageLoader.RenderedEntries | creatio_tests/utils/page_loader.py:50-55 | A rendered entry carries its type name and its code under `type` and `code` |
| PageLoader.RenderedSettings | creatio_tests/utils/page_loader.py:63-85 | Each rendered setting reads back under the loader's own reading rules |
| PageLoader.LoadHeader | creatio_tests/utils/page_loader.py:34-47 | A missing file raises FileNotFoundError "config file not found: <path>". A non-dict document raises AttributeError from `.get`. A bad page wait raises int's error. A missing, non-list or empty `fields` raises "fields array is empty". Otherwise the page has no fields, its name is the stripped name or "Page" when blank, and its wait and debug come from the document |
| PageLoader.FirstEntryAsWritten | creatio_tests/utils/page_loader.py:49-96 | As written, the first entry either fails to parse, with that parse error, or reaches `add_field` and raises its TypeError. No entry is ever registered |
| PageLoader.LoadPageConfig | creatio_tests/utils/page_loader.py:33-98 | As written, loading never succeeds. Header errors come first; otherwise the first entry's parse error or add_field's TypeError |
| PageLoader.AsWrittenNeverLoads | creatio_tests/utils/page_loader.py:87-96 | Every configuration that the corrected loader accepts makes the code as written raise add_field's TypeError |
| PageLoader.LoadPageConfigIntended | creatio_tests/utils/page_loader.py:33-98 | Corrected loader. It succeeds exactly when the header and every entry parse. The first failing entry's error is the one raised. On success every parsed entry is registered in file order |
| PageLoader.Register | creatio_tests/utils/page_loader.py:87-96 | Registering an entry keeps the page's name, wait and debug flag |
| PageLoader.SequenceOk | creatio_tests/utils/page_loader.py:49-96 | Collecting per-entry results succeeds exactly when every entry succeeds, and then yields their values in order |
| PageLoader.SequenceFirstError | creatio_tests/utils/page_loader.py:49-96 | Collecting fails with the error of the first failing entry |
| PageLoader.ParseAllOkIff | creatio_tests/utils/page_loader.py:49-85 | All entries parse exactly when each entry parses at its own index |
| PageLoader.ParseAllAt | creatio_tests/utils/page_loader.py:49-85 | The j-th parsed specification is the parse of the j-th entry |
| PageLoader.ParseAllFirstError | creatio_tests/utils/page_loader.py:49-85 | The loop stops at the first entry that fails, with its error |
| PageLoader.RegisterAll | creatio_tests/utils/page_loader.py:87-96 | Registering a batch keeps the page's name, wait and debug flag |
| PageLoader.TwoPhases | creatio_tests/utils/page_loader.py:49-96 | Parsing and registering entry by entry equals parsing all entries first and then registering them all, both on success and on the first error |
| PageLoader.RegisterAllCodes | creatio_tests/utils/page_loader.py:48-96 | After loading, a code is registered exactly when it was registered before or is the code of some entry |
| PageLoader.RegisterAllAppends | creatio_tests/utils/page_loader.py:87-96 | Registration only appends to the field order; earlier codes keep their positions |
| PageLoader.RegisterAllLastWins | creatio_tests/utils/page_loader.py:87-96 | When a code appears several times, its last entry decides the registered field |
| PageLoader.RegisterAllUntouched | creatio_tests/utils/page_loader.py:87-96 | Codes that no entry mentions keep their earlier registration |
| PageLoader.Codes | creatio_tests/utils/page_loader.py:55-57 | The codes of a batch, in entry order |
| AuthLoader.AsBool | creatio_tests/utils/auth_loader.py:8-19 | Same readings as the page loader's boolean, but anything without a reading raises ValueError "cannot cast to bool: <repr>" |
| AuthLoader.AsBoolAgreesWithLenient | creatio_tests/utils/auth_loader.py:8-19 | `_as_bool` succeeds exactly when `_normalize_bool` has a reading, and then they agree |
| AuthLoader.CompleteIsEveryKey | creatio_tests/utils/auth_loader.py:31-32 | A document is complete exactly when none of the four required keys is absent, null or blank after `str().strip()` |
| AuthLoader.KeyMissing | creatio_tests/utils/auth_loader.py:32 | The per-key test. In a dict a key is missing when absent, null or blank. In a list or string without the key, `k not in data` holds. With the key present, `.get` raises AttributeError. Other types raise TypeError "argument of type … is not iterable" |
| AuthLoader.MissingFrom | creatio_tests/utils/auth_loader.py:31-34 | For a dict, the missing list holds exactly the required keys that are absent or blank, in required order. Only a non-dict can raise |
| AuthLoader.AllBlankAllMissing | creatio_tests/utils/auth_loader.py:31-34 | When every key is blank, the missing list is the whole key list |
| AuthLoader.EmptyConfigMessage | creatio_tests/utils/auth_loader.py:31-34 | An empty document raises "missing required keys: " followed by the repr of all four keys |
| AuthLoader.NonDictNeverLoads | creatio_tests/utils/auth_loader.py:31-34 | A document that is not a JSON object never yields a client |
| AuthLoader.WaitSetting | creatio_tests/utils/auth_loader.py:53-57 | The wait converts exactly when `int(v)` succeeds; otherwise ValueError "invalid 'wait_timeout_sec': <repr>" |
| AuthLoader.FromEntries | creatio_tests/utils/auth_loader.py:36-67 | Errors in source order: headless, then debug, then wait, each with its wrapped message. On success the client has the texts of username, password and test_url. Its base URL is the stripped base_url with its trailing slashes removed. Headless, debug and wait are the parsed options |
| AuthLoader.LoadAuthDefaults | creatio_tests/utils/auth_loader.py:41-57 | With no options given, the client is not headless, debug is on and the wait is 180 seconds |
| AuthLoader.FromData | creatio_tests/utils/auth_loader.py:31-67 | A client is built only from a complete dict. An incomplete dict raises "missing required keys: <list>" |
| AuthLoader.LoadAuth | creatio_tests/utils/auth_loader.py:22-67 | A missing file raises FileNotFoundError. Undecodable JSON raises "invalid json in <path>: <error>". Success implies a parsed, complete dict |
| AuthLoader.FromRenderedEntries | creatio_tests/utils/auth_loader.py:36-67 | Round trip: the entries written out for a loadable client build that client again |
| AuthLoader.LoadRenderedAuth | creatio_tests/utils/auth_loader.py:22-67 | Round trip: a file holding a loadable client's configuration loads to that client |
| AuthPage.NewClient | creatio_tests/page/auth_page.py:19-25 | The base URL has every trailing slash removed and nothing else; the other settings are kept as given |
| AuthPage.BaseUrlStable | creatio_tests/page/auth_page.py:20 | Constructing again from a constructed client's base URL changes nothing |
| AuthPage.ResolveTestUrl | creatio_tests/page/auth_page.py:78-81 | An absolute http(s) test URL is used as is. Otherwise the result is the base URL, a slash, then the test path, with no doubled slash |
| AuthPage.SchemeIsCaseSensitive | creatio_tests/page/auth_page.py:79 | A test URL that does not start with a lower-case `h` is always treated as relative to the base URL |
| AuthPage.Candidates | creatio_tests/page/auth_page.py:139-144 | Every candidate of a tick was found by one of the eight component selectors |
| AuthPage.CodeOf | creatio_tests/page/auth_page.py:146-149 | A candidate's code is stripped |
| AuthPage.CodeOfName | creatio_tests/page/auth_page.py:146-149 | A candidate's code is its `element-name` stripped, or empty when the attribute is missing or unreadable |
| AuthPage.AddFirst | creatio_tests/page/auth_page.py:145-153 | Offering candidates only ever adds codes to the index |
| AuthPage.CountAt | creatio_tests/page/auth_page.py:154 | The count seen at tick k is the size of the index after tick k |
| AuthPage.DoneIffFiveEqual | creatio_tests/page/auth_page.py:154-162 | The loop stops after tick k exactly when five consecutive counts ending at k are equal and non-zero |
| AuthPage.StopFrom | creatio_tests/page/auth_page.py:137-162 | The stopping tick is the first tick where the stop condition holds, or the last tick the deadline allows |
| AuthPage.BuildFieldsIndex | creatio_tests/page/auth_page.py:122-164 | The loop runs exactly up to the first stable tick, or to the deadline. The index it leaves is the index after exactly those ticks |
| AuthPage.TickStep | creatio_tests/page/auth_page.py:145-160 | One tick offers that tick's candidates to the index and then updates the last count and the stable-tick counter |
| AuthPage.TrackIsStable | creatio_tests/page/auth_page.py:154-162 | The loop's counter state after tick k equals the stability measured on the count sequence |
| AuthPage.StopIsFirstDone | creatio_tests/page/auth_page.py:156-162 | Any tick that is not preceded by a stop, and is itself a stop or the last tick, is the stopping tick |
| AuthPage.IndexOnlyGrows | creatio_tests/page/auth_page.py:150-153 | The index never shrinks from one tick to a later one |
| AuthPage.IndexKeepsEntry | creatio_tests/page/auth_page.py:150-153 | Once a code is indexed its element never changes |
| AuthPage.CountsNonDecreasing | creatio_tests/page/auth_page.py:154 | The observed counts never decrease |
| AuthPage.IndexAfterIsBuild | creatio_tests/page/auth_page.py:137-153 | The index after n ticks equals the first-wins index of all candidates of those ticks, in the order they were offered |
| AuthPage.IndexedElementIsFirstOffered | creatio_tests/page/auth_page.py:145-153 | The element indexed under a code is the one offered first under that code |
| AuthPage.AwaitFieldPresent | creatio_tests/page/auth_page.py:178-185 | The result is None exactly when every lookup before the deadline failed. Otherwise it is the first element found |
| AuthPage.AwaitIsPoll | creatio_tests/page/auth_page.py:178-185 | Waiting for a field finds one exactly when polling "the lookup found something" succeeds on the same attempts |
| FieldIndex.New | creatio_tests/page/field_index.py:6-7 | A new index is empty |
| FieldIndex.Add | creatio_tests/page/field_index.py:9-13 | An empty code is ignored. The first registration of a code wins. No other code changes. At most one key is appended |
| FieldIndex.Get | creatio_tests/page/field_index.py:15-16 | Lookup finds an element exactly for registered codes |
| FieldIndex.Len | creatio_tests/page/field_index.py:27-28 | The length is the number of distinct registered codes |
| FieldIndex.Keys | creatio_tests/page/field_index.py:18-19 | The keys are exactly the registered codes, none of them empty |
| FieldIndex.BuildSnoc | creatio_tests/page/field_index.py:9-13 | Building from a list plus one pair is adding that pair to the list's index |
| FieldIndex.BuildFirstWins | creatio_tests/page/field_index.py:9-13 | After any sequence of additions, a code maps to the element of its first non-empty occurrence |
| FieldIndex.BuildKeysInFirstOrder | creatio_tests/page/field_index.py:9-19 | Keys come out in the order of their first occurrences |
| FieldIndex.BuildLen | creatio_tests/page/field_index.py:27-28 | The size after any sequence of additions is the number of distinct non-empty codes offered |
| FieldIndex.FirstPos | creatio_tests/page/field_index.py:12 | The first position of a code in an addition sequence, or none when it never occurs |
| FieldIndex.Codes | creatio_tests/page/field_index.py:10-13 | The distinct non-empty codes of an addition sequence |
| OrderedMaps.Put | creatio_tests/page/page_object.py:48 | Dict assignment. A new key is appended to the iteration order; an existing key keeps its place and takes the new value |
| OrderedMaps.Get | creatio_tests/page/page_object.py:54 | Lookup finds exactly the stored keys |
| OrderedMaps.Len | creatio_tests/page/field_index.py:27-28 | The size is the number of keys in iteration order |
| PageObject.New | creatio_tests/page/page_object.py:10-15 | A new page has no fields |
| PageObject.WaitOrDefault | creatio_tests/page/page_object.py:34 | `wait or default`: an unset wait and a wait of 0 both fall back to the page default |
| PageObject.FieldContext | creatio_tests/page/page_object.py:32-37 | The field context takes its wait from the field or the page, its debug flag from the page, and the prefix "[page][code]" |
| PageObject.Log | creatio_tests/page/page_object.py:17-19 | Nothing is written unless debug is on; then one line, "[page][code] msg" |
| PageObject.CheckAllLog | creatio_tests/page/page_object.py:54-61 | The debug lines of `check_all`: none unless debug is on; then one "[page][code] message" line per verdict, in report order |
| PageObject.LogLineNamesField | creatio_tests/page/page_object.py:17-19 | Each debug line starts with the "[page][code] " prefix of its own field |
| PageObject.CheckAllLogsEveryField | creatio_tests/page/page_object.py:54-61 | In debug mode a completed `check_all` writes one line per registered field, the i-th naming the i-th registered code |
| PageObject.AddField | creatio_tests/page/page_object.py:21-49 | As written, every call raises the factory's TypeError for the unexpected keyword `required` |
| PageObject.AddFieldIntended | creatio_tests/page/page_object.py:21-49 | Corrected registration. The code maps to a field of the requested kind with that code, the given title, readonly and strict-title settings, the page-derived context, and the lookup values (an empty list when absent; none for other kinds). Other codes are untouched. A new code is appended to the check order, and a re-registered code keeps its place |
| PageObject.AddFieldLastWins | creatio_tests/page/page_object.py:48 | Registering the same code twice keeps only the second field |
| PageObject.Aggregate | creatio_tests/page/page_object.py:51-64 | The report keeps every entry. It is all-ok exactly when every entry's verdict is ok |
| PageObject.Verdict | creatio_tests/page/page_object.py:55-59 | A field missing from the page gives the failing verdict "field not found" with its code. Otherwise the verdict is the field's own check |
| PageObject.VerdictsFrom | creatio_tests/page/page_object.py:54-61 | Verdicts come in registration order, one per field. The loop raises exactly when some field's check raises |
| PageObject.CheckAll | creatio_tests/page/page_object.py:51-64 | The report has one verdict per registered field, in registration order. The overall flag is the conjunction of the verdicts. The call raises exactly when some field's check raises |
| PageObject.MissingFieldFailsReport | creatio_tests/page/page_object.py:55-63 | One field missing from the page makes the whole report fail, and its entry reads "field not found" |
| PageObject.AwaitCheckAll | creatio_tests/page/page_object.py:66-78 | As written, this succeeds only for a page with no fields. Otherwise it raises AttributeError: the first field's class has no `await_for_check` |
| PageObject.AwaitCheckAllIntended | creatio_tests/page/page_object.py:66-78 | Corrected: one awaited verdict per field, in registration order, and all-ok exactly when every verdict is ok |
| PageObject.AwaitAggregatesLikeCheckAll | creatio_tests/page/page_object.py:51-78 | Given the same verdicts, the corrected awaited check reports exactly what the immediate check reports |
| FieldFactory.KindOf | creatio_tests/fields/factory.py:24-34 | A known kind builds its own class; anything else falls back to a text field |
| FieldFactory.Create | creatio_tests/fields/factory.py:15-34 | The call raises TypeError exactly when the caller passes `required`. Otherwise the field keeps the code, title, readonly, strictness and context. Only a lookup keeps its expected options, with no options standing for an empty list |
| FieldFactory.CreateSeparatesKinds | creatio_tests/fields/factory.py:24-33 | Different requested kinds build fields of different kinds |
| FieldFactory.CheckField | creatio_tests/fields/factory.py:24-34 | Dispatch: a lookup runs the lookup check and every other kind runs the base check. A passing verdict is "field is valid" and always names the code |
| FieldFactory.OnlyLookupsRaise | creatio_tests/fields/lookup.py:30-36 | Only a lookup with expected options, whose base check passed, can raise, and only because the overlay could not be opened |
| Fields.FieldLogger | creatio_tests/fields/base.py:27 | A field logs only in debug mode, with prefix "[field:<code>]" |
| Fields.Probe | creatio_tests/fields/text.py:8-13 | Each kind probes its own selector group: text here, number at number.py:8-13, datetime at datetime.py:8-13, the checkbox at boolean.py:8-13, the combobox parts at lookup.py:23-28. For text, number and datetime, `Container.controlFound` stands for "the selector of the kind being checked matched". The probe passes exactly when that flag, the checkbox or a combobox part is present. A pass reads "<kind> control ok" and a failure "<kind> control not found: <error>", with "checkbox" as the boolean's kind name |
| Fields.CheckTitle | creatio_tests/fields/base.py:48-58 | With no expected title the check is skipped. Otherwise the found label is the resolved label. The check passes exactly when the label is non-empty and equals the title (strict) or contains it (loose). An empty label fails with "label text is empty". A strict mismatch reads "label mismatch: expected '<title>', got '<label>'", a loose one "label does not contain expected substring: '<title>', got '<label>'", and a pass "title ok" |
| Fields.StrictTitleImpliesLoose | creatio_tests/fields/base.py:54-57 | A label that passes the strict comparison passes the loose one |
| Fields.EmptyLabelFailsBothModes | creatio_tests/fields/base.py:52-53 | An empty label fails in both modes with the same message |
| Fields.CheckReadonly | creatio_tests/fields/base.py:60-68 | With no expectation the check is skipped. Otherwise it passes exactly when the detector's verdict equals the expectation, and the message carries the detector's reason |
| Fields.Check | creatio_tests/fields/base.py:123-133 | The verdict is ok exactly when probe, title and readonly all pass. The first failing stage supplies the message and its detail. A pass reads "field is valid". The code is always in the details |
| Fields.ProbeFailureShortCircuits | creatio_tests/fields/base.py:124-126 | A failed probe makes the label and the readonly state irrelevant |
| Fields.TitleFailureShortCircuits | creatio_tests/fields/base.py:127-129 | A failed title check makes the readonly state irrelevant |
| Fields.UnconstrainedFieldNeedsOnlyControl | creatio_tests/fields/base.py:123-133 | With no title and no readonly expectation, the check passes exactly when the control is present |
| Fields.Focus | creatio_tests/fields/base.py:82-88 | Focusing fails, with "cannot focus control: …", exactly when both the click and the JS click fail |
| Fields.SetValue | creatio_tests/fields/base.py:76-99 | None is rejected with "value is None", and a missing input fails with "editable control not found". Otherwise the value is set exactly when focus succeeds and either typing or the JS fallback works; the message says which ("value set" or "value set via JS"). A failed focus gives "cannot focus control: <error>". When both typing and the script fail, the result is "cannot set value: <error>" |
| Fields.ClearValue | creatio_tests/fields/base.py:101-121 | A missing input fails with "editable control not found". Otherwise the field is cleared exactly when focus succeeds and either key presses or the JS fallback work; the message says which. A failed focus gives "cannot focus control: <error>". When both fallbacks fail, the result is "cannot clear value: <error>" |
| Fields.SetAndClearAgree | creatio_tests/fields/base.py:76-121 | On the same control, setting a value succeeds exactly when clearing does |
| BooleanField.SetValue | creatio_tests/fields/boolean.py:15-35 | A missing checkbox fails with "checkbox not found: <error>". A checkbox already in the wanted state is left alone ("value unchanged"). Otherwise it is clicked once ("value toggled", or "value toggled via JS"). When neither click works, the result is "cannot toggle: <error>". Only the value's truthiness matters |
| BooleanField.ClearValue | creatio_tests/fields/boolean.py:37-38 | Clearing is setting to false, so an unchecked box is left unchanged |
| BooleanField.SecondSetIsUnchanged | creatio_tests/fields/boolean.py:15-35 | Setting is idempotent: repeating a successful set clicks nothing, and the two together toggle at most once |
| BooleanField.OnlyTruthinessMatters | creatio_tests/fields/boolean.py:20-26 | Two values with the same truthiness have the same effect |
| BooleanField.UnreadableIsUnchecked | creatio_tests/fields/boolean.py:21-24 | A checkbox whose state cannot be read is treated as unchecked |
| LookupField.Observed | creatio_tests/fields/lookup.py:39 | Python's `v in options`: only a string equal to an option text is found |
| LookupField.Missing | creatio_tests/fields/lookup.py:39 | The missing options, in expected order, never more than were expected |
| LookupField.MissingSnoc | creatio_tests/fields/lookup.py:39 | Appending an expected value appends it to the missing list exactly when it is not offered, so order and repeats follow the expected list |
| LookupField.NumberNeverMatchesText | creatio_tests/fields/lookup.py:39 | A configured number is missing even when an option shows its digits |
| LookupField.MissingMembers | creatio_tests/fields/lookup.py:39 | A value is reported missing exactly when it is expected and not offered |
| LookupField.MissingEmptyIffContained | creatio_tests/fields/lookup.py:39-41 | Nothing is missing exactly when every expected value is offered; extra offered values never fail |
| LookupField.MissingFromNothing | creatio_tests/fields/lookup.py:39 | With no options offered, every expected value is missing |
| LookupField.MissingIgnoresUnexpected | creatio_tests/fields/lookup.py:39 | Only whether the expected values are offered matters; other options are irrelevant |
| Conversions.ReprValues | creatio_tests/fields/lookup.py:41 | The missing list in the message is written like Python's list repr: bracketed, items by their repr, comma-separated |
| Conversions.ReprValuesOfTexts | creatio_tests/fields/lookup.py:41 | A list of strings reads the same taken as values or as texts |
| Values.ReprChar | creatio_tests/fields/lookup.py:41 | A character is written as itself exactly when it is not a backslash, the quote or unprintable in Latin-1; the other unprintable characters up to U+00FF become `\xhh` |
| LookupField.CheckOptions | creatio_tests/fields/lookup.py:30-46 | With no expected options the check is skipped. Otherwise it raises exactly when the overlay cannot be opened, and passes exactly when the overlay opens, options are read, and none is missing. The failures carry their own texts. An overlay that does not show gives the open message with no options. A failed read gives the read message with no options. Missing values give "lookup dictionary missing values: <repr of missing>; actual: <repr of options>" with the options read. A pass is "lookup dictionary ok" with the options read |
| LookupField.Check | creatio_tests/fields/lookup.py:100-107 | A failing base check is returned unchanged. Otherwise the options check decides. A failure carries the options check's message, with the code and the options in the details. A pass is "field is valid" with the code and the options (None when none were expected) |
| LookupField.BaseFailureSkipsOptions | creatio_tests/fields/lookup.py:101-103 | A failing base check never touches the overlay |
| LookupField.NoExpectedOptionsSkipsOverlay | creatio_tests/fields/lookup.py:31-32 | Without expected options the overlay plays no part, and the lookup check agrees with the base check |
| LookupField.ProbePassMeansTrigger | creatio_tests/fields/lookup.py:23-28 | A lookup whose probe passed always has a trigger for the overlay |
| LookupField.SetValue | creatio_tests/fields/lookup.py:48-72 | An empty value fails with "value is empty". Otherwise the call raises exactly when the overlay cannot be opened. It succeeds ("value set") exactly when the overlay shows and an option is found and clicked. An overlay that does not show gives the open message. A missing option gives "option not found: <error>". An option that cannot be clicked gives "cannot click option: <error>" |
| LookupField.ClearValue | creatio_tests/fields/lookup.py:74-98 | The clear icon wins when it can be clicked. Otherwise the combobox host is cleared directly ("value cleared") or through JS ("value cleared via JS"). When both fail, the result is "cannot clear value: <error>". With no host, the JS fallback's UnboundLocalError is caught and reported as "cannot clear value: …" |
| LookupField.SetAndCheckShareOpenFailure | creatio_tests/fields/lookup.py:30-53 | When the overlay does not show, setting a non-empty value and checking non-empty expected options both fail with the same open message, because both open the overlay the same way |
| LookupField.SetAndClearUseDisjointParts | creatio_tests/fields/lookup.py:48-98 | Setting depends only on the overlay and its options. Clearing depends only on the clear icon and the combobox host. Changing what one uses leaves the other's result unchanged |
| OverlayService.Open | creatio_tests/services/overlay_service.py:23-48 | A clickable caret opens the overlay. Otherwise the trigger found by `find_trigger` is clicked. The call raises exactly when no trigger exists or the trigger cannot be clicked. The overlay is reported open exactly when it becomes visible |
| OverlayService.CollectSound | creatio_tests/services/overlay_service.py:58-73 | The collected options are distinct, non-empty and trimmed by JavaScript's `trim()`. Every one is the trimmed text of some node, and every node whose trimmed text is non-blank is collected |
| Strings.JsTrim | creatio_tests/services/overlay_service.py:66 | JavaScript's `trim()` leaves no tab-to-carriage-return or space at either end |
| Strings.JsTrimAgreesOffSeparators | creatio_tests/services/overlay_service.py:66 | On text without the information separators U+001C to U+001F, JavaScript's `trim()` and Python's `strip()` give the same result |
| Strings.SeparatorKeptByJsTrim | creatio_tests/services/overlay_service.py:66 | A leading U+001C is kept by `trim()` and dropped by `strip()` |
| OverlayService.RunSettled | creatio_tests/services/overlay_service.py:83-89 | The stable-tick counter reaches 2 exactly when three consecutive counts are equal and non-zero |
| OverlayService.StopFrom | creatio_tests/services/overlay_service.py:80-96 | The reading stops at the first settled tick, or at the last tick the deadline allows |
| OverlayService.Read | creatio_tests/services/overlay_service.py:75-106 | Success means a non-empty list of distinct options and "options collected". Failure means no options and the message "no options; overlay html: …" |
| OverlayService.ReadUntilStable | creatio_tests/services/overlay_service.py:75-106 | The loop returns the options of its stopping tick, which is the first settled tick. It fails exactly when that tick offered nothing or the deadline allowed no tick at all |
| OverlayService.PollUntilStable | creatio_tests/services/overlay_service.py:76-96 | The polling loop stops at the first settled tick and keeps that tick's options |
| OverlayService.StopIsFirstSettled | creatio_tests/services/overlay_service.py:83-89 | Any tick not preceded by a settled tick, and itself settled or last, is where the reading stops |
| OverlayService.StopDependsOnlyOnCounts | creatio_tests/services/overlay_service.py:83-89 | When the reading stops depends only on how many options each tick showed |
| ReadonlyDetector.NormalisersExclusive | creatio_tests/services/readonly_detector.py:36-42 | No attribute value reads both as true and as "false". A missing attribute reads as neither |
| ReadonlyDetector.AriaStricterThanAttr | creatio_tests/services/readonly_detector.py:36-40 | An aria value that reads true also reads true as an attribute, but not the reverse: an empty attribute is true, an empty aria value is not |
| ReadonlyDetector.StepSets | creatio_tests/services/readonly_detector.py:53-65 | One input sets each flag that it fires and never clears a flag |
| ReadonlyDetector.ScanIsOr | creatio_tests/services/readonly_detector.py:53-65 | After the loop, a flag is set exactly when it was set before or some input fires it |
| ReadonlyDetector.ScanIsOrAll | creatio_tests/services/readonly_detector.py:47-65 | From all-false flags, each input flag is the disjunction of that signal over all inputs |
| ReadonlyDetector.Gather | creatio_tests/services/readonly_detector.py:43-65 | The lock icon, host readonly and host disabled come from the host; every input signal holds exactly when some input fires it |
| ReadonlyDetector.OrderComplete | creatio_tests/services/readonly_detector.py:71-79 | The reason list covers all nine signals |
| ReadonlyDetector.NameInjective | creatio_tests/services/readonly_detector.py:71-79 | Different signals have different reason names |
| ReadonlyDetector.FiringFromMembers | creatio_tests/services/readonly_detector.py:71-79 | A name appears in the reasons exactly when its signal holds |
| ReadonlyDetector.FiringFromEmpty | creatio_tests/services/readonly_detector.py:71-79 | The reason list is empty exactly when no signal holds |
| ReadonlyDetector.ReasonsInOrder | creatio_tests/services/readonly_detector.py:70-79 | The reasons are listed in the fixed signal order |
| ReadonlyDetector.ReasonsNameFiringSignals | creatio_tests/services/readonly_detector.py:70-79 | The reasons name exactly the signals that hold |
| ReadonlyDetector.AnyReadonly | creatio_tests/services/readonly_detector.py:66 | A field is readonly exactly when some signal holds, which is exactly when the reason list is non-empty |
| ReadonlyDetector.Classify | creatio_tests/services/readonly_detector.py:66-81 | Readonly exactly when some signal holds, with the reasons joined by ", ". Otherwise "editable (host readonly='false')" when the host says false, else "no readonly signals" |
| ReadonlyDetector.MoreInputsStayReadonly | creatio_tests/services/readonly_detector.py:53-69 | Adding inputs never makes a readonly field editable |
| LabelResolver.SafeText | creatio_tests/services/label_resolver.py:9-22 | The text is stripped, and empty exactly when both the visible text and textContent are blank |
| LabelResolver.SafeTextPrefersText | creatio_tests/services/label_resolver.py:9-22 | Visible text wins when non-blank; otherwise textContent, each stripped |
| LabelResolver.AriaText | creatio_tests/services/label_resolver.py:31-33 | The stripped aria-label of the input, or empty when there is no input |
| LabelResolver.PartsOf | creatio_tests/services/label_resolver.py:36-44 | The labelledby parts are non-empty and stripped, at most one per id |
| LabelResolver.PartsOfMembers | creatio_tests/services/label_resolver.py:36-44 | A text is a part exactly when it is the non-empty text of one of the ids |
| LabelResolver.LabelledText | creatio_tests/services/label_resolver.py:34-47 | The labelledby text is stripped, and empty without an input |
| LabelResolver.LabelledTextIsJoin | creatio_tests/services/label_resolver.py:34-47 | The labelledby text is the space-joined parts, and it is empty exactly when no id yields text |
| LabelResolver.FirstWithText | creatio_tests/services/label_resolver.py:48-52 | The position of the first label with text, with no text before it |
| LabelResolver.FirstText | creatio_tests/services/label_resolver.py:48-52 | The text of the first label that has any, or empty when none does |
| LabelResolver.ContainerText | creatio_tests/services/label_resolver.py:48-52 | The text of the first label element, in document order, whose text is non-empty; empty exactly when every label's text is empty. It is stripped |
| LabelResolver.ResolveLabel | creatio_tests/services/label_resolver.py:25-52 | aria-label wins, then labelledby, and when both are empty the result is the container text. The result is empty exactly when all three are empty |
| LabelResolver.AriaLabelWins | creatio_tests/services/label_resolver.py:31-33 | A non-blank aria-label decides the label whatever the labelledby targets and the container labels are |
| LabelResolver.NoInputUsesContainer | creatio_tests/services/label_resolver.py:25-52 | Without an input the label is the first container label's text |
| DomQueries.Clean | creatio_tests/services/dom_queries.py:33-36 | The markup with newlines removed; empty when there is none |
| DomQueries.OuterHtml | creatio_tests/services/dom_queries.py:31-37 | The cleaned markup when short enough; otherwise its first max_len characters followed by "..." |
| DomQueries.Gather | creatio_tests/services/dom_queries.py:14-28 | Everything gathered was found by one of the selectors |
| DomQueries.GatherAppend | creatio_tests/services/dom_queries.py:22-28 | Gathering over two selector lists is the concatenation of the two gatherings |
| DomQueries.GatherComplete | creatio_tests/services/dom_queries.py:22-28 | Everything a selector found is gathered |
| DomQueries.GatherFailedIsEmpty | creatio_tests/services/dom_queries.py:23-27 | A selector whose lookup raised counts as finding nothing |
| DomQueries.FindLabels | creatio_tests/services/dom_queries.py:14-28 | Every label returned was found by one of the label selectors |
| DomQueries.FindTrigger | creatio_tests/services/dom_queries.py:40-48 | The combobox role wins, then the fallback control. Nothing is found exactly when neither part is present |
| Waits.PollFrom | creatio_tests/services/waits.py:31-42 | Polling stops at the first attempt that returns true. A raising attempt counts as false. Without a true attempt, every attempt is made |
| Waits.PollUntil | creatio_tests/services/waits.py:31-42 | `poll_until` succeeds exactly when some attempt before the deadline returns true |
| Waits.PollIgnoresLaterAttempts | creatio_tests/services/waits.py:34-38 | Attempts after the first success never change the outcome |
| Waits.PollRaiseIsFalse | creatio_tests/services/waits.py:35-40 | An attempt that raised is the same as one that returned false |
| Waits.WaitForCss | creatio_tests/services/waits.py:19-28 | Succeeds exactly when some attempt finds at least one element |
| Waits.WaitForJsReady | creatio_tests/services/waits.py:7-16 | Succeeds exactly when some attempt sees readyState "complete" |
| Logger.Fmt | creatio_tests/services/logger.py:10-12 | A line is the optional prefix and a space, then "[level] ", then the message, which ends the line |
| Logger.Emit | creatio_tests/services/logger.py:14-28 | A disabled logger writes nothing; an enabled one writes exactly one line |
| Logger.FmtInjective | creatio_tests/services/logger.py:10-12 | For a fixed prefix and level, different messages give different lines |
| Logger.LevelsDifferOnlyInTag | creatio_tests/services/logger.py:14-28 | Different levels give different lines for the same message |
| ValidationResults.New | creatio_tests/models/result.py:6-9 | A new result has no details |
| ValidationResults.WithDetail | creatio_tests/models/result.py:11-13 | Adding a detail sets that key only and keeps the verdict and message |
| ValidationResults.WithDetailLastWins | creatio_tests/models/result.py:11-13 | Setting a key twice keeps the later value |
| ValidationResults.WithDetailCommutes | creatio_tests/models/result.py:11-13 | Details under different keys can be added in either order |
| ValidationResults.WithDetailIdempotent | creatio_tests/models/result.py:11-13 | Re-adding an existing detail changes nothing |

## Left out

- The browser: starting Chrome, login, cookies and the HTTP session (creatio_tests/page/auth_page.py:26-76), `load_page` (83-120), `close` (166-170). Their results enter the model as inputs.
- Time. Each deadline loop is a finite sequence of per-tick observations, one per tick that fits before the deadline. Sleeping and poll intervals are not modelled.
- Driver exceptions that the source does not catch: the readonly detector's script, `collect_options`, the script of `_scroll_to_end` (overlay_service.py:50-56, called at :90, which would end `read_until_stable`, the options check, `LookupField.check` and `check_all`), `get_attribute` on the located input in `resolve_label`, `get_field_fresh` errors other than "no such element". The model assumes these calls answer. The two raising paths the code does have in the lookup overlay are modelled.
- `scroll_into_view`, `_scroll_to_end` and the page-down key in `read_until_stable`. Their effect on the page shows up as the options of later ticks. A failure of `scroll_into_view` (dom_queries.py:8-11) or of the page-down key (overlay_service.py:91-95) is caught; one of `_scroll_to_end` is not, and is listed with the uncaught driver exceptions above.
- `close()` of the overlay (overlay_service.py:108-114): it only sends ESC to the page body and logs, and swallows any failure, so nothing a check or an edit returns depends on it. `_check_options` and `set_value` call it only on their passing paths.
- Fields.Probe: one container is assumed to answer the probe of the kind being checked; the different selector groups of text, number and datetime are folded into the one `controlFound` flag.
- AuthPage.BuildFieldsIndex: only a call on a fresh client is modelled. The source adds to `self.fields` (auth_page.py:151-152), created once in `__init__` (auth_page.py:36) and never reset, so on a second call the codes indexed earlier keep their elements and the counts start at the old size.
- Strings.JsTrim: only ASCII whitespace is modelled. JavaScript's `trim()` also removes the no-break space, U+FEFF, the other Unicode space separators and the line and paragraph separators.
- Debug lines other than the page's: the services' `_log` methods, `CreatioAuthPage._log`, and the overlay's info lines written through the field logger. Logger and Fields.FieldLogger model only whether a logger writes and with which prefix.
- PageObject.CheckAllLog: the lines `check_all` wrote for earlier fields before a lookup check raised are not modelled. The "field registered" line of `add_field` is PageObject.Log with that message; `add_field` as written raises before writing it.
- Values.ReprChar: characters above U+00FF that Python does not count as printable (U+200B, the line and paragraph separators, unassigned code points) are written as themselves, where Python writes `\uhhhh` or `\Uhhhhhhhh`. The Unicode character database is not modelled; the Latin-1 range is escaped exactly.
- The client argument of `load_page_config` and of `PageObject`. It is only stored and handed on to the live driver.
- Reading files: the JSON text decoder and the path normalisation of `Path`. A file is either parsed JSON or the decoder's error message.
- Values.PyStr: `str()` of floats, lists and dicts is a non-blank stand-in rather than Python's exact text, and so is their `repr` inside error messages. Strings, booleans, integers and null are exact.
- Strings.Trim, Strings.Lower, Strings.Upper: whitespace and case are ASCII only. Python's Unicode whitespace and case tables are not modelled.
- Values.PyInt: `int()` of a string accepts optional surrounding whitespace, a sign and decimal digits. Underscore separators, and non-ASCII digits, are not modelled. `int()` of an infinite or NaN float (OverflowError/ValueError) is not modelled.
- The UnboundLocalError text in LookupField.ClearValue follows Python 3.11 and later; older interpreters word it differently.
- AuthLoader.EmptyConfigMessage: the expected message is stated through the repr of the key list rather than as the literal `['base_url', 'username', 'password', 'test_url']`.

## Findings

| source | as written | input that shows it | evidently intended | confidence | as-written member | corrected member |
|---|---|---|---|---|---|---|
| creatio_tests/page/page_object.py:38-47 with creatio_tests/utils/page_loader.py:87-96 | `add_field` passes `required=` to `FieldFactory.create`, whose signature (creatio_tests/fields/factory.py:15-23) has no such parameter, so every call raises TypeError and `load_page_config` can never return a page | any page.json with one valid field, e.g. `{"fields": [{"type": "text", "code": "Name"}]}` | register the field without passing `required`, so each valid entry becomes a field of the page | not executed | PageObject.AddField, PageLoader.LoadPageConfig, PageLoader.AsWrittenNeverLoads | PageObject.AddFieldIntended, PageLoader.LoadPageConfigIntended |
| creatio_tests/page/page_object.py:66-78 | `await_check_all` calls `f.await_for_check(...)`, which no field class defines, so it raises AttributeError as soon as one field is registered | any page with one registered field | check each field, waiting for it to appear, and aggregate the verdicts as `check_all` does | not executed | PageObject.AwaitCheckAll | PageObject.AwaitCheckAllIntended, PageObject.AwaitAggregatesLikeCheckAll |
