# Urban health dashboard: lookup layer

This project models the lookup layer of a Streamlit dashboard. The dashboard
shows urban health indicators per ward in English or Nepali. The model covers
the parts of `app.py` that compute values rather than draw widgets:

- the two-language translation table and the translation function `_`
  (`Localization`, with no-argument `str.format` in `StrFormat`);
- the stored session language: its default, the language selector and the
  `set_language` callback (`Session.SessionState`);
- the internal indicator catalogue. This includes the display map built by the
  comprehension `{_(key): key for key in ...}`, the selector's option list, and
  the two chained `.get` lookups that turn a shown label back into a key and
  then a data column (`Indicators`);
- the ward selector's option list, the mapping of the all-wards label to the
  `'All Wards'` sentinel, and the raw-data row filter (`Wards`);
- how the selected indicator column decides whether the raw-data section is
  drawn (`Dashboard`);
- the Python dictionary and sequence behaviour these steps rely on
  (`Collections`, `Wrappers`):
  - a dict display or comprehension keeps the last value written for a key;
  - `dict.keys()` keeps first-insertion order;
  - `Series.unique()` keeps order of first appearance.

The Python exceptions involved are modelled as values:

- `translations[lang]` with an unknown language raises `KeyError`. Here that is
  `Failure(UnknownLanguage(lang))`.
- A template that `format()` rejects is `Failure(BadTemplate(template))`.
- `.get` on a missing key is `None`.

Two consequences of `app.py` as written:

- A label shared by two keys maps to the later key: the comprehension at
  `app.py:109` writes its pairs in order and the last write stays
  (`Indicators.DisplayMapLastWins`).
- `app.py:74-76` divides case counts by the population and handles no zero
  case. Those float columns are not part of this model (see "Left out").

A behaviour worth knowing, proved in `Wards.WardChoiceView`: the ward filter is
skipped in two cases, and every row is then shown. One case is a ward whose
name equals the translated all-wards label. The other is a ward literally named
`All Wards`. Any other ward choice gives exactly that ward's rows, and the
result is never empty.

## Model

| member | source | states |
|---|---|---|
| StrFormat.FormatNoArgs | app.py:65 | `format()` with no arguments returns a template without braces unchanged. Any text it returns, with its braces doubled again, is the template. The result is never longer than the template. |
| StrFormat.FormatEscapeRoundTrip | app.py:65 | Formatting text whose braces were doubled always succeeds and gives back the original text. |
| StrFormat.LoneBraceRaises | app.py:65 | A single `{` or `}` after brace-free text makes `format()` raise. |
| Collections.Distinct | app.py:87 | `unique()` keeps exactly the values of its input, each once, and never lengthens it. |
| Collections.DistinctFirstAppearance | app.py:87 | `unique()` lists values in the order of their first appearance in the input. |
| Collections.DistinctOfNoDuplicates | app.py:113 | `unique()` leaves a list with no repeats unchanged. |
| Collections.DictOf | app.py:109 | The keys of a dict built from pairs are exactly the first components of the pairs. |
| Collections.DictOfLastWins | app.py:109 | A pair whose key is not written again later keeps its value in the dict. |
| Collections.DictOfValueIsLastPair | app.py:109 | Every entry of the dict is the last pair written with that key. |
| Collections.KeysInOrder | app.py:113 | `list(d.keys())` holds exactly the dict's keys, each once, in the order in which each key was first written. |
| Localization.Translate | app.py:63-65 | An unknown language fails with `KeyError`. A present key gives its brace-free template. A missing key gives the key itself, if it has no braces, whatever the other language holds. On success, doubling the result's braces gives the looked-up template or the key. |
| Localization.TemplatesBraceFree | app.py:11-40 | No template in either language contains a brace, so `format()` never changes one. |
| Localization.TableLookup | app.py:63-65 | For both languages and every key in their tables, `_` returns the table's text exactly. |
| Localization.LanguageOptionsAreTableKeys | app.py:56-61 | The selector offers exactly the languages of the table, and the default language `English` is among them and listed first. |
| Localization.SidebarInfoFallsBack | app.py:163 | `sidebar_info` is in neither table, so both languages show the key itself. |
| Session.SessionState.InitLanguage | app.py:48-49 | If the session has no language, `English` is stored. A stored language is left alone. The selector is unchanged. |
| Session.SessionState.Choose | app.py:56-61 | Picking an offered language changes only the selector's value, not the stored language. |
| Session.SessionState.SetLanguage | app.py:51-53 | The callback copies the selector's value into the stored language and changes nothing else, so the stored language is always a key of the table. |
| Session.SessionState.Gettext | app.py:63-65 | `_` in the session's language returns the template for a present key and the key itself for a missing one. It fails only on a missing key that contains braces. |
| Indicators.DisplayMap | app.py:109 | The display map exists exactly when every key translates. Its labels are exactly the translated keys. Otherwise it fails with the comprehension's first failure. |
| Indicators.IndicatorChoices | app.py:113 | The options exist exactly when the display map does. They are empty for empty data. Otherwise they are the display map's labels, each once. |
| Indicators.DisplayPairs | app.py:109 | The comprehension's pairs are (translated label, key) for each key in order. It fails with the first key whose translation fails. |
| Indicators.DisplayMapRoundTrip | app.py:109 | When every key translates and no two labels collide, each key's label is in the display map and maps back to that key. |
| Indicators.DisplayMapLastWins | app.py:109 | Every shown label maps to the last key that translates to it. |
| Indicators.CollidingLabelsKeepLaterKey | app.py:109 | An example: for two keys `a`, `b` that share the label `X`, the display map is `{X: b}`. The general fact is `Indicators.DisplayMapLastWins`. |
| Indicators.SelectIndicator | app.py:116-117 | The chained `.get` lookups give a key only for a chosen label in the display map. They give a column only for a key in the catalogue. `None` propagates. |
| Indicators.SelectorRoundTrip | app.py:109-117 | With invertible labels, choosing a key's label gives back that key and the catalogue's column for it. |
| Indicators.IndicatorKeysOfColumns | app.py:97-106 | The catalogue has eight distinct keys, and the key list holds exactly them. Their order follows lines 98-105. |
| Indicators.EnglishIndicatorTemplates | app.py:19-22 | The English table translates every indicator key to itself. |
| Indicators.EnglishIndicatorLabels | app.py:19-22 | The English indicator labels are brace-free and pairwise distinct. |
| Indicators.NepaliIndicatorTemplates | app.py:33-36 | The Nepali table contains every indicator key. |
| Indicators.NepaliIndicatorLabelsOfKeys | app.py:33-36 | The Nepali indicator labels are the eight Nepali names, brace-free and pairwise distinct. |
| Indicators.AppIndicatorLabels | app.py:109 | In both languages the dashboard's indicator labels can be inverted. |
| Indicators.IndicatorRoundTrip | app.py:97-117 | In both languages, choosing any indicator's translated label resolves to that indicator's key and its data column. |
| Indicators.ChoicesOfInvertibleLabels | app.py:113 | The options are empty for empty data. Otherwise they are the translated labels, in catalogue order. |
| Indicators.IndicatorSelectorOfApp | app.py:111-117 | With empty data, no option is offered and both lookups give `None`. Otherwise every offered option resolves to its key and column. |
| Indicators.ColumnLookup | app.py:117 | Examples: the catalogue lookup gives `Population` for `Population`, `Diabetes_Prevalence_per_1000` for `Diabetes Prevalence`, and `None` for an unknown key. The general fact is `Indicators.SelectIndicator`. |
| Indicators.ColumnsNonEmpty | app.py:97-106 | Every column name in the catalogue is a non-empty string. |
| Wards.WardOptions | app.py:86-87 | The ward options start with the all-wards label. The remaining options are the data's ward names, each once, and there are none when the data is empty. |
| Wards.WardOptionsInFirstAppearanceOrder | app.py:87 | The ward names follow the order of their first appearance in the data. |
| Wards.ResolveWard | app.py:93 | The selection becomes the `All Wards` sentinel exactly when the choice is the all-wards label or is itself `All Wards`. Any other choice passes through unchanged. |
| Wards.FilterWard | app.py:145 | Filtering keeps only rows of the chosen ward. |
| Wards.FilterWardCounts | app.py:145 | Filtering keeps every row of the chosen ward as often as it occurs and drops all others. |
| Wards.FilterWardAppend | app.py:145 | Filtering a concatenation is the concatenation of the filtered parts, so row order is preserved. |
| Wards.FilterWardKeepsMatching | app.py:145 | When every row belongs to the chosen ward, filtering returns the rows unchanged. |
| Wards.FilterWardIdempotent | app.py:145 | Filtering twice by the same ward is the same as filtering once. |
| Wards.FilterWardDropsOthers | app.py:145 | When no row belongs to the chosen ward, filtering returns nothing. |
| Wards.RawDataView | app.py:142-145 | The sentinel shows every row. Any other ward shows each of its rows as often as it occurs and no other row. |
| Wards.WardChoiceView | app.py:86-145 | The first option shows every row. A ward option shows that ward's rows, and at least one, unless its name is the all-wards label or `All Wards`, in which case every row is shown. |
| Wards.RawDataSection | app.py:132-145 | The raw-data section is shown exactly when the data is not empty and the selected column is a non-empty string. It then shows the view of the selected ward. |
| Dashboard.HiddenSectionMeansNoColumn | app.py:156-160 | With data present, the raw-data section is hidden exactly when the indicator lookups found no column. |
| Dashboard.ShownSectionIsWardView | app.py:116-145 | With data present and a label the display map knows, the lookups give that key's column and the section shows the selected ward's view. |

## Left out

- Streamlit itself is not modelled: page layout, widget drawing, headers, metrics, expanders, warnings and info boxes. The model keeps only the values these widgets are given or return. The user's choice in a selectbox is a parameter.
- CSV loading and caching (`app.py:68-81`) are not modelled, including the `FileNotFoundError` branch that yields an empty frame. The data is a given sequence of rows. An empty frame is the empty sequence.
- The prevalence columns (`app.py:74-76`) are not modelled. They are float divisions, and the model has no floating point. Their values are never read by the modelled lookups.
- The metric texts (`app.py:136-137`) are not modelled: the population sum with thousands separators, and the mean prevalence to two decimals.
- Charts and the commented-out plot code (`app.py:147-154`) are not modelled.
- Localization.Translate: models `_` called without keyword arguments only, because every call in the modelled lines passes none. Placeholder substitution by `str.format(**kwargs)` is not modelled.
- Localization.Translate: does not distinguish the exception `format()` raises on a malformed template (`ValueError`, `IndexError` or `KeyError`). All of them are one `BadTemplate` failure.
- Session.SessionState.Gettext: requires a stored language, so it does not model lines 43-44. As written, `app.py` cannot get past line 43 on any run. Line 43 calls `_`, which is only defined by `def _` at line 63. Streamlit re-executes the script in a fresh namespace on each run. Python evaluates the callee first, so line 43 raises `NameError` before it reads `st.session_state.language`. The model treats `_` as defined, as lines 63-65 define it, and takes the language from the session at the point of each later call.
- The Streamlit rerun cycle is not modelled. `Session.SessionState` models one session's state under explicit calls, in the order Streamlit makes them.
- Rows keep the ward and the other cells as text. Column data types, NumPy values and `NaN` wards are not modelled.
- The indicator header at `app.py:125-129` is covered only through `Localization.Translate`, which it calls. The warning text is UI.
