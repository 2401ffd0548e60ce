/**
 * The indicator catalog and the selector that turns a translated label back
 * into a canonical key and a data column (app.py, lines 97-117).
 */
module Indicators {
  import opened Wrappers
  import opened StrFormat
  import opened Collections
  import opened Localization

  /** `indicator_options_internal`: canonical key to the column that backs it. */
  const IndicatorColumns: map<string, string> := map[
    "Diabetes Prevalence" := "Diabetes_Prevalence_per_1000",
    "Hypertension Prevalence" := "Hypertension_Prevalence_per_1000",
    "Flu Prevalence" := "Flu_Prevalence_per_1000",
    "Access to Sanitation (%)" := "Access_to_Sanitation_Pct",
    "Average Income (USD)" := "Avg_Income_USD",
    "Number of Clinics" := "Num_Clinics",
    "Average Age" := "Avg_Age",
    "Population" := "Population"
  ]

  /** `indicator_options_internal.keys()`: the canonical keys in declaration order. */
  const IndicatorKeys: seq<string> := [
    "Diabetes Prevalence",
    "Hypertension Prevalence",
    "Flu Prevalence",
    "Access to Sanitation (%)",
    "Average Income (USD)",
    "Number of Clinics",
    "Average Age",
    "Population"
  ]

  /**
   * The (label, key) pairs that the comprehension of line 109 inserts, one
   * per key in order: `(_(key), key)`. The first `_` that raises aborts it.
   */
  function DisplayPairs(table: Table, lang: string, keys: seq<string>): (r: Result<seq<(string, string)>, Error>)
    ensures r.Success? <==> forall i | 0 <= i < |keys| :: Translate(table, lang, keys[i]).Success?
    ensures r.Success? ==>
              && |r.value| == |keys|
              && forall i | 0 <= i < |keys| :: r.value[i] == (Translate(table, lang, keys[i]).value, keys[i])
    ensures r.Failure? ==> exists i | 0 <= i < |keys| ::
              && Translate(table, lang, keys[i]).Failure?
              && r == Failure(Translate(table, lang, keys[i]).error)
              && forall j | 0 <= j < i :: Translate(table, lang, keys[j]).Success?
  {
    if keys == [] then Success([])
    else
      match Translate(table, lang, keys[0])
      case Failure(e) => Failure(e)
      case Success(shown) =>
        match DisplayPairs(table, lang, keys[1..])
        case Failure(e) =>
          assert forall i | 0 <= i < |keys| - 1 :: keys[1..][i] == keys[i + 1];
          Failure(e)
        case Success(rest) =>
          assert forall i | 0 <= i < |keys| - 1 :: keys[1..][i] == keys[i + 1];
          Success([(shown, keys[0])] + rest)
  }

  /** `translated_indicator_display_map` (line 109): translated label to canonical key. */
  function DisplayMap(table: Table, lang: string, keys: seq<string>): (r: Result<map<string, string>, Error>)
    ensures r.Success? <==> forall i | 0 <= i < |keys| :: Translate(table, lang, keys[i]).Success?
    ensures r.Success? ==> r.value.Keys == set i | 0 <= i < |keys| :: Translate(table, lang, keys[i]).value
    ensures r.Failure? ==> r == Failure(DisplayPairs(table, lang, keys).error)
  {
    match DisplayPairs(table, lang, keys)
    case Success(pairs) =>
      assert (set i | 0 <= i < |pairs| :: pairs[i].0)
          == (set i | 0 <= i < |keys| :: Translate(table, lang, keys[i]).value);
      Success(DictOf(pairs))
    case Failure(e) => Failure(e)
  }

  /**
   * The options of the indicator selector (line 113): the display map's
   * labels in order, or none when there is no data.
   */
  function IndicatorChoices(table: Table, lang: string, keys: seq<string>, dataEmpty: bool): (r: Result<seq<string>, Error>)
    ensures r.Success? <==> DisplayMap(table, lang, keys).Success?
    ensures r.Failure? ==> r.error == DisplayMap(table, lang, keys).error
    ensures r.Success? && dataEmpty ==> r.value == []
    ensures r.Success? && !dataEmpty ==>
              && NoDuplicates(r.value)
              && forall shown :: shown in r.value <==> shown in DisplayMap(table, lang, keys).value
  {
    match DisplayPairs(table, lang, keys)
    case Success(pairs) => Success(if dataEmpty then [] else KeysInOrder(pairs))
    case Failure(e) => Failure(e)
  }

  /**
   * Lines 116-117: the selected label (`None` when the selector has no
   * option) to `(selected_indicator_key, selected_indicator_col)`. Neither
   * `.get` raises; a miss gives `None`, and so does `.get(None)`.
   */
  function SelectIndicator(displayMap: map<string, string>, columns: map<string, string>, choice: Option<string>):
    (r: (Option<string>, Option<string>))
    ensures r.0.Some? <==> choice.Some? && choice.value in displayMap
    ensures r.0.Some? ==> r.0.value == displayMap[choice.value]
    ensures r.1.Some? <==> r.0.Some? && r.0.value in columns
    ensures r.1.Some? ==> r.1.value == columns[r.0.value]
  {
    var key := if choice.Some? then Get(displayMap, choice.value) else None;
    var column := if key.Some? then Get(columns, key.value) else None;
    (key, column)
  }

  /** The label of a selectbox whose default is its first option (`index=0`); `None` when it has no option. */
  function DefaultChoice(options: seq<string>): Option<string> {
    if options == [] then None else Some(options[0])
  }

  /** When no two keys share a label, the display map sends each key's label back to that key. */
  lemma DisplayMapRoundTrip(table: Table, lang: string, keys: seq<string>)
    requires forall i | 0 <= i < |keys| :: Translate(table, lang, keys[i]).Success?
    requires forall i, j | 0 <= i < j < |keys| ::
               Translate(table, lang, keys[i]).value != Translate(table, lang, keys[j]).value
    ensures DisplayMap(table, lang, keys).Success?
    ensures forall i | 0 <= i < |keys| ::
              && Translate(table, lang, keys[i]).value in DisplayMap(table, lang, keys).value
              && DisplayMap(table, lang, keys).value[Translate(table, lang, keys[i]).value] == keys[i]
  {
    var pairs := DisplayPairs(table, lang, keys).value;
    forall i | 0 <= i < |keys|
      ensures Translate(table, lang, keys[i]).value in DictOf(pairs)
      ensures DictOf(pairs)[Translate(table, lang, keys[i]).value] == keys[i]
    {
      DictOfLastWins(pairs, i);
    }
  }

  /**
   * The comprehension is last-write-wins: a label maps to the last key, in
   * declaration order, whose translation it is.
   */
  lemma DisplayMapLastWins(table: Table, lang: string, keys: seq<string>, shown: string)
    requires DisplayMap(table, lang, keys).Success? && shown in DisplayMap(table, lang, keys).value
    ensures exists j | 0 <= j < |keys| ::
              && Translate(table, lang, keys[j]) == Success(shown)
              && DisplayMap(table, lang, keys).value[shown] == keys[j]
              && forall k | j < k < |keys| :: Translate(table, lang, keys[k]) != Success(shown)
  {
    var pairs := DisplayPairs(table, lang, keys).value;
    DictOfValueIsLastPair(pairs, shown);
  }

  /** Two keys with one label: the later key is the one the selector ends up with. */
  lemma CollidingLabelsKeepLaterKey()
    ensures DisplayMap(map["L" := map["a" := "X", "b" := "X"]], "L", ["a", "b"]) == Success(map["X" := "b"])
  {
    var table := map["L" := map["a" := "X", "b" := "X"]];
    var pairs := DisplayPairs(table, "L", ["a", "b"]).value;
    assert pairs == [("X", "a"), ("X", "b")];
    assert pairs[..1] == [("X", "a")] && pairs[..1][..0] == [];
    assert DictOf(pairs[..1]) == map["X" := "a"];
    assert DictOf(pairs) == map["X" := "b"];
    assert DisplayMap(table, "L", ["a", "b"]) == Success(DictOf(pairs));
  }

  /**
   * Labels the selector can invert: in `lang` every key has a brace-free
   * template, and no two keys share one.
   */
  ghost predicate InvertibleLabels(table: Table, lang: string, keys: seq<string>) {
    && lang in table
    && (forall i | 0 <= i < |keys| :: keys[i] in table[lang] && BraceFree(table[lang][keys[i]]))
    && (forall i, j | 0 <= i < j < |keys| :: table[lang][keys[i]] != table[lang][keys[j]])
  }

  /**
   * With invertible labels, selecting the label of a key gives back that key
   * and whatever column the catalog names for it.
   */
  lemma SelectorRoundTrip(table: Table, lang: string, keys: seq<string>, columns: map<string, string>, i: nat)
    requires InvertibleLabels(table, lang, keys) && i < |keys|
    ensures Translate(table, lang, keys[i]) == Success(table[lang][keys[i]])
    ensures DisplayMap(table, lang, keys).Success?
    ensures SelectIndicator(DisplayMap(table, lang, keys).value, columns, Some(table[lang][keys[i]]))
            == (Some(keys[i]), Get(columns, keys[i]))
  {
    DisplayMapRoundTrip(table, lang, keys);
    assert Translate(table, lang, keys[i]).value == table[lang][keys[i]];
  }

  /**
   * The key sequence lists each of the eight keys of the dictionary once.
   * Dafny maps carry no order: the order of `IndicatorKeys` is the order in
   * which lines 98-105 write the keys, and is fixed by that text alone.
   */
  lemma IndicatorKeysOfColumns()
    ensures |IndicatorKeys| == 8
    ensures NoDuplicates(IndicatorKeys)
    ensures forall k :: k in IndicatorColumns <==> k in IndicatorKeys
  {
  }

  /** Every column name of the catalogue is a non-empty string, so it is truthy. */
  lemma ColumnsNonEmpty()
    ensures forall k | k in IndicatorColumns :: IndicatorColumns[k] != ""
  {
  }

  /** The indicator labels in English are the canonical keys themselves. */
  lemma EnglishIndicatorTemplates()
    ensures forall i | 0 <= i < |IndicatorKeys| ::
              IndicatorKeys[i] in English && English[IndicatorKeys[i]] == IndicatorKeys[i]
  {
  }

  /** The English indicator labels are invertible. */
  lemma EnglishIndicatorLabels()
    ensures InvertibleLabels(Translations, EnglishName, IndicatorKeys)
    ensures forall i | 0 <= i < |IndicatorKeys| :: Translations[EnglishName][IndicatorKeys[i]] == IndicatorKeys[i]
  {
    IndicatorKeysOfColumns();
    EnglishIndicatorTemplates();
    TemplatesBraceFree();
    var templates := Translations[EnglishName];
    assert templates == English;
  }

  /** The Nepali labels of the canonical keys, in declaration order. */
  const NepaliIndicatorLabels: seq<string> := [
    NeDiabetesPrevalence,
    NeHypertensionPrevalence,
    NeFluPrevalence,
    NeAccessToSanitation,
    NeAverageIncome,
    NeNumberOfClinics,
    NeAverageAge,
    NePopulation
  ]

  /** The Nepali template of each canonical key. */
  lemma NepaliIndicatorTemplates()
    ensures forall i | 0 <= i < |IndicatorKeys| ::
              IndicatorKeys[i] in Nepali && Nepali[IndicatorKeys[i]] == NepaliIndicatorLabels[i]
  {
  }

  /** The eight Nepali indicator labels are pairwise distinct, so they are invertible too. */
  lemma NepaliIndicatorLabelsOfKeys()
    ensures InvertibleLabels(Translations, NepaliName, IndicatorKeys)
    ensures forall i | 0 <= i < |IndicatorKeys| :: Translations[NepaliName][IndicatorKeys[i]] == NepaliIndicatorLabels[i]
  {
    NepaliIndicatorTemplates();
    TemplatesBraceFree();
    assert NoDuplicates(NepaliIndicatorLabels);
    var templates := Translations[NepaliName];
    assert templates == Nepali;
  }

  /** In either language of the table the indicator labels are invertible. */
  lemma AppIndicatorLabels(lang: string)
    requires lang in Translations
    ensures InvertibleLabels(Translations, lang, IndicatorKeys)
  {
    if lang == EnglishName {
      EnglishIndicatorLabels();
    } else {
      NepaliIndicatorLabelsOfKeys();
    }
  }

  /**
   * The round trip of lines 109 and 116-117: in either language, selecting
   * the label of a canonical key gives back that key and the column
   * `indicator_options_internal` names for it.
   */
  lemma IndicatorRoundTrip(lang: string, i: nat)
    requires lang in Translations && i < |IndicatorKeys|
    ensures Translate(Translations, lang, IndicatorKeys[i]).Success?
    ensures DisplayMap(Translations, lang, IndicatorKeys).Success?
    ensures IndicatorKeys[i] in IndicatorColumns
    ensures SelectIndicator(DisplayMap(Translations, lang, IndicatorKeys).value, IndicatorColumns,
                            Some(Translate(Translations, lang, IndicatorKeys[i]).value))
            == (Some(IndicatorKeys[i]), Some(IndicatorColumns[IndicatorKeys[i]]))
  {
    IndicatorKeysOfColumns();
    AppIndicatorLabels(lang);
    SelectorRoundTrip(Translations, lang, IndicatorKeys, IndicatorColumns, i);
  }

  /**
   * With invertible labels and data present, the selector offers one label
   * per key in key order; with no data it offers nothing (line 113).
   */
  lemma ChoicesOfInvertibleLabels(table: Table, lang: string, keys: seq<string>, dataEmpty: bool)
    requires InvertibleLabels(table, lang, keys)
    ensures IndicatorChoices(table, lang, keys, dataEmpty).Success?
    ensures dataEmpty ==> IndicatorChoices(table, lang, keys, dataEmpty).value == []
    ensures !dataEmpty ==>
              && |IndicatorChoices(table, lang, keys, dataEmpty).value| == |keys|
              && forall i | 0 <= i < |keys| :: IndicatorChoices(table, lang, keys, dataEmpty).value[i] == table[lang][keys[i]]
  {
    var pairs := DisplayPairs(table, lang, keys).value;
    assert NoDuplicates(Firsts(pairs));
    DistinctOfNoDuplicates(Firsts(pairs));
  }

  /**
   * Lines 111-117 end to end: with data, every option of the indicator
   * selector resolves to a canonical key and its column; without data the
   * selector is empty, its value `None`, and both lookups give `None`.
   */
  lemma IndicatorSelectorOfApp(lang: string, dataEmpty: bool)
    requires lang in Translations
    ensures IndicatorChoices(Translations, lang, IndicatorKeys, dataEmpty).Success?
    ensures DisplayMap(Translations, lang, IndicatorKeys).Success?
    ensures dataEmpty ==>
              && IndicatorChoices(Translations, lang, IndicatorKeys, dataEmpty).value == []
              && SelectIndicator(DisplayMap(Translations, lang, IndicatorKeys).value, IndicatorColumns,
                                 DefaultChoice(IndicatorChoices(Translations, lang, IndicatorKeys, dataEmpty).value))
                 == (None, None)
    ensures !dataEmpty ==>
              && |IndicatorChoices(Translations, lang, IndicatorKeys, dataEmpty).value| == |IndicatorKeys|
              && forall i | 0 <= i < |IndicatorKeys| ::
                   SelectIndicator(DisplayMap(Translations, lang, IndicatorKeys).value, IndicatorColumns,
                                   Some(IndicatorChoices(Translations, lang, IndicatorKeys, dataEmpty).value[i]))
                   == (Some(IndicatorKeys[i]), Some(IndicatorColumns[IndicatorKeys[i]]))
  {
    AppIndicatorLabels(lang);
    IndicatorKeysOfColumns();
    ChoicesOfInvertibleLabels(Translations, lang, IndicatorKeys, dataEmpty);
    DisplayMapRoundTrip(Translations, lang, IndicatorKeys);
    if !dataEmpty {
      forall i | 0 <= i < |IndicatorKeys|
        ensures SelectIndicator(DisplayMap(Translations, lang, IndicatorKeys).value, IndicatorColumns,
                                Some(IndicatorChoices(Translations, lang, IndicatorKeys, dataEmpty).value[i]))
                == (Some(IndicatorKeys[i]), Some(IndicatorColumns[IndicatorKeys[i]]))
      {
        IndicatorRoundTrip(lang, i);
      }
    }
  }

  /** `indicator_options_internal.get`: a known key gives its column, an unknown one gives `None`. */
  lemma ColumnLookup()
    ensures Get(IndicatorColumns, "Population") == Some("Population")
    ensures Get(IndicatorColumns, "Diabetes Prevalence") == Some("Diabetes_Prevalence_per_1000")
    ensures Get(IndicatorColumns, "unknown-key") == None
  {
  }
}
