/**
 * The translation table of the dashboard and its lookup function `_`
 * (app.py, lines 11-40 and 63-65).
 */
module Localization {
  import opened Wrappers
  import opened StrFormat
  import opened Collections

  /** Language name to (string key to template). */
  type Table = map<string, map<string, string>>

  /** Why a lookup raises. */
  datatype Error =
    | UnknownLanguage(language: string)   // `translations[lang]` raises KeyError
    | BadTemplate(template: string)       // `.format()` raises on a brace

  const EnglishName: string := "English"
  const NepaliName: string := "नेपाली"

  // The English templates, in source order.
  const EnHubTitle: string := "Urban Health Data Hub"
  const EnFiltersOptions: string := "Filters & Options"
  const EnSelectWard: string := "Select Ward:"
  const EnAllWards: string := "All Wards"
  const EnSelectIndicatorBarBox: string := "Select Indicator for Bar/Box Plot:"
  const EnDashboardTitle: string := "🏙️ Budhanilkantha Health Dashboard"
  const EnKeyMetricsHeader: string := "Key Metrics (Overall City)"
  const EnTotalPopulation: string := "Total Population"
  const EnAvgDiabetesPrev: string := "Avg. Diabetes Prevalence"
  const EnDiabetesPrevalence: string := "Diabetes Prevalence"
  const EnHypertensionPrevalence: string := "Hypertension Prevalence"
  const EnFluPrevalence: string := "Flu Prevalence"
  const EnAccessToSanitation: string := "Access to Sanitation (%)"
  const EnAverageIncome: string := "Average Income (USD)"
  const EnNumberOfClinics: string := "Number of Clinics"
  const EnAverageAge: string := "Average Age"
  const EnPopulation: string := "Population"
  const EnViewRawData: string := "View Raw Data"

  // The Nepali templates, in source order.
  const NeHubTitle: string := "शहरी स्वास्थ्य डेटा हब"
  const NeFiltersOptions: string := "फिल्टर र विकल्पहरू"
  const NeSelectWard: string := "वार्ड छान्नुहोस्:"
  const NeAllWards: string := "सबै वार्डहरू"
  const NeSelectIndicatorBarBox: string := "बार/बक्स प्लटका लागि सूचक छान्नुहोस्:"
  const NeDashboardTitle: string := "🏙️ बुढानिलकण्ठ स्वास्थ्य ड्यासबोर्ड"
  const NeKeyMetricsHeader: string := "मुख्य मेट्रिक्स (समग्र शहर)"
  const NeTotalPopulation: string := "कुल जनसंख्या"
  const NeAvgDiabetesPrev: string := "औसत मधुमेह व्यापकता"
  const NeDiabetesPrevalence: string := "मधुमेहको व्यापकता"
  const NeHypertensionPrevalence: string := "उच्च रक्तचापको व्यापकता"
  const NeFluPrevalence: string := "फ्लूको व्यापकता"
  const NeAccessToSanitation: string := "सरसफाइमा पहुँच (%)"
  const NeAverageIncome: string := "औसत आय (USD)"
  const NeNumberOfClinics: string := "क्लिनिक संख्या"
  const NeAverageAge: string := "औसत उमेर"
  const NePopulation: string := "जनसंख्या"
  const NeViewRawData: string := "कच्चा डाटा हेर्नुहोस्"

  /** The English strings (`translations["English"]`). */
  const English: map<string, string> := map[
    "hub_title" := EnHubTitle,
    "filters_options" := EnFiltersOptions,
    "select_ward" := EnSelectWard,
    "all_wards" := EnAllWards,
    "select_indicator_bar_box" := EnSelectIndicatorBarBox,
    "dashboard_title" := EnDashboardTitle,
    "key_metrics_header" := EnKeyMetricsHeader,
    "total_population" := EnTotalPopulation,
    "avg_diabetes_prev" := EnAvgDiabetesPrev,
    "Diabetes Prevalence" := EnDiabetesPrevalence,
    "Hypertension Prevalence" := EnHypertensionPrevalence,
    "Flu Prevalence" := EnFluPrevalence,
    "Access to Sanitation (%)" := EnAccessToSanitation,
    "Average Income (USD)" := EnAverageIncome,
    "Number of Clinics" := EnNumberOfClinics,
    "Average Age" := EnAverageAge,
    "Population" := EnPopulation,
    "view_raw_data" := EnViewRawData
  ]

  /** The Nepali strings (`translations["नेपाली"]`). */
  const Nepali: map<string, string> := map[
    "hub_title" := NeHubTitle,
    "filters_options" := NeFiltersOptions,
    "select_ward" := NeSelectWard,
    "all_wards" := NeAllWards,
    "select_indicator_bar_box" := NeSelectIndicatorBarBox,
    "dashboard_title" := NeDashboardTitle,
    "key_metrics_header" := NeKeyMetricsHeader,
    "total_population" := NeTotalPopulation,
    "avg_diabetes_prev" := NeAvgDiabetesPrev,
    "Diabetes Prevalence" := NeDiabetesPrevalence,
    "Hypertension Prevalence" := NeHypertensionPrevalence,
    "Flu Prevalence" := NeFluPrevalence,
    "Access to Sanitation (%)" := NeAccessToSanitation,
    "Average Income (USD)" := NeAverageIncome,
    "Number of Clinics" := NeNumberOfClinics,
    "Average Age" := NeAverageAge,
    "Population" := NePopulation,
    "view_raw_data" := NeViewRawData
  ]

  /** The `translations` table. */
  const Translations: Table := map[EnglishName := English, NepaliName := Nepali]

  /** The language a new session starts in. */
  const DefaultLanguage: string := EnglishName

  /** The options of the language selector, in the order shown. */
  const LanguageOptions: seq<string> := [EnglishName, NepaliName]

  /**
   * `_(key)` for the language `lang` and no format arguments:
   * `table[lang].get(key, key).format()`.
   */
  function Translate(table: Table, lang: string, key: string): (r: Result<string, Error>)
    ensures lang !in table ==> r == Failure(UnknownLanguage(lang))
    ensures lang in table && key in table[lang] && BraceFree(table[lang][key]) ==>
              r == Success(table[lang][key])
    ensures lang in table && key !in table[lang] && BraceFree(key) ==> r == Success(key)
    ensures r.Success? ==>
              lang in table && Escape(r.value) == (if key in table[lang] then table[lang][key] else key)
  {
    if lang !in table then Failure(UnknownLanguage(lang))
    else
      var template := if key in table[lang] then table[lang][key] else key;
      match FormatNoArgs(template)
      case Some(s) => Success(s)
      case None => Failure(BadTemplate(template))
  }

  lemma EnglishBraceFree0()
    ensures BraceFree(EnHubTitle)
         && BraceFree(EnFiltersOptions)
         && BraceFree(EnSelectWard)
         && BraceFree(EnAllWards)
         && BraceFree(EnSelectIndicatorBarBox)
         && BraceFree(EnDashboardTitle)
  {
  }

  lemma EnglishBraceFree1()
    ensures BraceFree(EnKeyMetricsHeader)
         && BraceFree(EnTotalPopulation)
         && BraceFree(EnAvgDiabetesPrev)
         && BraceFree(EnDiabetesPrevalence)
         && BraceFree(EnHypertensionPrevalence)
         && BraceFree(EnFluPrevalence)
  {
  }

  lemma EnglishBraceFree2()
    ensures BraceFree(EnAccessToSanitation)
         && BraceFree(EnAverageIncome)
         && BraceFree(EnNumberOfClinics)
         && BraceFree(EnAverageAge)
         && BraceFree(EnPopulation)
         && BraceFree(EnViewRawData)
  {
  }

  lemma NepaliBraceFree0()
    ensures BraceFree(NeHubTitle)
         && BraceFree(NeFiltersOptions)
         && BraceFree(NeSelectWard)
         && BraceFree(NeAllWards)
         && BraceFree(NeSelectIndicatorBarBox)
         && BraceFree(NeDashboardTitle)
  {
  }

  lemma NepaliBraceFree1()
    ensures BraceFree(NeKeyMetricsHeader)
         && BraceFree(NeTotalPopulation)
         && BraceFree(NeAvgDiabetesPrev)
         && BraceFree(NeDiabetesPrevalence)
         && BraceFree(NeHypertensionPrevalence)
         && BraceFree(NeFluPrevalence)
  {
  }

  lemma NepaliBraceFree2()
    ensures BraceFree(NeAccessToSanitation)
         && BraceFree(NeAverageIncome)
         && BraceFree(NeNumberOfClinics)
         && BraceFree(NeAverageAge)
         && BraceFree(NePopulation)
         && BraceFree(NeViewRawData)
  {
  }

  /** No template of the table holds a brace, so `.format()` leaves each one as it is. */
  lemma TemplatesBraceFree()
    ensures forall lang, key | lang in Translations && key in Translations[lang] ::
              BraceFree(Translations[lang][key])
  {
    EnglishBraceFree0(); EnglishBraceFree1(); EnglishBraceFree2();
    NepaliBraceFree0(); NepaliBraceFree1(); NepaliBraceFree2();
  }

  /** `_` returns the table's own string for every key the active language defines. */
  lemma TableLookup(lang: string, key: string)
    requires lang in Translations && key in Translations[lang]
    ensures Translate(Translations, lang, key) == Success(Translations[lang][key])
  {
    TemplatesBraceFree();
  }

  /** The selector offers exactly the languages of the table, and the default is one of them. */
  lemma LanguageOptionsAreTableKeys()
    ensures forall lang :: lang in LanguageOptions <==> lang in Translations
    ensures DefaultLanguage in Translations && DefaultLanguage == LanguageOptions[0]
  {
  }

  /** A key neither table defines comes back as itself in both languages (line 163). */
  lemma SidebarInfoFallsBack()
    ensures forall lang | lang in Translations ::
              Translate(Translations, lang, "sidebar_info") == Success("sidebar_info")
  {
    assert "sidebar_info" !in English && "sidebar_info" !in Nepali;
    assert BraceFree("sidebar_info");
  }
}
