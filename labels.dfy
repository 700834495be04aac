/** Lookup tables with defaults: the CSS class of a level label, the two
    `translateLevel` functions, `translate`, and the weather icon map. */
module Labels {
  import opened PollenTypes

  /** The five levels, English and Russian, index for index. */
  const EnglishLevels: seq<string> := ["Very Low", "Low", "Moderate", "High", "Very High"]
  const RussianLevels: seq<string> := ["Очень низкий", "Низкий", "Умеренный", "Высокий", "Очень высокий"]

  // ---------------------------------------------------------------------
  // getLevelClass
  // ---------------------------------------------------------------------

  const LevelClasses: map<string, string> := map[
    "Очень низкий" := "level-very-low",
    "Низкий" := "level-low",
    "Умеренный" := "level-moderate",
    "Высокий" := "level-high",
    "Очень высокий" := "level-very-high",
    "Very Low" := "level-very-low",
    "Low" := "level-low",
    "Moderate" := "level-moderate",
    "High" := "level-high",
    "Very High" := "level-very-high"
  ]

  const ClassesByLevel: seq<string> := ["level-very-low", "level-low", "level-moderate", "level-high", "level-very-high"]

  const DefaultLevelClass := "level-moderate"

  /** `getLevelClass(category)`. */
  function GetLevelClass(category: string): string {
    if category in LevelClasses then LevelClasses[category] else DefaultLevelClass
  }

  /** Both spellings of a level get that level's class, and anything that is
      not one of the ten labels gets the moderate class. */
  lemma LevelClassOfLabels(category: string)
    ensures forall i :: 0 <= i < 5 ==>
      GetLevelClass(EnglishLevels[i]) == ClassesByLevel[i] && GetLevelClass(RussianLevels[i]) == ClassesByLevel[i]
    ensures category !in EnglishLevels && category !in RussianLevels ==> GetLevelClass(category) == DefaultLevelClass
    ensures GetLevelClass(category) in ClassesByLevel
  {
  }

  // ---------------------------------------------------------------------
  // translateLevel of the history manager: (category, lang)
  // ---------------------------------------------------------------------

  const LevelTranslations: map<string, Localized> := map[
    "Very Low" := Localized("Very Low", "Очень низкий"),
    "Low" := Localized("Low", "Низкий"),
    "Moderate" := Localized("Moderate", "Умеренный"),
    "High" := Localized("High", "Высокий"),
    "Very High" := Localized("Very High", "Очень высокий"),
    "Очень низкий" := Localized("Very Low", "Очень низкий"),
    "Низкий" := Localized("Low", "Низкий"),
    "Умеренный" := Localized("Moderate", "Умеренный"),
    "Высокий" := Localized("High", "Высокий"),
    "Очень высокий" := Localized("Very High", "Очень высокий")
  ]

  /** `translations[category]?.[lang] || category`. */
  function TranslateLevel(category: string, lang: string): string {
    if category in LevelTranslations && InLanguage(LevelTranslations[category], lang) != "" then
      InLanguage(LevelTranslations[category], lang)
    else category
  }

  /** A level label, in either language, comes out in the requested one;
      anything else (and any language other than `en` and `ru`) is returned
      as it is. */
  lemma TranslateLevelLabels(category: string, lang: string)
    ensures forall i :: 0 <= i < 5 ==>
      && TranslateLevel(EnglishLevels[i], "en") == EnglishLevels[i]
      && TranslateLevel(RussianLevels[i], "en") == EnglishLevels[i]
      && TranslateLevel(EnglishLevels[i], "ru") == RussianLevels[i]
      && TranslateLevel(RussianLevels[i], "ru") == RussianLevels[i]
    ensures (category !in EnglishLevels && category !in RussianLevels) || (lang != "en" && lang != "ru") ==>
      TranslateLevel(category, lang) == category
  {
  }

  /** Translating twice into the same language changes nothing more. */
  lemma TranslateLevelIdempotent(category: string, lang: string)
    ensures TranslateLevel(TranslateLevel(category, lang), lang) == TranslateLevel(category, lang)
  {
  }

  // ---------------------------------------------------------------------
  // translate and translateLevel of the tracker: (category)
  // ---------------------------------------------------------------------

  /** `this.translations[this.currentLang][key] || key`, where `table` is the
      current language's table. */
  function Translate(table: map<string, string>, key: string): string {
    if key in table && table[key] != "" then table[key] else key
  }

  /** Russian labels go through `translate` of their English key; any other
      category, English labels included, is returned as it is. */
  const RussianToEnglish: map<string, string> := map[
    "Очень низкий" := "Very Low",
    "Низкий" := "Low",
    "Умеренный" := "Moderate",
    "Высокий" := "High",
    "Очень высокий" := "Very High"
  ]

  /** `levelMap[category] || category`. */
  function TrackerTranslateLevel(table: map<string, string>, category: string): string {
    if category in RussianToEnglish && Translate(table, RussianToEnglish[category]) != "" then
      Translate(table, RussianToEnglish[category])
    else category
  }

  /** `translate` answers the table's entry when it has a non-empty one and
      the key itself otherwise, so it never yields an empty text for a
      non-empty key. */
  lemma TranslateFallsBackToKey(table: map<string, string>, key: string)
    ensures Translate(table, key) == key || (key in table && Translate(table, key) == table[key])
    ensures key !in table ==> Translate(table, key) == key
    ensures key != "" ==> Translate(table, key) != ""
  {
  }

  /** The tracker's `translateLevel` agrees with the manager's for every
      Russian label when the table translates the English level names as the
      manager does, and leaves every other category untouched. */
  lemma TrackerTranslateLevelAgrees(table: map<string, string>, lang: string, category: string)
    requires lang == "en" || lang == "ru"
    requires forall i :: 0 <= i < 5 ==>
      EnglishLevels[i] in table && table[EnglishLevels[i]] == InLanguage(Localized(EnglishLevels[i], RussianLevels[i]), lang)
    ensures category in RussianToEnglish ==> TrackerTranslateLevel(table, category) == TranslateLevel(category, lang)
    ensures category !in RussianToEnglish ==> TrackerTranslateLevel(table, category) == category
  {
    if category == RussianLevels[0] {
      assert table[EnglishLevels[0]] == InLanguage(Localized(EnglishLevels[0], RussianLevels[0]), lang);
    } else if category == RussianLevels[1] {
      assert table[EnglishLevels[1]] == InLanguage(Localized(EnglishLevels[1], RussianLevels[1]), lang);
    } else if category == RussianLevels[2] {
      assert table[EnglishLevels[2]] == InLanguage(Localized(EnglishLevels[2], RussianLevels[2]), lang);
    } else if category == RussianLevels[3] {
      assert table[EnglishLevels[3]] == InLanguage(Localized(EnglishLevels[3], RussianLevels[3]), lang);
    } else if category == RussianLevels[4] {
      assert table[EnglishLevels[4]] == InLanguage(Localized(EnglishLevels[4], RussianLevels[4]), lang);
    }
  }

  // ---------------------------------------------------------------------
  // Weather icons
  // ---------------------------------------------------------------------

  /** The eighteen mapped OpenWeather icon codes. */
  const IconCodes: set<string> := {
    "01d", "01n", "02d", "02n", "03d", "03n", "04d", "04n", "09d", "09n",
    "10d", "10n", "11d", "11n", "13d", "13n", "50d", "50n"
  }

  const DefaultIcon := "\U{1F324}\U{FE0F}"

  /** `iconMap[iconCode] || '🌤️'`. */
  function WeatherIcon(iconCode: string): string {
    match iconCode
    case "01d" => "\U{2600}\U{FE0F}"
    case "01n" => "\U{1F319}"
    case "02d" => "\U{26C5}"
    case "02n" => "\U{26C5}"
    case "03d" => "\U{2601}\U{FE0F}"
    case "03n" => "\U{2601}\U{FE0F}"
    case "04d" => "\U{2601}\U{FE0F}"
    case "04n" => "\U{2601}\U{FE0F}"
    case "09d" => "\U{1F326}\U{FE0F}"
    case "09n" => "\U{1F326}\U{FE0F}"
    case "10d" => "\U{1F327}\U{FE0F}"
    case "10n" => "\U{1F327}\U{FE0F}"
    case "11d" => "\U{26C8}\U{FE0F}"
    case "11n" => "\U{26C8}\U{FE0F}"
    case "13d" => "\U{1F328}\U{FE0F}"
    case "13n" => "\U{1F328}\U{FE0F}"
    case "50d" => "\U{1F32B}\U{FE0F}"
    case "50n" => "\U{1F32B}\U{FE0F}"
    case _ => DefaultIcon
  }

  /** The default glyph is exactly the answer for the codes outside the map. */
  lemma WeatherIconDefault(iconCode: string)
    ensures WeatherIcon(iconCode) == DefaultIcon <==> iconCode !in IconCodes
  {
  }
}
