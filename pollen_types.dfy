/** The type normaliser `getPollenTypeConfig` and the chart's
    `getTypeShortName`.  Both history managers carry the same ten-entry
    reference table; only the storage-backed one (vercel/script.js) consults
    the alias table before falling back to a synthesised descriptor. */
module PollenTypes {
  import opened Strings

  /** Which of the two `DetailedPollenHistoryManager` classes is meant. */
  datatype Variant =
    | Forecast   // vercel/script.js: localStorage-backed, forecast days
    | InMemory   // detailed_history_script.js: a Map in memory

  datatype TypeCategory = Tree | Grass | Weed | Unknown

  /** An `{ en, ru }` pair. */
  datatype Localized = Localized(en: string, ru: string)

  datatype TypeConfig = TypeConfig(name: Localized, shortName: Localized, color: string, category: TypeCategory)

  /** `pair[lang]`: `undefined` (here `""`) for a language other than en/ru. */
  function InLanguage(pair: Localized, lang: string): string {
    if lang == "en" then pair.en else if lang == "ru" then pair.ru else ""
  }

  function Entry(en: string, ru: string, shortEn: string, shortRu: string, color: string, category: TypeCategory): TypeConfig {
    TypeConfig(Localized(en, ru), Localized(shortEn, shortRu), color, category)
  }

  /** `this.pollenTypes`. */
  const ReferenceTable: map<string, TypeConfig> := map[
    "TREE_OAK" := Entry("Oak", "Дуб", "Oak", "Дуб", "pollen-oak", Tree),
    "TREE_BIRCH" := Entry("Birch", "Береза", "Bir", "Бер", "pollen-birch", Tree),
    "TREE_MAPLE" := Entry("Maple", "Клен", "Map", "Кле", "pollen-maple", Tree),
    "TREE_ASH" := Entry("Ash", "Ясень", "Ash", "Яс", "pollen-ash", Tree),
    "TREE_PINE" := Entry("Pine", "Сосна", "Pin", "Сос", "pollen-pine", Tree),
    "TREE_ALDER" := Entry("Alder", "Ольха", "Ald", "Оль", "pollen-alder", Tree),
    "GRASS" := Entry("Grass", "Травы", "Gra", "Тра", "pollen-grass", Grass),
    "WEED_RAGWEED" := Entry("Ragweed", "Амброзия", "Rag", "Амб", "pollen-ragweed", Weed),
    "WEED_MUGWORT" := Entry("Mugwort", "Полынь", "Mug", "Пол", "pollen-mugwort", Weed),
    "WEED" := Entry("Weed", "Сорные травы", "Wed", "Сор", "pollen-weed", Weed)
  ]

  /** `fallbackMappings`: alternative API spellings (storage-backed variant only). */
  const Aliases: map<string, string> := map[
    "RAGWEED" := "WEED_RAGWEED",
    "MUGWORT" := "WEED_MUGWORT",
    "GRAMINALES" := "GRASS",
    "GRAMINEAE" := "GRASS",
    "POACEAE" := "GRASS",
    "OAK" := "TREE_OAK",
    "BIRCH" := "TREE_BIRCH",
    "MAPLE" := "TREE_MAPLE",
    "ASH" := "TREE_ASH",
    "PINE" := "TREE_PINE",
    "ALDER" := "TREE_ALDER"
  ]

  const DefaultColors: seq<string> := ["pollen-oak", "pollen-grass", "pollen-birch", "pollen-ragweed", "pollen-pine"]

  /** The descriptor synthesised for a code neither table knows. */
  function FallbackConfig(code: string, displayName: string): TypeConfig {
    var short := Prefix(displayName, 3);
    TypeConfig(Localized(displayName, displayName), Localized(short, short),
               DefaultColors[CharCodeSum(code) % |DefaultColors|], Unknown)
  }

  /** The code resolves through the reference table or (in the storage-backed
      variant) through an alias. */
  predicate Resolves(v: Variant, code: string) {
    code in ReferenceTable || (v == Forecast && code in Aliases && Aliases[code] in ReferenceTable)
  }

  /** `getPollenTypeConfig(code, displayName)`. */
  function GetPollenTypeConfig(v: Variant, code: string, displayName: string): TypeConfig {
    if code in ReferenceTable then ReferenceTable[code]
    else if v == Forecast && code in Aliases && Aliases[code] in ReferenceTable then ReferenceTable[Aliases[code]]
    else FallbackConfig(code, displayName)
  }

  /** `getTypeShortName(code, fullName, lang)`: the chart label.  It consults
      the reference table only, never the alias table. */
  function GetTypeShortName(code: string, fullName: string, lang: string): string {
    if code in ReferenceTable then
      var local := InLanguage(ReferenceTable[code].shortName, lang);
      if local != "" then local else ReferenceTable[code].shortName.en
    else Prefix(fullName, 3)
  }

  lemma TableEntriesAreKnown()
    ensures forall code :: code in ReferenceTable ==>
      ReferenceTable[code].category != Unknown && ReferenceTable[code].shortName.en != ""
  {
  }

  /** The descriptor is always usable: its category is `Unknown` exactly when
      the code did not resolve, and then its colour is one of the five
      defaults, picked by the code's character sum. */
  lemma UnknownExactlyWhenUnresolved(v: Variant, code: string, displayName: string)
    ensures var c := GetPollenTypeConfig(v, code, displayName);
      && (c.category == Unknown <==> !Resolves(v, code))
      && (!Resolves(v, code) ==> c.color == DefaultColors[CharCodeSum(code) % 5] && c.color in DefaultColors)
      && (Resolves(v, code) ==> c in ReferenceTable.Values)
  {
    TableEntriesAreKnown();
  }

  /** The synthesised short name is the first three characters of the display
      name, so it is empty exactly when the display name is. */
  lemma ShortNameEmptyOnlyForEmptyName(v: Variant, code: string, displayName: string)
    ensures var c := GetPollenTypeConfig(v, code, displayName);
      && (c.shortName.en == "" <==> !Resolves(v, code) && displayName == "")
      && (!Resolves(v, code) ==> c.shortName.en == c.shortName.ru == Prefix(displayName, 3))
  {
    TableEntriesAreKnown();
  }

  /** The two managers disagree on a code exactly when it is an alias. */
  lemma VariantsDifferOnlyOnAliases(code: string, displayName: string)
    ensures GetPollenTypeConfig(Forecast, code, displayName) != GetPollenTypeConfig(InMemory, code, displayName)
            <==> code !in ReferenceTable && code in Aliases
  {
    TableEntriesAreKnown();
    if code !in ReferenceTable && code in Aliases {
      assert Aliases[code] in ReferenceTable;
    }
  }

  /** The chart label agrees with the short name stored at processing time,
      except for alias codes, where the chart falls back to the display name. */
  lemma ChartLabelMatchesStoredShortName(v: Variant, code: string, displayName: string, lang: string)
    requires !(v == Forecast && code !in ReferenceTable && code in Aliases)
    ensures var stored := GetPollenTypeConfig(v, code, displayName).shortName;
      GetTypeShortName(code, displayName, lang)
        == if InLanguage(stored, lang) != "" then InLanguage(stored, lang) else stored.en
  {
  }
}
