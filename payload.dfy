/** The slice of the Google Pollen API response the core reads.  A field the
    API may omit is an `Option`; a category string that is absent or empty is
    `""` (both are falsy to the source). */
module Payload {
  import opened Wrappers

  /** `indexInfo`: `value` is missing for some entries; `category` is the
      label ("Very Low" … "Very High", or its Russian form). */
  datatype IndexInfo = IndexInfo(value: Option<int>, category: string)

  /** One element of `plantInfo` or `pollenTypeInfo`. */
  datatype PollenEntry = PollenEntry(code: string, displayName: string, indexInfo: Option<IndexInfo>)

  /** One element of `dailyInfo`. */
  datatype DayInfo = DayInfo(plantInfo: Option<seq<PollenEntry>>, pollenTypeInfo: Option<seq<PollenEntry>>)

  /** The response body: `dailyInfo` holds one block per forecast day. */
  datatype PollenData = PollenData(dailyInfo: Option<seq<DayInfo>>)

  /** `pollenData?.dailyInfo?.[0]`. */
  function FirstDay(data: PollenData): Option<DayInfo> {
    match data.dailyInfo
    case Some(days) => if |days| > 0 then Some(days[0]) else None
    case None => None
  }

  /** `list || []`. */
  function OrEmpty(list: Option<seq<PollenEntry>>): seq<PollenEntry> {
    list.GetOr([])
  }
}
