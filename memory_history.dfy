/** The in-memory `DetailedPollenHistoryManager`: histories live in a `Map`
    from location key to a `Map` from date to record, and are lost on reload. */
module MemoryHistory {
  import opened Payload
  import opened PollenTypes
  import opened DayProcessor
  import opened Retention
  import opened Location
  import opened History
  import opened Chart

  /** The whole store after `storeDetailedPollenData` files `rec` under
      `dateKey` for location `key`. */
  function Stored(h: map<string, LocationHistory>, key: string, dateKey: string, rec: DayRecord): map<string, LocationHistory> {
    h[key := Prune(LocationOf(h, key)[dateKey := rec])]
  }

  /** `date || today`. */
  function DateKey(date: string, today: string): string {
    if date == "" then today else date
  }

  /** Every location keeps at most 30 dates, and every record's processed
      summary is the one its raw response yields. */
  ghost predicate WellFormed(h: map<string, LocationHistory>) {
    forall key :: key in h ==> |h[key].Keys| <= MaxHistoryDays && Consistent(InMemory, h[key])
  }

  lemma StoredWellFormed(h: map<string, LocationHistory>, key: string, dateKey: string, rec: DayRecord)
    requires WellFormed(h) && rec.processed == ProcessDay(InMemory, rec.rawData)
    ensures WellFormed(Stored(h, key, dateKey, rec))
  {
    var pruned := Prune(LocationOf(h, key)[dateKey := rec]);
    AddAndPrune(InMemory, LocationOf(h, key), dateKey, rec);
    var stored := h[key := pruned];
    forall k | k in stored ensures |stored[k].Keys| <= MaxHistoryDays && Consistent(InMemory, stored[k]) {
      if k != key {
        assert stored[k] == h[k];
      }
    }
  }

  class DetailedPollenHistoryManager {
    /** `historyData`. */
    var historyData: map<string, LocationHistory>

    ghost predicate Valid()
      reads this
    {
      WellFormed(historyData)
    }

    constructor()
      ensures Valid() && historyData == map[]
    {
      historyData := map[];
    }

    /** `storeDetailedPollenData(latitude, longitude, date, pollenData)`:
        `date` defaults to `today`, `Date.now()` is `now`. */
    method StoreDetailedPollenData(lat: int, lon: int, date: string, today: string, now: int, data: PollenData)
      requires Valid()
      modifies this
      ensures Valid()
      ensures historyData == Stored(old(historyData), LocationKey(lat, lon), DateKey(date, today), Record(InMemory, now, data))
    {
      var key := LocationKey(lat, lon);
      var dateKey := DateKey(date, today);
      // the location's map, created empty when missing
      var locationData := if key in historyData then historyData[key] else map[];
      var processed := ProcessDetailedPollenData(InMemory, data);
      var rec := DayRecord(now, data, processed);
      assert rec == Record(InMemory, now, data);
      locationData := locationData[dateKey := rec];
      ghost var added := locationData;
      assert added == LocationOf(historyData, key)[dateKey := rec];
      locationData := CleanOldData(locationData);
      assert locationData == Prune(added);
      StoredWellFormed(historyData, key, dateKey, rec);
      historyData := historyData[key := locationData];
    }

    /** `getLocationHistory(latitude, longitude)`: the location's map, or an
        empty one. */
    method GetLocationHistory(lat: int, lon: int) returns (lh: LocationHistory)
      ensures lh == LocationOf(historyData, LocationKey(lat, lon))
      ensures Valid() ==> |lh.Keys| <= MaxHistoryDays && Consistent(InMemory, lh)
    {
      var key := LocationKey(lat, lon);
      if key in historyData {
        lh := historyData[key];
      } else {
        lh := map[];
      }
    }

    /** `getDateRange(days = 5)`: today and the `days - 1` days before it,
        oldest first. `calendar(k)` is the ISO date `k` days from today. */
    method GetDateRange(days: int, calendar: int -> string) returns (dates: seq<DateInfo>)
      ensures |dates| == if days > 0 then days else 0
      ensures forall j :: 0 <= j < |dates| ==>
        dates[j] == DateInfo(calendar(j - (|dates| - 1)), j == |dates| - 1, j < |dates| - 1, false)
    {
      dates := [];
      var i := days - 1;
      while i >= 0
        invariant days > 0 ==> -1 <= i <= days - 1 && |dates| == days - 1 - i
        invariant days <= 0 ==> dates == []
        invariant forall j :: 0 <= j < |dates| ==>
          dates[j] == DateInfo(calendar(j - (days - 1)), j == days - 1, j < days - 1, false)
      {
        dates := dates + [DateInfo(calendar(-i), i == 0, i > 0, false)];
        i := i - 1;
      }
    }
  }

  /** Storing never lets a location exceed 30 dates and leaves every other
      location alone. */
  lemma StoreIsLocal(h: map<string, LocationHistory>, key: string, dateKey: string, rec: DayRecord, other: string)
    ensures |LocationOf(Stored(h, key, dateKey, rec), key).Keys| <= MaxHistoryDays
    ensures other != key ==> LocationOf(Stored(h, key, dateKey, rec), other) == LocationOf(h, other)
  {
    PruneBound(LocationOf(h, key)[dateKey := rec]);
  }

  /** The record just stored can be read back when the location already had
      that date, had fewer than 30 dates, or had none later than it. */
  lemma StoreThenGet(h: map<string, LocationHistory>, key: string, dateKey: string, rec: DayRecord)
    requires |LocationOf(h, key).Keys| <= MaxHistoryDays
    requires var lh := LocationOf(h, key);
      dateKey in lh || |lh.Keys| < MaxHistoryDays || forall d :: d in lh ==> !Strings.LexLess(dateKey, d)
    ensures dateKey in LocationOf(Stored(h, key, dateKey, rec), key)
    ensures LocationOf(Stored(h, key, dateKey, rec), key)[dateKey] == rec
  {
    AddedRecordKept(LocationOf(h, key), dateKey, rec);
  }

  /** Once a response is stored under a date and not evicted, the chart of
      that location draws the date from it: with the placeholder exactly when
      the response's first day has no entry above 0, and otherwise with that
      day's maximum and type count. */
  lemma StoredDayIsCharted(h: map<string, LocationHistory>, key: string, dateKey: string, now: int, data: PollenData,
                           info: DateInfo, lang: string)
    requires |LocationOf(h, key).Keys| <= MaxHistoryDays
    requires var lh := LocationOf(h, key);
      dateKey in lh || |lh.Keys| < MaxHistoryDays || forall d :: d in lh ==> !Strings.LexLess(dateKey, d)
    requires info.date == dateKey
    ensures var view := ChartDay(InMemory, info, LocationOf(Stored(h, key, dateKey, Record(InMemory, now, data)), key), lang);
      && (view.NoData? <==> FirstDay(data).None? || forall e :: e in DayEntries(FirstDay(data).value) ==> !Admissible(InMemory, e))
      && (view.Day? ==> view.maxLevel == ProcessDay(InMemory, data).maxLevel && view.totalTypes == ProcessDay(InMemory, data).totalTypes)
  {
    var rec := Record(InMemory, now, data);
    StoreThenGet(h, key, dateKey, rec);
    RecordIsCharted(InMemory, info, LocationOf(Stored(h, key, dateKey, rec), key), lang, now, data);
  }
}
