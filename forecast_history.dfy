/** The storage-backed `DetailedPollenHistoryManager`: the whole history is
    one JSON document under `detailed-pollen-history` in `localStorage`,
    wrapped in `{ version, timestamp, data }`; when `localStorage` is unusable
    it falls back to an in-memory `Map`.  Each fetch stores every forecast day
    of the response under its own date. */
module ForecastHistory {
  import opened Wrappers
  import opened Payload
  import opened PollenTypes
  import opened DayProcessor
  import opened Retention
  import opened Location
  import opened History
  import opened Chart

  const StorageKey := "detailed-pollen-history"
  const TempKey := "detailed-pollen-history_temp"
  const Version := "1.0"

  /** All histories: location key to location history. */
  type Store = map<string, LocationHistory>

  /** What `JSON.parse` makes of a stored text other than "null".
      `Wrapped` is an object with a truthy `version` and an object `data`,
      as `saveHistory` writes it; `Bare` is any other object, read as a
      legacy history; `NotAnObject` is a number, string, boolean or array.
      The text "null" is never encoded: it is the `Raw` placeholder word. */
  datatype Document = Wrapped(version: string, timestamp: int, data: Store) | Bare(history: Store) | NotAnObject

  /** A `localStorage` value: the JSON text of a document, or other text:
      one of the placeholder words ("", "undefined", "null",
      "[object Object]") or text that `JSON.parse` rejects. */
  datatype Slot = Raw(text: string) | Encoded(doc: Document)

  /** `!storedData || storedData === 'undefined' || storedData === 'null'`. */
  predicate IsEmptyMarker(text: string) {
    text == "" || text == "undefined" || text == "null"
  }

  /** The values `initializeStorage` clears. */
  predicate IsCorruptMarker(text: string) {
    text == "[object Object]" || text == "undefined" || text == "null"
  }

  /** What `getHistory` does to storage besides returning a history. */
  datatype Effect = Keep | Clear | Resave(h: Store)

  datatype Loaded = Loaded(history: Store, effect: Effect)

  function Lookup(storage: map<string, Slot>): Option<Slot> {
    if StorageKey in storage then Some(storage[StorageKey]) else None
  }

  /** The `localStorage` branch of `getHistory`, as a function of the stored
      value.  An envelope with an empty `version` is taken for a legacy
      history with no locations. */
  function Load(slot: Option<Slot>): Loaded {
    match slot
    case None => Loaded(map[], Keep)
    case Some(Raw(text)) => if IsEmptyMarker(text) then Loaded(map[], Keep) else Loaded(map[], Clear)
    case Some(Encoded(NotAnObject)) => Loaded(map[], Clear)
    case Some(Encoded(Wrapped(version, _, data))) =>
      if version != "" then Loaded(data, Keep) else Loaded(map[], Resave(map[]))
    case Some(Encoded(Bare(h))) => Loaded(h, Resave(h))
  }

  /** `saveHistory` on `localStorage`: write the envelope through the
      temporary key; if a write throws, both keys are removed. */
  function Saved(storage: map<string, Slot>, h: Store, now: int, writeFails: bool): map<string, Slot> {
    if writeFails then storage - {StorageKey, TempKey}
    else storage[StorageKey := Encoded(Wrapped(Version, now, h))] - {TempKey}
  }

  function Apply(storage: map<string, Slot>, e: Effect, now: int, writeFails: bool): map<string, Slot> {
    match e
    case Keep => storage
    case Clear => storage - {StorageKey}
    case Resave(h) => Saved(storage, h, now, writeFails)
  }

  /** The forecast days of a response. */
  function Days(data: PollenData): seq<DayInfo> {
    data.dailyInfo.GetOr([])
  }

  /** `{ dailyInfo: [dayData] }`. */
  function SingleDay(day: DayInfo): PollenData {
    PollenData(Some([day]))
  }

  /** The location history after filing day `i` of `days` under `calendar(i)`,
      for every `i` in order. */
  function AddForecastDays(lh: LocationHistory, days: seq<DayInfo>, calendar: int -> string, now: int): LocationHistory
    decreases |days|
  {
    if days == [] then lh
    else
      var n := |days| - 1;
      AddForecastDays(lh, days[..n], calendar, now)[calendar(n) := Record(Forecast, now, SingleDay(days[n]))]
  }

  /** The part of `h` on the keys in `ks`. */
  function Restrict(h: Store, ks: set<string>): (r: Store)
    ensures r.Keys == h.Keys * ks
    ensures forall k :: k in r ==> r[k] == h[k]
  {
    map k | k in h.Keys * ks :: h[k]
  }

  /** Writing one more key of `h` extends the merged part by that key. */
  lemma RestrictStep(m: Store, h: Store, ks: set<string>, k: string)
    requires k in h
    ensures (m + Restrict(h, ks))[k := h[k]] == m + Restrict(h, ks + {k})
  {
  }

  /** The history `storeDetailedPollenData` saves, given the one it loaded. */
  function StoreForecast(h: Store, key: string, data: PollenData, calendar: int -> string, now: int): Store {
    h[key := Prune(AddForecastDays(LocationOf(h, key), Days(data), calendar, now))]
  }

  class DetailedPollenHistoryManager {
    /** `localStorage`, as far as this manager reads and writes it. */
    var storage: map<string, Slot>
    var useLocalStorage: bool
    var memoryStorage: Store

    /** `new DetailedPollenHistoryManager()`: storage is used when it exists
        and the probe in `initializeStorage` works; a placeholder left under
        the history key is then removed. */
    constructor(available: bool, probeWorks: bool, persisted: map<string, Slot>)
      ensures useLocalStorage == (available && probeWorks)
      ensures memoryStorage == map[]
      ensures storage == if useLocalStorage && Lookup(persisted).Some? && Lookup(persisted).value.Raw?
                              && IsCorruptMarker(Lookup(persisted).value.text)
                         then persisted - {StorageKey} else persisted
    {
      storage := persisted;
      memoryStorage := map[];
      useLocalStorage := available;
      new;
      if useLocalStorage {
        if !probeWorks {
          useLocalStorage := false;
        } else if StorageKey in storage {
          var existing := storage[StorageKey];
          if existing.Raw? && existing.text != "" && IsCorruptMarker(existing.text) {
            storage := storage - {StorageKey};
          }
        }
      }
    }

    /** `getHistory()`. */
    method GetHistory(now: int, writeFails: bool) returns (h: Store)
      modifies this
      ensures useLocalStorage == old(useLocalStorage)
      ensures old(useLocalStorage) ==>
        && h == Load(Lookup(old(storage))).history
        && storage == Apply(old(storage), Load(Lookup(old(storage))).effect, now, writeFails)
        && memoryStorage == old(memoryStorage)
      ensures !old(useLocalStorage) ==> h == old(memoryStorage) && unchanged(this)
    {
      if !useLocalStorage {
        return memoryStorage;
      }
      if StorageKey !in storage {
        return map[];
      }
      var stored := storage[StorageKey];
      if stored.Raw? {
        if stored.text == "" || stored.text == "undefined" || stored.text == "null" {
          return map[];
        }
        // "[object Object]", or text `JSON.parse` throws on
        storage := storage - {StorageKey};
        return map[];
      }
      match stored.doc
      case NotAnObject =>
        storage := storage - {StorageKey};
        h := map[];
      case Wrapped(version, _, data) =>
        if version != "" {
          h := data;
        } else {
          h := map[];
          SaveHistory(h, now, writeFails);
        }
      case Bare(legacy) =>
        SaveHistory(legacy, now, writeFails);
        h := legacy;
    }

    /** `saveHistory(history)`. */
    method SaveHistory(h: Store, now: int, writeFails: bool)
      modifies this
      ensures useLocalStorage == old(useLocalStorage)
      ensures old(useLocalStorage) ==> storage == Saved(old(storage), h, now, writeFails) && memoryStorage == old(memoryStorage)
      ensures !old(useLocalStorage) ==> memoryStorage == old(memoryStorage) + h && storage == old(storage)
    {
      if useLocalStorage {
        if writeFails {
          storage := storage - {StorageKey, TempKey};
        } else {
          storage := storage[TempKey := Encoded(Wrapped(Version, now, h))];
          storage := storage[StorageKey := Encoded(Wrapped(Version, now, h))];
          storage := storage - {TempKey};
        }
      } else {
        CopyIntoMemory(h);
      }
    }

    /** The in-memory branch of `saveHistory`: each location of `h` is
        written into the fallback map, replacing what was there. */
    method CopyIntoMemory(h: Store)
      modifies this
      ensures storage == old(storage) && useLocalStorage == old(useLocalStorage)
      ensures memoryStorage == old(memoryStorage) + h
    {
      var keys := h.Keys;
      ghost var done: set<string> := {};
      while keys != {}
        invariant done == h.Keys - keys && keys <= h.Keys
        invariant storage == old(storage) && useLocalStorage == old(useLocalStorage)
        invariant memoryStorage == old(memoryStorage) + Restrict(h, done)
        decreases keys
      {
        var k :| k in keys;
        RestrictStep(old(memoryStorage), h, done, k);
        memoryStorage := memoryStorage[k := h[k]];
        keys := keys - {k};
        done := done + {k};
      }
      assert Restrict(h, done) == h;
    }

    /** `storeDetailedPollenData(latitude, longitude, pollenData)`: day `i` of
        the response is filed under `calendar(i)`, today's date plus `i` days. */
    method StoreDetailedPollenData(lat: int, lon: int, data: PollenData, calendar: int -> string, now: int, writeFails: bool)
      modifies this
      ensures useLocalStorage == old(useLocalStorage)
      ensures old(useLocalStorage) ==>
        var loaded := Load(Lookup(old(storage)));
        && storage == Saved(Apply(old(storage), loaded.effect, now, writeFails),
                            StoreForecast(loaded.history, LocationKey(lat, lon), data, calendar, now), now, writeFails)
        && memoryStorage == old(memoryStorage)
      ensures !old(useLocalStorage) ==>
        && memoryStorage == StoreForecast(old(memoryStorage), LocationKey(lat, lon), data, calendar, now)
        && storage == old(storage)
    {
      var key := LocationKey(lat, lon);
      var history := GetHistory(now, writeFails);
      // `history[locationKey] || {}`, filled and pruned, then put back
      var lh := if key in history then history[key] else map[];
      lh := FileForecastDays(lh, Days(data), calendar, now);
      lh := CleanOldData(lh);
      history := history[key := lh];
      SaveHistory(history, now, writeFails);
      if !old(useLocalStorage) {
        MergeAbsorbs(old(memoryStorage), key, data, calendar, now);
      }
    }

    /** `getLocationHistory(latitude, longitude)`: reads (and, like
        `getHistory`, may repair) storage, then picks the location. */
    method GetLocationHistory(lat: int, lon: int, now: int, writeFails: bool) returns (lh: LocationHistory)
      modifies this
      ensures useLocalStorage == old(useLocalStorage)
      ensures old(useLocalStorage) ==>
        && lh == LocationOf(Load(Lookup(old(storage))).history, LocationKey(lat, lon))
        && storage == Apply(old(storage), Load(Lookup(old(storage))).effect, now, writeFails)
        && memoryStorage == old(memoryStorage)
      ensures !old(useLocalStorage) ==> lh == LocationOf(old(memoryStorage), LocationKey(lat, lon)) && unchanged(this)
    {
      var history := GetHistory(now, writeFails);
      var key := LocationKey(lat, lon);
      lh := if key in history then history[key] else map[];
    }

    /** `getDateRange(days = 3)`: today and the following `days - 1` days. */
    method GetDateRange(days: int, calendar: int -> string) returns (dates: seq<DateInfo>)
      ensures |dates| == if days > 0 then days else 0
      ensures forall i :: 0 <= i < |dates| ==> dates[i] == DateInfo(calendar(i), i == 0, false, i > 0)
    {
      dates := [];
      var i := 0;
      while i < days
        invariant days > 0 ==> 0 <= i <= days
        invariant |dates| == if i > 0 then i else 0
        invariant days <= 0 ==> i == 0
        invariant forall j :: 0 <= j < |dates| ==> dates[j] == DateInfo(calendar(j), j == 0, false, j > 0)
      {
        dates := dates + [DateInfo(calendar(i), i == 0, false, i > 0)];
        i := i + 1;
      }
    }
  }

  /** The `dailyInfo.forEach` of `storeDetailedPollenData`: file day `index`
      under `calendar(index)`, processed on its own. */
  method FileForecastDays(lh: LocationHistory, days: seq<DayInfo>, calendar: int -> string, now: int) returns (filed: LocationHistory)
    ensures filed == AddForecastDays(lh, days, calendar, now)
  {
    filed := lh;
    for index := 0 to |days|
      invariant filed == AddForecastDays(lh, days[..index], calendar, now)
    {
      assert days[..index + 1][..index] == days[..index];
      var single := SingleDay(days[index]);
      var processed := ProcessDetailedPollenData(Forecast, single);
      assert DayRecord(now, single, processed) == Record(Forecast, now, single);
      filed := filed[calendar(index) := DayRecord(now, single, processed)];
    }
    assert days[..|days|] == days;
  }

  /** Merging the stored result into the in-memory map gives the stored
      result itself, since it already holds every location of the map. */
  lemma MergeAbsorbs(m: Store, key: string, data: PollenData, calendar: int -> string, now: int)
    ensures m + StoreForecast(m, key, data, calendar, now) == StoreForecast(m, key, data, calendar, now)
  {
  }

  /** Saving and then loading gives back the history saved, with no repair. */
  lemma SaveThenLoad(storage: map<string, Slot>, h: Store, now: int)
    ensures Load(Lookup(Saved(storage, h, now, false))) == Loaded(h, Keep)
    ensures TempKey !in Saved(storage, h, now, false)
  {
  }

  /** A save that throws removes the previous history too: the next load
      starts from an empty history. */
  lemma FailedSaveForgetsHistory(storage: map<string, Slot>, h: Store, now: int)
    ensures Load(Lookup(Saved(storage, h, now, true))) == Loaded(map[], Keep)
    ensures forall k :: k in storage && k != StorageKey && k != TempKey ==> Saved(storage, h, now, true)[k] == storage[k]
  {
  }

  /** Whatever is stored, a load either returns what it finds and keeps it,
      or returns an empty history; a legacy document is migrated so that the
      next load (after a successful write) finds the same history wrapped. */
  lemma LoadOutcomes(storage: map<string, Slot>, now: int)
    ensures var l := Load(Lookup(storage));
      && (l.effect == Clear ==> l.history == map[] && Lookup(Apply(storage, l.effect, now, false)).None?)
      && (l.effect.Resave? ==> Load(Lookup(Apply(storage, l.effect, now, false))) == Loaded(l.history, Keep))
      && (Lookup(storage).Some? && Lookup(storage).value.Raw? ==> l.history == map[])
      && (Lookup(storage) == Some(Encoded(Wrapped(Version, now, l.history))) ==> l.effect == Keep)
  {
  }

  /** Each response day is filed under its date, unless a later day has
      the same date. */
  lemma {:induction false} AddForecastDaysFiled(lh: LocationHistory, days: seq<DayInfo>, calendar: int -> string, now: int)
    requires forall i, j :: 0 <= i < j < |days| ==> calendar(i) != calendar(j)
    ensures forall i :: 0 <= i < |days| ==>
      calendar(i) in AddForecastDays(lh, days, calendar, now)
      && AddForecastDays(lh, days, calendar, now)[calendar(i)] == Record(Forecast, now, SingleDay(days[i]))
    decreases |days|
  {
    if days != [] {
      var n := |days| - 1;
      var prefix := days[..n];
      AddForecastDaysFiled(lh, prefix, calendar, now);
      var before := AddForecastDays(lh, prefix, calendar, now);
      assert AddForecastDays(lh, days, calendar, now) == before[calendar(n) := Record(Forecast, now, SingleDay(days[n]))];
      forall i | 0 <= i < n
        ensures calendar(i) in before && before[calendar(i)] == Record(Forecast, now, SingleDay(days[i]))
        ensures calendar(i) != calendar(n)
      {
        assert prefix[i] == days[i];
      }
    }
  }

  /** Dates outside the response keep their records, and no other date appears. */
  lemma {:induction false} AddForecastDaysFrame(lh: LocationHistory, days: seq<DayInfo>, calendar: int -> string, now: int)
    ensures forall d :: d in AddForecastDays(lh, days, calendar, now) ==> d in lh || exists i :: 0 <= i < |days| && calendar(i) == d
    ensures forall d :: d in lh && (forall i :: 0 <= i < |days| ==> calendar(i) != d) ==>
      d in AddForecastDays(lh, days, calendar, now) && AddForecastDays(lh, days, calendar, now)[d] == lh[d]
    decreases |days|
  {
    if days != [] {
      var n := |days| - 1;
      AddForecastDaysFrame(lh, days[..n], calendar, now);
    }
  }

  /** Storing leaves the location at most 30 dates, all taken from the
      history with the response filed in, and other locations untouched. */
  lemma ForecastStoreBound(h: Store, key: string, data: PollenData, calendar: int -> string, now: int)
    ensures key in StoreForecast(h, key, data, calendar, now)
    ensures |StoreForecast(h, key, data, calendar, now)[key].Keys| <= MaxHistoryDays
    ensures forall d :: d in StoreForecast(h, key, data, calendar, now)[key] ==>
      d in AddForecastDays(LocationOf(h, key), Days(data), calendar, now)
      && StoreForecast(h, key, data, calendar, now)[key][d] == AddForecastDays(LocationOf(h, key), Days(data), calendar, now)[d]
    ensures forall k :: k != key ==> LocationOf(StoreForecast(h, key, data, calendar, now), k) == LocationOf(h, k)
  {
    var added := AddForecastDays(LocationOf(h, key), Days(data), calendar, now);
    PruneBound(added);
  }

  /** When the dates of the response are distinct and the location ends up
      with at most 30 dates, every day of the response can be read back
      under its date, holding what processing that day alone gives. */
  lemma ForecastDaysReadBack(h: Store, key: string, data: PollenData, calendar: int -> string, now: int)
    requires forall i, j :: 0 <= i < j < |Days(data)| ==> calendar(i) != calendar(j)
    requires |AddForecastDays(LocationOf(h, key), Days(data), calendar, now).Keys| <= MaxHistoryDays
    ensures forall i :: 0 <= i < |Days(data)| ==>
      calendar(i) in StoreForecast(h, key, data, calendar, now)[key]
      && StoreForecast(h, key, data, calendar, now)[key][calendar(i)] == Record(Forecast, now, SingleDay(Days(data)[i]))
  {
    var added := AddForecastDays(LocationOf(h, key), Days(data), calendar, now);
    AddForecastDaysFiled(LocationOf(h, key), Days(data), calendar, now);
    PruneKeepsSmall(added);
    assert StoreForecast(h, key, data, calendar, now)[key] == added;
  }

  /** When every forecast day is read back, the chart of the location draws
      day `i` from that day alone: with the placeholder exactly when none of
      its entries is admitted (each lacks `indexInfo` or has a negative
      value), and otherwise with that day's maximum and type count. */
  lemma ForecastDayIsCharted(h: Store, key: string, data: PollenData, calendar: int -> string, now: int,
                             i: nat, info: DateInfo, lang: string)
    requires forall i, j :: 0 <= i < j < |Days(data)| ==> calendar(i) != calendar(j)
    requires |AddForecastDays(LocationOf(h, key), Days(data), calendar, now).Keys| <= MaxHistoryDays
    requires i < |Days(data)| && info.date == calendar(i)
    ensures var view := ChartDay(Forecast, info, StoreForecast(h, key, data, calendar, now)[key], lang);
      && (view.NoData? <==> forall e :: e in DayEntries(Days(data)[i]) ==> !Admissible(Forecast, e))
      && (view.Day? ==> view.maxLevel == ProcessDay(Forecast, SingleDay(Days(data)[i])).maxLevel
                        && view.totalTypes == ProcessDay(Forecast, SingleDay(Days(data)[i])).totalTypes)
  {
    ForecastDaysReadBack(h, key, data, calendar, now);
    RecordIsCharted(Forecast, info, StoreForecast(h, key, data, calendar, now)[key], lang, now, SingleDay(Days(data)[i]));
  }

  /** Storing keeps a consistent location history consistent: every record's
      `processed` part is what its raw single-day response yields. */
  lemma StoreForecastConsistent(h: Store, key: string, data: PollenData, calendar: int -> string, now: int)
    requires Consistent(Forecast, LocationOf(h, key))
    ensures Consistent(Forecast, StoreForecast(h, key, data, calendar, now)[key])
  {
    var added := AddForecastDays(LocationOf(h, key), Days(data), calendar, now);
    AddedDaysConsistent(LocationOf(h, key), Days(data), calendar, now);
    PruneBound(added);
  }

  lemma {:induction false} AddedDaysConsistent(lh: LocationHistory, days: seq<DayInfo>, calendar: int -> string, now: int)
    requires Consistent(Forecast, lh)
    ensures Consistent(Forecast, AddForecastDays(lh, days, calendar, now))
    decreases |days|
  {
    if days != [] {
      AddedDaysConsistent(lh, days[..|days| - 1], calendar, now);
    }
  }
}
