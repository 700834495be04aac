/** What both history managers store per location and date, and the date
    slots their charts are drawn for. */
module History {
  import opened Payload
  import opened PollenTypes
  import opened DayProcessor
  import opened Retention

  /** `{ timestamp, rawData, processed }`. */
  datatype DayRecord = DayRecord(timestamp: int, rawData: PollenData, processed: Processed)

  /** One location's history: ISO date (`YYYY-MM-DD`) to record. */
  type LocationHistory = map<string, DayRecord>

  /** The record stored for a response at time `now`. */
  function Record(v: Variant, now: int, data: PollenData): DayRecord {
    DayRecord(now, data, ProcessDay(v, data))
  }

  /** Every record's `processed` part is what processing its raw data yields. */
  ghost predicate Consistent(v: Variant, lh: LocationHistory) {
    forall d :: d in lh ==> lh[d].processed == ProcessDay(v, lh[d].rawData)
  }

  /** `history[locationKey] || {}`. */
  function LocationOf(h: map<string, LocationHistory>, key: string): LocationHistory {
    if key in h then h[key] else map[]
  }

  /** One entry of `getDateRange()`. A field one manager does not set reads
      as `false` (it is `undefined` there). */
  datatype DateInfo = DateInfo(date: string, isToday: bool, isPast: bool, isFuture: bool)

  /** A stored history within the retention bound keeps that bound and stays
      consistent when one consistent record is added and the result pruned. */
  lemma AddAndPrune(v: Variant, lh: LocationHistory, date: string, rec: DayRecord)
    requires Consistent(v, lh)
    requires rec.processed == ProcessDay(v, rec.rawData)
    ensures Consistent(v, Prune(lh[date := rec]))
    ensures |Prune(lh[date := rec]).Keys| <= MaxHistoryDays
    ensures forall d :: d in Prune(lh[date := rec]) ==> d in lh || d == date
  {
    PruneBound(lh[date := rec]);
  }

  /** The record just added is kept by the pruning when the history already
      had that date or fewer than 30 dates, or when no stored date sorts after it. */
  lemma AddedRecordKept(lh: LocationHistory, date: string, rec: DayRecord)
    requires |lh.Keys| <= MaxHistoryDays
    requires date in lh || |lh.Keys| < MaxHistoryDays || forall d :: d in lh ==> !Strings.LexLess(date, d)
    ensures date in Prune(lh[date := rec]) && Prune(lh[date := rec])[date] == rec
  {
    var m := lh[date := rec];
    if date in lh || |lh.Keys| < MaxHistoryDays {
      assert m.Keys == lh.Keys + {date};
      PruneKeepsSmall(m);
    } else {
      Strings.LexLessIrreflexive(date);
      LatestDateKept(m, date);
    }
  }
}
