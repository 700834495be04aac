/** The projection behind `generateDetailedHistoryChart`: for each date of
    the range either a no-data placeholder or the day's six highest readings
    as bars, with the day's maximum, type count and level text. */
module Chart {
  import opened Payload
  import opened PollenTypes
  import opened DayProcessor
  import opened History
  import opened Labels

  /** The most bars a day shows. */
  const MaxBars := 6

  /** One bar: the reading's code, name and value, its clamped height in
      pixels, colour class, short label and level text. */
  datatype Bar = Bar(code: string, name: string, value: int, height: int, color: string, shortLabel: string, levelText: string)

  datatype DayView =
    | NoData(date: string, isToday: bool)
    | Day(date: string, isToday: bool, bars: seq<Bar>, maxLevel: int, totalTypes: nat, countLabel: string, levelText: string)

  /** The chart filter: `value >= 0` for the storage-backed manager, `value > 0`
      for the in-memory one. */
  predicate Shown(v: Variant, value: int) {
    match v
    case Forecast => value >= 0
    case InMemory => value > 0
  }

  function Filter(v: Variant, ts: seq<TypeReading>): seq<TypeReading> {
    if ts == [] then []
    else if Shown(v, ts[0].value) then [ts[0]] + Filter(v, ts[1..])
    else Filter(v, ts[1..])
  }

  // ---------------------------------------------------------------------
  // `.sort((a, b) => b.value - a.value)`: a stable sort, highest first
  // ---------------------------------------------------------------------

  /** Puts `t` before the first element whose value is not larger; `t` comes
      from earlier in the input than all of `s`, so ties keep input order. */
  function Insert(t: TypeReading, s: seq<TypeReading>): seq<TypeReading> {
    if s == [] || s[0].value <= t.value then [t] + s
    else [s[0]] + Insert(t, s[1..])
  }

  function SortByValue(ts: seq<TypeReading>): seq<TypeReading> {
    if ts == [] then [] else Insert(ts[0], SortByValue(ts[1..]))
  }

  ghost predicate Descending(s: seq<TypeReading>) {
    forall i, j :: 0 <= i < j < |s| ==> s[i].value >= s[j].value
  }

  /** The readings with a given value, in order. */
  function WithValue(s: seq<TypeReading>, value: int): seq<TypeReading> {
    if s == [] then []
    else if s[0].value == value then [s[0]] + WithValue(s[1..], value)
    else WithValue(s[1..], value)
  }

  lemma {:induction false} InsertMembers(t: TypeReading, s: seq<TypeReading>)
    ensures |Insert(t, s)| == |s| + 1
    ensures forall x :: x in Insert(t, s) <==> x == t || x in s
    ensures multiset(Insert(t, s)) == multiset(s) + multiset{t}
  {
    if s != [] && s[0].value > t.value {
      InsertMembers(t, s[1..]);
      assert s == [s[0]] + s[1..];
    }
  }

  lemma {:induction false} InsertDescending(t: TypeReading, s: seq<TypeReading>)
    requires Descending(s)
    ensures Descending(Insert(t, s))
  {
    if s != [] && s[0].value > t.value {
      InsertDescending(t, s[1..]);
      InsertMembers(t, s[1..]);
      var r := Insert(t, s[1..]);
      forall j | 0 < j < |[s[0]] + r| ensures ([s[0]] + r)[0].value >= ([s[0]] + r)[j].value {
        var x := r[j - 1];
        assert x in r;
        if x != t {
          var m :| 0 <= m < |s[1..]| && s[1..][m] == x;
          assert s[m + 1] == x;
        }
      }
    }
  }

  lemma {:induction false} InsertStable(t: TypeReading, s: seq<TypeReading>, k: int)
    ensures WithValue(Insert(t, s), k) == if k == t.value then [t] + WithValue(s, k) else WithValue(s, k)
  {
    if s == [] || s[0].value <= t.value {
      assert ([t] + s)[1..] == s;
    } else {
      InsertStable(t, s[1..], k);
      assert ([s[0]] + Insert(t, s[1..]))[1..] == Insert(t, s[1..]);
    }
  }

  /** The sort orders by value, highest first, loses and adds nothing, and
      is stable: readings of equal value stay in input order. */
  lemma {:induction false} SortByValueFacts(ts: seq<TypeReading>)
    ensures Descending(SortByValue(ts))
    ensures |SortByValue(ts)| == |ts|
    ensures multiset(SortByValue(ts)) == multiset(ts)
    ensures forall x :: x in SortByValue(ts) <==> x in ts
    ensures forall k :: WithValue(SortByValue(ts), k) == WithValue(ts, k)
  {
    if ts != [] {
      SortByValueFacts(ts[1..]);
      InsertMembers(ts[0], SortByValue(ts[1..]));
      InsertDescending(ts[0], SortByValue(ts[1..]));
      assert ts == [ts[0]] + ts[1..];
      forall k ensures WithValue(SortByValue(ts), k) == WithValue(ts, k) {
        InsertStable(ts[0], SortByValue(ts[1..]), k);
      }
    }
  }

  /** `.slice(0, 6)`. */
  function Top(s: seq<TypeReading>): seq<TypeReading> {
    if |s| <= MaxBars then s else s[..MaxBars]
  }

  /** `Math.max(10, Math.min(80, (value / 5) * 80))`; `(value / 5) * 80` is
      `16 * value` exactly. */
  function BarHeight(value: int): int {
    var capped := if 16 * value < 80 then 16 * value else 80;
    if capped > 10 then capped else 10
  }

  lemma BarHeightBounds(value: int)
    ensures 10 <= BarHeight(value) <= 80
    ensures 1 <= value <= 5 ==> BarHeight(value) == 16 * value
    ensures value <= 0 ==> BarHeight(value) == 10
    ensures value >= 5 ==> BarHeight(value) == 80
    ensures forall w :: value <= w ==> BarHeight(value) <= BarHeight(w)
  {
  }

  /** `${n} тип/типа/типов` in Russian, `${n} type/types` otherwise. */
  function CountWord(n: nat, lang: string): string {
    if lang == "ru" then (if n == 1 then "тип" else if n < 5 then "типа" else "типов")
    else (if n == 1 then "type" else "types")
  }

  function ToBar(t: TypeReading, lang: string): Bar {
    Bar(t.code, t.name, t.value, BarHeight(t.value), t.color, GetTypeShortName(t.code, t.name, lang), TranslateLevel(t.category, lang))
  }

  function Bars(ts: seq<TypeReading>, lang: string): seq<Bar> {
    if ts == [] then [] else [ToBar(ts[0], lang)] + Bars(ts[1..], lang)
  }

  /** The readings a day displays: shown, sorted, the first six. */
  function Displayed(v: Variant, types: seq<TypeReading>): seq<TypeReading> {
    Top(SortByValue(Filter(v, types)))
  }

  /** One date of `generateDetailedHistoryChart`. */
  function ChartDay(v: Variant, info: DateInfo, lh: LocationHistory, lang: string): DayView {
    if info.date !in lh || |lh[info.date].processed.types| == 0 then NoData(info.date, info.isToday)
    else
      var p := lh[info.date].processed;
      Day(info.date, info.isToday, Bars(Displayed(v, p.types), lang), p.maxLevel, p.totalTypes,
          CountWord(p.totalTypes, lang), TranslateLevel(p.maxCategory, lang))
  }

  /** `generateDetailedHistoryChart(dateRange, locationHistory, currentLang)`. */
  function GenerateChart(v: Variant, dates: seq<DateInfo>, lh: LocationHistory, lang: string): seq<DayView> {
    if dates == [] then [] else [ChartDay(v, dates[0], lh, lang)] + GenerateChart(v, dates[1..], lh, lang)
  }

  // ---------------------------------------------------------------------
  // Properties
  // ---------------------------------------------------------------------

  lemma {:induction false} FilterFacts(v: Variant, ts: seq<TypeReading>)
    ensures forall t :: t in Filter(v, ts) <==> t in ts && Shown(v, t.value)
    ensures multiset(Filter(v, ts)) <= multiset(ts)
  {
    if ts != [] {
      FilterFacts(v, ts[1..]);
      assert ts == [ts[0]] + ts[1..];
    }
  }

  lemma {:induction false} BarsFacts(ts: seq<TypeReading>, lang: string)
    ensures |Bars(ts, lang)| == |ts|
    ensures forall i :: 0 <= i < |ts| ==> Bars(ts, lang)[i] == ToBar(ts[i], lang)
  {
    if ts != [] {
      BarsFacts(ts[1..], lang);
      var rest := Bars(ts[1..], lang);
      assert Bars(ts, lang) == [ToBar(ts[0], lang)] + rest;
      forall i | 0 <= i < |ts| ensures Bars(ts, lang)[i] == ToBar(ts[i], lang) {
        if i > 0 {
          assert Bars(ts, lang)[i] == rest[i - 1];
          assert ts[i] == ts[1..][i - 1];
        }
      }
    }
  }

  /** The first six of a list ordered highest first are its six highest. */
  lemma TopOfDescending(s: seq<TypeReading>)
    requires Descending(s)
    ensures |Top(s)| == if |s| <= MaxBars then |s| else MaxBars
    ensures Descending(Top(s))
    ensures multiset(Top(s)) <= multiset(s)
    ensures forall x :: x in Top(s) ==> x in s
    ensures forall t, u :: t in s && t !in Top(s) && u in Top(s) ==> t.value <= u.value
  {
    var d := Top(s);
    assert s == d + s[|d|..];
    forall t, u | t in s && t !in d && u in d ensures t.value <= u.value {
      var j :| 0 <= j < |s| && s[j] == t;
      var i :| 0 <= i < |d| && d[i] == u;
      assert s[i] == u;
    }
  }

  /** The readings a day displays are at most six, all pass the filter, are
      ordered highest first, and no shown reading left out beats a displayed
      one: they are the top six by value. */
  lemma DisplayedIsTopSix(v: Variant, types: seq<TypeReading>)
    ensures |Displayed(v, types)| == if |Filter(v, types)| <= MaxBars then |Filter(v, types)| else MaxBars
    ensures Descending(Displayed(v, types))
    ensures forall t :: t in Displayed(v, types) ==> t in types && Shown(v, t.value)
    ensures multiset(Displayed(v, types)) <= multiset(Filter(v, types))
    ensures forall t, u :: t in Filter(v, types) && t !in Displayed(v, types) && u in Displayed(v, types) ==> t.value <= u.value
  {
    var shown := Filter(v, types);
    FilterFacts(v, types);
    SortByValueFacts(shown);
    TopOfDescending(SortByValue(shown));
  }

  /** The bars of a day: at most six, each showing a reading that passes
      the filter, at a height within [10, 80], highest first. */
  lemma DayBars(v: Variant, types: seq<TypeReading>, lang: string)
    ensures |Bars(Displayed(v, types), lang)| <= MaxBars
    ensures forall b :: b in Bars(Displayed(v, types), lang) ==> 10 <= b.height <= 80 && b.height == BarHeight(b.value) && Shown(v, b.value)
    ensures forall i, j :: 0 <= i < j < |Bars(Displayed(v, types), lang)| ==> Bars(Displayed(v, types), lang)[i].value >= Bars(Displayed(v, types), lang)[j].value
  {
    var d := Displayed(v, types);
    DisplayedIsTopSix(v, types);
    BarsFacts(d, lang);
    forall b | b in Bars(d, lang) ensures 10 <= b.height <= 80 && b.height == BarHeight(b.value) && Shown(v, b.value) {
      var i :| 0 <= i < |d| && Bars(d, lang)[i] == b;
      assert d[i] in d;
      BarHeightBounds(b.value);
    }
  }

  /** A date holding the record of a response is drawn from that response:
      it shows the placeholder exactly when the response's first day has no
      entry the variant admits; otherwise it shows the day's maximum and
      type count, and every bar is the code and value of an admissible
      entry of that day. */
  lemma RecordIsCharted(v: Variant, info: DateInfo, lh: LocationHistory, lang: string, now: int, data: PollenData)
    requires info.date in lh && lh[info.date] == Record(v, now, data)
    ensures ChartDay(v, info, lh, lang).NoData? <==> !HasAdmissible(v, data)
    ensures ChartDay(v, info, lh, lang).Day? ==>
      && ChartDay(v, info, lh, lang).maxLevel == ProcessDay(v, data).maxLevel
      && ChartDay(v, info, lh, lang).totalTypes == ProcessDay(v, data).totalTypes
    ensures ChartDay(v, info, lh, lang).Day? ==> forall b :: b in ChartDay(v, info, lh, lang).bars ==>
      exists e :: e in DayEntries(FirstDay(data).value) && Admissible(v, e) && b.code == e.code && b.value == e.indexInfo.value.value.GetOr(0)
  {
    TypesEmptyIffNothingAdmissible(v, data);
    if ChartDay(v, info, lh, lang).Day? {
      var day := FirstDay(data).value;
      var d := Displayed(v, ProcessDay(v, data).types);
      StoredReadingsAreAdmitted(v, data, day);
      DisplayedIsTopSix(v, ProcessDay(v, data).types);
      BarsFacts(d, lang);
      forall b | b in ChartDay(v, info, lh, lang).bars
        ensures exists e :: e in DayEntries(day) && Admissible(v, e) && b.code == e.code && b.value == e.indexInfo.value.value.GetOr(0)
      {
        var i :| 0 <= i < |d| && Bars(d, lang)[i] == b;
        assert d[i] in d;
        var e :| (e in OrEmpty(day.plantInfo) || e in OrEmpty(day.pollenTypeInfo)) && Admissible(v, e) && TakenFrom(v, e, d[i]);
        assert e in DayEntries(day);
      }
    }
  }

  /** The chart has one view per date of the range, in order. */
  lemma {:induction false} ChartCoversRange(v: Variant, dates: seq<DateInfo>, lh: LocationHistory, lang: string)
    ensures |GenerateChart(v, dates, lh, lang)| == |dates|
    ensures forall i :: 0 <= i < |dates| ==> GenerateChart(v, dates, lh, lang)[i] == ChartDay(v, dates[i], lh, lang)
  {
    if dates != [] {
      ChartCoversRange(v, dates[1..], lh, lang);
    }
  }

  /** The Russian count word follows the "1 / fewer than 5 / otherwise" rule
      the code applies, which differs from Russian grammar from 21 on. */
  lemma CountWordExamples()
    ensures CountWord(1, "ru") == "тип" && CountWord(3, "ru") == "типа" && CountWord(7, "ru") == "типов"
    ensures CountWord(21, "ru") == "типов" && CountWord(22, "ru") == "типов"
    ensures CountWord(1, "en") == "type" && CountWord(2, "en") == "types"
  {
  }
}
