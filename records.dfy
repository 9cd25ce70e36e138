/** The records the engine builds, stores and reports
    (src/background/analyzer/analyzerEngine.js:26-30, 65, 199-205), the
    storage key formats, and the runtime dataset with its scan total. */
module Records {
  import opened JsCore
  import Extractor
  import Counting

  /** Provenance of one extraction. The one-shot listener records
      `{timestamp, tabId, url}`, the runtime listener also a title. */
  datatype ScanMeta =
    | OneTimeMeta(timestamp: int, tabId: Option<int>, url: Option<string>)
    | RuntimeMeta(tabId: Option<int>, url: Option<string>, title: Option<string>, timestamp: int)

  /** `{ meta, results }`. */
  datatype ScanRecord = ScanRecord(meta: ScanMeta, results: Extractor.Summary)

  /** `_runtimeDataset`: page key to the records scanned for it, oldest first. */
  type Dataset = map<string, seq<ScanRecord>>

  /** The frozen run `stopRuntimeScan` stores and returns. */
  datatype RuntimeRun = RuntimeRun(
    startedAt: int, stoppedAt: nat, totalScans: nat, pagesCount: nat, dataset: Dataset)

  /** A value in `browser.storage.local`: a one-shot record, a finished run,
      the key of the last run, or something another part of the
      extension wrote. */
  datatype Stored =
    | ScanValue(record: ScanRecord)
    | RunValue(run: RuntimeRun)
    | KeyValue(key: string)
    | OtherValue

  const ResultsPrefix: string := "analyzerResults_"
  const RuntimePrefix: string := "analyzerRuntime_"
  const LastKeyName: string := "analyzerRuntime_lastKey"
  /** The page key of a runtime record whose url is unknown. */
  const UnknownUrlKey: string := "(url_sconosciuto)"

  /** `analyzerResults_${timestamp}`. */
  function ResultsKey(ts: nat): string {
    ResultsPrefix + Decimal(ts)
  }

  /** `analyzerRuntime_${stoppedAt}`. */
  function RuntimeKey(ts: nat): string {
    RuntimePrefix + Decimal(ts)
  }

  /** Neither key format can be mistaken for the other or for the last-key
      entry: its suffix is not a number. */
  lemma KeyFormatsDistinct(ts: nat, ts': nat)
    ensures ResultsKey(ts) != RuntimeKey(ts')
    ensures RuntimeKey(ts) != LastKeyName
    ensures !StartsWith(ResultsKey(ts), RuntimePrefix)
  {
    assert ResultsKey(ts)[8] == 'R' && RuntimeKey(ts')[8] == 'R';
    assert ResultsKey(ts)[9] == 'e' != RuntimeKey(ts')[9];
    assert ResultsKey(ts)[..|RuntimePrefix|][9] != RuntimePrefix[9];
    var d := Decimal(ts);
    assert IsDigit(d[0]);
    assert RuntimeKey(ts)[|RuntimePrefix|] == d[0];
    assert LastKeyName[|RuntimePrefix|] == 'l';
  }

  /** The number of records in the dataset: the sum of its entry lengths. */
  ghost function TotalScans(d: Dataset): nat {
    Counting.SumValues(map k | k in d :: |d[k]|)
  }

  /** `if (!dataset[key]) dataset[key] = []; dataset[key].push(record)`. */
  function Append(d: Dataset, key: string, rec: ScanRecord): (r: Dataset)
    ensures key in r && r[key] == (if key in d then d[key] else []) + [rec]
    ensures forall k :: k != key ==> (k in r <==> k in d)
    ensures forall k :: k != key && k in d ==> r[k] == d[k]
  {
    d[key := (if key in d then d[key] else []) + [rec]]
  }

  /** Appending one record raises the page count (`Object.keys(dataset).length`)
      by one exactly when the key is new. */
  lemma AppendPages(d: Dataset, key: string, rec: ScanRecord)
    ensures |Append(d, key, rec)| == |d| + (if key in d then 0 else 1)
  {
    var d' := Append(d, key, rec);
    if key in d {
      assert d'.Keys == d.Keys;
    } else {
      assert d'.Keys == d.Keys + {key};
    }
  }

  /** Appending one record raises the total by one. */
  lemma AppendCounts(d: Dataset, key: string, rec: ScanRecord)
    ensures TotalScans(Append(d, key, rec)) == TotalScans(d) + 1
  {
    var d' := Append(d, key, rec);
    var lens := map k | k in d :: |d[k]|;
    var lens' := map k | k in d' :: |d'[k]|;
    var before := if key in d then |d[key]| else 0;
    assert d'.Keys == d.Keys + {key};
    assert lens'.Keys == (lens[key := before + 1]).Keys;
    forall k | k in lens' ensures lens'[k] == lens[key := before + 1][k] {
      if k != key {
        assert d'[k] == d[k];
      }
    }
    assert lens' == lens[key := before + 1];
    Counting.SumValuesUpdate(lens, key, before + 1);
  }

  /** The dataset after the accepted runtime events `events` (page key and
      record each), in arrival order. */
  function AppendAll(d: Dataset, events: seq<(string, ScanRecord)>): Dataset
    decreases |events|
  {
    if events == [] then d
    else
      var last := events[|events| - 1];
      Append(AppendAll(d, events[..|events| - 1]), last.0, last.1)
  }

  /** N accepted events add N to the total. */
  lemma {:induction false} AppendAllTotal(d: Dataset, events: seq<(string, ScanRecord)>)
    ensures TotalScans(AppendAll(d, events)) == TotalScans(d) + |events|
    decreases |events|
  {
    if events != [] {
      var init, last := events[..|events| - 1], events[|events| - 1];
      AppendAllTotal(d, init);
      AppendCounts(AppendAll(d, init), last.0, last.1);
    }
  }

  /** The page keys the events name. */
  function EventKeys(events: seq<(string, ScanRecord)>): (r: set<string>)
    ensures forall i :: 0 <= i < |events| ==> events[i].0 in r
    ensures forall k :: k in r ==> exists i :: 0 <= i < |events| && events[i].0 == k
    decreases |events|
  {
    if events == [] then {} else EventKeys(events[..|events| - 1]) + {events[|events| - 1].0}
  }

  /** The page keys after the events are the keys before plus the events' keys,
      so `pagesCount` counts the distinct origins seen. */
  lemma {:induction false} AppendAllKeys(d: Dataset, events: seq<(string, ScanRecord)>)
    ensures AppendAll(d, events).Keys == d.Keys + EventKeys(events)
    decreases |events|
  {
    if events != [] {
      var init, last := events[..|events| - 1], events[|events| - 1];
      AppendAllKeys(d, init);
      assert AppendAll(d, events).Keys == AppendAll(d, init).Keys + {last.0};
    }
  }

  /** A session that starts from the empty dataset and accepts `events`
      reports `totalScans` equal to the number of events and `pagesCount`
      equal to the number of distinct page keys among them. */
  lemma SessionCounts(events: seq<(string, ScanRecord)>)
    ensures TotalScans(AppendAll(map[], events)) == |events|
    ensures |AppendAll(map[], events)| == |EventKeys(events)|
  {
    EmptyDatasetCounts(map[]);
    AppendAllTotal(map[], events);
    AppendAllKeys(map[], events);
    assert AppendAll(map[], events).Keys == EventKeys(events);
  }

  /** The empty dataset holds no records. */
  lemma EmptyDatasetCounts(d: Dataset)
    requires d == map[]
    ensures TotalScans(d) == 0
  {
    var lens := map k | k in d :: |d[k]|;
    assert lens == map[];
    Counting.SumValuesEmpty(lens);
  }
}
