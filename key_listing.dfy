/** The durable listings the engine reads back from `browser.storage.local`
    (src/background/analyzer/analyzerEngine.js:154-159, 228-253): the one-shot
    results, every finished runtime run newest first, and the last run.
    The store is the sequence of `Object.entries(all)`; a write replaces a
    key in place or adds it after the others. */
module KeyListing {
  import opened JsCore
  import opened Records

  /** One `[key, value]` pair of `Object.entries(all)`. */
  datatype Entry = Entry(key: string, value: Stored)

  /** The whole of `browser.storage.local`, in enumeration order. */
  type Store = seq<Entry>

  /** `{ key: null, run: null }` or `{ key, run: all[key] }`. */
  datatype LastRun = LastRun(key: Option<string>, run: Option<Stored>)

  // ---------- reading and writing one key ----------

  /** `all[key]`: the value of the first entry with that key, None for undefined. */
  function Lookup(all: Store, key: string): (r: Option<Stored>)
    ensures r.Some? ==> Entry(key, r.value) in all
    ensures r.None? ==> forall k :: 0 <= k < |all| ==> all[k].key != key
  {
    if all == [] then None
    else if all[0].key == key then Some(all[0].value)
    else Lookup(all[1..], key)
  }

  /** `storage.local.set({ [key]: v })`: reading `key` back gives `v`, and
      every other key reads as before. */
  function Put(all: Store, key: string, v: Stored): (r: Store)
    ensures Lookup(r, key) == Some(v)
    ensures forall k :: k != key ==> Lookup(r, k) == Lookup(all, k)
  {
    if all == [] then [Entry(key, v)]
    else if all[0].key == key then [Entry(key, v)] + all[1..]
    else [all[0]] + Put(all[1..], key, v)
  }

  // ---------- filtering on the key ----------

  /** `Object.entries(all).filter(([key]) => keep(key))`. */
  function Where(all: Store, keep: string -> bool): (r: Store)
    ensures |r| <= |all|
    ensures forall k :: 0 <= k < |r| ==> keep(r[k].key)
  {
    if all == [] then [] else (if keep(all[0].key) then [all[0]] else []) + Where(all[1..], keep)
  }

  /** The filter keeps exactly the entries whose key passes the test. */
  lemma {:induction false} WhereIff(all: Store, keep: string -> bool, e: Entry)
    ensures e in Where(all, keep) <==> e in all && keep(e.key)
  {
    if all != [] {
      WhereIff(all[1..], keep, e);
      assert all == [all[0]] + all[1..];
    }
  }

  /** Two tests that agree on every key of the store select the same entries. */
  lemma {:induction false} WhereSame(all: Store, p: string -> bool, q: string -> bool)
    requires forall k :: 0 <= k < |all| ==> p(all[k].key) == q(all[k].key)
    ensures Where(all, p) == Where(all, q)
  {
    if all != [] {
      assert forall k :: 0 <= k < |all[1..]| ==> all[1..][k] == all[k + 1];
      WhereSame(all[1..], p, q);
    }
  }

  /** A test every key passes removes nothing. */
  lemma {:induction false} WhereAll(all: Store, p: string -> bool)
    requires forall k :: 0 <= k < |all| ==> p(all[k].key)
    ensures Where(all, p) == all
  {
    if all != [] {
      assert forall k :: 0 <= k < |all[1..]| ==> all[1..][k] == all[k + 1];
      WhereAll(all[1..], p);
    }
  }

  // ---------- getLocalScanResults ----------

  predicate IsResultsKey(key: string) {
    StartsWith(key, ResultsPrefix)
  }

  /** `getLocalScanResults()`: the `analyzerResults_` entries, in store order. */
  function GetLocalScanResults(all: Store): Store {
    Where(all, IsResultsKey)
  }

  /** The one-shot listing holds exactly the `analyzerResults_` entries. */
  lemma LocalScanResultsIff(all: Store, e: Entry)
    ensures e in GetLocalScanResults(all) <==> e in all && StartsWith(e.key, ResultsPrefix)
  {
    WhereIff(all, IsResultsKey, e);
  }

  /** A stored one-shot record appears in the one-shot listing. */
  lemma ScanResultIsListed(all: Store, ts: nat, rec: ScanRecord)
    ensures Entry(ResultsKey(ts), ScanValue(rec))
      in GetLocalScanResults(Put(all, ResultsKey(ts), ScanValue(rec)))
  {
    var all' := Put(all, ResultsKey(ts), ScanValue(rec));
    assert Lookup(all', ResultsKey(ts)) == Some(ScanValue(rec));
    LocalScanResultsIff(all', Entry(ResultsKey(ts), ScanValue(rec)));
  }

  // ---------- getAllRuntimeResults ----------

  /** `Number(key.split("_")[1])`, None where that is NaN. */
  function SuffixNumber(key: string): Option<nat> {
    match SplitSecond(key)
    case None => None
    case Some(s) => NumberOf(s)
  }

  /** The order the listings sort by: the suffix number (0 for NaN, which
      only the last-run fallback can meet). */
  function Rank(e: Entry): nat {
    match SuffixNumber(e.key)
    case None => 0
    case Some(n) => n
  }

  /** The key filter of getAllRuntimeResults: `analyzerRuntime_` followed by
      a second `_`-separated segment made of digits. */
  predicate IsRunKey(key: string) {
    StartsWith(key, RuntimePrefix) && SplitSecond(key).Some? && IsDigits(SplitSecond(key).value)
  }

  /** Every pair is ordered by decreasing rank. */
  ghost predicate NewestFirst(s: Store, rank: Entry -> nat) {
    forall i, j :: 0 <= i < j < |s| ==> rank(s[i]) >= rank(s[j])
  }

  /** Places `x` before the first entry that does not outrank it. */
  function Insert(x: Entry, s: Store, rank: Entry -> nat): (r: Store)
    ensures multiset(r) == multiset(s) + multiset{x}
  {
    if s == [] || rank(s[0]) <= rank(x) then [x] + s
    else
      assert s == [s[0]] + s[1..];
      [s[0]] + Insert(x, s[1..], rank)
  }

  /** `sort((a, b) => rank(b) - rank(a))`: Array.prototype.sort is stable,
      so entries of equal rank keep their store order. */
  function SortNewestFirst(s: Store, rank: Entry -> nat): (r: Store)
    ensures multiset(r) == multiset(s)
  {
    if s == [] then []
    else
      assert s == [s[0]] + s[1..];
      Insert(s[0], SortNewestFirst(s[1..], rank), rank)
  }

  lemma {:induction false} InsertNewestFirst(x: Entry, s: Store, rank: Entry -> nat)
    requires NewestFirst(s, rank)
    ensures NewestFirst(Insert(x, s, rank), rank)
    decreases |s|
  {
    if s != [] && rank(s[0]) > rank(x) {
      var t := Insert(x, s[1..], rank);
      InsertNewestFirst(x, s[1..], rank);
      forall j | 0 <= j < |t| ensures rank(s[0]) >= rank(t[j]) {
        assert t[j] in multiset(t);
        if t[j] != x {
          assert t[j] in multiset(s[1..]);
          var m :| 0 <= m < |s[1..]| && s[1..][m] == t[j];
          assert s[m + 1] == t[j];
        }
      }
      var r := Insert(x, s, rank);
      assert r == [s[0]] + t;
      forall i, j | 0 <= i < j < |r| ensures rank(r[i]) >= rank(r[j]) {
        if i > 0 {
          assert r[i] == t[i - 1] && r[j] == t[j - 1];
        } else {
          assert r[j] == t[j - 1];
        }
      }
    }
  }

  /** The listing order: highest rank first. */
  lemma {:induction false} SortNewestFirstSorted(s: Store, rank: Entry -> nat)
    ensures NewestFirst(SortNewestFirst(s, rank), rank)
  {
    if s != [] {
      SortNewestFirstSorted(s[1..], rank);
      InsertNewestFirst(s[0], SortNewestFirst(s[1..], rank), rank);
    }
  }

  /** The entries of rank `v`, in order. */
  function WithRank(s: Store, rank: Entry -> nat, v: nat): Store {
    if s == [] then [] else (if rank(s[0]) == v then [s[0]] else []) + WithRank(s[1..], rank, v)
  }

  /** `WithRank` of a list with a given first entry. */
  lemma WithRankCons(e: Entry, t: Store, rank: Entry -> nat, v: nat)
    ensures WithRank([e] + t, rank, v) == (if rank(e) == v then [e] else []) + WithRank(t, rank, v)
  {
    assert ([e] + t)[1..] == t;
  }

  lemma {:induction false} InsertWithRank(x: Entry, s: Store, rank: Entry -> nat, v: nat)
    ensures WithRank(Insert(x, s, rank), rank, v)
      == (if rank(x) == v then [x] else []) + WithRank(s, rank, v)
    decreases |s|
  {
    if s != [] && rank(s[0]) > rank(x) {
      var t := Insert(x, s[1..], rank);
      InsertWithRank(x, s[1..], rank, v);
      WithRankCons(s[0], t, rank, v);
      WithRankCons(s[0], s[1..], rank, v);
      assert s == [s[0]] + s[1..];
      var head := if rank(s[0]) == v then [s[0]] else [];
      var mine := if rank(x) == v then [x] else [];
      var tail := WithRank(s[1..], rank, v);
      assert head == [] || mine == [];
      assert head + (mine + tail) == mine + (head + tail);
    } else {
      WithRankCons(x, s, rank, v);
    }
  }

  lemma {:induction false} SortNewestFirstStable(s: Store, rank: Entry -> nat, v: nat)
    ensures WithRank(SortNewestFirst(s, rank), rank, v) == WithRank(s, rank, v)
  {
    if s != [] {
      SortNewestFirstStable(s[1..], rank, v);
      InsertWithRank(s[0], SortNewestFirst(s[1..], rank), rank, v);
    }
  }

  /** `getAllRuntimeResults()`. */
  function GetAllRuntimeResults(all: Store): Store {
    SortNewestFirst(Where(all, IsRunKey), Rank)
  }

  /** The runtime listing holds exactly the run-key entries of the store,
      newest first, with ties in store order. */
  lemma AllRuntimeResultsSpec(all: Store, e: Entry, v: nat)
    ensures e in GetAllRuntimeResults(all) <==> e in all && IsRunKey(e.key)
    ensures NewestFirst(GetAllRuntimeResults(all), Rank)
    ensures WithRank(GetAllRuntimeResults(all), Rank, v) == WithRank(Where(all, IsRunKey), Rank, v)
  {
    var w := Where(all, IsRunKey);
    WhereIff(all, IsRunKey, e);
    assert e in GetAllRuntimeResults(all) <==> e in multiset(w);
    SortNewestFirstSorted(w, Rank);
    SortNewestFirstStable(w, Rank, v);
  }

  /** The suffix number of a run key is the value of its digits. */
  lemma RunKeyRank(key: string)
    requires IsRunKey(key)
    ensures SuffixNumber(key) == Some(DigitsValue(SplitSecond(key).value))
  {
  }

  /** The key `stopRuntimeScan` writes passes the listing filter and sorts
      by its own timestamp. */
  lemma RuntimeKeyIsRunKey(ts: nat)
    ensures IsRunKey(RuntimeKey(ts))
    ensures Rank(Entry(RuntimeKey(ts), OtherValue)) == ts
  {
    var d := Decimal(ts);
    DecimalRoundTrip(ts);
    assert RuntimePrefix[..|RuntimePrefix| - 1] == "analyzerRuntime";
    SplitSecondAfterPrefix(RuntimePrefix, d);
    var u := UpToUnderscore(d);
    assert u == d;
    assert RuntimeKey(ts)[..|RuntimePrefix|] == RuntimePrefix;
  }

  /** A finished run appears in the runtime listing once it is stored. */
  lemma StoppedRunIsListed(all: Store, ts: nat, run: RuntimeRun)
    ensures Entry(RuntimeKey(ts), RunValue(run)) in GetAllRuntimeResults(
      Put(Put(all, RuntimeKey(ts), RunValue(run)), LastKeyName, KeyValue(RuntimeKey(ts))))
  {
    var key := RuntimeKey(ts);
    var all' := Put(Put(all, key, RunValue(run)), LastKeyName, KeyValue(key));
    KeyFormatsDistinct(ts, ts);
    assert Lookup(all', key) == Some(RunValue(run));
    RuntimeKeyIsRunKey(ts);
    AllRuntimeResultsSpec(all', Entry(key, RunValue(run)), 0);
  }

  // ---------- getLastRuntimeResults ----------

  /** `all.analyzerRuntime_lastKey || null`, when that value is a string. */
  function StoredLastKey(all: Store): Option<string> {
    match Lookup(all, LastKeyName)
    case Some(KeyValue(k)) => if k != "" then Some(k) else None
    case _ => None
  }

  predicate IsRuntimePrefixed(key: string) {
    StartsWith(key, RuntimePrefix)
  }

  predicate HasSuffixNumber(key: string) {
    SuffixNumber(key).Some?
  }

  /** The first entry of `s` with the largest suffix number. */
  function Newest(s: Store, rank: Entry -> nat): (r: Entry)
    requires |s| > 0
    ensures r in s
    ensures forall k :: 0 <= k < |s| ==> rank(s[k]) <= rank(r)
  {
    if |s| == 1 then s[0]
    else
      var b := Newest(s[1..], rank);
      assert forall k :: 1 <= k < |s| ==> s[k] == s[1..][k - 1];
      if rank(s[0]) >= rank(b) then s[0] else b
  }

  /** The newest-first sort puts `Newest` at its head: ties go to the
      earlier entry, as a stable sort has it. */
  lemma {:induction false} SortHeadIsNewest(s: Store, rank: Entry -> nat)
    requires |s| > 0
    ensures |SortNewestFirst(s, rank)| > 0 && SortNewestFirst(s, rank)[0] == Newest(s, rank)
  {
    assert |SortNewestFirst(s, rank)| == |multiset(s)|;
    if |s| > 1 {
      SortHeadIsNewest(s[1..], rank);
    }
  }

  /** The key getLastRuntimeResults settles on: the stored last key, otherwise the
      `analyzerRuntime_` key with the largest suffix number. */
  function LastKey(all: Store): (r: Option<string>)
    ensures r.Some? ==> r.value != ""
  {
    match StoredLastKey(all)
    case Some(k) => Some(k)
    case None =>
      var c := Where(all, IsRuntimePrefixed);
      if c == [] then None
      else
        var numeric := Where(c, HasSuffixNumber);
        var e := if numeric != [] then Newest(numeric, Rank) else c[0];
        assert e in c by {
          if numeric != [] {
            WhereIff(c, HasSuffixNumber, e);
          }
        }
        WhereIff(all, IsRuntimePrefixed, e);
        Some(e.key)
  }

  /** `getLastRuntimeResults()`. */
  function GetLastRuntimeResults(all: Store): LastRun {
    match LastKey(all)
    case None => LastRun(None, None)
    case Some(k) => LastRun(Some(k), Lookup(all, k))
  }

  /** Right after a stop has written its run and the last key, the last run
      is that run. */
  lemma StoppedRunIsLast(all: Store, ts: nat, run: RuntimeRun)
    ensures GetLastRuntimeResults(
      Put(Put(all, RuntimeKey(ts), RunValue(run)), LastKeyName, KeyValue(RuntimeKey(ts))))
      == LastRun(Some(RuntimeKey(ts)), Some(RunValue(run)))
  {
    var key := RuntimeKey(ts);
    var all' := Put(Put(all, key, RunValue(run)), LastKeyName, KeyValue(key));
    KeyFormatsDistinct(ts, ts);
    assert key != "";
    assert StoredLastKey(all') == Some(key);
  }

  /** Without a stored last key, and with no stray `analyzerRuntime_` keys, the
      last run is the head of the runtime listing. */
  lemma LastAgreesWithListing(all: Store)
    requires StoredLastKey(all).None?
    requires forall k :: 0 <= k < |all| && IsRuntimePrefixed(all[k].key) ==> IsRunKey(all[k].key)
    requires GetAllRuntimeResults(all) != []
    ensures LastKey(all) == Some(GetAllRuntimeResults(all)[0].key)
  {
    var c := Where(all, IsRuntimePrefixed);
    forall k | 0 <= k < |all| ensures IsRuntimePrefixed(all[k].key) == IsRunKey(all[k].key) {
    }
    WhereSame(all, IsRuntimePrefixed, IsRunKey);
    forall k | 0 <= k < |c| ensures HasSuffixNumber(c[k].key) {
      RunKeyRank(c[k].key);
    }
    WhereAll(c, HasSuffixNumber);
    SortHeadIsNewest(c, Rank);
  }
}
