/** The background analyzer engine (src/background/analyzer/analyzerEngine.js):
    the runtime scan session, the one-shot scan with its single result slot
    and settle-once `finish`, and the message listener that feeds both.
    Browser calls are inputs: the tab a query returns, whether an injection
    or a storage write succeeded, the current time, and the element tree
    cheerio builds from a page's html. The local and session storage tiers
    are fields the engine writes. */
module Engine {
  import opened JsCore
  import opened Records
  import Extractor
  import KeyListing

  // ---------- inputs ----------

  /** A browser tab, or `sender.tab`. */
  datatype Tab = Tab(id: Option<int>, url: Option<string>, title: Option<string>)

  /** `message.data` of a content-script report; `doc` is the tree cheerio
      builds from `html`. */
  datatype ScanData = ScanData(
    html: Option<string>, doc: Extractor.Node,
    url: Option<string>, title: Option<string>, timestamp: Option<int>)

  datatype Message = Message(msgType: string, data: Option<ScanData>)

  function TabId(tab: Option<Tab>): Option<int> {
    if tab.Some? then tab.value.id else None
  }

  function TabUrl(tab: Option<Tab>): Option<string> {
    if tab.Some? then tab.value.url else None
  }

  function TabTitle(tab: Option<Tab>): Option<string> {
    if tab.Some? then tab.value.title else None
  }

  // ---------- outputs ----------

  /** The `{ totalScans, pagesCount, startedAt }` argument of `onUpdate`, with its key. */
  datatype Report = Report(key: Option<string>, totalScans: nat, pagesCount: nat, startedAt: nat)

  /** `getRuntimeStatus()`. */
  datatype Status = Status(runtimeActive: bool, startedAt: nat, totalScans: nat, pagesCount: nat)

  /** `{ ok: true, key, run }`. */
  datatype Stopped = Stopped(key: string, run: RuntimeRun)

  /** What the listener answers: the one-shot branch acknowledges through
      `sendResponse`, the others do not answer. */
  datatype Reply = Acknowledged | NoReply

  /** Whether each storage write of the one-shot branch took effect. Each
      is attempted on its own and its failure is swallowed: the
      `storage.local.set` of the record, and the two `storage.session`
      updates (the last result and, through a get and a set, the per-tab map). */
  datatype Writes = Writes(localOk: bool, lastResultOk: bool, lastByTabOk: bool)

  const MessageScanResult: string := "analyzer_scanResult"
  const MessageRuntimeScanResult: string := "analyzer_runtimeScanResult"
  const NotInjectableMessage: string :=
    "Questa pagina non consente l'iniezione del content script (protocollo non supportato)."
  const InjectionFailedMessage: string := "Iniezione non riuscita su questa pagina."
  const TimeoutMessage: string := "Timeout: la pagina non ha risposto alla scansione."
  const NotActiveMessage: string := "Runtime non attivo"
  const TimeoutMs: nat := 8000

  // ---------- runtime records ----------

  /** The meta of a runtime record: the reported url, else the tab's; the
      page title, else the reported title, else the tab's; the reported
      timestamp unless it is 0 or absent. */
  function RuntimeMetaOf(data: ScanData, sender: Option<Tab>, results: Extractor.Summary, now: nat): ScanMeta {
    var title := OrNull(Or(data.title, TabTitle(sender)));
    RuntimeMeta(
      TabId(sender),
      OrNull(Or(data.url, TabUrl(sender))),
      if results.head.title != "" then Some(results.head.title) else title,
      if data.timestamp.Some? && data.timestamp.value != 0 then data.timestamp.value else now)
  }

  function RuntimeRecord(data: ScanData, sender: Option<Tab>, now: nat): ScanRecord {
    var results := Extractor.ProcessHtml(data.doc);
    ScanRecord(RuntimeMetaOf(data, sender, results, now), results)
  }

  /** `meta.url || "(url_sconosciuto)"`. */
  function PageKey(meta: ScanMeta): string {
    OrElse(meta.url, UnknownUrlKey)
  }

  /** A runtime record is filed under the reported url, else under the
      tab's url, else under "(url_sconosciuto)". */
  lemma PageKeyRule(data: ScanData, sender: Option<Tab>, now: nat)
    ensures PageKey(RuntimeRecord(data, sender, now).meta) ==
      if Truthy(data.url) then data.url.value
      else if Truthy(TabUrl(sender)) then TabUrl(sender).value
      else UnknownUrlKey
    ensures PageKey(RuntimeRecord(data, sender, now).meta) != ""
  {
  }

  /** The meta of a one-shot record: `sender?.tab?.id ?? null` and
      `sender?.tab?.url ?? null`, so an empty url is kept. */
  function OneTimeRecord(data: ScanData, sender: Option<Tab>, now: nat): ScanRecord {
    ScanRecord(OneTimeMeta(now, TabId(sender), TabUrl(sender)), Extractor.ProcessHtml(data.doc))
  }

  // ---------- tabs the runtime scan injects into ----------

  /** `t?.id && t?.url && /^https?:/i.test(t.url)`. */
  predicate Eligible(t: Tab) {
    t.id.Some? && t.id.value != 0 && Truthy(t.url) && IsHttpSchemeUrl(t.url.value)
  }

  /** The tabs of `tabs` that pass the test, in order. */
  function EligibleTabs(tabs: seq<Tab>): seq<Tab>
    decreases |tabs|
  {
    if tabs == [] then []
    else
      var last := tabs[|tabs| - 1];
      EligibleTabs(tabs[..|tabs| - 1]) + (if Eligible(last) then [last] else [])
  }

  /** Exactly the eligible tabs are injected into. */
  lemma {:induction false} EligibleTabsIff(tabs: seq<Tab>, t: Tab)
    ensures t in EligibleTabs(tabs) <==> t in tabs && Eligible(t)
    decreases |tabs|
  {
    if tabs != [] {
      EligibleTabsIff(tabs[..|tabs| - 1], t);
      assert tabs == tabs[..|tabs| - 1] + [tabs[|tabs| - 1]];
    }
  }

  // ---------- one-shot requests ----------

  /** How a `runOneTimeScan` promise ended. */
  datatype Outcome = Pending | Resolved(results: Extractor.Summary) | Rejected(message: string)

  /** The promise's `timer`: not yet set, running with a deadline, or done. */
  datatype Timer = Unset | Armed(deadline: nat) | Cleared

  /** One `runOneTimeScan` call: its closure's `settled` flag and `timer`,
      its outcome, whether the injection attempt has returned, and how many
      times its result wrapper has run. */
  datatype Request = Request(settled: bool, outcome: Outcome, timer: Timer, injected: bool, deliveries: nat)

  const FreshRequest: Request := Request(false, Pending, Unset, false, 0)

  /** `finish(err, data)` with `timer` declared ahead of it, so that
      clearing an unset timer does nothing: the first call settles the
      request with its outcome and stops the timer; later calls change nothing. */
  function Finish(req: Request, o: Outcome): (r: Request)
    requires o != Pending
    ensures r.settled
    ensures req.settled ==> r == req
    ensures !req.settled ==> r.outcome == o && !r.timer.Armed?
    ensures r.deliveries == req.deliveries && r.injected == req.injected
  {
    if req.settled then req
    else req.(settled := true, outcome := o, timer := if req.timer.Armed? then Cleared else req.timer)
  }

  /** Settling is final: a second finish keeps the first outcome. */
  lemma FinishOnce(req: Request, o: Outcome, o': Outcome)
    requires o != Pending && o' != Pending
    ensures Finish(Finish(req, o), o') == Finish(req, o)
    ensures Finish(Finish(req, o), o').outcome == (if req.settled then req.outcome else o)
  {
  }

  /** What every request satisfies: settled exactly when it has an outcome,
      its wrapper has run at most once, and its timer is set only after
      the injection attempt has returned. */
  predicate RequestOk(r: Request) {
    (r.settled <==> r.outcome != Pending) && r.deliveries <= 1 && (r.timer != Unset ==> r.injected)
  }

  /** The requests settled before are still there, with the same outcome. */
  ghost predicate SettledKept(before: map<nat, Request>, after: map<nat, Request>) {
    forall id :: id in before && before[id].settled ==>
      id in after && after[id].settled && after[id].outcome == before[id].outcome
  }

  class AnalyzerEngine {
    /** `resultCallback`: the request whose result wrapper sits in the slot. */
    var resultCallback: Option<nat>
    var requests: map<nat, Request>
    var nextRequest: nat

    var runtimeActive: bool
    var runtimeStartedAt: nat
    var runtimeDataset: Dataset
    var runtimeTotalScans: nat
    /** Whether `_runtimeCallbacks.onUpdate` / `onComplete` were given. */
    var onUpdate: bool
    var onComplete: bool
    /** Whether `_onTabsUpdatedRef` is installed. */
    var tabsListener: bool

    /** `browser.storage.local`, and the `analyzer_lastResult` and
        `analyzer_lastByTab` values of `browser.storage.session`. */
    var local: KeyListing.Store
    var sessionLastResult: Option<ScanRecord>
    var sessionLastByTab: map<int, ScanRecord>

    ghost predicate Valid()
      reads this
    {
      && runtimeTotalScans == TotalScans(runtimeDataset)
      && tabsListener == runtimeActive
      && (forall id :: id in requests ==> id < nextRequest && RequestOk(requests[id]))
      && (resultCallback.Some? ==>
            resultCallback.value in requests
            && !requests[resultCallback.value].settled
            && requests[resultCallback.value].deliveries == 0)
    }

    /** A new engine over the storage tiers as they are: both outlive the
        background page, so they are given, not emptied. */
    constructor (stored: KeyListing.Store, lastResult: Option<ScanRecord>, lastByTab: map<int, ScanRecord>)
      ensures Valid()
      ensures resultCallback == None && requests == map[] && nextRequest == 0
      ensures !runtimeActive && runtimeStartedAt == 0 && runtimeDataset == map[] && runtimeTotalScans == 0
      ensures !onUpdate && !onComplete && !tabsListener
      ensures local == stored && sessionLastResult == lastResult && sessionLastByTab == lastByTab
    {
      resultCallback := None;
      requests := map[];
      nextRequest := 0;
      runtimeActive := false;
      runtimeStartedAt := 0;
      runtimeDataset := map[];
      runtimeTotalScans := 0;
      onUpdate := false;
      onComplete := false;
      tabsListener := false;
      local := stored;
      sessionLastResult := lastResult;
      sessionLastByTab := lastByTab;
      new;
      EmptyDatasetCounts(runtimeDataset);
    }

    // ---------- runtime session ----------

    /** `startRuntimeScan({ onUpdate, onComplete })`, with the tabs the query
        returns. Returns the tabs it injects into and the initial report. */
    method StartRuntimeScan(now: nat, hasOnUpdate: bool, hasOnComplete: bool, tabs: seq<Tab>)
      returns (injected: seq<Tab>, report: Option<Report>)
      requires Valid()
      modifies this`runtimeActive, this`runtimeStartedAt, this`runtimeDataset,
        this`runtimeTotalScans, this`onUpdate, this`onComplete, this`tabsListener
      ensures Valid()
      ensures old(runtimeActive) ==> unchanged(this) && injected == [] && report == None
      ensures !old(runtimeActive) ==>
        && runtimeActive && runtimeStartedAt == now
        && runtimeDataset == map[] && runtimeTotalScans == 0
        && onUpdate == hasOnUpdate && onComplete == hasOnComplete && tabsListener
        && injected == EligibleTabs(tabs)
        && report == (if hasOnUpdate then Some(Report(None, 0, 0, now)) else None)
    {
      if runtimeActive {
        return [], None;
      }
      runtimeActive := true;
      runtimeStartedAt := now;
      runtimeDataset := map[];
      runtimeTotalScans := 0;
      EmptyDatasetCounts(runtimeDataset);
      onUpdate := hasOnUpdate;
      onComplete := hasOnComplete;
      tabsListener := true;
      injected := [];
      for i := 0 to |tabs|
        invariant injected == EligibleTabs(tabs[..i])
      {
        assert tabs[..i + 1][..i] == tabs[..i];
        if Eligible(tabs[i]) {
          injected := injected + [tabs[i]];
        }
      }
      assert tabs[..|tabs|] == tabs;
      report := if onUpdate then Some(Report(None, 0, 0, runtimeStartedAt)) else None;
    }

    /** The `tabs.onUpdated` listener: whether the updated tab gets the
        runtime script. */
    method OnTabUpdated(tab: Option<Tab>, complete: bool) returns (inject: bool)
      ensures inject ==> runtimeActive && complete
      ensures inject <==> (runtimeActive && complete && Truthy(TabUrl(tab))
        && (StartsWith(ToLowerAscii(TabUrl(tab).value), "http:")
          || StartsWith(ToLowerAscii(TabUrl(tab).value), "https:")))
    {
      if !runtimeActive {
        return false;
      }
      var url := TabUrl(tab);
      inject := complete && Truthy(url) && IsHttpSchemeUrl(url.value);
      if Truthy(url) {
        HttpSchemeUrlIff(url.value);
      }
    }

    /** The `analyzer_runtimeScanResult` branch of the listener. */
    method OnRuntimeScanResult(data: ScanData, sender: Option<Tab>, now: nat) returns (report: Option<Report>)
      requires Valid()
      requires Truthy(data.html)
      modifies this`runtimeDataset, this`runtimeTotalScans
      ensures Valid()
      ensures !old(runtimeActive) ==> unchanged(this) && report == None
      ensures old(runtimeActive) ==>
        var rec := RuntimeRecord(data, sender, now);
        var key := PageKey(rec.meta);
        && runtimeDataset == Append(old(runtimeDataset), key, rec)
        && runtimeTotalScans == old(runtimeTotalScans) + 1
        && report == (if onUpdate
             then Some(Report(Some(key), runtimeTotalScans, |runtimeDataset|, runtimeStartedAt))
             else None)
    {
      if !runtimeActive {
        return None;
      }
      var rec := RuntimeRecord(data, sender, now);
      var key := PageKey(rec.meta);
      AppendCounts(runtimeDataset, key, rec);
      runtimeDataset := Append(runtimeDataset, key, rec);
      runtimeTotalScans := runtimeTotalScans + 1;
      report := if onUpdate
        then Some(Report(Some(key), runtimeTotalScans, |runtimeDataset|, runtimeStartedAt))
        else None;
    }

    /** `stopRuntimeScan()`. `localOk` says whether the storage write
        succeeded (its failure is swallowed); `notified` whether `onComplete` ran. */
    method StopRuntimeScan(now: nat, localOk: bool) returns (r: Result<Stopped>, notified: bool)
      requires Valid()
      modifies this`runtimeActive, this`tabsListener, this`local
      ensures Valid()
      ensures !old(runtimeActive) ==> r == Failure(NotActiveMessage) && !notified && unchanged(this)
      ensures old(runtimeActive) ==>
        var run := RuntimeRun(runtimeStartedAt, now, runtimeTotalScans, |runtimeDataset|, runtimeDataset);
        var key := RuntimeKey(now);
        && r == Success(Stopped(key, run))
        && !runtimeActive && !tabsListener
        && local == (if localOk
             then KeyListing.Put(KeyListing.Put(old(local), key, RunValue(run)), LastKeyName, KeyValue(key))
             else old(local))
        && notified == onComplete
      ensures r.Success? ==> r.value.run.totalScans == TotalScans(r.value.run.dataset)
    {
      if !runtimeActive {
        return Failure(NotActiveMessage), false;
      }
      var run := RuntimeRun(runtimeStartedAt, now, runtimeTotalScans, |runtimeDataset|, runtimeDataset);
      var key := RuntimeKey(now);
      if localOk {
        local := KeyListing.Put(KeyListing.Put(local, key, RunValue(run)), LastKeyName, KeyValue(key));
      }
      runtimeActive := false;
      tabsListener := false;
      notified := onComplete;
      r := Success(Stopped(key, run));
    }

    /** `getRuntimeStatus()`: the reported total is the number of records in
        the dataset, the page count the number of its keys. */
    method GetRuntimeStatus() returns (s: Status)
      requires Valid()
      ensures s.runtimeActive == runtimeActive && s.startedAt == runtimeStartedAt
      ensures s.totalScans == TotalScans(runtimeDataset)
      ensures s.pagesCount == |runtimeDataset|
    {
      s := Status(runtimeActive, runtimeStartedAt, runtimeTotalScans, |runtimeDataset|);
    }

    // ---------- one-shot scan ----------

    /** `runOneTimeScan(tabId, callback)` up to the injection attempt, with
        the tab `browser.tabs.get` returned: a page outside http(s) is
        refused before anything changes; otherwise a new request takes the
        result slot, displacing any earlier one. */
    method RunOneTimeScan(tab: Option<Tab>) returns (r: Result<nat>)
      requires Valid()
      modifies this`requests, this`nextRequest, this`resultCallback
      ensures Valid()
      ensures SettledKept(old(requests), requests)
      ensures !IsInjectableUrl(OrElse(TabUrl(tab), "")) ==>
        r == Failure(NotInjectableMessage) && unchanged(this)
      ensures IsInjectableUrl(OrElse(TabUrl(tab), "")) ==>
        && r == Success(old(nextRequest))
        && old(nextRequest) !in old(requests)
        && requests == old(requests)[old(nextRequest) := FreshRequest]
        && nextRequest == old(nextRequest) + 1
        && resultCallback == Some(old(nextRequest))
    {
      var url := OrElse(TabUrl(tab), "");
      if !IsInjectableUrl(url) {
        return Failure(NotInjectableMessage);
      }
      var id := nextRequest;
      requests := requests[id := FreshRequest];
      nextRequest := nextRequest + 1;
      resultCallback := Some(id);
      r := Success(id);
    }

    /** The injection attempt of request `id` returns: on failure the
        request is rejected; on success its 8000 ms timer starts. */
    method InjectionReturned(id: nat, ok: bool, now: nat)
      requires Valid()
      requires id in requests && !requests[id].injected
      modifies this`requests, this`resultCallback
      ensures Valid()
      ensures SettledKept(old(requests), requests)
      ensures var req := old(requests[id]).(injected := true);
        if ok then
          requests == old(requests)[id := req.(timer := Armed(now + TimeoutMs))]
          && resultCallback == old(resultCallback)
        else
          requests == old(requests)[id := Finish(req, Rejected(InjectionFailedMessage))]
          && resultCallback == (if req.settled then old(resultCallback) else None)
    {
      var req := requests[id].(injected := true);
      if ok {
        requests := requests[id := req.(timer := Armed(now + TimeoutMs))];
      } else {
        if !req.settled {
          resultCallback := None;
        }
        requests := requests[id := Finish(req, Rejected(InjectionFailedMessage))];
      }
    }

    /** The timer of request `id` fires at or after its deadline. */
    method TimerFires(id: nat, now: nat)
      requires Valid()
      requires id in requests && requests[id].timer.Armed? && now >= requests[id].timer.deadline
      modifies this`requests, this`resultCallback
      ensures Valid()
      ensures SettledKept(old(requests), requests)
      ensures var req := old(requests[id]).(timer := Cleared);
        && requests == old(requests)[id := Finish(req, Rejected(TimeoutMessage))]
        && resultCallback == (if req.settled then old(resultCallback) else None)
    {
      var req := requests[id].(timer := Cleared);
      if !req.settled {
        resultCallback := None;
      }
      requests := requests[id := Finish(req, Rejected(TimeoutMessage))];
    }

    /** The storage writes of the `analyzer_scanResult` branch: the record
        under `analyzerResults_<now>` in local storage, and in session
        storage as the last result and, for a sender with a tab id, as that
        tab's last result. A failed write is swallowed. */
    method StoreOneTimeRecord(rec: ScanRecord, now: nat, w: Writes)
      modifies this`local, this`sessionLastResult, this`sessionLastByTab
      ensures local == (if w.localOk then KeyListing.Put(old(local), ResultsKey(now), ScanValue(rec)) else old(local))
      ensures sessionLastResult == (if w.lastResultOk then Some(rec) else old(sessionLastResult))
      ensures sessionLastByTab == (if w.lastByTabOk && rec.meta.tabId.Some?
        then old(sessionLastByTab)[rec.meta.tabId.value := rec] else old(sessionLastByTab))
    {
      if w.localOk {
        local := KeyListing.Put(local, ResultsKey(now), ScanValue(rec));
      }
      if w.lastResultOk {
        sessionLastResult := Some(rec);
      }
      if w.lastByTabOk && rec.meta.tabId.Some? {
        sessionLastByTab := sessionLastByTab[rec.meta.tabId.value := rec];
      }
    }

    /** `if (this.resultCallback) { cb = ...; this.resultCallback = null; cb(results) }`:
        the slot is emptied before its wrapper runs, and the wrapper resolves
        its request. */
    method DeliverResult(results: Extractor.Summary)
      requires Valid()
      modifies this`resultCallback, this`requests
      ensures Valid()
      ensures SettledKept(old(requests), requests)
      ensures resultCallback == None
      ensures old(resultCallback).None? ==> requests == old(requests)
      ensures old(resultCallback).Some? ==>
        var id := old(resultCallback).value;
        var req := old(requests[id]);
        && requests == old(requests)[id := Finish(req.(deliveries := 1), Resolved(results))]
        && requests[id].settled && requests[id].outcome == Resolved(results)
        && requests[id].deliveries == 1
    {
      if resultCallback.Some? {
        var id := resultCallback.value;
        resultCallback := None;
        var req := requests[id];
        requests := requests[id := Finish(req.(deliveries := req.deliveries + 1), Resolved(results))];
      }
    }

    /** The `analyzer_scanResult` branch of the listener. */
    method OnScanResult(data: ScanData, sender: Option<Tab>, now: nat, w: Writes)
      requires Valid()
      requires Truthy(data.html)
      modifies this`local, this`sessionLastResult, this`sessionLastByTab, this`resultCallback, this`requests
      ensures Valid()
      ensures SettledKept(old(requests), requests)
      ensures var rec := OneTimeRecord(data, sender, now);
        && local == (if w.localOk then KeyListing.Put(old(local), ResultsKey(now), ScanValue(rec)) else old(local))
        && sessionLastResult == (if w.lastResultOk then Some(rec) else old(sessionLastResult))
        && sessionLastByTab == (if w.lastByTabOk && rec.meta.tabId.Some?
             then old(sessionLastByTab)[rec.meta.tabId.value := rec] else old(sessionLastByTab))
      ensures resultCallback == None
      ensures old(resultCallback).None? ==> requests == old(requests)
      ensures old(resultCallback).Some? ==>
        var id := old(resultCallback).value;
        var results := OneTimeRecord(data, sender, now).results;
        && requests == old(requests)[id := Finish(old(requests[id]).(deliveries := 1), Resolved(results))]
        && requests[id].settled && requests[id].outcome == Resolved(results)
        && requests[id].deliveries == 1
    {
      var rec := OneTimeRecord(data, sender, now);
      StoreOneTimeRecord(rec, now, w);
      DeliverResult(rec.results);
    }

    /** The message listener: a report with html goes to its branch; any
        other message changes nothing. */
    method OnMessage(msg: Message, sender: Option<Tab>, now: nat, w: Writes)
      returns (reply: Reply, report: Option<Report>)
      requires Valid()
      modifies this`local, this`sessionLastResult, this`sessionLastByTab, this`resultCallback, this`requests,
        this`runtimeDataset, this`runtimeTotalScans
      ensures Valid()
      ensures SettledKept(old(requests), requests)
      ensures reply == Acknowledged <==>
        msg.msgType == MessageScanResult && msg.data.Some? && Truthy(msg.data.value.html)
      ensures reply == Acknowledged ==>
        var rec := OneTimeRecord(msg.data.value, sender, now);
        && local == (if w.localOk then KeyListing.Put(old(local), ResultsKey(now), ScanValue(rec)) else old(local))
        && sessionLastResult == (if w.lastResultOk then Some(rec) else old(sessionLastResult))
        && sessionLastByTab == (if w.lastByTabOk && rec.meta.tabId.Some?
             then old(sessionLastByTab)[rec.meta.tabId.value := rec] else old(sessionLastByTab))
        && resultCallback == None && report == None
        && (old(resultCallback).None? ==> requests == old(requests))
        && (old(resultCallback).Some? ==>
              requests == old(requests)[old(resultCallback).value :=
                Finish(old(requests[resultCallback.value]).(deliveries := 1), Resolved(rec.results))])
        && unchanged(this`runtimeDataset, this`runtimeTotalScans)
      ensures msg.msgType == MessageRuntimeScanResult && msg.data.Some? && Truthy(msg.data.value.html) ==>
        var rec := RuntimeRecord(msg.data.value, sender, now);
        var key := PageKey(rec.meta);
        && reply == NoReply
        && unchanged(this`local, this`sessionLastResult, this`sessionLastByTab, this`resultCallback, this`requests)
        && runtimeDataset == (if old(runtimeActive) then Append(old(runtimeDataset), key, rec)
             else old(runtimeDataset))
        && runtimeTotalScans == old(runtimeTotalScans) + (if old(runtimeActive) then 1 else 0)
        && report == (if old(runtimeActive) && onUpdate
             then Some(Report(Some(key), runtimeTotalScans, |runtimeDataset|, runtimeStartedAt))
             else None)
      ensures !(msg.data.Some? && Truthy(msg.data.value.html))
        || (msg.msgType != MessageScanResult && msg.msgType != MessageRuntimeScanResult)
        ==> unchanged(this) && reply == NoReply && report == None
    {
      reply, report := NoReply, None;
      if msg.data.Some? && Truthy(msg.data.value.html) {
        if msg.msgType == MessageScanResult {
          OnScanResult(msg.data.value, sender, now, w);
          reply := Acknowledged;
        } else if msg.msgType == MessageRuntimeScanResult {
          report := OnRuntimeScanResult(msg.data.value, sender, now);
          assert SettledKept(old(requests), requests);
        }
      }
    }
  }
}
