/** The iOS scanner (`BonjourZeroconf.swift`, `BonjourZeroconf+Listeners.swift`): service
    identity keys, the batch processing of browse-result changes, the scanning flag whose every
    assignment notifies, and the three listener registries. */
module IosBonjour {
  import opened Common
  import opened Notify
  import Snapshot
  import opened IosServiceCache
  import opened IosAddressResolver

  // ---------------------------------------------------------------- identity

  /** `serviceKey(for:)`: `name.type.domain` for a service endpoint, none for any other. */
  function ServiceKey(e: Endpoint): (k: Option<string>)
    ensures k.Some? <==> e.Service?
  {
    if e.Service? then Some(e.name + "." + e.serviceType + "." + e.domain) else None
  }

  /** For one service type and domain, the key tells names apart. */
  lemma ServiceKeyNames(e: Endpoint, f: Endpoint)
    requires e.Service? && f.Service?
    requires e.serviceType == f.serviceType && e.domain == f.domain
    ensures ServiceKey(e) == ServiceKey(f) <==> e.name == f.name
  {
    var tail := "." + e.serviceType + "." + e.domain;
    assert ServiceKey(e).value == e.name + tail;
    assert ServiceKey(f).value == f.name + tail;
    if ServiceKey(e) == ServiceKey(f) {
      assert |e.name| == |f.name|;
      assert e.name == (e.name + tail)[..|e.name|];
      assert f.name == (f.name + tail)[..|f.name|];
    }
  }

  /** The key is not injective across types: a dot in a name can stand for the dot between
      name and type. */
  lemma ServiceKeyCollision()
    ensures exists e: Endpoint, f: Endpoint ::
      e.Service? && f.Service? && e != f && ServiceKey(e) == ServiceKey(f)
  {
    var e := Service("a.b", "c", "local", None);
    var f := Service("a", "b.c", "local", None);
    assert ServiceKey(e).value == "a.b.c.local";
    assert ServiceKey(f).value == "a.b.c.local";
  }

  // ---------------------------------------------------------------- the change batch

  /** `NWBrowser.Result.Change`; a browse result is represented by its endpoint. */
  datatype Change =
    | Added(result: Endpoint)
    | Removed(result: Endpoint)
    | Changed(previous: Endpoint, current: Endpoint)
    | Identical

  /** An entry of `servicesToResolve`. */
  datatype Pending = Pending(key: string, name: string)

  /** The first loop of `processChanges` as a value: the cache after its removals, the
      services to resolve and the `hasChanges` flag. */
  datatype Plan = Plan(cache: map<string, ScanResult>, toResolve: seq<Pending>, hasChanges: bool)

  function PlanChange(p: Plan, c: Change): Plan {
    match c
    case Added(r) =>
      (match ServiceKey(r)
       case None => p
       case Some(k) =>
         if k in p.cache then p else Plan(p.cache, p.toResolve + [Pending(k, r.name)], true))
    case Removed(r) =>
      (match ServiceKey(r)
       case None => p
       case Some(k) =>
         if k in p.cache then Plan(p.cache - {k}, p.toResolve, true) else p)
    case Changed(_, n) =>
      (match ServiceKey(n)
       case None => p
       case Some(k) => Plan(p.cache, p.toResolve + [Pending(k, n.name)], true))
    case Identical => p
  }

  /** The batch `cs` folded over the cache `m`, in iteration order. */
  function PlanBatch(m: map<string, ScanResult>, cs: seq<Change>): (p: Plan)
    ensures p.cache.Keys <= m.Keys
    ensures |p.toResolve| <= |cs|
    decreases |cs|
  {
    if cs == [] then Plan(m, [], false)
    else PlanChange(PlanBatch(m, cs[..|cs| - 1]), cs[|cs| - 1])
  }

  /** One step of the fold, case by case. */
  lemma PlanChangeCases(p: Plan, c: Change)
    ensures c.Identical? ==> PlanChange(p, c) == p
    ensures c.Added? && c.result.Service? ==>
      var k := ServiceKey(c.result).value;
      if k in p.cache then PlanChange(p, c) == p
      else
        (&& PlanChange(p, c).cache == p.cache && PlanChange(p, c).hasChanges
         && PlanChange(p, c).toResolve == p.toResolve + [Pending(k, c.result.name)])
    ensures c.Removed? && c.result.Service? ==>
      var k := ServiceKey(c.result).value;
      && k !in PlanChange(p, c).cache
      && PlanChange(p, c).toResolve == p.toResolve
      && PlanChange(p, c).hasChanges == (p.hasChanges || k in p.cache)
    ensures c.Changed? && c.current.Service? ==>
      && PlanChange(p, c).cache == p.cache && PlanChange(p, c).hasChanges
      && PlanChange(p, c).toResolve == p.toResolve + [Pending(ServiceKey(c.current).value, c.current.name)]
    ensures (c.Added? || c.Removed?) && !c.result.Service? ==> PlanChange(p, c) == p
    ensures c.Changed? && !c.current.Service? ==> PlanChange(p, c) == p
  {
  }

  /** The keys a batch asks to remove. */
  function RemovedKeys(cs: seq<Change>): set<string> {
    set i | 0 <= i < |cs| && cs[i].Removed? && cs[i].result.Service? :: ServiceKey(cs[i].result).value
  }

  lemma RemovedKeysSnoc(cs: seq<Change>, c: Change)
    ensures RemovedKeys(cs + [c]) ==
      RemovedKeys(cs) + (if c.Removed? && c.result.Service? then {ServiceKey(c.result).value} else {})
  {
    var s := cs + [c];
    assert s[|cs|] == c;
    forall k | k in RemovedKeys(cs) ensures k in RemovedKeys(s) {
      var i :| 0 <= i < |cs| && cs[i].Removed? && cs[i].result.Service? && ServiceKey(cs[i].result).value == k;
      assert s[i] == cs[i];
    }
    forall k | k in RemovedKeys(s)
      ensures k in RemovedKeys(cs) + (if c.Removed? && c.result.Service? then {ServiceKey(c.result).value} else {})
    {
      var i :| 0 <= i < |s| && s[i].Removed? && s[i].result.Service? && ServiceKey(s[i].result).value == k;
      if i < |cs| { assert cs[i] == s[i]; }
    }
  }

  /** The first loop only removes: what is left is the cache minus the removed keys. */
  lemma {:induction false} PlanCache(m: map<string, ScanResult>, cs: seq<Change>)
    ensures PlanBatch(m, cs).cache == m - RemovedKeys(cs)
    decreases |cs|
  {
    if cs != [] {
      var init, c := cs[..|cs| - 1], cs[|cs| - 1];
      assert cs == init + [c];
      PlanCache(m, init);
      RemovedKeysSnoc(init, c);
    }
  }

  /** `hasChanges` is set exactly when something is to be resolved or a cached entry was removed. */
  lemma {:induction false} PlanHasChanges(m: map<string, ScanResult>, cs: seq<Change>)
    ensures PlanBatch(m, cs).hasChanges <==> |PlanBatch(m, cs).toResolve| > 0 || PlanBatch(m, cs).cache != m
    decreases |cs|
  {
    if cs != [] {
      var init, c := cs[..|cs| - 1], cs[|cs| - 1];
      PlanHasChanges(m, init);
      PlanCache(m, init);
      PlanStepHasChanges(m, PlanBatch(m, init), c);
    }
  }

  /** One step keeps `hasChanges` in step with the queue and the removals, while the cache only
      shrinks. */
  lemma PlanStepHasChanges(m: map<string, ScanResult>, p: Plan, c: Change)
    requires p.cache.Keys <= m.Keys
    requires p.hasChanges <==> |p.toResolve| > 0 || p.cache != m
    ensures PlanChange(p, c).hasChanges <==> |PlanChange(p, c).toResolve| > 0 || PlanChange(p, c).cache != m
  {
    if c.Removed? && c.result.Service? {
      var k := ServiceKey(c.result).value;
      if k in p.cache {
        assert k in m && k !in PlanChange(p, c).cache;
      }
    }
  }

  /** Every Changed change of a service is enqueued, whatever the cache holds. */
  lemma {:induction false} PlanChangedEnqueued(m: map<string, ScanResult>, cs: seq<Change>, j: nat)
    requires j < |cs| && cs[j].Changed? && cs[j].current.Service?
    ensures Pending(ServiceKey(cs[j].current).value, cs[j].current.name) in PlanBatch(m, cs).toResolve
    decreases |cs|
  {
    var init, c := cs[..|cs| - 1], cs[|cs| - 1];
    if j < |cs| - 1 {
      assert init[j] == cs[j];
      PlanChangedEnqueued(m, init, j);
      PlanQueueGrows(PlanBatch(m, init), c);
    }
  }

  lemma PlanQueueGrows(p: Plan, c: Change)
    ensures p.toResolve <= PlanChange(p, c).toResolve
  {
  }

  /** An Added change whose key is not cached at its turn is enqueued. */
  lemma {:induction false} PlanAddedEnqueued(m: map<string, ScanResult>, cs: seq<Change>, j: nat)
    requires j < |cs| && cs[j].Added? && cs[j].result.Service?
    requires ServiceKey(cs[j].result).value !in m - RemovedKeys(cs[..j])
    ensures Pending(ServiceKey(cs[j].result).value, cs[j].result.name) in PlanBatch(m, cs).toResolve
    decreases |cs|
  {
    var init, c := cs[..|cs| - 1], cs[|cs| - 1];
    if j < |cs| - 1 {
      assert init[j] == cs[j];
      assert init[..j] == cs[..j];
      PlanAddedEnqueued(m, init, j);
      PlanQueueGrows(PlanBatch(m, init), c);
    } else {
      assert init == cs[..j];
      PlanCache(m, init);
    }
  }

  /** A batch of Added changes for services already cached, and Identical changes, changes
      nothing and asks for nothing. */
  lemma {:induction false} PlanAllCached(m: map<string, ScanResult>, cs: seq<Change>)
    requires forall i :: 0 <= i < |cs| ==>
      cs[i].Identical? || (cs[i].Added? && cs[i].result.Service? && ServiceKey(cs[i].result).value in m)
    ensures PlanBatch(m, cs) == Plan(m, [], false)
    decreases |cs|
  {
    if cs != [] {
      var init := cs[..|cs| - 1];
      assert forall i :: 0 <= i < |init| ==> init[i] == cs[i];
      PlanAllCached(m, init);
    }
  }

  // ---------------------------------------------------------------- resolution writes

  /** One `(key, scanResult)` pair taken off the task group. */
  datatype Write = Write(key: string, value: Option<ScanResult>)

  /** The second loop of `processChanges`: only results that are present are stored. */
  function ApplyWrites(m: map<string, ScanResult>, ws: seq<Write>): (r: map<string, ScanResult>)
    ensures m.Keys <= r.Keys
    ensures forall k :: k in r && k !in m ==> exists i :: 0 <= i < |ws| && ws[i].key == k
    decreases |ws|
  {
    if ws == [] then m
    else
      var before := ApplyWrites(m, ws[..|ws| - 1]);
      var w := ws[|ws| - 1];
      if w.value.Some? then before[w.key := w.value.value] else before
  }

  lemma ApplyWritesSnoc(m: map<string, ScanResult>, ws: seq<Write>, w: Write)
    ensures ApplyWrites(m, ws + [w]) ==
      if w.value.Some? then ApplyWrites(m, ws)[w.key := w.value.value] else ApplyWrites(m, ws)
  {
    assert (ws + [w])[..|ws|] == ws;
  }

  /** The last present result written under `k`. */
  function LastWrite(ws: seq<Write>, k: string): Option<ScanResult>
    decreases |ws|
  {
    if ws == [] then None
    else if ws[|ws| - 1].key == k && ws[|ws| - 1].value.Some? then ws[|ws| - 1].value
    else LastWrite(ws[..|ws| - 1], k)
  }

  /** A key reads its last present result, or else what the cache held before. */
  lemma {:induction false} ApplyWritesLookup(m: map<string, ScanResult>, ws: seq<Write>, k: string)
    ensures k in ApplyWrites(m, ws) <==> k in m || LastWrite(ws, k).Some?
    ensures k in ApplyWrites(m, ws) ==>
      ApplyWrites(m, ws)[k] == if LastWrite(ws, k).Some? then LastWrite(ws, k).value else m[k]
    decreases |ws|
  {
    if ws != [] {
      ApplyWritesLookup(m, ws[..|ws| - 1], k);
    }
  }

  /** With one write under `k`, the last present result is that write's value. */
  lemma {:induction false} LastWriteSingle(ws: seq<Write>, k: string, i: nat)
    requires i < |ws| && ws[i].key == k
    requires forall j :: 0 <= j < |ws| && j != i ==> ws[j].key != k
    ensures LastWrite(ws, k) == ws[i].value
    decreases |ws|
  {
    var init := ws[..|ws| - 1];
    assert forall j :: 0 <= j < |init| ==> init[j] == ws[j];
    if i < |ws| - 1 {
      LastWriteSingle(init, k, i);
    } else {
      LastWriteAbsent(init, k);
    }
  }

  /** The order in which the task group hands back its `n` tasks: each exactly once. */
  predicate IsOrder(order: seq<nat>, n: nat) {
    && |order| == n
    && Distinct(order)
    && (forall i :: 0 <= i < |order| ==> order[i] < n)
    && (forall t :: 0 <= t < n ==> t in order)
  }

  predicate AttemptsFit(tasks: seq<Pending>, attempts: seq<seq<AttemptEvent>>) {
    |attempts| == |tasks| && forall t :: 0 <= t < |attempts| ==> WellFormedEvents(attempts[t])
  }

  /** What task `t` returns. */
  function TaskResult(tasks: seq<Pending>, attempts: seq<seq<AttemptEvent>>, t: nat): Option<ScanResult>
    requires AttemptsFit(tasks, attempts) && t < |tasks|
  {
    ResolvedValue(AttemptOutcome(attempts[t], tasks[t].name))
  }

  /** The writes of the tasks taken off in `order`. */
  function Writes(tasks: seq<Pending>, attempts: seq<seq<AttemptEvent>>, order: seq<nat>): (ws: seq<Write>)
    requires AttemptsFit(tasks, attempts)
    requires forall i :: 0 <= i < |order| ==> order[i] < |tasks|
    ensures |ws| == |order|
    ensures forall i :: 0 <= i < |order| ==>
      ws[i] == Write(tasks[order[i]].key, TaskResult(tasks, attempts, order[i]))
    decreases |order|
  {
    if order == [] then []
    else
      var t := order[|order| - 1];
      Writes(tasks, attempts, order[..|order| - 1]) + [Write(tasks[t].key, TaskResult(tasks, attempts, t))]
  }

  /** The fail notifications the tasks send, in the order they finish. */
  function FailPayloads(tasks: seq<Pending>, attempts: seq<seq<AttemptEvent>>, order: seq<nat>): seq<Payload>
    requires AttemptsFit(tasks, attempts)
    requires forall i :: 0 <= i < |order| ==> order[i] < |tasks|
    decreases |order|
  {
    if order == [] then []
    else
      var t := order[|order| - 1];
      FailPayloads(tasks, attempts, order[..|order| - 1]) + FailPayload(AttemptOutcome(attempts[t], tasks[t].name))
  }

  /** Taking one more task off the group adds its write and its fail notification, if any. */
  lemma TaskStep(tasks: seq<Pending>, attempts: seq<seq<AttemptEvent>>, order: seq<nat>, j: nat)
    requires AttemptsFit(tasks, attempts) && j < |order|
    requires forall i :: 0 <= i < |order| ==> order[i] < |tasks|
    ensures var t := order[j];
      Writes(tasks, attempts, order[..j + 1]) ==
        Writes(tasks, attempts, order[..j]) + [Write(tasks[t].key, TaskResult(tasks, attempts, t))]
    ensures var t := order[j];
      FailPayloads(tasks, attempts, order[..j + 1]) ==
        FailPayloads(tasks, attempts, order[..j]) + FailPayload(AttemptOutcome(attempts[t], tasks[t].name))
  {
    assert order[..j + 1][..j] == order[..j];
  }

  lemma WritesStep(m: map<string, ScanResult>, tasks: seq<Pending>, attempts: seq<seq<AttemptEvent>>,
                   order: seq<nat>, j: nat)
    requires AttemptsFit(tasks, attempts) && j < |order|
    requires forall i :: 0 <= i < |order| ==> order[i] < |tasks|
    ensures var t := order[j]; var w := TaskResult(tasks, attempts, t);
      ApplyWrites(m, Writes(tasks, attempts, order[..j + 1])) ==
        if w.Some? then ApplyWrites(m, Writes(tasks, attempts, order[..j]))[tasks[t].key := w.value]
        else ApplyWrites(m, Writes(tasks, attempts, order[..j]))
  {
    var t := order[j];
    TaskStep(tasks, attempts, order, j);
    ApplyWritesSnoc(m, Writes(tasks, attempts, order[..j]), Write(tasks[t].key, TaskResult(tasks, attempts, t)));
  }

  lemma FailsStep(ids: set<Uuid>, tasks: seq<Pending>, attempts: seq<seq<AttemptEvent>>, order: seq<nat>, j: nat,
                  sent: seq<Notification>, more: seq<Notification>)
    requires AttemptsFit(tasks, attempts) && j < |order|
    requires forall i :: 0 <= i < |order| ==> order[i] < |tasks|
    requires FanOuts(ids, FailPayloads(tasks, attempts, order[..j]), sent)
    requires FanOuts(ids, FailPayload(AttemptOutcome(attempts[order[j]], tasks[order[j]].name)), more)
    ensures FanOuts(ids, FailPayloads(tasks, attempts, order[..j + 1]), sent + more)
  {
    TaskStep(tasks, attempts, order, j);
    FanOutsConcat(ids, FailPayloads(tasks, attempts, order[..j]), sent,
                  FailPayload(AttemptOutcome(attempts[order[j]], tasks[order[j]].name)), more);
  }

  lemma AppendAssoc<T>(a: seq<T>, b: seq<T>, c: seq<T>)
    ensures (a + b) + c == a + (b + c)
  {
  }

  /** When the keys of the batch differ, each enqueued key ends up holding what its
      resolution returned, or what the cache held before when that was nil. */
  lemma ResolvedEntry(m: map<string, ScanResult>, tasks: seq<Pending>, attempts: seq<seq<AttemptEvent>>,
                      order: seq<nat>, t: nat)
    requires AttemptsFit(tasks, attempts) && IsOrder(order, |tasks|) && t < |tasks|
    requires forall a, b :: 0 <= a < b < |tasks| ==> tasks[a].key != tasks[b].key
    ensures var after := ApplyWrites(m, Writes(tasks, attempts, order));
      var k := tasks[t].key;
      match TaskResult(tasks, attempts, t)
      case Some(r) => k in after && after[k] == r
      case None => (k in after <==> k in m) && (k in m ==> after[k] == m[k])
  {
    var ws := Writes(tasks, attempts, order);
    assert t in order;
    var i :| 0 <= i < |order| && order[i] == t;
    forall j | 0 <= j < |ws| && j != i ensures ws[j].key != tasks[t].key {
      assert order[j] != order[i];
    }
    LastWriteSingle(ws, tasks[t].key, i);
    ApplyWritesLookup(m, ws, tasks[t].key);
  }

  /** A key the batch did not enqueue keeps its entry through the writes. */
  lemma UnresolvedEntry(m: map<string, ScanResult>, tasks: seq<Pending>, attempts: seq<seq<AttemptEvent>>,
                        order: seq<nat>, k: string)
    requires AttemptsFit(tasks, attempts) && IsOrder(order, |tasks|)
    requires forall t :: 0 <= t < |tasks| ==> tasks[t].key != k
    ensures var after := ApplyWrites(m, Writes(tasks, attempts, order));
      (k in after <==> k in m) && (k in m ==> after[k] == m[k])
  {
    var ws := Writes(tasks, attempts, order);
    assert LastWrite(ws, k) == None by {
      LastWriteAbsent(ws, k);
    }
    ApplyWritesLookup(m, ws, k);
  }

  lemma {:induction false} LastWriteAbsent(ws: seq<Write>, k: string)
    requires forall j :: 0 <= j < |ws| ==> ws[j].key != k
    ensures LastWrite(ws, k) == None
    decreases |ws|
  {
    if ws != [] {
      var init := ws[..|ws| - 1];
      assert forall j :: 0 <= j < |init| ==> init[j] == ws[j];
      LastWriteAbsent(init, k);
    }
  }

  // ---------------------------------------------------------------- the scanner

  const DefaultResolveTimeout: real := 10.0

  /** `options?.addressResolveTimeout ?? DEFAULT_RESOLVE_TIMEOUT`. */
  function ResolveTimeout(options: Option<ScanOptions>): (t: real)
    ensures options.Some? && options.value.addressResolveTimeout.Some? ==> t == options.value.addressResolveTimeout.value
    ensures options.None? || options.value.addressResolveTimeout.None? ==> t == DefaultResolveTimeout
  {
    if options.Some? then options.value.addressResolveTimeout.GetOr(DefaultResolveTimeout) else DefaultResolveTimeout
  }

  /** An `NWBrowser` the scanner created, with what its handlers captured. */
  datatype Browser = Browser(serviceType: string, domain: string, resolveTimeout: real, cancelled: bool)

  /** `NWBrowser.State`. */
  datatype BrowserState = BrowserSetup | BrowserReady | BrowserWaiting(waitCode: int) | BrowserFailed(failCode: int) | BrowserCancelled

  class BonjourZeroconf {
    /** Every browser created so far; the handlers of each one stay installed. */
    var browsers: seq<Browser>
    /** `_browser`: the index of the last browser created. */
    var current: Option<nat>
    var scanning: bool
    const serviceCache: ServiceCache
    var resultsListeners: set<Uuid>
    var stateListeners: set<Uuid>
    var failListeners: set<Uuid>
    /** Every listener invocation, in order. */
    var trace: seq<Notification>

    ghost predicate Valid()
      reads this
    {
      current.Some? ==> current.value < |browsers|
    }

    constructor ()
      ensures Valid() && fresh(serviceCache)
      ensures browsers == [] && current == None && !scanning && serviceCache.cache == map[]
      ensures resultsListeners == {} && stateListeners == {} && failListeners == {} && trace == []
    {
      browsers := [];
      current := None;
      scanning := false;
      serviceCache := new ServiceCache();
      resultsListeners := {};
      stateListeners := {};
      failListeners := {};
      trace := [];
    }

    /** Invokes the listener of every id in `ids` once with `p`, in the map's order. */
    method FanOutTo(ids: set<Uuid>, p: Payload) returns (ghost sent: seq<Notification>)
      modifies this`trace
      ensures trace == old(trace) + sent
      ensures FanOut(ids, p, sent)
    {
      var rest := ids;
      sent := [];
      ghost var done: set<Uuid> := {};
      while rest != {}
        invariant rest + done == ids && rest !! done
        invariant trace == old(trace) + sent
        invariant FanOut(done, p, sent)
        decreases rest
      {
        var id :| id in rest;
        FanOutExtend(done, p, sent, id);
        trace := trace + [Notification(id, p)];
        sent := sent + [Notification(id, p)];
        done := done + {id};
        rest := rest - {id};
      }
    }

    /** `notifyScanResultsListeners(with:)`: every results listener, once, the same array. */
    method NotifyScanResults(results: seq<ScanResult>) returns (ghost sent: seq<Notification>)
      modifies this`trace
      ensures trace == old(trace) + sent
      ensures FanOut(resultsListeners, Results(results), sent)
    {
      sent := FanOutTo(resultsListeners, Results(results));
    }

    /** `notifyScanStateListeners(with:)`. */
    method NotifyScanState(scanningState: bool) returns (ghost sent: seq<Notification>)
      modifies this`trace
      ensures trace == old(trace) + sent
      ensures FanOut(stateListeners, State(scanningState), sent)
    {
      sent := FanOutTo(stateListeners, State(scanningState));
    }

    /** `notifyScanFailListeners(with:)`. */
    method NotifyScanFail(fail: BonjourFail) returns (ghost sent: seq<Notification>)
      modifies this`trace
      ensures trace == old(trace) + sent
      ensures FanOut(failListeners, Fail(fail), sent)
    {
      sent := FanOutTo(failListeners, Fail(fail));
    }

    /** An assignment to `_isScanning`: its `didSet` notifies the state listeners with the new
        value, whether or not the value changed. */
    method SetScanning(value: bool) returns (ghost sent: seq<Notification>)
      modifies this`scanning, this`trace
      ensures scanning == value
      ensures trace == old(trace) + sent
      ensures FanOut(stateListeners, State(value), sent)
    {
      scanning := value;
      sent := NotifyScanState(value);
    }

    /** `scan(type:domain:options:)`: refused while scanning; otherwise a new browser with the
        resolve timeout of the options or 10 seconds becomes current and scanning turns on. */
    method Scan(serviceType: string, domain: string, options: Option<ScanOptions>)
      returns (ghost sent: seq<Notification>)
      requires Valid()
      modifies this`browsers, this`current, this`scanning, this`trace
      ensures Valid()
      ensures old(scanning) ==>
        browsers == old(browsers) && current == old(current) && scanning && sent == [] && trace == old(trace)
      ensures !old(scanning) ==>
        && browsers == old(browsers) + [Browser(serviceType, domain, ResolveTimeout(options), false)]
        && current == Some(|old(browsers)|)
        && scanning
        && trace == old(trace) + sent
        && FanOut(stateListeners, State(true), sent)
    {
      if scanning {
        sent := [];
        return;
      }
      var timeout := ResolveTimeout(options);
      browsers := browsers + [Browser(serviceType, domain, timeout, false)];
      current := Some(|browsers| - 1);
      sent := SetScanning(true);
    }

    /** The state handler of browser `b`: failure notifies the fail listeners, cancels that
        browser and turns scanning off; cancellation turns scanning off; the rest is ignored.
        Any browser's handler may fire, not only the current one's. */
    method OnBrowserStateUpdate(b: nat, s: BrowserState)
      returns (ghost failSent: seq<Notification>, ghost stateSent: seq<Notification>)
      requires Valid() && b < |browsers|
      modifies this`browsers, this`scanning, this`trace
      ensures Valid()
      ensures trace == old(trace) + failSent + stateSent
      ensures s.BrowserFailed? ==>
        && browsers == old(browsers)[b := old(browsers)[b].(cancelled := true)]
        && FanOut(failListeners, Fail(DiscoveryFailed), failSent)
      ensures !s.BrowserFailed? ==> browsers == old(browsers) && failSent == []
      ensures s.BrowserFailed? || s.BrowserCancelled? ==>
        !scanning && FanOut(stateListeners, State(false), stateSent)
      ensures !(s.BrowserFailed? || s.BrowserCancelled?) ==> scanning == old(scanning) && stateSent == []
    {
      failSent, stateSent := [], [];
      match s {
        case BrowserFailed(_) =>
          failSent := NotifyScanFail(DiscoveryFailed);
          browsers := browsers[b := browsers[b].(cancelled := true)];
          stateSent := SetScanning(false);
        case BrowserCancelled =>
          stateSent := SetScanning(false);
        case _ =>
      }
    }

    /** `stop()`: cancels the current browser if there is one, turns scanning off (notifying
        even when already off) and clears the cache; `_browser` keeps pointing at the browser. */
    method Stop() returns (ghost sent: seq<Notification>)
      requires Valid()
      modifies this`browsers, this`scanning, this`trace, serviceCache`cache
      ensures Valid()
      ensures !scanning && serviceCache.cache == map[]
      ensures current == old(current)
      ensures current.Some? ==> browsers == old(browsers)[current.value := old(browsers)[current.value].(cancelled := true)]
      ensures current.None? ==> browsers == old(browsers)
      ensures trace == old(trace) + sent
      ensures FanOut(stateListeners, State(false), sent)
    {
      if current.Some? {
        browsers := browsers[current.value := browsers[current.value].(cancelled := true)];
      }
      sent := SetScanning(false);
      serviceCache.Clear();
    }

    /** `listenForScanResults`: registers `id` and replays the cache snapshot to it, even an
        empty one. */
    method ListenForScanResults(id: Uuid) returns (handle: ListenerHandle, ghost snapshot: seq<ScanResult>)
      modifies this`resultsListeners, this`trace
      ensures handle == ListenerHandle(ResultsChannel, id)
      ensures resultsListeners == old(resultsListeners) + {id}
      ensures Snapshot.IsValuesOf(serviceCache.cache, snapshot)
      ensures trace == old(trace) + [Notification(id, Results(snapshot))]
    {
      resultsListeners := resultsListeners + {id};
      var cached := serviceCache.GetAll();
      snapshot := cached;
      trace := trace + [Notification(id, Results(cached))];
      handle := ListenerHandle(ResultsChannel, id);
    }

    /** `listenForScanState`: registers `id` and replays the current flag to it. */
    method ListenForScanState(id: Uuid) returns (handle: ListenerHandle)
      modifies this`stateListeners, this`trace
      ensures handle == ListenerHandle(StateChannel, id)
      ensures stateListeners == old(stateListeners) + {id}
      ensures trace == old(trace) + [Notification(id, State(scanning))]
    {
      stateListeners := stateListeners + {id};
      trace := trace + [Notification(id, State(scanning))];
      handle := ListenerHandle(StateChannel, id);
    }

    /** `listenForScanFail`: registers `id` and replays nothing. */
    method ListenForScanFail(id: Uuid) returns (handle: ListenerHandle)
      modifies this`failListeners
      ensures handle == ListenerHandle(FailChannel, id)
      ensures failListeners == old(failListeners) + {id}
    {
      failListeners := failListeners + {id};
      handle := ListenerHandle(FailChannel, id);
    }

    /** `BonjourListener.remove()`: drops the handle's own id from its own channel. */
    method RemoveListener(handle: ListenerHandle)
      modifies this`resultsListeners, this`stateListeners, this`failListeners
      ensures resultsListeners == if handle.channel == ResultsChannel then old(resultsListeners) - {handle.id} else old(resultsListeners)
      ensures stateListeners == if handle.channel == StateChannel then old(stateListeners) - {handle.id} else old(stateListeners)
      ensures failListeners == if handle.channel == FailChannel then old(failListeners) - {handle.id} else old(failListeners)
    {
      match handle.channel {
        case ResultsChannel => resultsListeners := resultsListeners - {handle.id};
        case StateChannel => stateListeners := stateListeners - {handle.id};
        case FailChannel => failListeners := failListeners - {handle.id};
      }
    }

    /** `resolveService(result:name:timeout:)`: runs the connection's events through the
        resume-once guard; when none decides, the timeout does. A timeout or an extraction
        failure notifies the fail listeners; every failure returns nil. */
    method ResolveService(name: string, events: seq<AttemptEvent>)
      returns (r: Option<ScanResult>, ghost sent: seq<Notification>)
      requires WellFormedEvents(events)
      modifies this`trace
      ensures r == ResolvedValue(AttemptOutcome(events, name))
      ensures trace == old(trace) + sent
      ensures FanOuts(failListeners, FailPayload(AttemptOutcome(events, name)), sent)
    {
      var attempt := new ResolveAttempt(name);
      attempt.Run(events);
      if !attempt.hasResumed {
        attempt.OnTimer();
      }
      var outcome := attempt.resumed[0];
      assert outcome == AttemptOutcome(events, name);
      match FailNotice(outcome) {
        case None => sent := [];
        case Some(f) =>
          sent := NotifyScanFail(f);
          FanOutsSingle(failListeners, Fail(f), sent);
      }
      r := ResolvedValue(outcome);
    }

    /** The first loop of `processChanges`, against the cache. */
    method CollectChanges(changes: seq<Change>) returns (toResolve: seq<Pending>, hasChanges: bool)
      modifies serviceCache`cache
      ensures PlanBatch(old(serviceCache.cache), changes) == Plan(serviceCache.cache, toResolve, hasChanges)
    {
      toResolve, hasChanges := [], false;
      var i := 0;
      while i < |changes|
        invariant 0 <= i <= |changes|
        invariant PlanBatch(old(serviceCache.cache), changes[..i]) == Plan(serviceCache.cache, toResolve, hasChanges)
        decreases |changes| - i
      {
        assert changes[..i + 1][..i] == changes[..i];
        match changes[i] {
          case Added(r) =>
            var key := ServiceKey(r);
            if key.Some? {
              var cached := serviceCache.Get(key.value);
              if cached == None {
                toResolve := toResolve + [Pending(key.value, r.name)];
                hasChanges := true;
              }
            }
          case Removed(r) =>
            var key := ServiceKey(r);
            if key.Some? {
              var previous := serviceCache.Remove(key.value);
              if previous != None {
                hasChanges := true;
              }
            }
          case Changed(_, n) =>
            var key := ServiceKey(n);
            if key.Some? {
              toResolve := toResolve + [Pending(key.value, n.name)];
              hasChanges := true;
            }
          case Identical =>
        }
        i := i + 1;
      }
      assert changes[..i] == changes;
    }

    /** One task of the group: resolve, then store the result if there is one. */
    method ResolveTask(tasks: seq<Pending>, attempts: seq<seq<AttemptEvent>>, t: nat)
      returns (ghost sent: seq<Notification>)
      requires AttemptsFit(tasks, attempts) && t < |tasks|
      modifies this`trace, serviceCache`cache
      ensures var w := TaskResult(tasks, attempts, t);
        serviceCache.cache == if w.Some? then old(serviceCache.cache)[tasks[t].key := w.value] else old(serviceCache.cache)
      ensures trace == old(trace) + sent
      ensures FanOuts(failListeners, FailPayload(AttemptOutcome(attempts[t], tasks[t].name)), sent)
    {
      var r;
      r, sent := ResolveService(tasks[t].name, attempts[t]);
      if r.Some? {
        serviceCache.Set(tasks[t].key, r.value);
      }
    }

    /** The task group: the tasks are taken off in `order`; each present result is stored. */
    method ResolveAll(tasks: seq<Pending>, attempts: seq<seq<AttemptEvent>>, order: seq<nat>)
      returns (ghost failSent: seq<Notification>)
      requires AttemptsFit(tasks, attempts) && IsOrder(order, |tasks|)
      modifies this`trace, serviceCache`cache
      ensures serviceCache.cache == ApplyWrites(old(serviceCache.cache), Writes(tasks, attempts, order))
      ensures trace == old(trace) + failSent
      ensures FanOuts(failListeners, FailPayloads(tasks, attempts, order), failSent)
    {
      failSent := [];
      ghost var before := trace;
      var j := 0;
      assert order[..0] == [];
      while j < |order|
        invariant 0 <= j <= |order|
        invariant serviceCache.cache == ApplyWrites(old(serviceCache.cache), Writes(tasks, attempts, order[..j]))
        invariant trace == before + failSent
        invariant FanOuts(failListeners, FailPayloads(tasks, attempts, order[..j]), failSent)
        decreases |order| - j
      {
        var t := order[j];
        ghost var sent := ResolveTask(tasks, attempts, t);
        WritesStep(old(serviceCache.cache), tasks, attempts, order, j);
        FailsStep(failListeners, tasks, attempts, order, j, failSent, sent);
        AppendAssoc(before, failSent, sent);
        failSent := failSent + sent;
        j := j + 1;
      }
      assert order[..j] == order;
    }

    /** The task group runs only when something was enqueued. */
    method ResolveQueued(tasks: seq<Pending>, attempts: seq<seq<AttemptEvent>>, order: seq<nat>)
      returns (ghost failSent: seq<Notification>)
      requires AttemptsFit(tasks, attempts) && IsOrder(order, |tasks|)
      modifies this`trace, serviceCache`cache
      ensures serviceCache.cache == ApplyWrites(old(serviceCache.cache), Writes(tasks, attempts, order))
      ensures trace == old(trace) + failSent
      ensures FanOuts(failListeners, FailPayloads(tasks, attempts, order), failSent)
    {
      if |tasks| > 0 {
        failSent := ResolveAll(tasks, attempts, order);
      } else {
        assert order == [];
        failSent := [];
      }
    }

    /** `processChanges(_:until:)` for one batch: removals, resolutions taken off in `order`
        (the completion order of the task group), then one results notification with the
        snapshot taken after all writes, only if the batch changed something. */
    method ProcessChanges(changes: seq<Change>, attempts: seq<seq<AttemptEvent>>, order: seq<nat>)
      returns (ghost failSent: seq<Notification>, ghost resultsSent: seq<Notification>, ghost snapshot: seq<ScanResult>)
      requires AttemptsFit(PlanBatch(serviceCache.cache, changes).toResolve, attempts)
      requires IsOrder(order, |PlanBatch(serviceCache.cache, changes).toResolve|)
      modifies this`trace, serviceCache`cache
      ensures var plan := PlanBatch(old(serviceCache.cache), changes);
        serviceCache.cache == ApplyWrites(plan.cache, Writes(plan.toResolve, attempts, order))
      ensures var plan := PlanBatch(old(serviceCache.cache), changes);
        FanOuts(failListeners, FailPayloads(plan.toResolve, attempts, order), failSent)
      ensures trace == old(trace) + failSent + resultsSent
      ensures PlanBatch(old(serviceCache.cache), changes).hasChanges ==>
        Snapshot.IsValuesOf(serviceCache.cache, snapshot) && FanOut(resultsListeners, Results(snapshot), resultsSent)
      ensures !PlanBatch(old(serviceCache.cache), changes).hasChanges ==> resultsSent == []
    {
      ghost var plan := PlanBatch(serviceCache.cache, changes);
      var toResolve, hasChanges := CollectChanges(changes);
      assert plan == Plan(serviceCache.cache, toResolve, hasChanges);
      failSent := ResolveQueued(toResolve, attempts, order);
      if hasChanges {
        var all := serviceCache.GetAll();
        snapshot := all;
        resultsSent := NotifyScanResults(all);
      } else {
        snapshot, resultsSent := [], [];
        assert trace == old(trace) + failSent + resultsSent;
      }
    }
  }
}
