/** The Android scanner (`BonjourZeroconf.kt`, `BonjourZeroconf+AddressResolver.kt`,
    `BonjourZeroconf+Listeners.kt`): the scanning flag, the discovery-listener callbacks that
    keep the cache, the resolution tails that write it, and listener maps whose fan-outs catch
    each listener's exception and go on. */
module AndroidBonjour {
  import opened Common
  import opened Notify
  import Snapshot
  import opened AndroidAddressResolver

  /** `createServiceKey`: `serviceName.serviceType`, with no domain. */
  function CreateServiceKey(service: NsdServiceInfo): (k: string)
    ensures |k| == |service.serviceName| + 1 + |service.serviceType|
    ensures k[..|service.serviceName|] == service.serviceName && k[|service.serviceName|] == '.'
    ensures k[|service.serviceName| + 1..] == service.serviceType
  {
    service.serviceName + "." + service.serviceType
  }

  /** For one service type the key tells names apart, and nothing else of the info matters. */
  lemma ServiceKeyNames(s: NsdServiceInfo, t: NsdServiceInfo)
    requires s.serviceType == t.serviceType
    ensures CreateServiceKey(s) == CreateServiceKey(t) <==> s.serviceName == t.serviceName
  {
    var tail := "." + s.serviceType;
    assert CreateServiceKey(s) == s.serviceName + tail;
    assert CreateServiceKey(t) == t.serviceName + tail;
    if CreateServiceKey(s) == CreateServiceKey(t) {
      assert |s.serviceName| == |t.serviceName|;
      assert s.serviceName == (s.serviceName + tail)[..|s.serviceName|];
      assert t.serviceName == (t.serviceName + tail)[..|t.serviceName|];
    }
  }

  // ---------------------------------------------------------------- options

  const DefaultResolveTimeoutMs: int := 10_000

  /** Kotlin `Double.toLong()` on a finite value: rounds toward zero. */
  function TruncateTowardZero(r: real): (n: int)
    ensures 0.0 <= r ==> n as real <= r < n as real + 1.0
    ensures r < 0.0 ==> n as real - 1.0 < r <= n as real
  {
    if r >= 0.0 then r.Floor else -((-r).Floor)
  }

  /** `options?.addressResolveTimeout?.toLong() ?: DEFAULT_RESOLVE_TIMEOUT_MS`. */
  function ResolveTimeoutMs(options: Option<ScanOptions>): (t: int)
    ensures options.None? || options.value.addressResolveTimeout.None? ==> t == DefaultResolveTimeoutMs
    ensures options.Some? && options.value.addressResolveTimeout.Some? ==>
      t == TruncateTowardZero(options.value.addressResolveTimeout.value)
  {
    if options.Some? && options.value.addressResolveTimeout.Some?
    then TruncateTowardZero(options.value.addressResolveTimeout.value)
    else DefaultResolveTimeoutMs
  }

  // ---------------------------------------------------------------- resolution

  /** A listener closure; `raises` says whether invoking it throws. */
  datatype Callback = Callback(raises: bool)

  /** The `NsdManager.DiscoveryListener` object, with the timeout it captured. */
  datatype DiscoveryListener = DiscoveryListener(resolveTimeout: int)

  /** What `resolveScope.launch` starts for a service not yet cached. */
  datatype ResolveRequest = ResolveRequest(service: NsdServiceInfo, key: string, timeout: int)

  /** `resolveServiceNew` (API level 34 and up) or `resolveServiceLegacy`. */
  datatype ResolvePath = NewApi | LegacyApi

  const UpsideDownCake: int := 34

  /** How the suspended resolution ends. */
  datatype ResolveEvent =
    | ManagerMissing                     // `nsdManager` was null
    | RegisterThrew                      // registering the callback, or `resolveService`, threw
    | CallbackFailed                     // registration failed, or `onResolveFailed`
    | Delivered(info: NsdServiceInfo)    // `onServiceUpdated` or `onServiceResolved`
    | TimedOut                           // `withTimeoutOrNull` gave null
    | CancelledByStop                    // `stop()` cancelled the resolve scope's children

  /** The fail notification a resolution sends. Cancellation reaches the `catch` of the new
      path, which reports it; the legacy `catch` only logs. */
  function ResolveFail(path: ResolvePath, ev: ResolveEvent): (f: Option<BonjourFail>)
    ensures f.Some? ==> f.value == ResolveFailed
    ensures (ev.RegisterThrew? || ev.CallbackFailed?) ==> f == Some(ResolveFailed)
    ensures ev.CancelledByStop? ==> (f.Some? <==> path == NewApi)
    ensures ev.ManagerMissing? || ev.Delivered? || ev.TimedOut? ==> f == None
  {
    match ev
    case RegisterThrew => Some(ResolveFailed)
    case CallbackFailed => Some(ResolveFailed)
    case CancelledByStop => if path == NewApi then Some(ResolveFailed) else None
    case _ => None
  }

  function FailList(f: Option<BonjourFail>): seq<Payload> {
    if f.Some? then [Fail(f.value)] else []
  }

  /** What the tail stores: the delivered info is passed on only while scanning, and only an
      extraction that gives a result is written. */
  function ResolutionWrite(ev: ResolveEvent, scanning: bool): (w: Option<ScanResult>)
    ensures w.Some? <==> ev.Delivered? && scanning && ExtractScanResult(ev.info).Some?
    ensures w.Some? ==> w == ExtractScanResult(ev.info)
  {
    if ev.Delivered? && scanning then ExtractScanResult(ev.info) else None
  }

  /** A resolution that completes once scanning is off writes nothing. */
  lemma NoWriteAfterStop(ev: ResolveEvent)
    ensures ResolutionWrite(ev, false) == None
  {
  }

  // ---------------------------------------------------------------- the scanner

  datatype ScanError = NoContext | NoNsdManager | DiscoveryStartFailed
  datatype ScanOutcome = AlreadyScanning | ScanStarted | ScanThrew(error: ScanError)

  /** How `scan` ends: the guard on the flag, the two lookups that throw before anything
      changes (the manager is asked for only when none is held yet), then the start. */
  function ScanOutcomeOf(scanning: bool, contextAvailable: bool, haveManager: bool,
                         nsdServiceAvailable: bool, discoverThrows: bool): (o: ScanOutcome)
    ensures o == AlreadyScanning <==> scanning
    ensures o == ScanThrew(NoContext) <==> !scanning && !contextAvailable
    ensures o == ScanThrew(NoNsdManager) <==> !scanning && contextAvailable && !haveManager && !nsdServiceAvailable
    ensures o == ScanStarted <==>
      !scanning && contextAvailable && (haveManager || nsdServiceAvailable) && !discoverThrows
    ensures o == ScanThrew(DiscoveryStartFailed) <==>
      !scanning && contextAvailable && (haveManager || nsdServiceAvailable) && discoverThrows
  {
    if scanning then AlreadyScanning
    else if !contextAvailable then ScanThrew(NoContext)
    else if !haveManager && !nsdServiceAvailable then ScanThrew(NoNsdManager)
    else if discoverThrows then ScanThrew(DiscoveryStartFailed)
    else ScanStarted
  }

  /** The outcomes after which discovery was attempted, and so the flag was turned on. */
  predicate Starts(o: ScanOutcome) {
    o == ScanStarted || o == ScanThrew(DiscoveryStartFailed)
  }

  /** `errs` lists, once each, exactly the listeners of `ls` whose invocation threw. */
  ghost predicate Raised(ls: map<Uuid, Callback>, errs: seq<Uuid>) {
    Distinct(errs) && forall id :: id in errs <==> id in ls && ls[id].raises
  }

  class BonjourZeroconf {
    var scanning: bool
    var resultsListeners: map<Uuid, Callback>
    var stateListeners: map<Uuid, Callback>
    var failListeners: map<Uuid, Callback>
    /** Whether `nsdManager` has been obtained. */
    var nsdManager: bool
    var currentDiscoveryListener: Option<DiscoveryListener>
    var serviceCache: map<string, ScanResult>
    /** Every listener invocation, in order, including those that threw. */
    var trace: seq<Notification>
    /** The listeners whose exception a fan-out caught and logged. */
    var errorLog: seq<Uuid>

    constructor ()
      ensures !scanning && !nsdManager && currentDiscoveryListener == None && serviceCache == map[]
      ensures resultsListeners == map[] && stateListeners == map[] && failListeners == map[]
      ensures trace == [] && errorLog == []
    {
      scanning := false;
      resultsListeners, stateListeners, failListeners := map[], map[], map[];
      nsdManager := false;
      currentDiscoveryListener := None;
      serviceCache := map[];
      trace, errorLog := [], [];
    }

    /** `listeners.values.forEach { try { listener(p) } catch ... }`: every listener is invoked
        once, and one that throws does not stop the rest. */
    method FanOutTo(ls: map<Uuid, Callback>, p: Payload) returns (ghost sent: seq<Notification>, ghost errs: seq<Uuid>)
      modifies this`trace, this`errorLog
      ensures trace == old(trace) + sent && FanOut(ls.Keys, p, sent)
      ensures errorLog == old(errorLog) + errs && Raised(ls, errs)
    {
      var rest := ls.Keys;
      sent, errs := [], [];
      ghost var done: set<Uuid> := {};
      while rest != {}
        invariant rest + done == ls.Keys && rest !! done
        invariant trace == old(trace) + sent && FanOut(done, p, sent)
        invariant errorLog == old(errorLog) + errs
        invariant Distinct(errs) && forall id :: id in errs <==> id in done && ls[id].raises
        decreases rest
      {
        var id :| id in rest;
        FanOutExtend(done, p, sent, id);
        trace := trace + [Notification(id, p)];
        sent := sent + [Notification(id, p)];
        if ls[id].raises {
          errorLog := errorLog + [id];
          errs := errs + [id];
        }
        done := done + {id};
        rest := rest - {id};
      }
    }

    /** `notifyScanResultsListeners()`: one snapshot of the cache, taken at the call, goes to
        every results listener. */
    method NotifyScanResults() returns (ghost sent: seq<Notification>, ghost snapshot: seq<ScanResult>, ghost errs: seq<Uuid>)
      modifies this`trace, this`errorLog
      ensures Snapshot.IsValuesOf(serviceCache, snapshot)
      ensures trace == old(trace) + sent && FanOut(resultsListeners.Keys, Results(snapshot), sent)
      ensures errorLog == old(errorLog) + errs && Raised(resultsListeners, errs)
    {
      var results := Snapshot.Values(serviceCache);
      snapshot := results;
      sent, errs := FanOutTo(resultsListeners, Results(results));
    }

    /** `updateScanningState(newState)`: the flag is set, then every state listener gets it. */
    method UpdateScanningState(newState: bool) returns (ghost sent: seq<Notification>, ghost errs: seq<Uuid>)
      modifies this`scanning, this`trace, this`errorLog
      ensures scanning == newState
      ensures trace == old(trace) + sent && FanOut(stateListeners.Keys, State(newState), sent)
      ensures errorLog == old(errorLog) + errs && Raised(stateListeners, errs)
    {
      scanning := newState;
      sent, errs := FanOutTo(stateListeners, State(newState));
    }

    /** `notifyScanFailListeners(fail)`: the same value to each fail listener. */
    method NotifyScanFail(fail: BonjourFail) returns (ghost sent: seq<Notification>, ghost errs: seq<Uuid>)
      modifies this`trace, this`errorLog
      ensures trace == old(trace) + sent && FanOut(failListeners.Keys, Fail(fail), sent)
      ensures errorLog == old(errorLog) + errs && Raised(failListeners, errs)
    {
      sent, errs := FanOutTo(failListeners, Fail(fail));
    }

    /** `scan(type, domain, options)`. The platform answers come in as inputs: whether the
        application context exists, whether the system hands out an `NsdManager`, and whether
        `discoverServices` throws. Only the last two outcomes change anything. */
    method Scan(serviceType: string, domain: string, options: Option<ScanOptions>,
                contextAvailable: bool, nsdServiceAvailable: bool, discoverThrows: bool)
      returns (outcome: ScanOutcome, ghost sent: seq<Notification>)
      modifies this`scanning, this`nsdManager, this`currentDiscoveryListener, this`trace, this`errorLog
      ensures outcome == ScanOutcomeOf(old(scanning), contextAvailable, old(nsdManager), nsdServiceAvailable, discoverThrows)
      ensures !Starts(outcome) ==> unchanged(this) && sent == []
      ensures Starts(outcome) ==> nsdManager && trace == old(trace) + sent
      ensures outcome == ScanStarted ==>
        && scanning
        && currentDiscoveryListener == Some(DiscoveryListener(ResolveTimeoutMs(options)))
        && FanOut(stateListeners.Keys, State(true), sent)
      ensures outcome == ScanThrew(DiscoveryStartFailed) ==>
        && !scanning
        && currentDiscoveryListener == old(currentDiscoveryListener)
        && FanOuts(stateListeners.Keys, [State(true), State(false)], sent)
    {
      sent := [];
      if scanning {
        return AlreadyScanning, sent;
      }
      if !contextAvailable {
        return ScanThrew(NoContext), sent;
      }
      if !nsdManager {
        if !nsdServiceAvailable {
          return ScanThrew(NoNsdManager), sent;
        }
        nsdManager := true;
      }
      outcome, sent := StartDiscovery(options, discoverThrows);
    }

    /** The `also` block of `scan`: the flag goes on, discovery starts, and if starting throws
        the flag goes off again and the listener is not stored. */
    method StartDiscovery(options: Option<ScanOptions>, discoverThrows: bool)
      returns (outcome: ScanOutcome, ghost sent: seq<Notification>)
      modifies this`scanning, this`currentDiscoveryListener, this`trace, this`errorLog
      ensures outcome == if discoverThrows then ScanThrew(DiscoveryStartFailed) else ScanStarted
      ensures trace == old(trace) + sent
      ensures !discoverThrows ==>
        && scanning
        && currentDiscoveryListener == Some(DiscoveryListener(ResolveTimeoutMs(options)))
        && FanOut(stateListeners.Keys, State(true), sent)
      ensures discoverThrows ==>
        && !scanning
        && currentDiscoveryListener == old(currentDiscoveryListener)
        && FanOuts(stateListeners.Keys, [State(true), State(false)], sent)
    {
      var listener := DiscoveryListener(ResolveTimeoutMs(options));
      ghost var errs;
      sent, errs := UpdateScanningState(true);
      if discoverThrows {
        ghost var more;
        more, errs := UpdateScanningState(false);
        FanOutsPair(stateListeners.Keys, State(true), sent, State(false), more);
        sent := sent + more;
        return ScanThrew(DiscoveryStartFailed), sent;
      }
      currentDiscoveryListener := Some(listener);
      outcome := ScanStarted;
    }

    /** The part of `scanFor` after its delay: the snapshot is taken, then `stop()` runs. */
    method ScanForAfterDelay() returns (results: seq<ScanResult>, stopRequested: bool)
      modifies this`currentDiscoveryListener, this`serviceCache
      ensures Snapshot.IsValuesOf(old(serviceCache), results)
      ensures serviceCache == map[] && currentDiscoveryListener == None
      ensures stopRequested == (old(currentDiscoveryListener).Some? && nsdManager)
    {
      results := Snapshot.Values(serviceCache);
      stopRequested := Stop();
    }

    /** `stop()`: asks the platform to stop the current discovery (an exception is only
        logged), forgets the listener and clears the cache. The flag is left as it is; it
        turns off when the platform reports `onDiscoveryStopped`. */
    method Stop() returns (stopRequested: bool)
      modifies this`currentDiscoveryListener, this`serviceCache
      ensures serviceCache == map[] && currentDiscoveryListener == None
      ensures stopRequested == (old(currentDiscoveryListener).Some? && nsdManager)
    {
      stopRequested := currentDiscoveryListener.Some? && nsdManager;
      currentDiscoveryListener := None;
      serviceCache := map[];
    }

    /** `listenForScanResults`: registers the callback and replays the cache to it, but only
        when the cache is not empty. */
    method ListenForScanResults(id: Uuid, onResult: Callback)
      returns (handle: ListenerHandle, ghost snapshot: seq<ScanResult>)
      modifies this`resultsListeners, this`trace, this`errorLog
      ensures handle == ListenerHandle(ResultsChannel, id)
      ensures resultsListeners == old(resultsListeners)[id := onResult]
      ensures Snapshot.IsValuesOf(serviceCache, snapshot)
      ensures serviceCache != map[] ==> trace == old(trace) + [Notification(id, Results(snapshot))]
      ensures serviceCache == map[] ==> trace == old(trace)
      ensures errorLog == if serviceCache != map[] && onResult.raises then old(errorLog) + [id] else old(errorLog)
    {
      resultsListeners := resultsListeners[id := onResult];
      var current := Snapshot.Values(serviceCache);
      snapshot := current;
      if serviceCache != map[] {
        trace := trace + [Notification(id, Results(current))];
        if onResult.raises {
          errorLog := errorLog + [id];
        }
      }
      handle := ListenerHandle(ResultsChannel, id);
    }

    /** `listenForScanState`: registers the callback and replays the current flag to it. */
    method ListenForScanState(id: Uuid, onChange: Callback) returns (handle: ListenerHandle)
      modifies this`stateListeners, this`trace, this`errorLog
      ensures handle == ListenerHandle(StateChannel, id)
      ensures stateListeners == old(stateListeners)[id := onChange]
      ensures trace == old(trace) + [Notification(id, State(scanning))]
      ensures errorLog == old(errorLog) + if onChange.raises then [id] else []
    {
      stateListeners := stateListeners[id := onChange];
      trace := trace + [Notification(id, State(scanning))];
      if onChange.raises {
        errorLog := errorLog + [id];
      }
      handle := ListenerHandle(StateChannel, id);
    }

    /** `listenForScanFail`: registers the callback; nothing is replayed. */
    method ListenForScanFail(id: Uuid, onFail: Callback) returns (handle: ListenerHandle)
      modifies this`failListeners
      ensures handle == ListenerHandle(FailChannel, id)
      ensures failListeners == old(failListeners)[id := onFail]
    {
      failListeners := failListeners[id := onFail];
      handle := ListenerHandle(FailChannel, id);
    }

    /** `BonjourListener.remove()`: drops the handle's own id from its own channel. */
    method RemoveListener(handle: ListenerHandle)
      modifies this`resultsListeners, this`stateListeners, this`failListeners
      ensures resultsListeners == if handle.channel == ResultsChannel then old(resultsListeners) - {handle.id} else old(resultsListeners)
      ensures stateListeners == if handle.channel == StateChannel then old(stateListeners) - {handle.id} else old(stateListeners)
      ensures failListeners == if handle.channel == FailChannel then old(failListeners) - {handle.id} else old(failListeners)
    {
      match handle.channel {
        case ResultsChannel => resultsListeners := resultsListeners - {handle.id};
        case StateChannel => stateListeners := stateListeners - {handle.id};
        case FailChannel => failListeners := failListeners - {handle.id};
      }
    }

    // -------------------------------------------------------------- discovery callbacks

    /** `onServiceFound`: a service whose key is cached launches nothing; any other launches a
        resolution with the listener's timeout. */
    method OnServiceFound(listener: DiscoveryListener, service: NsdServiceInfo)
      returns (launched: Option<ResolveRequest>)
      ensures launched.Some? <==> CreateServiceKey(service) !in serviceCache
      ensures launched.Some? ==> launched.value.service == service && launched.value.timeout == listener.resolveTimeout
      ensures launched.Some? ==> launched.value.key == CreateServiceKey(service)
    {
      var key := CreateServiceKey(service);
      if key in serviceCache {
        return None;
      }
      launched := Some(ResolveRequest(service, key, listener.resolveTimeout));
    }

    /** `onServiceLost`: removes the key and notifies the results listeners exactly when an
        entry was removed. */
    method OnServiceLost(service: NsdServiceInfo) returns (ghost sent: seq<Notification>, ghost snapshot: seq<ScanResult>)
      modifies this`serviceCache, this`trace, this`errorLog
      ensures serviceCache == old(serviceCache) - {CreateServiceKey(service)}
      ensures trace == old(trace) + sent
      ensures CreateServiceKey(service) in old(serviceCache) ==>
        Snapshot.IsValuesOf(serviceCache, snapshot) && FanOut(resultsListeners.Keys, Results(snapshot), sent)
      ensures CreateServiceKey(service) !in old(serviceCache) ==> sent == []
    {
      var key := CreateServiceKey(service);
      var removed := key in serviceCache;
      serviceCache := serviceCache - {key};
      sent, snapshot := [], [];
      if removed {
        ghost var errs;
        sent, snapshot, errs := NotifyScanResults();
      }
    }

    /** `onDiscoveryStopped`: the only place where stopping turns the flag off. */
    method OnDiscoveryStopped() returns (ghost sent: seq<Notification>)
      modifies this`scanning, this`trace, this`errorLog
      ensures !scanning
      ensures trace == old(trace) + sent && FanOut(stateListeners.Keys, State(false), sent)
    {
      ghost var errs;
      sent, errs := UpdateScanningState(false);
    }

    /** `onStartDiscoveryFailed`: a discovery failure, then the flag off. */
    method OnStartDiscoveryFailed() returns (ghost failSent: seq<Notification>, ghost stateSent: seq<Notification>)
      modifies this`scanning, this`trace, this`errorLog
      ensures !scanning
      ensures trace == old(trace) + failSent + stateSent
      ensures FanOut(failListeners.Keys, Fail(DiscoveryFailed), failSent)
      ensures FanOut(stateListeners.Keys, State(false), stateSent)
    {
      ghost var errs;
      failSent, errs := NotifyScanFail(DiscoveryFailed);
      stateSent, errs := UpdateScanningState(false);
    }

    /** `onStopDiscoveryFailed`: a discovery failure; the flag is left as it is. */
    method OnStopDiscoveryFailed() returns (ghost sent: seq<Notification>)
      modifies this`trace, this`errorLog
      ensures trace == old(trace) + sent
      ensures FanOut(failListeners.Keys, Fail(DiscoveryFailed), sent)
    {
      ghost var errs;
      sent, errs := NotifyScanFail(DiscoveryFailed);
    }

    // -------------------------------------------------------------- resolution

    /** `resolveService`: nothing when not scanning; otherwise the new API from level 34 on,
        the legacy one below. */
    method ResolveService(request: ResolveRequest, sdkInt: int) returns (path: Option<ResolvePath>)
      ensures path.None? <==> !scanning
      ensures path == Some(NewApi) <==> scanning && sdkInt >= UpsideDownCake
      ensures path == Some(LegacyApi) <==> scanning && sdkInt < UpsideDownCake
    {
      if !scanning {
        return None;
      }
      path := if sdkInt >= UpsideDownCake then Some(NewApi) else Some(LegacyApi);
    }

    /** The rest of `resolveServiceNew` / `resolveServiceLegacy` once `ev` has happened, with
        the flag as it is at that moment: a fail notification where the path sends one, then
        the cache write and a results notification only for a delivered, extractable info. */
    method FinishResolution(request: ResolveRequest, path: ResolvePath, ev: ResolveEvent)
      returns (ghost failSent: seq<Notification>, ghost resultsSent: seq<Notification>, ghost snapshot: seq<ScanResult>)
      modifies this`serviceCache, this`trace, this`errorLog
      ensures var w := ResolutionWrite(ev, old(scanning));
        serviceCache == if w.Some? then old(serviceCache)[request.key := w.value] else old(serviceCache)
      ensures trace == old(trace) + failSent + resultsSent
      ensures FanOuts(failListeners.Keys, FailList(ResolveFail(path, ev)), failSent)
      ensures ResolutionWrite(ev, old(scanning)).Some? ==>
        Snapshot.IsValuesOf(serviceCache, snapshot) && FanOut(resultsListeners.Keys, Results(snapshot), resultsSent)
      ensures ResolutionWrite(ev, old(scanning)).None? ==> resultsSent == []
    {
      failSent := SendResolveFail(ResolveFail(path, ev));
      var resolved := if ev.Delivered? && scanning then Some(ev.info) else None;
      var scanResult := if resolved.Some? then ExtractScanResult(resolved.value) else None;
      resultsSent, snapshot := StoreResolved(request.key, scanResult);
    }

    /** The fail notification of a resolution, if it sends one. */
    method SendResolveFail(fail: Option<BonjourFail>) returns (ghost sent: seq<Notification>)
      modifies this`trace, this`errorLog
      ensures trace == old(trace) + sent
      ensures FanOuts(failListeners.Keys, FailList(fail), sent)
    {
      sent := [];
      if fail.Some? {
        ghost var errs;
        sent, errs := NotifyScanFail(fail.value);
        FanOutsSingle(failListeners.Keys, Fail(fail.value), sent);
      }
    }

    /** `extractScanResult(serviceInfo)?.let { serviceCache[serviceKey] = it; notify... }`. */
    method StoreResolved(key: string, scanResult: Option<ScanResult>)
      returns (ghost sent: seq<Notification>, ghost snapshot: seq<ScanResult>)
      modifies this`serviceCache, this`trace, this`errorLog
      ensures serviceCache == if scanResult.Some? then old(serviceCache)[key := scanResult.value] else old(serviceCache)
      ensures trace == old(trace) + sent
      ensures scanResult.Some? ==>
        Snapshot.IsValuesOf(serviceCache, snapshot) && FanOut(resultsListeners.Keys, Results(snapshot), sent)
      ensures scanResult.None? ==> sent == []
    {
      sent, snapshot := [], [];
      if scanResult.Some? {
        serviceCache := serviceCache[key := scanResult.value];
        ghost var errs;
        sent, snapshot, errs := NotifyScanResults();
      }
    }
  }
}
