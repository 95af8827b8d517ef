# Bonjour/DNS-SD scanner: the device-side model

This project models the native half of a React Native Bonjour/DNS-SD scanner, on both iOS (Swift) and
Android (Kotlin). Each platform is modelled on its own terms, because the two differ in several places.

The scanner does six things:

- browses for a service type;
- keys every discovered service by its identity;
- resolves each new service to an address and port;
- keeps the results in a service cache;
- reports three channels to UUID-keyed listeners: the result list, the scanning flag and failure codes;
- formats the peer's address as text. IPv4 is dotted decimal. IPv6 uses the colon-separated form of
  section 2.2 of RFC 4291, with no `::` compression. An address whose first group is `fe80` gets an RFC 4007
  section 11 zone suffix. That is the code's own test, on the first 16 bits only. It is narrower than the
  link-local prefix `fe80::/10` of section 2.5.6 of RFC 4291, so an address such as `febf::1` gets no
  suffix.

Modules:

- `Common`: the shared values, including `ScanResult`, the fail codes, the three channels and a
  notification `Notification(listener, payload)`.
- `Snapshot`: what "the cache's values as an array" means. A snapshot lists each key's value exactly once,
  in an unspecified order.
- `Notify`: what one fan-out is. Every registered listener is invoked exactly once with the same payload.
  Each scanner class records every invocation in a `trace` field, so "exactly once" and "nothing else
  changes" can be stated about its methods.
- `AddressText`: the digit, split/join, IPv4 and IPv6 text functions, and their parsers. The parsers exist
  only to state round trips.
- `IosServiceCache`: the `ServiceCache` actor as a class over a `map` field.
- `IosAddressResolver`: `extractIPAndPort`, and the resolve-once guard of `resolveService`. The guard is a
  class whose fields are the `ResumeBox` flag, the timer and the connection. It runs over a sequence of
  connection events and timer firings, proved against a fold that picks the first decisive event.
- `IosBonjour`: a class for `BonjourZeroconf` on iOS, with these parts:
  - the scanning lifecycle;
  - listener registration;
  - the browser state handler;
  - `processChanges`. Its first loop is proved against a fold that plans the change batch. Its
    task-group loop is proved against a sequence of cache writes taken in completion order.
- `AndroidAddressResolver`: `formatIPv6Address` and `extractScanResult`, over signed Kotlin bytes.
- `AndroidBonjour`: a class for `BonjourZeroconf` on Android, with these parts:
  - `scan`, `scanFor` and `stop`;
  - the discovery-listener callbacks;
  - the scanning guard of `resolveService` and the tails of its two resolution paths;
  - listener maps whose fan-outs catch each listener's exception and carry on.

The platform provides `NWBrowser`, `NWConnection`, `NsdManager`, `InetAddress`, the application context
and the SDK level. These appear only as inputs: the change batch, the sequence of connection events per
task, the order in which tasks complete, the event that ends an Android resolution, and the flags that say
whether a platform call succeeds.

Where the code and its design description disagree, the model follows the code:

- iOS `stop()` assigns `_isScanning = false`, which notifies state listeners even when already idle.
- iOS `browser.cancel()` later delivers `.cancelled`, and that sets the flag false a second time.
- Every browser's handler stays installed. So a stale browser's `.cancelled` also turns off a scan started
  after it (`IosBonjour.BonjourZeroconf.OnBrowserStateUpdate` accepts any browser index).
- Android `stop()` never assigns `_isScanning`. It turns false only in `onDiscoveryStopped` or
  `onStartDiscoveryFailed`.
- Android `scan` stores the new discovery listener only after the `also` block returns. When starting
  discovery throws, the flag goes true and then false, and the previous listener stays.
- On Android, the new resolution path catches the cancellation that `stop()` causes as an ordinary
  exception and reports `RESOLVE_FAILED`. The legacy path only logs it.
- An Android timeout sends no fail notification. An iOS timeout sends `resolveFailed`.
- iOS replays the results snapshot to a new listener even when it is empty. Android replays it only when
  it is not empty.
- The iOS key `name.type.domain` is not injective over triples, because names may contain dots
  (`IosBonjour.ServiceKeyCollision`). Within one type and domain, though, it tells names apart.

## Model

| member | source | states |
|---|---|---|
| Snapshot.Values | ios/ServiceCache.swift:23-25 | the result lists each key's value exactly once, in some order, and has one element per key |
| Snapshot.SnapshotLength | ios/ServiceCache.swift:23-25 | any snapshot of a map has exactly as many elements as the map has keys |
| Snapshot.SnapshotContents | ios/ServiceCache.swift:23-25 | a value is in a snapshot iff some key maps to it |
| Snapshot.SnapshotEmpty | ios/ServiceCache.swift:23-29 | a snapshot is empty iff the cache is empty |
| Notify.FanOutExtend | ios/BonjourZeroconf+Listeners.swift:10-12 | delivering to one more, not yet served listener extends a fan-out by exactly that listener |
| Notify.FanOutSize | ios/BonjourZeroconf+Listeners.swift:9-25 | a fan-out makes one call per registered listener, and no call when none is registered |
| Notify.FanOutExactlyOnce | ios/BonjourZeroconf+Listeners.swift:9-25 | in a fan-out every registered listener is invoked exactly once and any other id never |
| Notify.FanOutsConcat | ios/BonjourZeroconf.swift:180-185 | consecutive sequences of fan-outs to the same listeners compose into one sequence |
| IosServiceCache.ServiceCache.Get | ios/ServiceCache.swift:11-13 | the result is present iff the key is stored, and is then the stored value |
| IosServiceCache.ServiceCache.Set | ios/ServiceCache.swift:15-17 | afterwards the key reads back the value and every other key reads as before |
| IosServiceCache.ServiceCache.Remove | ios/ServiceCache.swift:19-21 | returns the previous entry; afterwards the key is absent and others unchanged; an absent key changes nothing |
| IosServiceCache.ServiceCache.GetAll | ios/ServiceCache.swift:23-25 | exactly the stored values, one per key: the length is the key count and membership is "some key maps to it" |
| IosServiceCache.ServiceCache.Clear | ios/ServiceCache.swift:27-29 | afterwards no key reads back anything |
| AddressText.DigitValueOfDigit | ios/BonjourZeroconf+AddressResolver.swift:97 | reading back a lower-case hex digit gives its value |
| AddressText.FromToDigits | android/src/main/java/com/margelo/nitro/dawidzawada/bonjourzeroconf/BonjourZeroconf+AddressResolver.kt:194 | parsing the base-b digits of n gives back n |
| AddressText.ToDigitsLength | android/src/main/java/com/margelo/nitro/dawidzawada/bonjourzeroconf/BonjourZeroconf+AddressResolver.kt:194 | a number below b^k has at most k digits |
| AddressText.ToDigitsLeading | android/src/main/java/com/margelo/nitro/dawidzawada/bonjourzeroconf/BonjourZeroconf+AddressResolver.kt:194 | the digits start with '0' iff the number is zero, and zero is written "0" |
| AddressText.SplitJoin | ios/BonjourZeroconf+AddressResolver.swift:92-98 | splitting a join of separator-free parts at the separator gives back the parts |
| AddressText.TakeUntilAppend | ios/BonjourZeroconf+AddressResolver.swift:100-107 | cutting at the first c recovers a c-free prefix followed by c or nothing |
| AddressText.IPv4RoundTrip | ios/BonjourZeroconf+AddressResolver.swift:92 | the IPv4 text is four decimal groups of one to three digits, with no leading zero except in "0", that parse back to the four octets |
| AddressText.ParsePaddedGroup | ios/BonjourZeroconf+AddressResolver.swift:97 | a `%02x%02x` group reads back to its two octets |
| AddressText.PaddedIPv6RoundTrip | ios/BonjourZeroconf+AddressResolver.swift:96-98 | eight groups of four lower-case hex digits, group i written from octets 2i and 2i+1, parsing back to the 16 octets |
| AddressText.CompactIPv6RoundTrip | android/src/main/java/com/margelo/nitro/dawidzawada/bonjourzeroconf/BonjourZeroconf+AddressResolver.kt:192-195 | eight groups of one to four hex digits with no leading zero (a zero group is "0"), each the 16-bit value of its octet pair, parsing back to the octets |
| AddressText.PaddedLinkLocal | ios/BonjourZeroconf+AddressResolver.swift:100 | the full form starts with "fe80:" iff the first two octets are 0xfe and 0x80 |
| AddressText.ZoneCut | ios/BonjourZeroconf+AddressResolver.swift:100-107 | cutting the suffixed text at '%' gives back the unsuffixed address text |
| AddressText.DigitInjective | ios/BonjourZeroconf+AddressResolver.swift:97 | different digit values give different digit characters |
| IosAddressResolver.ExtractIPAndPort | ios/BonjourZeroconf+AddressResolver.swift:82-132 | a result iff the endpoint is host-and-port with a known host kind; each field is set iff its host kind matches; name and port are copied; the IPv4 text is the dotted decimal of the four octets; the IPv6 text is the zero-padded eight-group form; both parse back to the address; an fe80 address gets "%" and the interface name or "en0" |
| IosAddressResolver.ExtractOneAddress | ios/BonjourZeroconf+AddressResolver.swift:85-126 | a produced result has exactly one of ipv4, ipv6 and hostname |
| IosAddressResolver.OutcomeOf | ios/BonjourZeroconf+AddressResolver.swift:21-51 | the timer throws timeout; ready with an extractable remote endpoint returns exactly the extracted result; ready with no endpoint or an unextractable one throws extraction failure; failed throws that connection error |
| IosAddressResolver.AttemptOutcome | ios/BonjourZeroconf+AddressResolver.swift:13-65 | the resolution ends with the outcome of the earliest ready, failed or timer event; with none of them the pending timer ends it with timeout |
| IosAddressResolver.FirstOutcomeAt | ios/BonjourZeroconf+AddressResolver.swift:22-48 | the race is open iff no event is decisive, and otherwise is won by the earliest decisive event |
| IosAddressResolver.FirstOutcomeSnoc | ios/BonjourZeroconf+AddressResolver.swift:22-48 | one more event decides the attempt only if no earlier event did |
| IosAddressResolver.LaterEventsIgnored | ios/BonjourZeroconf+AddressResolver.swift:22-48 | once an event has decided the attempt, no later events change the outcome |
| IosAddressResolver.ResolveAttempt.constructor | ios/BonjourZeroconf+AddressResolver.swift:16-19 | a fresh box has not resumed and the timer is armed |
| IosAddressResolver.ResolveAttempt.OnTimer | ios/BonjourZeroconf+AddressResolver.swift:21-27 | a live, unresumed timer resumes with timeout and cancels the connection; otherwise nothing happens |
| IosAddressResolver.ResolveAttempt.OnStateUpdate | ios/BonjourZeroconf+AddressResolver.swift:30-62 | ready and failed always cancel the timer, and resume only when not yet resumed; other states change nothing |
| IosAddressResolver.ResolveAttempt.Run | ios/BonjourZeroconf+AddressResolver.swift:13-65 | after the events the continuation was resumed at most once, with the first decisive event's outcome; a cancelled timer implies a resume |
| IosAddressResolver.FailNotice | ios/BonjourZeroconf+AddressResolver.swift:66-78 | timeout maps to resolveFailed and extraction failure to extractionFailed, each iff; other errors and results send nothing |
| IosAddressResolver.FailPayload | ios/BonjourZeroconf+AddressResolver.swift:66-74 | at most one fail notification per resolution: the outcome's fail notice when it has one, none otherwise |
| IosAddressResolver.ResolvedValue | ios/BonjourZeroconf+AddressResolver.swift:39-78 | a value iff the attempt returned, and every failure path gives nil |
| IosBonjour.ServiceKey | ios/BonjourZeroconf.swift:195-200 | a key iff the endpoint is a service |
| IosBonjour.ServiceKeyNames | ios/BonjourZeroconf.swift:199 | within one type and domain, keys are equal iff names are |
| IosBonjour.ServiceKeyCollision | ios/BonjourZeroconf.swift:199 | two different triples can share a key |
| IosBonjour.PlanBatch | ios/BonjourZeroconf.swift:124-164 | the first loop only removes cache entries, and enqueues at most one service per change |
| IosBonjour.PlanChangeCases | ios/BonjourZeroconf.swift:128-164 | a cached Added is ignored and an uncached one is enqueued and marks a change; Removed leaves the key absent and marks a change iff it was present; Changed is always enqueued; Identical and non-service results change nothing |
| IosBonjour.PlanCache | ios/BonjourZeroconf.swift:142-148 | after the batch's first loop the cache is the old cache minus exactly the removed keys |
| IosBonjour.PlanHasChanges | ios/BonjourZeroconf.swift:124-164 | `hasChanges` holds iff something was enqueued or the cache changed |
| IosBonjour.PlanChangedEnqueued | ios/BonjourZeroconf.swift:150-156 | every Changed service is enqueued, whatever the cache holds |
| IosBonjour.PlanAddedEnqueued | ios/BonjourZeroconf.swift:130-140 | an Added service whose key is absent when it is reached is enqueued |
| IosBonjour.PlanQueueGrows | ios/BonjourZeroconf.swift:126-164 | no step of the loop drops an enqueued service |
| IosBonjour.PlanAllCached | ios/BonjourZeroconf.swift:130-140 | a batch of already-cached Added and Identical changes changes nothing, enqueues nothing and marks no change |
| IosBonjour.ApplyWrites | ios/BonjourZeroconf.swift:180-185 | the resolution writes never drop an entry, and only written keys are added |
| IosBonjour.ApplyWritesLookup | ios/BonjourZeroconf.swift:180-185 | after the writes a key holds the value of the last write to it that had a result, or its old entry |
| IosBonjour.Writes | ios/BonjourZeroconf.swift:168-185 | write i is the key and the resolution result of the i-th completed task |
| IosBonjour.ResolvedEntry | ios/BonjourZeroconf.swift:180-185 | with distinct keys, an enqueued key ends up holding its resolved result, or keeps its old entry when resolution gave nil |
| IosBonjour.UnresolvedEntry | ios/BonjourZeroconf.swift:180-185 | a key the batch did not enqueue keeps its entry through the writes |
| IosBonjour.ResolveTimeout | ios/BonjourZeroconf.swift:33 | the option's timeout when given, otherwise 10.0 seconds |
| IosBonjour.BonjourZeroconf.FanOutTo | ios/BonjourZeroconf+Listeners.swift:9-25 | appends one fan-out of the payload to the given listeners and changes nothing else |
| IosBonjour.BonjourZeroconf.NotifyScanResults | ios/BonjourZeroconf+Listeners.swift:9-13 | every results listener gets the same array once; no listener set changes |
| IosBonjour.BonjourZeroconf.NotifyScanState | ios/BonjourZeroconf+Listeners.swift:15-19 | every state listener gets the flag once |
| IosBonjour.BonjourZeroconf.NotifyScanFail | ios/BonjourZeroconf+Listeners.swift:21-25 | every fail listener gets the fail once |
| IosBonjour.BonjourZeroconf.SetScanning | ios/BonjourZeroconf.swift:20-24 | every assignment of the flag notifies every state listener with the new value |
| IosBonjour.BonjourZeroconf.Scan | ios/BonjourZeroconf.swift:27-73 | while scanning nothing changes; from idle a new browser with the resolve timeout becomes current and the flag goes on, with notification |
| IosBonjour.BonjourZeroconf.OnBrowserStateUpdate | ios/BonjourZeroconf.swift:39-59 | failed sends discoveryFailed, cancels that browser and turns the flag off; cancelled turns it off; other states change nothing |
| IosBonjour.BonjourZeroconf.Stop | ios/BonjourZeroconf.swift:110-120 | cancels the current browser if any, leaves the flag off with a notification even when already off, and empties the cache |
| IosBonjour.BonjourZeroconf.ListenForScanResults | ios/BonjourZeroconf.swift:75-87 | registers the id and replays the cache snapshot to it once, even when empty |
| IosBonjour.BonjourZeroconf.ListenForScanState | ios/BonjourZeroconf.swift:89-98 | registers the id and replays the current flag to it once |
| IosBonjour.BonjourZeroconf.ListenForScanFail | ios/BonjourZeroconf.swift:100-107 | registers the id and replays nothing |
| IosBonjour.BonjourZeroconf.RemoveListener | ios/BonjourZeroconf.swift:84-106 | a handle removes its own id from its own channel only |
| IosBonjour.BonjourZeroconf.ResolveService | ios/BonjourZeroconf+AddressResolver.swift:11-79 | returns the value of the attempt's first decisive event, and sends that outcome's fail notification, if any |
| IosBonjour.BonjourZeroconf.CollectChanges | ios/BonjourZeroconf.swift:124-164 | the loop leaves the cache, queue and flag that the batch fold gives |
| IosBonjour.BonjourZeroconf.ResolveTask | ios/BonjourZeroconf.swift:170-185 | one completed task's result is written under its key when non-nil, and its fail notification is sent |
| IosBonjour.BonjourZeroconf.ResolveQueued | ios/BonjourZeroconf.swift:166-187 | the task group runs only when something was enqueued; either way the cache is the old cache with the writes applied in completion order |
| IosBonjour.BonjourZeroconf.ResolveAll | ios/BonjourZeroconf.swift:167-187 | the cache is the old cache with the writes applied in completion order, and the fail notifications are those of the tasks in that order |
| IosBonjour.BonjourZeroconf.ProcessChanges | ios/BonjourZeroconf.swift:123-193 | the cache is the planned cache with the resolved writes; one results notification with the snapshot after all writes iff the batch changed something |
| AndroidAddressResolver.Unsigned | android/src/main/java/com/margelo/nitro/dawidzawada/bonjourzeroconf/BonjourZeroconf+AddressResolver.kt:193 | the masked byte agrees with the signed one modulo 256, and equals it when non-negative |
| AndroidAddressResolver.UnsignedInjective | android/src/main/java/com/margelo/nitro/dawidzawada/bonjourzeroconf/BonjourZeroconf+AddressResolver.kt:193 | masking loses no information |
| AndroidAddressResolver.Segment | android/src/main/java/com/margelo/nitro/dawidzawada/bonjourzeroconf/BonjourZeroconf+AddressResolver.kt:193 | a 16-bit value whose high octet is byte 2i and low octet byte 2i+1, both masked |
| AndroidAddressResolver.FormatIPv6Address | android/src/main/java/com/margelo/nitro/dawidzawada/bonjourzeroconf/BonjourZeroconf+AddressResolver.kt:189-196 | requires 16 bytes; the text is the unpadded eight-group form of the masked octets |
| AndroidAddressResolver.FormatIPv6RoundTrip | android/src/main/java/com/margelo/nitro/dawidzawada/bonjourzeroconf/BonjourZeroconf+AddressResolver.kt:192-195 | eight groups of one to four digits, no leading zero, group i parsing to segment i, and the whole text parsing back to the octets |
| AndroidAddressResolver.FormatIPv6Injective | android/src/main/java/com/margelo/nitro/dawidzawada/bonjourzeroconf/BonjourZeroconf+AddressResolver.kt:192-195 | different addresses never give the same text |
| AndroidAddressResolver.ExtractScanResult | android/src/main/java/com/margelo/nitro/dawidzawada/bonjourzeroconf/BonjourZeroconf+AddressResolver.kt:164-181 | none iff there is no host; name, port and host name are copied; ipv4 is the host address iff 4 bytes; ipv6 is set iff 16 bytes, and is then the unpadded eight-group text of `formatIPv6Address`, which parses back to the octets |
| AndroidAddressResolver.ExtractAddressFields | android/src/main/java/com/margelo/nitro/dawidzawada/bonjourzeroconf/BonjourZeroconf+AddressResolver.kt:169-179 | the host name is always set, and ipv4 and ipv6 are never both set |
| AndroidBonjour.CreateServiceKey | android/src/main/java/com/margelo/nitro/dawidzawada/bonjourzeroconf/BonjourZeroconf.kt:204-206 | the key is the service name, a dot, then the service type; nothing else, in particular no domain, enters it |
| AndroidBonjour.ServiceKeyNames | android/src/main/java/com/margelo/nitro/dawidzawada/bonjourzeroconf/BonjourZeroconf.kt:204-206 | within one service type, keys are equal iff names are; the domain plays no part |
| AndroidBonjour.TruncateTowardZero | android/src/main/java/com/margelo/nitro/dawidzawada/bonjourzeroconf/BonjourZeroconf.kt:57 | the whole number within one of the value, on zero's side |
| AndroidBonjour.ResolveTimeoutMs | android/src/main/java/com/margelo/nitro/dawidzawada/bonjourzeroconf/BonjourZeroconf.kt:57 | the option truncated to a whole number of milliseconds when given, otherwise 10000 |
| AndroidBonjour.ScanOutcomeOf | android/src/main/java/com/margelo/nitro/dawidzawada/bonjourzeroconf/BonjourZeroconf.kt:44-70 | already scanning returns; no context or no manager throws before any change; otherwise the start succeeds or throws |
| AndroidBonjour.ResolveFail | android/src/main/java/com/margelo/nitro/dawidzawada/bonjourzeroconf/BonjourZeroconf+AddressResolver.kt:47-161 | RESOLVE_FAILED for a failed registration or resolve and a throwing call, on both paths, and for cancellation on the new path only; nothing for a timeout, a missing manager or a delivery |
| AndroidBonjour.ResolutionWrite | android/src/main/java/com/margelo/nitro/dawidzawada/bonjourzeroconf/BonjourZeroconf+AddressResolver.kt:54-157 | a write iff info was delivered while scanning and extraction gave a result, which is then what is written |
| AndroidBonjour.NoWriteAfterStop | android/src/main/java/com/margelo/nitro/dawidzawada/bonjourzeroconf/BonjourZeroconf+AddressResolver.kt:58-61 | a resolution delivered once scanning is off writes nothing |
| AndroidBonjour.BonjourZeroconf.FanOutTo | android/src/main/java/com/margelo/nitro/dawidzawada/bonjourzeroconf/BonjourZeroconf+Listeners.kt:11-17 | every listener is invoked once even when some throw; the logged ids are exactly the throwing listeners |
| AndroidBonjour.BonjourZeroconf.NotifyScanResults | android/src/main/java/com/margelo/nitro/dawidzawada/bonjourzeroconf/BonjourZeroconf+Listeners.kt:8-19 | one snapshot of the cache at call time goes to every results listener |
| AndroidBonjour.BonjourZeroconf.UpdateScanningState | android/src/main/java/com/margelo/nitro/dawidzawada/bonjourzeroconf/BonjourZeroconf+Listeners.kt:21-32 | the flag is set, and every state listener gets the new value |
| AndroidBonjour.BonjourZeroconf.NotifyScanFail | android/src/main/java/com/margelo/nitro/dawidzawada/bonjourzeroconf/BonjourZeroconf+Listeners.kt:35-45 | every fail listener gets the value; flag, cache and listener maps are untouched |
| AndroidBonjour.BonjourZeroconf.Scan | android/src/main/java/com/margelo/nitro/dawidzawada/bonjourzeroconf/BonjourZeroconf.kt:44-72 | the outcome follows the guard and the lookups; the early outcomes change nothing; a started scan stores the listener with its timeout and turns the flag on; a failed start turns it on and off again and keeps the old listener |
| AndroidBonjour.BonjourZeroconf.StartDiscovery | android/src/main/java/com/margelo/nitro/dawidzawada/bonjourzeroconf/BonjourZeroconf.kt:60-71 | the flag goes on before discovery; a throwing start notifies false as well and stores no listener |
| AndroidBonjour.BonjourZeroconf.ScanForAfterDelay | android/src/main/java/com/margelo/nitro/dawidzawada/bonjourzeroconf/BonjourZeroconf.kt:85-89 | returns the snapshot taken before `stop()`, which then clears the cache |
| AndroidBonjour.BonjourZeroconf.Stop | android/src/main/java/com/margelo/nitro/dawidzawada/bonjourzeroconf/BonjourZeroconf.kt:93-107 | the cache is emptied and the listener dropped, the flag is left alone, and the platform stop is asked for iff a listener and a manager exist |
| AndroidBonjour.BonjourZeroconf.ListenForScanResults | android/src/main/java/com/margelo/nitro/dawidzawada/bonjourzeroconf/BonjourZeroconf.kt:109-127 | registers the callback and replays the snapshot only when the cache is not empty |
| AndroidBonjour.BonjourZeroconf.ListenForScanState | android/src/main/java/com/margelo/nitro/dawidzawada/bonjourzeroconf/BonjourZeroconf.kt:129-144 | registers the callback and always replays the current flag |
| AndroidBonjour.BonjourZeroconf.ListenForScanFail | android/src/main/java/com/margelo/nitro/dawidzawada/bonjourzeroconf/BonjourZeroconf.kt:146-153 | registers the callback and replays nothing |
| AndroidBonjour.BonjourZeroconf.RemoveListener | android/src/main/java/com/margelo/nitro/dawidzawada/bonjourzeroconf/BonjourZeroconf.kt:124-152 | a handle removes its own id from its own channel only |
| AndroidBonjour.BonjourZeroconf.OnServiceFound | android/src/main/java/com/margelo/nitro/dawidzawada/bonjourzeroconf/BonjourZeroconf.kt:161-176 | a resolution is launched iff the key is not cached, and it carries the service, its key and the listener's timeout |
| AndroidBonjour.BonjourZeroconf.OnServiceLost | android/src/main/java/com/margelo/nitro/dawidzawada/bonjourzeroconf/BonjourZeroconf.kt:178-185 | the key is removed, and results listeners are notified iff an entry was removed |
| AndroidBonjour.BonjourZeroconf.OnDiscoveryStopped | android/src/main/java/com/margelo/nitro/dawidzawada/bonjourzeroconf/BonjourZeroconf.kt:187-190 | the flag goes off with a notification |
| AndroidBonjour.BonjourZeroconf.OnStartDiscoveryFailed | android/src/main/java/com/margelo/nitro/dawidzawada/bonjourzeroconf/BonjourZeroconf.kt:192-196 | DISCOVERY_FAILED to every fail listener, then the flag off |
| AndroidBonjour.BonjourZeroconf.OnStopDiscoveryFailed | android/src/main/java/com/margelo/nitro/dawidzawada/bonjourzeroconf/BonjourZeroconf.kt:198-201 | DISCOVERY_FAILED to every fail listener; the flag is unchanged |
| AndroidBonjour.BonjourZeroconf.ResolveService | android/src/main/java/com/margelo/nitro/dawidzawada/bonjourzeroconf/BonjourZeroconf+AddressResolver.kt:13-22 | nothing runs when not scanning; otherwise the new path iff the SDK level is 34 or more |
| AndroidBonjour.BonjourZeroconf.SendResolveFail | android/src/main/java/com/margelo/nitro/dawidzawada/bonjourzeroconf/BonjourZeroconf+AddressResolver.kt:103-106 | a resolution's fail notice, when it has one, goes once to every fail listener; otherwise no listener is called |
| AndroidBonjour.BonjourZeroconf.StoreResolved | android/src/main/java/com/margelo/nitro/dawidzawada/bonjourzeroconf/BonjourZeroconf+AddressResolver.kt:96-101 | an extracted result is written under the key and the snapshot taken after the write goes to every results listener; no result writes and notifies nothing |
| AndroidBonjour.BonjourZeroconf.FinishResolution | android/src/main/java/com/margelo/nitro/dawidzawada/bonjourzeroconf/BonjourZeroconf+AddressResolver.kt:25-162 | the path's fail notification, then the cache written under the key and one results notification only for a delivery while scanning that extracts |

## Left out

- Concurrency is not modelled: the iOS actor, `Task {}`, the task group, dispatch queues, Kotlin
  coroutine scopes, `Dispatchers.Main`, `cancelChildren`, `withTimeoutOrNull` and the legacy resolve mutex.
  Each callback or completion is one atomic step.
- Deliveries that are scheduled asynchronously are modelled as immediate appends to the notification
  trace.
- iOS `stop()` clears the cache in a detached `Task`. The model clears it at once, and leaves nothing
  that stops an in-flight batch from writing the cache afterwards.
- The platform objects are inputs, not models: `NWBrowser.start`, `NWConnection`, `NsdManager`,
  `ServiceInfoCallback`, `ResolveListener`, executors, and the platform texts `InetAddress.hostAddress` and
  `hostName`. Waiting, setup and preparing states are events that decide nothing.
- UUID generation is a parameter: the caller supplies the listener id.
- A listener closure is only its id on iOS, and on Android its id plus whether invoking it throws. What
  a listener does with its payload is not modelled.
- The order of a fan-out over a dictionary is any order. Only "each registered listener exactly once" is
  stated.
- `[weak self]` captures are not modelled: `self` is assumed alive when a handler runs.
- Logging (`Loggy`, `Log`) is not modelled. The Android fan-outs record which listener threw, and that
  record stands for the logged exception.
- Android `scanFor` is split into `Scan` followed by `ScanForAfterDelay`. The delay itself, and the
  rejection of the promise when `scan` throws, are not modelled.
- The resolution that `OnServiceFound` launches is returned as a request and finished by
  `FinishResolution`; the coroutine in between is not modelled.
- The Android cancellation of in-flight resolutions by `stop()` is the `CancelledByStop` event of
  `FinishResolution`, not a link between the two methods.
- AndroidBonjour.TruncateTowardZero: models `Double.toLong()` on finite values only. NaN (which gives 0)
  and the clamp to the `Long` range are not modelled, because reals have neither.
- Ports are integers, not `Double`. The conversion `Double(portNumber)` / `port.toDouble()` is exact for
  ports.
- AndroidAddressResolver.ExtractScanResult: the `catch` that sends `EXTRACTION_FAILED` is not modelled.
  In this model nothing inside the `try` can throw: `require` is met because the length is checked, and the
  platform texts are given.
- AndroidAddressResolver.Segment: the `shl 8` and `or` on 32-bit ints are modelled as `* 256` and `+`.
  These are equal because both operands are masked to eight bits.
- The iOS resolver is given the `name` of the service, as the source passes it. The endpoint being
  resolved is not modelled apart from the events its connection produces.
- iOS `@unknown default` cases of the change and host enums are modelled by the `Identical` change and
  the `UnknownHost` host, which produce nothing.
- iOS `LocalNetworkPermission`, the TypeScript bridge, the React hooks and the example app are not part
  of this model.
