/** iOS address resolution (`BonjourZeroconf+AddressResolver.swift`): turning the remote
    endpoint of a ready connection into a `ScanResult`, and the resume-once guard that lets
    exactly one of ready, failed and the timeout finish a resolution. */
module IosAddressResolver {
  import opened Common
  import opened AddressText

  // ---------------------------------------------------------------- endpoints

  /** `NWEndpoint.Host`: the raw octets of an address, a host name, or a kind this code does
      not know (`@unknown default`). */
  datatype Host =
    | IPv4(v4: seq<Byte>)
    | IPv6(v6: seq<Byte>)
    | Name(name: string, nameInterface: Option<string>)
    | UnknownHost

  /** `NWEndpoint`; `iface` is the name of `endpoint.interface`, when one is reported. */
  datatype Endpoint =
    | HostPort(host: Host, port: int, iface: Option<string>)
    | Service(name: string, serviceType: string, domain: string, iface: Option<string>)
    | Unix(path: string)
    | Url(url: string)
    | OpaqueEndpoint
  {
    /** What the platform types guarantee: 4 or 16 raw octets, a 16-bit port. */
    predicate WellFormed() {
      HostPort? ==>
        && 0 <= port < 65536
        && (host.IPv4? ==> |host.v4| == 4)
        && (host.IPv6? ==> |host.v6| == 16)
    }
  }

  /** The code's link-local test: the first 16 bits are fe80. This is narrower than the fe80::/10
      prefix, so febf::1, say, does not pass it. */
  predicate IsLinkLocal(a: seq<Byte>)
    requires |a| == 16
  {
    a[0] == 0xfe && a[1] == 0x80
  }

  /** What follows a link-local address: "%" and the interface name, "en0" when none is known
      (the zone index of section 11 of RFC 4007). */
  function ZoneSuffix(iface: Option<string>): string {
    "%" + iface.GetOr("en0")
  }

  /** `extractIPAndPort(from:serviceName:)`. */
  function ExtractIPAndPort(e: Endpoint, serviceName: string): (r: Option<ScanResult>)
    requires e.WellFormed()
    ensures r.Some? <==> e.HostPort? && !e.host.UnknownHost?
    ensures r.Some? ==> r.value.name == serviceName && r.value.port == Some(e.port)
    ensures r.Some? ==>
      && (r.value.ipv4.Some? <==> e.host.IPv4?)
      && (r.value.ipv6.Some? <==> e.host.IPv6?)
      && (r.value.hostname.Some? <==> e.host.Name?)
    ensures r.Some? && e.host.IPv4? ==> r.value.ipv4 == Some(FormatIPv4(e.host.v4))
    ensures r.Some? && e.host.IPv4? ==> ParseIPv4(r.value.ipv4.value) == Some(e.host.v4)
    ensures r.Some? && e.host.IPv6? ==>
      r.value.ipv6.value ==
        FormatPaddedIPv6(e.host.v6) + (if IsLinkLocal(e.host.v6) then ZoneSuffix(e.iface) else "")
    ensures r.Some? && e.host.IPv6? ==> ParseIPv6(TakeUntil(r.value.ipv6.value, '%')) == Some(e.host.v6)
    ensures r.Some? && e.host.Name? ==> r.value.hostname == Some(e.host.name)
  {
    match e
    case HostPort(host, port, iface) =>
      (match host
      case IPv4(a) =>
        IPv4RoundTrip(a);
        Some(ScanResult(serviceName, Some(FormatIPv4(a)), None, None, Some(port)))
      case IPv6(a) =>
        var formatted := FormatPaddedIPv6(a);
        var text := if HasPrefix(formatted, "fe80:") then formatted + ZoneSuffix(iface) else formatted;
        PaddedLinkLocal(a);
        PaddedIPv6RoundTrip(a);
        ZoneCut(a, if HasPrefix(formatted, "fe80:") then ZoneSuffix(iface) else "");
        assert formatted + "" == formatted;
        Some(ScanResult(serviceName, None, Some(text), None, Some(port)))
      case Name(name, _) =>
        Some(ScanResult(serviceName, None, None, Some(name), Some(port)))
      case UnknownHost =>
        None)
    case _ =>
      None
  }

  /** A produced result carries exactly one of the three address fields. */
  lemma ExtractOneAddress(e: Endpoint, serviceName: string)
    requires e.WellFormed() && ExtractIPAndPort(e, serviceName).Some?
    ensures var r := ExtractIPAndPort(e, serviceName).value;
      (if r.ipv4.Some? then 1 else 0) + (if r.ipv6.Some? then 1 else 0) + (if r.hostname.Some? then 1 else 0) == 1
  {
  }

  // ---------------------------------------------------------------- resume-once guard

  /** `AddressResolverError` plus the connection's own errors, which the code rethrows. */
  datatype ResolveError = Timeout | ExtractionError | ConnectionError(code: int)

  /** How the checked continuation was resumed. */
  datatype Outcome = Returned(result: ScanResult) | Threw(error: ResolveError)

  /** `NWConnection.State`; `Ready` carries `currentPath?.remoteEndpoint`. */
  datatype ConnectionState =
    | Setup
    | Preparing
    | Waiting(waitCode: int)
    | Ready(remote: Option<Endpoint>)
    | Failed(failCode: int)
    | Cancelled

  /** What reaches the resolution: a state update of the connection, or the timeout work item. */
  datatype AttemptEvent = StateUpdate(state: ConnectionState) | TimerFired

  predicate Decisive(e: AttemptEvent) {
    e.TimerFired? || (e.StateUpdate? && (e.state.Ready? || e.state.Failed?))
  }

  predicate WellFormedEvent(e: AttemptEvent) {
    e.StateUpdate? && e.state.Ready? && e.state.remote.Some? ==> e.state.remote.value.WellFormed()
  }

  /** The outcome a decisive event resumes with, when it finds the box not yet resumed. */
  function OutcomeOf(e: AttemptEvent, serviceName: string): (o: Outcome)
    requires Decisive(e) && WellFormedEvent(e)
    ensures e.TimerFired? ==> o == Threw(Timeout)
    ensures o.Returned? ==> e.StateUpdate? && e.state.Ready? && o.result.name == serviceName
    ensures e.StateUpdate? && e.state.Ready? ==>
      (o.Returned? <==> e.state.remote.Some? && ExtractIPAndPort(e.state.remote.value, serviceName).Some?)
    ensures e.StateUpdate? && e.state.Ready? && o.Threw? ==> o == Threw(ExtractionError)
    ensures o.Returned? ==> o.result == ExtractIPAndPort(e.state.remote.value, serviceName).value
    ensures e.StateUpdate? && e.state.Failed? ==> o == Threw(ConnectionError(e.state.failCode))
  {
    match e
    case TimerFired => Threw(Timeout)
    case StateUpdate(s) =>
      match s
      case Ready(remote) =>
        if remote.Some? && ExtractIPAndPort(remote.value, serviceName).Some?
        then Returned(ExtractIPAndPort(remote.value, serviceName).value)
        else Threw(ExtractionError)
      case Failed(code) => Threw(ConnectionError(code))
  }

  predicate WellFormedEvents(events: seq<AttemptEvent>) {
    forall i :: 0 <= i < |events| ==> WellFormedEvent(events[i])
  }

  /** The outcome of the first decisive event, if any: the winner of the race. */
  function FirstOutcome(events: seq<AttemptEvent>, serviceName: string): Option<Outcome>
    requires WellFormedEvents(events)
    decreases |events|
  {
    if events == [] then None
    else if Decisive(events[0]) then Some(OutcomeOf(events[0], serviceName))
    else FirstOutcome(events[1..], serviceName)
  }

  /** One more event decides a race only when none before it has. */
  lemma {:induction false} FirstOutcomeSnoc(events: seq<AttemptEvent>, e: AttemptEvent, serviceName: string)
    requires WellFormedEvents(events + [e])
    ensures WellFormedEvents(events) && WellFormedEvent(e)
    ensures FirstOutcome(events + [e], serviceName) ==
      if FirstOutcome(events, serviceName).Some? then FirstOutcome(events, serviceName)
      else if Decisive(e) then Some(OutcomeOf(e, serviceName))
      else None
    decreases |events|
  {
    assert forall i :: 0 <= i < |events| ==> events[i] == (events + [e])[i];
    assert (events + [e])[|events|] == e;
    if events == [] {
      assert events + [e] == [e] && [e][1..] == [];
    } else {
      assert (events + [e])[0] == events[0];
      assert (events + [e])[1..] == events[1..] + [e];
      FirstOutcomeSnoc(events[1..], e, serviceName);
    }
  }

  /** How a resolution ends: with the first decisive event, or else with the timeout, whose
      work item is only ever cancelled by a decisive event and so fires in the end. */
  function AttemptOutcome(events: seq<AttemptEvent>, serviceName: string): (o: Outcome)
    requires WellFormedEvents(events)
    ensures (forall i :: 0 <= i < |events| ==> !Decisive(events[i])) ==> o == Threw(Timeout)
    ensures forall i :: 0 <= i < |events| && Decisive(events[i]) && NoneDecisiveBefore(events, i) ==>
      o == OutcomeOf(events[i], serviceName)
  {
    FirstOutcomeAt(events, serviceName);
    FirstOutcome(events, serviceName).GetOr(Threw(Timeout))
  }

  predicate NoneDecisiveBefore(events: seq<AttemptEvent>, i: nat)
    requires i <= |events|
  {
    forall j :: 0 <= j < i ==> !Decisive(events[j])
  }

  /** The race is won by the earliest decisive event, and left open when there is none. */
  lemma {:induction false} FirstOutcomeAt(events: seq<AttemptEvent>, serviceName: string)
    requires WellFormedEvents(events)
    ensures (forall i :: 0 <= i < |events| ==> !Decisive(events[i])) <==> FirstOutcome(events, serviceName).None?
    ensures forall i :: 0 <= i < |events| && Decisive(events[i]) && NoneDecisiveBefore(events, i) ==>
      FirstOutcome(events, serviceName) == Some(OutcomeOf(events[i], serviceName))
    decreases |events|
  {
    if events != [] {
      var rest := events[1..];
      assert forall i :: 0 <= i < |rest| ==> rest[i] == events[i + 1];
      FirstOutcomeAt(rest, serviceName);
      if !Decisive(events[0]) {
        forall i | 0 <= i < |events| && Decisive(events[i]) && NoneDecisiveBefore(events, i)
          ensures FirstOutcome(events, serviceName) == Some(OutcomeOf(events[i], serviceName))
        {
          assert i > 0 && rest[i - 1] == events[i];
          assert NoneDecisiveBefore(rest, i - 1);
        }
        if FirstOutcome(events, serviceName).None? {
          forall i | 0 <= i < |events| ensures !Decisive(events[i]) {
            if i > 0 { assert rest[i - 1] == events[i]; }
          }
        }
      } else {
        forall i | 0 <= i < |events| && Decisive(events[i]) && NoneDecisiveBefore(events, i)
          ensures i == 0
        {
        }
      }
    }
  }

  /** Once a race is decided, no later event changes its outcome. */
  lemma {:induction false} LaterEventsIgnored(events: seq<AttemptEvent>, later: seq<AttemptEvent>, serviceName: string)
    requires WellFormedEvents(events + later)
    requires WellFormedEvents(events) && FirstOutcome(events, serviceName).Some?
    ensures FirstOutcome(events + later, serviceName) == FirstOutcome(events, serviceName)
    decreases |events|
  {
    assert (events + later)[0] == events[0];
    if !Decisive(events[0]) {
      assert (events + later)[1..] == events[1..] + later;
      LaterEventsIgnored(events[1..], later, serviceName);
    }
  }

  /** `ResumeBox` together with the timeout work item and the connection it guards. */
  class ResolveAttempt {
    const serviceName: string
    var hasResumed: bool
    var timerCancelled: bool
    var connectionCancelled: bool
    /** Every `continuation.resume`, in order; a checked continuation allows one. */
    var resumed: seq<Outcome>

    ghost predicate Valid()
      reads this
    {
      && |resumed| <= 1
      && (hasResumed <==> |resumed| == 1)
      && (connectionCancelled <==> hasResumed)
    }

    /** The continuation's state as the race so far decides it. */
    ghost predicate Matches(events: seq<AttemptEvent>)
      reads this
      requires WellFormedEvents(events)
    {
      resumed == match FirstOutcome(events, serviceName) case None => [] case Some(o) => [o]
    }

    constructor (name: string)
      ensures serviceName == name
      ensures Valid() && !hasResumed && !timerCancelled && resumed == []
    {
      serviceName := name;
      hasResumed := false;
      timerCancelled := false;
      connectionCancelled := false;
      resumed := [];
    }

    /** The timeout work item: a cancelled item never runs; a running one gives up unless
        the box has already been resumed. */
    method OnTimer()
      requires Valid()
      modifies this`hasResumed, this`connectionCancelled, this`resumed
      ensures Valid()
      ensures if old(timerCancelled) || old(hasResumed) then resumed == old(resumed)
              else resumed == [Threw(Timeout)]
    {
      if timerCancelled {
        return;
      }
      if hasResumed {
        return;
      }
      hasResumed := true;
      resumed := resumed + [Threw(Timeout)];
      connectionCancelled := true;
    }

    /** The connection's state update handler. Ready and failed cancel the timer first and
        only then consult the box; waiting, cancelled and the other states do nothing. */
    method OnStateUpdate(s: ConnectionState)
      requires Valid()
      requires s.Ready? && s.remote.Some? ==> s.remote.value.WellFormed()
      modifies this`hasResumed, this`timerCancelled, this`connectionCancelled, this`resumed
      ensures Valid()
      ensures timerCancelled == (old(timerCancelled) || s.Ready? || s.Failed?)
      ensures if old(hasResumed) || !Decisive(StateUpdate(s)) then resumed == old(resumed)
              else resumed == [OutcomeOf(StateUpdate(s), serviceName)]
    {
      match s
      case Ready(remote) =>
        timerCancelled := true;
        if hasResumed {
          return;
        }
        hasResumed := true;
        if remote.Some? && ExtractIPAndPort(remote.value, serviceName).Some? {
          resumed := resumed + [Returned(ExtractIPAndPort(remote.value, serviceName).value)];
        } else {
          resumed := resumed + [Threw(ExtractionError)];
        }
        connectionCancelled := true;
      case Failed(code) =>
        timerCancelled := true;
        if hasResumed {
          return;
        }
        hasResumed := true;
        resumed := resumed + [Threw(ConnectionError(code))];
        connectionCancelled := true;
      case _ =>
    }

    /** Delivers `events` in order; the continuation is resumed at most once, with the
        outcome of the first decisive event. */
    method Run(events: seq<AttemptEvent>)
      requires Valid() && !hasResumed && !timerCancelled && resumed == []
      requires WellFormedEvents(events)
      modifies this`hasResumed, this`timerCancelled, this`connectionCancelled, this`resumed
      ensures Valid() && Matches(events)
      ensures hasResumed <==> FirstOutcome(events, serviceName).Some?
      ensures timerCancelled ==> hasResumed
    {
      var i := 0;
      while i < |events|
        invariant 0 <= i <= |events|
        invariant Valid()
        invariant WellFormedEvents(events[..i])
        invariant Matches(events[..i])
        invariant timerCancelled ==> hasResumed
        decreases |events| - i
      {
        assert events[..i + 1] == events[..i] + [events[i]];
        FirstOutcomeSnoc(events[..i], events[i], serviceName);
        match events[i] {
          case TimerFired => OnTimer();
          case StateUpdate(s) => OnStateUpdate(s);
        }
        i := i + 1;
      }
      assert events[..i] == events;
    }
  }

  /** The `catch` of `resolveService`: which fail notification a failed resolution sends. */
  function FailNotice(o: Outcome): (f: Option<BonjourFail>)
    ensures o.Returned? ==> f == None
    ensures o == Threw(Timeout) <==> f == Some(ResolveFailed)
    ensures o == Threw(ExtractionError) <==> f == Some(ExtractionFailed)
    ensures f != Some(DiscoveryFailed)
  {
    match o
    case Threw(Timeout) => Some(ResolveFailed)
    case Threw(ExtractionError) => Some(ExtractionFailed)
    case _ => None
  }

  /** The fail notifications an outcome sends: none or one. */
  function FailPayload(o: Outcome): (ps: seq<Payload>)
    ensures |ps| <= 1
    ensures ps == if FailNotice(o).Some? then [Fail(FailNotice(o).value)] else []
  {
    match FailNotice(o)
    case None => []
    case Some(f) => [Fail(f)]
  }

  /** What `resolveService` returns: the result on success, nil on every failure. */
  function ResolvedValue(o: Outcome): (r: Option<ScanResult>)
    ensures r.Some? <==> o.Returned?
    ensures r.Some? ==> r.value == o.result
  {
    if o.Returned? then Some(o.result) else None
  }
}
