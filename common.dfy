/** Types shared by the iOS and the Android model of the Bonjour scanner. */
module Common {

  datatype Option<+T> = None | Some(value: T) {
    function GetOr(default: T): T {
      match this
      case Some(v) => v
      case None => default
    }
  }

  /** An unsigned octet, as Swift's UInt8 and as `b.toInt() and 0xFF` on Android. */
  type Byte = x: int | 0 <= x < 256

  /** A listener id: a UUID is a 128-bit value. */
  newtype Uuid = x: int | 0 <= x < 0x1_0000_0000_0000_0000_0000_0000_0000_0000

  /** The record handed to results listeners (src/specs/ScanResult.ts). The port is a
      number on the wire; here it is the integer both platforms convert from. */
  datatype ScanResult = ScanResult(
    name: string,
    ipv4: Option<string>,
    ipv6: Option<string>,
    hostname: Option<string>,
    port: Option<int>)

  /** The failure kinds sent to fail listeners. */
  datatype BonjourFail = DiscoveryFailed | ResolveFailed | ExtractionFailed

  /** The three listener channels; a payload belongs to exactly one of them. */
  datatype Channel = ResultsChannel | StateChannel | FailChannel

  datatype Payload = Results(results: seq<ScanResult>) | State(scanning: bool) | Fail(fail: BonjourFail) {
    function Channel(): Channel {
      match this
      case Results(_) => ResultsChannel
      case State(_) => StateChannel
      case Fail(_) => FailChannel
    }
  }

  /** One invocation of one registered listener with one payload. */
  datatype Notification = Notification(listener: Uuid, payload: Payload)

  /** What `listenFor...` returns: calling `remove()` on it removes `id` from `channel`'s map. */
  datatype ListenerHandle = ListenerHandle(channel: Channel, id: Uuid)

  /** The value of the optional `addressResolveTimeout` option. */
  datatype ScanOptions = ScanOptions(addressResolveTimeout: Option<real>)

  predicate Distinct<T(==)>(s: seq<T>) {
    forall i, j :: 0 <= i < j < |s| ==> s[i] != s[j]
  }

  /** A sequence without repetitions has as many elements as its set. */
  lemma {:induction false} DistinctCardinality<T>(s: seq<T>)
    requires Distinct(s)
    ensures |set x | x in s| == |s|
  {
    if s != [] {
      DistinctCardinality(s[1..]);
      assert (set x | x in s) == {s[0]} + (set x | x in s[1..]);
      assert s[0] !in (set x | x in s[1..]);
    }
  }
}
