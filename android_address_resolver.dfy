/** Android address extraction (`BonjourZeroconf+AddressResolver.kt`): the IPv6 text of
    `formatIPv6Address` and the `ScanResult` that `extractScanResult` builds from a resolved
    `NsdServiceInfo`. */
module AndroidAddressResolver {
  import opened Common
  import opened AddressText

  /** A Kotlin `Byte`: signed, two's complement. */
  type JByte = x: int | -128 <= x < 128

  /** `b.toInt() and 0xFF`: the low eight bits of the sign-extended value. */
  function Unsigned(b: JByte): (u: Byte)
    ensures u % 256 == b % 256
    ensures b >= 0 ==> u == b
  {
    if b < 0 then b + 256 else b
  }

  lemma UnsignedInjective(a: JByte, b: JByte)
    ensures Unsigned(a) == Unsigned(b) <==> a == b
  {
  }

  function UnsignedBytes(bytes: seq<JByte>): (u: seq<Byte>)
    ensures |u| == |bytes|
    ensures forall i :: 0 <= i < |bytes| ==> u[i] == Unsigned(bytes[i])
  {
    seq(|bytes|, i requires 0 <= i < |bytes| => Unsigned(bytes[i]))
  }

  /** The `segment` of group `i`: the masked high octet shifted left by eight, or-ed with the
      masked low octet. Both are below 256, so the shift is a product by 256 and the or of the
      disjoint bits is a sum. */
  function Segment(bytes: seq<JByte>, i: nat): (v: nat)
    requires 2 * i + 1 < |bytes|
    ensures v < 65536
    ensures v / 256 == Unsigned(bytes[2 * i]) && v % 256 == Unsigned(bytes[2 * i + 1])
  {
    Unsigned(bytes[2 * i]) * 256 + Unsigned(bytes[2 * i + 1])
  }

  /** `formatIPv6Address`: eight groups, each `segment.toString(16)`, joined by ":". The
      `require` on the size is the precondition. */
  function FormatIPv6Address(bytes: seq<JByte>): (s: string)
    requires |bytes| == 16
    ensures s == FormatCompactIPv6(UnsignedBytes(bytes))
  {
    var groups := seq(8, i requires 0 <= i < 8 => ToDigits(Segment(bytes, i), 16));
    assert forall i :: 0 <= i < 8 ==> Segment(bytes, i) == GroupValue(UnsignedBytes(bytes), i);
    assert groups == CompactGroups(UnsignedBytes(bytes));
    Join(groups, ':')
  }

  /** The text reads back to the address's octets; group i is the 16-bit value of octets 2i and
      2i+1 in lower-case hex of one to four digits, "0" for a zero group. */
  lemma FormatIPv6RoundTrip(bytes: seq<JByte>)
    requires |bytes| == 16
    ensures ParseIPv6(FormatIPv6Address(bytes)) == Some(UnsignedBytes(bytes))
    ensures Split(FormatIPv6Address(bytes), ':') == CompactGroups(UnsignedBytes(bytes))
    ensures forall i :: 0 <= i < 8 ==>
      var g := Split(FormatIPv6Address(bytes), ':')[i];
      1 <= |g| <= 4 && (g[0] == '0' ==> g == "0") && FromDigits(g, 16) == Some(Segment(bytes, i))
  {
    CompactIPv6RoundTrip(UnsignedBytes(bytes));
  }

  /** Different addresses never share a text. */
  lemma FormatIPv6Injective(a: seq<JByte>, b: seq<JByte>)
    requires |a| == 16 && |b| == 16
    requires FormatIPv6Address(a) == FormatIPv6Address(b)
    ensures a == b
  {
    FormatIPv6RoundTrip(a);
    FormatIPv6RoundTrip(b);
    assert UnsignedBytes(a) == UnsignedBytes(b);
    forall i | 0 <= i < 16 ensures a[i] == b[i] {
      UnsignedInjective(a[i], b[i]);
    }
  }

  /** `InetAddress`: the raw octets, and the platform's own texts for it, taken as given. */
  datatype InetAddress = InetAddress(address: seq<JByte>, hostAddress: string, hostName: string)

  /** `NsdServiceInfo`, as far as this code reads it. */
  datatype NsdServiceInfo = NsdServiceInfo(serviceName: string, serviceType: string, host: Option<InetAddress>, port: int)

  /** `extractScanResult`: none without a host; otherwise the name and port of the info, the
      host name always, and ipv4 or ipv6 by the address length (neither for other lengths). */
  function ExtractScanResult(info: NsdServiceInfo): (r: Option<ScanResult>)
    ensures r.None? <==> info.host.None?
    ensures r.Some? ==>
      && r.value.name == info.serviceName
      && r.value.port == Some(info.port)
      && r.value.hostname == Some(info.host.value.hostName)
    ensures r.Some? ==>
      r.value.ipv4 == if |info.host.value.address| == 4 then Some(info.host.value.hostAddress) else None
    ensures r.Some? ==> (r.value.ipv6.Some? <==> |info.host.value.address| == 16)
    ensures r.Some? && |info.host.value.address| == 16 ==>
      r.value.ipv6 == Some(FormatIPv6Address(info.host.value.address))
    ensures r.Some? && r.value.ipv6.Some? ==>
      ParseIPv6(r.value.ipv6.value) == Some(UnsignedBytes(info.host.value.address))
  {
    match info.host
    case None => None
    case Some(host) =>
      var n := |host.address|;
      var ipv4 := if n == 4 then Some(host.hostAddress) else None;
      var ipv6 := if n == 16 then (FormatIPv6RoundTrip(host.address); Some(FormatIPv6Address(host.address))) else None;
      Some(ScanResult(info.serviceName, ipv4, ipv6, Some(host.hostName), Some(info.port)))
  }

  /** Unlike the iOS record, a host name always accompanies the address, and at most one of
      ipv4 and ipv6 is set. */
  lemma ExtractAddressFields(info: NsdServiceInfo)
    requires ExtractScanResult(info).Some?
    ensures var r := ExtractScanResult(info).value;
      r.hostname.Some? && !(r.ipv4.Some? && r.ipv6.Some?)
  {
  }
}
