/**
 * The packet statistics of `network_traffic_analyzer.py`: the protocol a
 * packet is counted under, the counters one packet updates and the size
 * statistics.  A packet is reduced to the layers the analyzer asks about;
 * capture threads, the queue, the JSON file and the plots are not modelled,
 * and the wall-clock timestamp of a packet is an input.
 */
module NetworkTraffic {
  import opened Wrappers

  datatype Protocol = TCP | UDP | ICMP | HTTP | HTTPS | DNS | OTHER

  datatype Ports = Ports(sport: int, dport: int)

  datatype Addresses = Addresses(src: string, dst: string)

  /** The layers of a scapy packet the analyzer looks at, and `len(packet)`. */
  datatype Packet = Packet(ip: Option<Addresses>, tcp: Option<Ports>, udp: Option<Ports>, icmp: bool, size: nat)

  predicate OnPort(p: Ports, port: int) { p.dport == port || p.sport == port }

  /**
   * `_get_protocol`: TCP is looked at first, then UDP, then ICMP; for TCP,
   * port 80 on either side beats port 443.
   */
  function GetProtocol(p: Packet): (r: Protocol)
    ensures r == HTTP <==> p.tcp.Some? && OnPort(p.tcp.value, 80)
    ensures r == HTTPS <==> p.tcp.Some? && !OnPort(p.tcp.value, 80) && OnPort(p.tcp.value, 443)
    ensures r == TCP <==> p.tcp.Some? && !OnPort(p.tcp.value, 80) && !OnPort(p.tcp.value, 443)
    ensures r == DNS <==> p.tcp.None? && p.udp.Some? && OnPort(p.udp.value, 53)
    ensures r == UDP <==> p.tcp.None? && p.udp.Some? && !OnPort(p.udp.value, 53)
    ensures r == ICMP <==> p.tcp.None? && p.udp.None? && p.icmp
    ensures r == OTHER <==> p.tcp.None? && p.udp.None? && !p.icmp
  {
    if p.tcp.Some? then
      if OnPort(p.tcp.value, 80) then HTTP
      else if OnPort(p.tcp.value, 443) then HTTPS
      else TCP
    else if p.udp.Some? then
      if OnPort(p.udp.value, 53) then DNS else UDP
    else if p.icmp then ICMP
    else OTHER
  }

  /** A TCP packet between ports 80 and 443 is HTTP, whichever side each is on. */
  lemma Port80Wins(p: Packet)
    requires p.tcp.Some? && ((p.tcp.value.sport == 80 && p.tcp.value.dport == 443)
                             || (p.tcp.value.sport == 443 && p.tcp.value.dport == 80))
    ensures GetProtocol(p) == HTTP
  {
  }

  /** `d.get(k, 0)`. */
  function Get<K>(m: map<K, nat>, k: K): nat {
    if k in m then m[k] else 0
  }

  /** `d[k] = d.get(k, 0) + 1`. */
  function Bump<K(!new)>(m: map<K, nat>, k: K): (r: map<K, nat>)
    ensures r.Keys == m.Keys + {k}
    ensures Get(r, k) == Get(m, k) + 1 && forall j :: j != k ==> Get(r, j) == Get(m, j)
  {
    m[k := Get(m, k) + 1]
  }

  /** The sum of the protocol counters; the seven protocols are all the keys there can be. */
  function Total(m: map<Protocol, nat>): nat {
    Get(m, TCP) + Get(m, UDP) + Get(m, ICMP) + Get(m, HTTP) + Get(m, HTTPS) + Get(m, DNS) + Get(m, OTHER)
  }

  /** Counting one packet under any protocol adds one to the sum. */
  lemma TotalBump(m: map<Protocol, nat>, p: Protocol)
    ensures Total(Bump(m, p)) == Total(m) + 1
  {
    var r := Bump(m, p);
    assert Get(r, p) == Get(m, p) + 1;
    match p
    case TCP => assert Get(r, UDP) == Get(m, UDP);
    case _ =>
  }

  /** `get_packet_size_stats` without the average's float rounding. */
  datatype SizeStats = SizeStats(min: nat, max: nat, avg: real)

  function Sum(xs: seq<nat>): nat {
    if xs == [] then 0 else xs[0] + Sum(xs[1..])
  }

  /** Python's `min` of a non-empty list. */
  function Min(xs: seq<nat>): (m: nat)
    requires xs != []
    ensures m in xs && forall k :: 0 <= k < |xs| ==> m <= xs[k]
  {
    if |xs| == 1 then xs[0]
    else
      var rest := Min(xs[1..]);
      assert forall k :: 1 <= k < |xs| ==> xs[k] == xs[1..][k - 1];
      if xs[0] <= rest then xs[0] else rest
  }

  /** Python's `max` of a non-empty list. */
  function Max(xs: seq<nat>): (m: nat)
    requires xs != []
    ensures m in xs && forall k :: 0 <= k < |xs| ==> xs[k] <= m
  {
    if |xs| == 1 then xs[0]
    else
      var rest := Max(xs[1..]);
      assert forall k :: 1 <= k < |xs| ==> xs[k] == xs[1..][k - 1];
      if xs[0] >= rest then xs[0] else rest
  }

  /** `{}` for no packets; otherwise the smallest, the largest and the mean size. */
  function SizeStatsOf(sizes: seq<nat>): (r: Option<SizeStats>)
    ensures r.None? <==> sizes == []
    ensures r.Some? ==> r.value.min <= r.value.max && r.value.min in sizes && r.value.max in sizes
    ensures r.Some? ==> forall k :: 0 <= k < |sizes| ==> r.value.min <= sizes[k] <= r.value.max
  {
    if sizes == [] then None
    else
      var lo, hi := Min(sizes), Max(sizes);
      assert lo <= sizes[0] <= hi;
      Some(SizeStats(lo, hi, Sum(sizes) as real / |sizes| as real))
  }

  /** The mean lies between the smallest and the largest size. */
  lemma {:induction false} SumBounds(xs: seq<nat>, lo: nat, hi: nat)
    requires forall k :: 0 <= k < |xs| ==> lo <= xs[k] <= hi
    ensures |xs| * lo <= Sum(xs) <= |xs| * hi
  {
    if xs != [] {
      var n := |xs| - 1;
      SumBounds(xs[1..], lo, hi);
      assert |xs| * lo == n * lo + lo && |xs| * hi == n * hi + hi;
    }
  }

  lemma AverageBetween(sizes: seq<nat>)
    requires sizes != []
    ensures var s := SizeStatsOf(sizes).value; s.min as real <= s.avg <= s.max as real
  {
    var s := SizeStatsOf(sizes).value;
    SumBounds(sizes, s.min, s.max);
    RealBounds(|sizes|, s.min, s.max, Sum(sizes));
  }

  lemma RealBounds(n: nat, lo: nat, hi: nat, sum: nat)
    requires 0 < n && n * lo <= sum <= n * hi
    ensures lo as real <= sum as real / n as real <= hi as real
  {
    var q := sum as real / n as real;
    assert q * n as real == sum as real;
    assert (n * lo) as real == n as real * lo as real;
    assert (n * hi) as real == n as real * hi as real;
  }

  class Analyzer {
    var totalPackets: nat
    var protocols: map<Protocol, nat>
    var ipAddresses: map<string, nat>
    var ports: map<int, nat>
    var packetSizes: seq<nat>
    var timestamps: seq<string>

    /** Every packet is counted once overall, once under its protocol, and leaves one size and one time. */
    ghost predicate Valid()
      reads this
    {
      Total(protocols) == totalPackets && |packetSizes| == totalPackets && |timestamps| == totalPackets
    }

    /** The initial statistics; loading `traffic_stats.json` is not modelled. */
    constructor()
      ensures Valid() && totalPackets == 0 && protocols == map[] && ipAddresses == map[] && ports == map[]
      ensures packetSizes == [] && timestamps == []
    {
      totalPackets, protocols, ipAddresses, ports := 0, map[], map[], map[];
      packetSizes, timestamps := [], [];
    }

    /**
     * `_process_packet`: one more packet overall and under its protocol; both
     * addresses of an IP packet and both ports of a TCP packet counted (twice
     * when the two sides are equal); its size and time appended.
     */
    method ProcessPacket(p: Packet, timestamp: string)
      requires Valid()
      modifies this
      ensures Valid()
      ensures totalPackets == old(totalPackets) + 1
      ensures protocols == Bump(old(protocols), GetProtocol(p))
      ensures ipAddresses == if p.ip.Some? then Bump(Bump(old(ipAddresses), p.ip.value.src), p.ip.value.dst)
                             else old(ipAddresses)
      ensures ports == if p.tcp.Some? then Bump(Bump(old(ports), p.tcp.value.sport), p.tcp.value.dport)
                       else old(ports)
      ensures packetSizes == old(packetSizes) + [p.size] && timestamps == old(timestamps) + [timestamp]
    {
      var protocol := GetProtocol(p);
      TotalBump(protocols, protocol);
      var ips, tcpPorts := ipAddresses, ports;
      if p.ip.Some? {
        ips := Bump(ips, p.ip.value.src);
        ips := Bump(ips, p.ip.value.dst);
      }
      if p.tcp.Some? {
        tcpPorts := Bump(tcpPorts, p.tcp.value.sport);
        tcpPorts := Bump(tcpPorts, p.tcp.value.dport);
      }
      totalPackets, protocols, ipAddresses, ports := totalPackets + 1, Bump(protocols, protocol), ips, tcpPorts;
      packetSizes, timestamps := packetSizes + [p.size], timestamps + [timestamp];
    }

    /** `get_packet_size_stats`. */
    function PacketSizeStats(): (r: Option<SizeStats>)
      reads this
      ensures r.None? <==> packetSizes == []
      ensures r.Some? ==> r.value.min <= r.value.max
    {
      SizeStatsOf(packetSizes)
    }
  }

  /** An address on both sides of a packet gains two. */
  lemma SameAddressTwice(m: map<string, nat>, a: string)
    ensures Get(Bump(Bump(m, a), a), a) == Get(m, a) + 2
  {
  }
}
