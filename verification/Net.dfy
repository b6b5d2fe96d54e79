/** Packets (kernel/net.c): the Internet checksum against the one's complement sum of
    RFC 1071, and the UDP/IP/Ethernet encoder against the decoder. */
module Net {
  import opened Modular

  type Byte = x: int | 0 <= x < 256

  const U16: int := 0x1_0000
  const U32: int := 0x1_0000_0000
  const MBUF_SIZE: int := 2048

  // ---------------------------------------------------------------------
  // The checksum

  /** A 16-bit word as this little-endian machine reads it. */
  function Word(lo: int, hi: int): (r: int)
    ensures 0 <= lo < 256 && 0 <= hi < 256 ==> 0 <= r < U16
  {
    lo + 256 * hi
  }

  /** One's complement addition: a carry out of 16 bits is added back in. */
  function EndAround(a: int, b: int): int {
    if a + b < U16 then a + b else a + b - U16 + 1
  }

  /** A last odd byte counts as the low byte of a word. */
  function OnesSum(data: seq<Byte>): (r: int)
    ensures 0 <= r < U16
  {
    if |data| == 0 then 0
    else if |data| == 1 then data[0]
    else EndAround(Word(data[0], data[1]), OnesSum(data[2..]))
  }

  /** RFC 1071: the complement of the one's complement sum of the words. */
  function Checksum(data: seq<Byte>): (r: int)
    ensures 0 <= r < U16
  {
    U16 - 1 - OnesSum(data)
  }

  /** The plain sum of the words. */
  function PlainSum(data: seq<Byte>): (r: nat)
    ensures r <= (|data| + 1) / 2 * (U16 - 1)
  {
    if |data| == 0 then 0
    else if |data| == 1 then data[0]
    else Word(data[0], data[1]) + PlainSum(data[2..])
  }

  /** The representative of s modulo 2^16 - 1 that is zero only for zero. */
  function Residue(s: nat): (r: int)
    ensures 0 <= r < U16
  {
    if s == 0 then 0 else (s - 1) % (U16 - 1) + 1
  }

  lemma ResidueAdd(w: int, s: nat)
    requires 0 <= w < U16
    ensures Residue(w + s) == EndAround(w, Residue(s))
  {
  }

  lemma {:induction false} OnesSumIsResidue(data: seq<Byte>)
    ensures OnesSum(data) == Residue(PlainSum(data))
  {
    if |data| >= 2 {
      OnesSumIsResidue(data[2..]);
      ResidueAdd(Word(data[0], data[1]), PlainSum(data[2..]));
    }
  }

  /** The two folding steps at the end of in_cksum, on a 32-bit sum. */
  lemma FoldIsResidue(sum: nat)
    requires sum < U32
    ensures var once := sum % U16 + sum / U16;
            (once + once / U16) % U16 == Residue(sum)
  {
    var h, l := sum / U16, sum % U16;
    assert sum == h * U16 + l && h < U16;
    hide Residue;
    ResidueOfParts(h, l);
    FoldSmall(h + l);
  }

  lemma ResidueOfParts(h: nat, l: nat)
    ensures Residue(h * U16 + l) == Residue(h + l)
  {
    if h + l > 0 {
      ModAddMultiple(h + l - 1, h, U16 - 1);
      assert h + l - 1 + h * (U16 - 1) == h * U16 + l - 1;
    }
  }

  lemma FoldSmall(once: nat)
    requires once <= 2 * (U16 - 1)
    ensures (once + once / U16) % U16 == Residue(once)
  {
    if once < U16 {
      assert once == 0 || (once - 1) % (U16 - 1) == (if once - 1 < U16 - 1 then once - 1 else 0);
    } else {
      assert once / U16 == 1;
      assert (once - 1) % (U16 - 1) == once - 1 - (U16 - 1);
    }
  }

  lemma NoOverflow(data: seq<Byte>)
    requires |data| <= 0x2_0000
    ensures PlainSum(data) < U32
  {
    var n := (|data| + 1) / 2;
    assert n <= 0x1_0000;
    assert n * (U16 - 1) <= 0x1_0000 * (U16 - 1);
  }

  lemma {:induction false} PlainSumSplit(data: seq<Byte>, k: nat)
    requires 2 * k <= |data|
    ensures PlainSum(data) == PlainSum(data[..2 * k]) + PlainSum(data[2 * k..])
  {
    if k == 0 {
      assert data[2 * k..] == data;
    } else {
      PlainSumSplit(data[2..], k - 1);
      assert data[..2 * k][2..] == data[2..][..2 * (k - 1)];
      assert data[2..][2 * (k - 1)..] == data[2 * k..];
    }
  }

  lemma NextWord(data: seq<Byte>, w: nat)
    requires w + 2 <= |data|
    ensures PlainSum(data[w..]) == Word(data[w], data[w + 1]) + PlainSum(data[w + 2..])
  {
    assert data[w..][2..] == data[w + 2..];
  }

  /** 32-bit unsigned addition. */
  function Add32(a: int, b: int): (r: nat)
    ensures 0 <= a + b < U32 ==> r == a + b
  {
    (a + b) % U32
  }

  lemma LastWord(data: seq<Byte>)
    requires |data| <= 1
    ensures PlainSum(data) == if |data| == 0 then 0 else data[0]
  {
  }

  /** in_cksum computes the checksum of RFC 1071, for lengths whose sum cannot
      overflow the 32-bit accumulator. */
  method InCksum(data: seq<Byte>) returns (answer: int)
    requires |data| <= 0x2_0000
    ensures answer == Checksum(data)
  {
    hide Residue, Word, PlainSum, Add32;
    NoOverflow(data);
    var nleft, w, sum := |data|, 0, 0;
    assert data[0..] == data;
    while nleft > 1
      invariant 0 <= nleft == |data| - w && 0 <= sum
      invariant sum + PlainSum(data[w..]) == PlainSum(data)
      decreases nleft
    {
      NextWord(data, w);
      sum := Add32(sum, Word(data[w], data[w + 1]));
      w, nleft := w + 2, nleft - 2;
    }
    LastWord(data[w..]);
    if nleft == 1 {
      sum := Add32(sum, data[w]);
    }
    OnesSumIsResidue(data);
    FoldIsResidue(PlainSum(data));
    assert sum == PlainSum(data);
    sum := sum % U16 + sum / U16;
    sum := sum + sum / U16;
    answer := U16 - 1 - sum % U16;
  }

  lemma ComplementCancels(s: nat)
    ensures Residue(s + (U16 - 1 - Residue(s))) == U16 - 1
  {
    if s > 0 {
      var m := U16 - 1;
      var q := (s - 1) / m;
      assert s + (m - Residue(s)) - 1 == q * m + (m - 1);
      ModOf(q * m + (m - 1), q, m, m - 1);
    }
  }

  /** Store a 16-bit value at an offset, low byte first. */
  function Put16(data: seq<Byte>, at: nat, v: int): (r: seq<Byte>)
    requires at + 2 <= |data| && 0 <= v < U16
    ensures |r| == |data|
  {
    data[at := v % 256][at + 1 := v / 256]
  }

  lemma PlainSumAfterPut(data: seq<Byte>, at: nat, v: int)
    requires at % 2 == 0 && at + 2 <= |data| && data[at] == data[at + 1] == 0 && 0 <= v < U16
    ensures PlainSum(Put16(data, at, v)) == PlainSum(data) + v
  {
    var put, k := Put16(data, at, v), at / 2;
    PlainSumSplit(data, k);
    PlainSumSplit(put, k);
    NextWord(data, at);
    NextWord(put, at);
    assert put[..2 * k] == data[..2 * k] && put[at + 2..] == data[at + 2..];
    assert Word(put[at], put[at + 1]) == v;
  }

  /** Storing the checksum into the zeroed field makes the checksum zero, so a
      receiver accepts exactly what a sender sums up. */
  lemma StoredChecksum(data: seq<Byte>, at: nat)
    requires at % 2 == 0 && at + 2 <= |data| && data[at] == data[at + 1] == 0
    ensures Checksum(Put16(data, at, Checksum(data))) == 0
  {
    hide Residue, PlainSum, Put16;
    OnesSumIsResidue(data);
    OnesSumIsResidue(Put16(data, at, Checksum(data)));
    PlainSumAfterPut(data, at, Checksum(data));
    ComplementCancels(PlainSum(data));
  }

  // ---------------------------------------------------------------------
  // Frames

  /** Network byte order. */
  function Be16(v: int): seq<Byte>
    requires 0 <= v < U16
  {
    [v / 256, v % 256]
  }

  function Be32(v: int): seq<Byte>
    requires 0 <= v < U32
  {
    Be16(v / U16) + Be16(v % U16)
  }

  function From16(data: seq<Byte>, at: nat): (v: int)
    requires at + 2 <= |data|
    ensures 0 <= v < U16
  {
    Word(data[at + 1], data[at])
  }

  function From32(data: seq<Byte>, at: nat): (v: int)
    requires at + 4 <= |data|
    ensures 0 <= v < U32
  {
    U16 * From16(data, at) + From16(data, at + 2)
  }

  /** 16-bit unsigned subtraction. */
  function Sub16(a: int, b: int): (r: nat)
    ensures r < U16
  {
    (a - b) % U16
  }

  const ETH_LEN: int := 14
  const IP_LEN: int := 20
  const UDP_LEN: int := 8
  const ETHTYPE_IP: int := 0x0800
  const ETHTYPE_ARP: int := 0x0806
  const IPPROTO_UDP: int := 17
  const VHL: int := 0x45    // version 4, header of 5 words
  const LOCAL_MAC: seq<Byte> := [0x52, 0x54, 0x00, 0x12, 0x34, 0x56]
  const BROADCAST_MAC: seq<Byte> := [0xff, 0xff, 0xff, 0xff, 0xff, 0xff]

  datatype Addresses = Addresses(src: int, dst: int, sport: int, dport: int) {
    predicate Ok() {
      0 <= src < U32 && 0 <= dst < U32 && 0 <= sport < U16 && 0 <= dport < U16
    }
  }

  function EthHeader(ethtype: int): (r: seq<Byte>)
    requires 0 <= ethtype < U16
    ensures |r| == ETH_LEN
  {
    BROADCAST_MAC + LOCAL_MAC + Be16(ethtype)
  }

  /** The IP header before the checksum is stored at offset 10. */
  function BareIpHeader(a: Addresses, total: int): (r: seq<Byte>)
    requires a.Ok() && 0 <= total < U16
    ensures |r| == IP_LEN
  {
    [VHL, 0] + Be16(total) + [0, 0, 0, 0, 100, IPPROTO_UDP, 0, 0] + Be32(a.src) + Be32(a.dst)
  }

  function IpHeader(a: Addresses, total: int): (r: seq<Byte>)
    requires a.Ok() && 0 <= total < U16
    ensures |r| == IP_LEN
  {
    Put16(BareIpHeader(a, total), 10, Checksum(BareIpHeader(a, total)))
  }

  function UdpHeader(a: Addresses, ulen: int): (r: seq<Byte>)
    requires a.Ok() && 0 <= ulen < U16
    ensures |r| == UDP_LEN
  {
    Be16(a.sport) + Be16(a.dport) + Be16(ulen) + [0, 0]
  }

  /** What net_tx_udp hands to the network card. */
  function Frame(a: Addresses, payload: seq<Byte>): seq<Byte>
    requires a.Ok() && |payload| + UDP_LEN + IP_LEN < U16
  {
    var udp := UdpHeader(a, |payload| + UDP_LEN) + payload;
    EthHeader(ETHTYPE_IP) + (IpHeader(a, |udp| + IP_LEN) + udp)
  }

  /** What becomes of a received frame. */
  datatype Rx = Dropped | ToArp | Delivered(src: int, sport: int, dport: int, payload: seq<Byte>)

  function DecodeUdp(src: int, len: int, data: seq<Byte>): Rx
    requires 0 <= len < U16
  {
    if |data| < UDP_LEN || From16(data, 4) != len then Dropped
    else
      var n := Sub16(len, UDP_LEN);
      if n > |data| - UDP_LEN then Dropped
      else Delivered(src, From16(data, 0), From16(data, 2), data[UDP_LEN..UDP_LEN + n])
  }

  function DecodeIp(local: int, data: seq<Byte>): Rx {
    if |data| < IP_LEN then Dropped
    else if data[0] != VHL || Checksum(data[..IP_LEN]) != 0 then Dropped
    else if From16(data, 6) != 0 || From32(data, 16) != local || data[9] != IPPROTO_UDP then Dropped
    else DecodeUdp(From32(data, 12), Sub16(From16(data, 2), IP_LEN), data[IP_LEN..])
  }

  /** net_rx at a host whose address is `local`. */
  function Decode(local: int, data: seq<Byte>): Rx {
    if |data| < ETH_LEN then Dropped
    else if From16(data, 12) == ETHTYPE_IP then DecodeIp(local, data[ETH_LEN..])
    else if From16(data, 12) == ETHTYPE_ARP then ToArp
    else Dropped
  }

  // ---------------------------------------------------------------------
  // Round trip

  lemma UdpRoundTrip(a: Addresses, payload: seq<Byte>, padding: seq<Byte>)
    requires a.Ok() && |payload| + UDP_LEN < U16
    ensures DecodeUdp(a.src, |payload| + UDP_LEN, UdpHeader(a, |payload| + UDP_LEN) + payload + padding)
         == Delivered(a.src, a.sport, a.dport, payload)
  {
    var header := UdpHeader(a, |payload| + UDP_LEN);
    var data := header + payload + padding;
    assert data[UDP_LEN..UDP_LEN + |payload|] == payload;
    assert From16(data, 0) == a.sport && From16(data, 2) == a.dport && From16(data, 4) == |payload| + UDP_LEN;
  }

  lemma IpHeaderFields(a: Addresses, total: int, rest: seq<Byte>)
    requires a.Ok() && 0 <= total < U16
    ensures var data := IpHeader(a, total) + rest;
            && data[..IP_LEN] == IpHeader(a, total) && data[IP_LEN..] == rest
            && data[0] == VHL && data[9] == IPPROTO_UDP && From16(data, 2) == total && From16(data, 6) == 0
            && From32(data, 12) == a.src && From32(data, 16) == a.dst
            && Checksum(data[..IP_LEN]) == 0
  {
    hide Checksum;
    StoredChecksum(BareIpHeader(a, total), 10);
    var bare, header := BareIpHeader(a, total), IpHeader(a, total);
    assert forall i :: 0 <= i < IP_LEN && i != 10 && i != 11 ==> header[i] == bare[i];
    var data := header + rest;
    assert data[..IP_LEN] == header;
  }

  lemma SubBack(n: nat, k: nat)
    requires n < U16
    ensures Sub16(n + k, k) == n
  {
  }

  lemma EthField(ethtype: int, rest: seq<Byte>)
    requires 0 <= ethtype < U16
    ensures var data := EthHeader(ethtype) + rest;
            From16(data, 12) == ethtype && data[ETH_LEN..] == rest
  {
  }

  /** The receiver that owns the destination address gets exactly the payload, the
      source and the ports, whatever padding follows the frame; any other host drops
      it. */
  lemma RoundTrip(a: Addresses, payload: seq<Byte>, padding: seq<Byte>, local: int)
    requires a.Ok() && |payload| + UDP_LEN + IP_LEN < U16
    ensures Decode(local, Frame(a, payload) + padding)
         == if local == a.dst then Delivered(a.src, a.sport, a.dport, payload) else Dropped
  {
    hide DecodeUdp, IpHeader, UdpHeader, EthHeader, Checksum, From16, From32, Sub16;
    var udp := UdpHeader(a, |payload| + UDP_LEN) + payload;
    var ip := IpHeader(a, |udp| + IP_LEN);
    var data := Frame(a, payload) + padding;
    assert data == EthHeader(ETHTYPE_IP) + (ip + (udp + padding));
    EthField(ETHTYPE_IP, ip + (udp + padding));
    IpHeaderFields(a, |udp| + IP_LEN, udp + padding);
    assert Sub16(|udp| + IP_LEN, IP_LEN) == |udp| by {
      SubBack(|udp|, IP_LEN);
    }
    UdpRoundTrip(a, payload, padding);
  }

  // ---------------------------------------------------------------------
  // Frames byte by byte

  /** An Ethernet header in front of rest: broadcast, 52:54:00:12:34:56, the type. */
  predicate OnEthernet(frame: seq<Byte>, ethtype: int, rest: seq<Byte>) {
    && |frame| == 14 + |rest|
    && (forall x :: 0 <= x < 6 ==> frame[x] == 0xff)
    && frame[6..12] == [0x52, 0x54, 0x00, 0x12, 0x34, 0x56]
    && Field16(frame, 12, ethtype)
    && frame[14..] == rest
  }

  /** A 32-bit field, high byte first. */
  predicate Field32(data: seq<Byte>, at: nat, v: int) {
    at + 4 <= |data| && data[at] as int * 0x100_0000 + data[at + 1] as int * 0x1_0000 + data[at + 2] as int * 0x100 + data[at + 3] as int == v
  }

  /** A 16-bit field, high byte first. */
  predicate Field16(data: seq<Byte>, at: nat, v: int) {
    at + 2 <= |data| && data[at] as int * 256 + data[at + 1] as int == v
  }

  /** An IP header with a good checksum in front of rest. */
  predicate InIp(packet: seq<Byte>, a: Addresses, rest: seq<Byte>) {
    && |packet| == 20 + |rest|
    && packet[0] == 0x45 && packet[1] == 0 && Field16(packet, 2, |packet|)
    && packet[4] == packet[5] == packet[6] == packet[7] == 0 && packet[8] == 100 && packet[9] == 17
    && OnesSum(packet[..20]) == 0xffff
    && Field32(packet, 12, a.src) && Field32(packet, 16, a.dst)
    && packet[20..] == rest
  }

  predicate InUdp(datagram: seq<Byte>, a: Addresses, payload: seq<Byte>) {
    && |datagram| == 8 + |payload|
    && Field16(datagram, 0, a.sport) && Field16(datagram, 2, a.dport) && Field16(datagram, 4, |datagram|)
    && datagram[6] == datagram[7] == 0
    && datagram[8..] == payload
  }

  lemma EthBytes(ethtype: int, rest: seq<Byte>)
    requires 0 <= ethtype < U16
    ensures OnEthernet(EthHeader(ethtype) + rest, ethtype, rest)
  {
  }

  lemma IpBytes(a: Addresses, rest: seq<Byte>)
    requires a.Ok() && IP_LEN + |rest| < U16
    ensures InIp(IpHeader(a, IP_LEN + |rest|) + rest, a, rest)
  {
    hide OnesSum;
    var total := IP_LEN + |rest|;
    StoredChecksum(BareIpHeader(a, total), 10);
    var bare, header := BareIpHeader(a, total), IpHeader(a, total);
    assert forall i :: 0 <= i < IP_LEN && i != 10 && i != 11 ==> header[i] == bare[i];
    var packet := header + rest;
    assert packet[..20] == header;
  }

  lemma UdpBytes(a: Addresses, payload: seq<Byte>)
    requires a.Ok() && |payload| + UDP_LEN < U16
    ensures InUdp(UdpHeader(a, |payload| + UDP_LEN) + payload, a, payload)
  {
  }

  /** A UDP packet for a with its three headers. */
  predicate OnWire(frame: seq<Byte>, a: Addresses, payload: seq<Byte>) {
    && |frame| >= 34
    && OnEthernet(frame, 0x0800, frame[14..]) && InIp(frame[14..], a, frame[34..]) && InUdp(frame[34..], a, payload)
  }

  lemma FrameBytes(a: Addresses, payload: seq<Byte>)
    requires a.Ok() && |payload| + UDP_LEN + IP_LEN < U16
    ensures OnWire(Frame(a, payload), a, payload)
  {
    hide EthHeader, IpHeader, UdpHeader, OnEthernet, InIp, InUdp;
    var udp := UdpHeader(a, |payload| + UDP_LEN) + payload;
    var ip := IpHeader(a, |udp| + IP_LEN) + udp;
    var frame := Frame(a, payload);
    UdpBytes(a, payload);
    IpBytes(a, udp);
    EthBytes(ETHTYPE_IP, ip);
    assert frame[14..] == ip && frame[34..] == udp;
  }

  /** A datagram of ulen bytes that fits in data. */
  predicate FitsUdp(data: seq<Byte>, ulen: int) {
    8 <= ulen <= |data| && Field16(data, 4, ulen)
  }

  /** An unfragmented UDP packet for `local` with a good header, whose two lengths agree. */
  predicate FitsIp(local: int, data: seq<Byte>, ulen: int) {
    && |data| >= 20
    && data[0] == 0x45 && OnesSum(data[..20]) == 0xffff
    && data[6] == data[7] == 0 && data[9] == 17 && Field32(data, 16, local)
    && Field16(data, 2, 20 + ulen) && FitsUdp(data[20..], ulen)
  }

  predicate Carries(data: seq<Byte>, ulen: int, rx: Rx)
    requires FitsUdp(data, ulen)
  {
    && rx.Delivered?
    && Field16(data, 0, rx.sport) && Field16(data, 2, rx.dport) && rx.payload == data[8..ulen]
  }

  /** What net_rx_ip makes of a packet: a UDP packet for `local` is delivered with its
      source, ports and payload, and all others are dropped. */
  ghost predicate IpReceivedAs(local: int, data: seq<Byte>, rx: Rx) {
    && (forall ulen :: FitsIp(local, data, ulen) ==> Carries(data[20..], ulen, rx) && Field32(data, 12, rx.src))
    && ((forall ulen :: !FitsIp(local, data, ulen)) ==> rx == Dropped)
  }

  /** And net_rx of a frame: ARP packets go to ARP. */
  ghost predicate ReceivedAs(local: int, frame: seq<Byte>, rx: Rx) {
    if |frame| >= 14 && Field16(frame, 12, 0x0800) then IpReceivedAs(local, frame[14..], rx)
    else if |frame| >= 14 && Field16(frame, 12, 0x0806) then rx == ToArp
    else rx == Dropped
  }

  lemma UdpExactly(src: int, len: int, data: seq<Byte>)
    requires 0 <= len < U16 && |data| <= MBUF_SIZE
    ensures if FitsUdp(data, len) then Carries(data, len, DecodeUdp(src, len, data)) && DecodeUdp(src, len, data).src == src
            else DecodeUdp(src, len, data) == Dropped
  {
  }

  lemma SubMeans(total: int, k: nat)
    requires 0 <= total < U16 && k < U16 - MBUF_SIZE
    ensures Sub16(total, k) <= MBUF_SIZE ==> total == Sub16(total, k) + k
    ensures total >= k ==> Sub16(total, k) == total - k
  {
  }

  lemma Fields(data: seq<Byte>, at: nat)
    ensures at + 2 <= |data| ==> Field16(data, at, From16(data, at))
    ensures at + 4 <= |data| ==> Field32(data, at, From32(data, at))
  {
  }

  lemma IpExactly(local: int, data: seq<Byte>)
    requires |data| <= MBUF_SIZE
    ensures IpReceivedAs(local, data, DecodeIp(local, data))
  {
    hide OnesSum, DecodeUdp, From16, From32, Sub16, Carries, FitsUdp;
    if |data| >= 20 {
      Fields(data, 2);
      Fields(data, 6);
      Fields(data, 12);
      Fields(data, 16);
      var len := Sub16(From16(data, 2), IP_LEN);
      SubMeans(From16(data, 2), IP_LEN);
      UdpExactly(From32(data, 12), len, data[20..]);
      forall ulen | FitsIp(local, data, ulen) ensures ulen == len {
        UdpLength(data[20..], ulen);
      }
      if FitsUdp(data[20..], len) {
        UdpLength(data[20..], len);
      }
      assert FitsIp(local, data, len) || forall ulen :: !FitsIp(local, data, ulen);
    }
  }

  lemma UdpLength(data: seq<Byte>, ulen: int)
    requires FitsUdp(data, ulen)
    ensures 8 <= ulen <= |data|
  {
  }

  lemma DecodeExactly(local: int, frame: seq<Byte>)
    requires |frame| <= MBUF_SIZE
    ensures ReceivedAs(local, frame, Decode(local, frame))
  {
    hide IpReceivedAs, DecodeIp, From16;
    if |frame| >= 14 {
      Fields(frame, 12);
      IpExactly(local, frame[14..]);
    }
  }

  // ---------------------------------------------------------------------
  // The code

  lemma SameFields(hdr: seq<Byte>, data: seq<Byte>)
    requires |hdr| == IP_LEN && hdr <= data
    ensures hdr[0] == data[0] && hdr[9] == data[9]
    ensures From16(hdr, 2) == From16(data, 2) && From16(hdr, 6) == From16(data, 6)
    ensures From32(hdr, 12) == From32(data, 12) && From32(hdr, 16) == From32(data, 16)
  {
  }

  /** The assignments of net_tx_ip to a zeroed header, in their order. */
  method FillIpHeader(a: Addresses, total: int) returns (hdr: seq<Byte>)
    requires a.Ok() && 0 <= total < U16
    ensures hdr == BareIpHeader(a, total)
  {
    hide Be16, Be32;
    FieldLengths(a, total);
    hdr := seq(IP_LEN, _ => 0);
    hdr := hdr[0 := VHL];
    hdr := hdr[9 := IPPROTO_UDP];
    hdr := hdr[..12] + Be32(a.src) + hdr[16..];
    hdr := hdr[..16] + Be32(a.dst);
    hdr := hdr[..2] + Be16(total) + hdr[4..];
    hdr := hdr[8 := 100];
  }

  lemma HalfWords(a: Addresses, ulen: int)
    requires a.Ok() && 0 <= ulen < U16
    ensures |Be16(a.sport)| == |Be16(a.dport)| == |Be16(ulen)| == 2
  {
  }

  lemma FieldLengths(a: Addresses, total: int)
    requires a.Ok() && 0 <= total < U16
    ensures |Be32(a.src)| == 4 && |Be32(a.dst)| == 4 && |Be16(total)| == 2
  {
  }

  /** A header written in front of n bytes. */
  lemma Pushed(buf: seq<Byte>, at: nat, header: seq<Byte>, n: nat)
    requires at + |header| + n <= |buf|
    ensures var b := buf[..at] + header + buf[at + |header|..];
            |b| == |buf| && b[at..at + |header| + n] == header + buf[at + |header|..at + |header| + n]
  {
    var b, mid := buf[..at] + header + buf[at + |header|..], at + |header|;
    var got, want := b[at..mid + n], header + buf[mid..mid + n];
    forall x | 0 <= x < |got| ensures got[x] == want[x] {
      assert got[x] == b[at + x];
    }
  }

  /** A packet buffer: `head` is an offset into `buf`. */
  class Mbuf {
    var buf: seq<Byte>
    var head: int
    var len: int

    predicate Valid()
      reads this
    {
      |buf| == MBUF_SIZE && 0 <= head && 0 <= len && head + len <= MBUF_SIZE
    }

    function Contents(): seq<Byte>
      requires Valid()
      reads this
    {
      buf[head..head + len]
    }

    /** mbufpull: false if fewer than n bytes are there. */
    method Pull(n: nat) returns (ok: bool)
      requires Valid()
      modifies this`head, this`len
      ensures Valid() && ok == (old(len) >= n)
      ensures Contents() == if ok then old(Contents())[n..] else old(Contents())
      ensures ok ==> head == old(head) + n
    {
      if len < n {
        return false;
      }
      len, head := len - n, head + n;
      return true;
    }

    /** mbufpush, then the header is written there; too little headroom panics. */
    method PushHeader(header: seq<Byte>)
      requires Valid() && |header| <= head
      modifies this
      ensures Valid() && head == old(head) - |header| && len == old(len) + |header|
      ensures Contents() == header + old(Contents())
    {
      Pushed(buf, head - |header|, header, len);
      head, len := head - |header|, len + |header|;
      buf := buf[..head] + header + buf[head + |header|..];
    }

    /** mbuftrim: the last n bytes go. */
    method Trim(n: nat)
      requires Valid()
      modifies this`len
      ensures Valid()
      ensures Contents() == if n > old(len) then old(Contents()) else old(Contents())[..old(len) - n]
    {
      if n > len {
        return;
      }
      len := len - n;
      assert Contents() == old(Contents())[..len];
    }

    method TxEth(ethtype: int)
      requires Valid() && 0 <= ethtype < U16 && ETH_LEN <= head
      modifies this
      ensures Valid() && Contents() == EthHeader(ethtype) + old(Contents())
      ensures OnEthernet(Contents(), ethtype, old(Contents()))
    {
      EthBytes(ethtype, Contents());
      PushHeader(BROADCAST_MAC + LOCAL_MAC + Be16(ethtype));
    }

    method TxIp(a: Addresses)
      requires Valid() && a.Ok() && ETH_LEN + IP_LEN <= head
      modifies this
      ensures Valid()
      ensures Contents() == EthHeader(ETHTYPE_IP) + (IpHeader(a, old(len) + IP_LEN) + old(Contents()))
      ensures OnEthernet(Contents(), 0x0800, Contents()[14..]) && InIp(Contents()[14..], a, old(Contents()))
    {
      hide EthHeader, BareIpHeader, Put16, Checksum, InIp;
      IpBytes(a, Contents());
      assert (len + IP_LEN) % U16 == len + IP_LEN;
      var hdr := FillIpHeader(a, (len + IP_LEN) % U16);
      var sum := InCksum(hdr);
      hdr := Put16(hdr, 10, sum);
      PushHeader(hdr);
      TxEth(ETHTYPE_IP);
    }

    /** net_tx_udp: the buffer holds the payload before and the frame after. */
    method TxUdp(a: Addresses)
      requires Valid() && a.Ok() && ETH_LEN + IP_LEN + UDP_LEN <= head
      modifies this
      ensures Valid() && Contents() == Frame(a, old(Contents()))
      ensures OnWire(Contents(), a, old(Contents()))
    {
      hide EthHeader, IpHeader, BareIpHeader, Put16, Checksum, OnWire, OnEthernet, InIp, Be16;
      FrameBytes(a, Contents());
      HalfWords(a, (len + UDP_LEN) % U16);
      var ulen := (len + UDP_LEN) % U16;
      assert ulen == len + UDP_LEN;
      PushHeader(Be16(a.sport) + Be16(a.dport) + Be16(ulen) + [0, 0]);
      TxIp(a);
    }

    method RxUdp(iplen: int, src: int) returns (rx: Rx)
      requires Valid() && 0 <= iplen < U16
      modifies this`head, this`len
      ensures rx == DecodeUdp(src, iplen, old(Contents()))
    {
      ghost var data := Contents();
      var at := head;
      var ok := Pull(UDP_LEN);
      if !ok {
        return Dropped;
      }
      assert buf[at..at + UDP_LEN] == data[..UDP_LEN];
      assert forall i :: 0 <= i < UDP_LEN ==> buf[at..at + UDP_LEN][i] == data[i] == buf[at + i];
      if From16(buf, at + 4) != iplen {
        return Dropped;
      }
      var n := Sub16(iplen, UDP_LEN);
      if n > len {
        return Dropped;
      }
      Trim(len - n);
      assert Contents() == data[UDP_LEN..UDP_LEN + n];
      return Delivered(src, From16(buf, at), From16(buf, at + 2), buf[head..head + len]);
    }

    method RxIp(local: int) returns (rx: Rx)
      requires Valid()
      modifies this`head, this`len
      ensures rx == DecodeIp(local, old(Contents()))
    {
      hide DecodeUdp, Checksum, From16, From32, Sub16;
      ghost var data := Contents();
      var at := head;
      var ok := Pull(IP_LEN);
      if !ok {
        return Dropped;
      }
      var hdr := buf[at..at + IP_LEN];
      assert hdr == data[..IP_LEN];
      SameFields(hdr, data);
      if hdr[0] != VHL {
        return Dropped;
      }
      var sum := InCksum(hdr);
      if sum != 0 {
        return Dropped;
      }
      if From16(hdr, 6) != 0 {
        return Dropped;
      }
      if From32(hdr, 16) != local {
        return Dropped;
      }
      if hdr[9] != IPPROTO_UDP {
        return Dropped;
      }
      rx := RxUdp(Sub16(From16(hdr, 2), IP_LEN), From32(hdr, 12));
    }

    /** net_rx, up to the socket layer. */
    method Receive(local: int) returns (rx: Rx)
      requires Valid()
      modifies this`head, this`len
      ensures rx == Decode(local, old(Contents()))
      ensures ReceivedAs(local, old(Contents()), rx)
    {
      hide DecodeIp, ReceivedAs;
      DecodeExactly(local, Contents());
      ghost var data := Contents();
      var at := head;
      var ok := Pull(ETH_LEN);
      if !ok {
        return Dropped;
      }
      assert data[12] == buf[at + 12] && data[13] == buf[at + 13];
      var ethtype := From16(buf, at + 12);
      if ethtype == ETHTYPE_IP {
        rx := RxIp(local);
      } else if ethtype == ETHTYPE_ARP {
        rx := ToArp;
      } else {
        rx := Dropped;
      }
    }
  }
}
