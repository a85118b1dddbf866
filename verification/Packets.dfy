/**
 Slicing a captured frame into headers and payload (pcap_programming/pcap_prog.c, myheader.h).

 Layouts: Ethernet, IPv4 (section 3.1 of RFC 791), TCP (section 3.1 of RFC 9293). Main results: what
 got_packet prints as payload of a well-formed frame is the sanitised TCP data, as far as it was
 captured, and never a padding byte; and whatever the headers say, print_payload stays inside the
 capture.
 */
module Packets {
  import opened Base

  type Byte = b: int | 0 <= b < 256

  const ETHERNET := 14
  const IPV4 := 0x0800
  const TCP := 6

  /** ntohs of the two bytes at i. */
  function Word(p: seq<Byte>, i: nat): int
    requires i + 1 < |p|
  {
    256 * (p[i] as int) + p[i + 1] as int
  }

  predicate IsIpv4(p: seq<Byte>)
    requires |p| >= ETHERNET
  {
    Word(p, 12) == IPV4
  }

  /** iph_ihl, the low four bits of the first IP byte, in bytes. */
  function IpHeader(p: seq<Byte>): nat
    requires |p| > ETHERNET
  {
    (p[ETHERNET] % 16) * 4
  }

  /** The bytes of both headers that got_packet reads of a TCP packet. */
  predicate HeadersThere(p: seq<Byte>) {
    |p| >= ETHERNET + 20 && |p| > ETHERNET + IpHeader(p) + 12
  }

  /**
   The memory behind `packet` has the bytes got_packet reads, as far as it gets: the Ethernet type, the
   IP protocol, both headers. The capture is its first `caplen` bytes and may end anywhere in it, inside
   the headers too; the program compares nothing but the payload with it.
   */
  predicate Readable(p: seq<Byte>) {
    && |p| >= ETHERNET
    && (IsIpv4(p) ==> |p| > ETHERNET + 9 && (p[ETHERNET + 9] == TCP ==> HeadersThere(p)))
  }

  /** TH_OFF, the high four bits of byte 12 of the TCP header, in bytes. */
  function TcpHeader(p: seq<Byte>): nat
    requires HeadersThere(p)
  {
    (p[ETHERNET + IpHeader(p) + 12] / 16) * 4
  }

  datatype Report = Report(
    sourceMac: seq<Byte>, targetMac: seq<Byte>, sourceIp: seq<Byte>, targetIp: seq<Byte>,
    ipHeader: nat, sourcePort: int, targetPort: int, tcpHeader: nat, payload: seq<Byte>)

  function Clean(b: Byte): Byte {
    if b == 13 || b == 10 || 32 <= b <= 126 then b else 46
  }

  function Sanitised(bytes: seq<Byte>): seq<Byte> {
    if bytes == [] then [] else Sanitised(bytes[..|bytes| - 1]) + [Clean(bytes[|bytes| - 1])]
  }

  function PayloadStart(p: seq<Byte>): nat
    requires HeadersThere(p)
  {
    ETHERNET + IpHeader(p) + TcpHeader(p)
  }

  /** Length by the IP header, cut down to what was captured; it may come out zero or negative. */
  function PayloadLength(p: seq<Byte>, caplen: nat): int
    requires HeadersThere(p)
  {
    var claimed := Word(p, ETHERNET + 2) - IpHeader(p) - TcpHeader(p);
    var captured := if caplen < PayloadStart(p) then 0 else caplen - PayloadStart(p);
    Min(claimed, captured)
  }

  /**
   Every byte print_payload reads is a captured one, for any header contents and any capture; a
   capture that ends within the headers prints none.
   */
  lemma {:induction false} PayloadInside(p: seq<Byte>, caplen: nat, i: int)
    requires HeadersThere(p)
    ensures 0 <= i < PayloadLength(p, caplen) ==> ETHERNET <= PayloadStart(p) + i < caplen
    ensures caplen <= PayloadStart(p) ==> PayloadLength(p, caplen) <= 0
  {
    assert PayloadLength(p, caplen) > 0 ==> caplen - PayloadStart(p) >= PayloadLength(p, caplen);
  }

  function Dissect(p: seq<Byte>, caplen: nat): Option<Report>
    requires Readable(p) && caplen <= |p|
  {
    if !IsIpv4(p) || p[ETHERNET + 9] != TCP then None
    else
      var tcp, start, length := ETHERNET + IpHeader(p), PayloadStart(p), PayloadLength(p, caplen);
      Some(Report(
        p[6..12], p[0..6], p[ETHERNET + 12..ETHERNET + 16], p[ETHERNET + 16..ETHERNET + 20],
        IpHeader(p), Word(p, tcp), Word(p, tcp + 2), TcpHeader(p),
        if length > 0 then Sanitised(p[start..start + length]) else []))
  }

  /** A report is printed exactly for IPv4 packets that carry TCP. */
  lemma {:induction false} PrintsOnlyTcp(p: seq<Byte>, caplen: nat)
    requires Readable(p) && caplen <= |p|
    ensures Dissect(p, caplen).Some? <==> p[12] == 0x08 && p[13] == 0x00 && p[23] == 6
  {
    assert Word(p, 12) == 0x0800 <==> p[12] == 0x08 && p[13] == 0x00;
  }

  /** The fields of the report of any such packet, at their offsets, whatever its headers say. */
  lemma {:induction false} FieldsPrinted(p: seq<Byte>, caplen: nat)
    requires Readable(p) && caplen <= |p| && Dissect(p, caplen).Some?
    ensures var r := Dissect(p, caplen).value;
      var ip := (p[14] % 16) * 4;
      && |p| > 14 + ip + 12
      && r.targetMac == p[0..6] && r.sourceMac == p[6..12] && r.sourceIp == p[26..30] && r.targetIp == p[30..34]
      && r.ipHeader == ip && r.tcpHeader == (p[14 + ip + 12] / 16) * 4
      && r.sourcePort == 256 * (p[14 + ip] as int) + p[15 + ip] as int
      && r.targetPort == 256 * (p[16 + ip] as int) + p[17 + ip] as int
  {
    assert HeadersThere(p);
  }

  /**
   Its payload, byte by byte: what the IP length leaves of the captured bytes after both headers, or nothing,
   with a dot for every byte that is neither printable nor a line end.
   */
  lemma {:induction false} PayloadPrinted(p: seq<Byte>, caplen: nat, r: Report, i: nat)
    requires Readable(p) && caplen <= |p| && Dissect(p, caplen) == Some(r)
    ensures var claimed := 256 * (p[16] as int) + p[17] as int - r.ipHeader - r.tcpHeader;
      var captured := caplen - 14 - r.ipHeader - r.tcpHeader;
      |r.payload| == if claimed <= 0 || captured <= 0 then 0 else if claimed <= captured then claimed else captured
    ensures i < |r.payload| ==>
      14 + r.ipHeader + r.tcpHeader + i < caplen &&
      var b := p[14 + r.ipHeader + r.tcpHeader + i];
      r.payload[i] == if b == 13 || b == 10 || 32 <= b <= 126 then b else 46
  {
    PayloadBytes(p, caplen, r.payload, i);
    ClampedLength(p, caplen, r.ipHeader, r.tcpHeader);
  }

  lemma {:induction false} ClampedLength(p: seq<Byte>, caplen: nat, ip: nat, tcp: nat)
    requires HeadersThere(p) && ip == IpHeader(p) && tcp == TcpHeader(p)
    ensures PayloadStart(p) == 14 + ip + tcp
    ensures var claimed, captured := 256 * (p[16] as int) + p[17] as int - ip - tcp, caplen - 14 - ip - tcp;
      PayloadLength(p, caplen) ==
        if claimed <= captured then claimed else if captured < 0 then Min(claimed, 0) else captured
  {
  }

  lemma {:induction false} PayloadBytes(p: seq<Byte>, caplen: nat, payload: seq<Byte>, i: nat)
    requires HeadersThere(p) && caplen <= |p|
    requires var start, length := PayloadStart(p), PayloadLength(p, caplen);
      payload == if length > 0 then Sanitised(p[start..start + length]) else []
    ensures |payload| == if PayloadLength(p, caplen) > 0 then PayloadLength(p, caplen) else 0
    ensures i < |payload| ==>
      PayloadStart(p) + i < caplen &&
      var b := p[PayloadStart(p) + i];
      payload[i] == if b == 13 || b == 10 || 32 <= b <= 126 then b else 46
  {
    var start, length := PayloadStart(p), PayloadLength(p, caplen);
    if length > 0 {
      SliceSanitised(p, start, length, if i < length then i else 0);
    }
  }

  lemma {:induction false} SliceSanitised(p: seq<Byte>, start: nat, length: nat, i: nat)
    requires start + length <= |p| && i < length
    ensures |Sanitised(p[start..start + length])| == length
    ensures var b := p[start + i];
      Sanitised(p[start..start + length])[i] == if b == 13 || b == 10 || 32 <= b <= 126 then b else 46
  {
    SanitisedMeaning(p[start..start + length], i);
  }

  // ------------------------------------------------------------------------------- the program

  /** print_payload without its closing newline. */
  method PrintPayload(p: seq<Byte>, start: nat, length: nat) returns (out: seq<Byte>)
    requires start + length <= |p|
    ensures out == Sanitised(p[start..start + length])
  {
    out := [];
    for i := 0 to length
      invariant out == Sanitised(p[start..start + i])
    {
      var c := p[start + i];
      assert p[start..start + i + 1] == p[start..start + i] + [c];
      assert (p[start..start + i] + [c])[..i] == p[start..start + i];
      if c == 13 || c == 10 || (c >= 32 && c <= 126) {
        out := out + [c];
      } else {
        out := out + [46];
      }
    }
  }

  method GotPacket(p: seq<Byte>, caplen: nat) returns (report: Option<Report>)
    requires Readable(p) && caplen <= |p|
    ensures report == Dissect(p, caplen)
  {
    if Word(p, 12) != IPV4 {
      return None;
    }
    if p[ETHERNET + 9] != TCP {
      return None;
    }
    var ipHeader := IpHeader(p);
    var tcp := ETHERNET + ipHeader;
    var tcpHeader := TcpHeader(p);
    var payload := tcp + tcpHeader;
    var length := Word(p, ETHERNET + 2) - ipHeader - tcpHeader;
    var captured := caplen - payload;
    if captured < 0 {
      captured := 0;
    }
    if length > captured {
      length := captured;
    }
    assert length == PayloadLength(p, caplen);
    var printed := [];
    if length > 0 {
      printed := PrintPayload(p, payload, length);
    }
    return Some(Report(
      p[6..12], p[0..6], p[ETHERNET + 12..ETHERNET + 16], p[ETHERNET + 16..ETHERNET + 20],
      ipHeader, Word(p, tcp), Word(p, tcp + 2), tcpHeader, printed));
  }

  // ------------------------------------------------------------------------- frames as they are sent

  /** An unfragmented TCP segment in an IPv4 datagram in an Ethernet frame. */
  datatype Frame = Frame(
    targetMac: seq<Byte>, sourceMac: seq<Byte>,
    service: Byte, ident: seq<Byte>, dontFragment: bool, ttl: Byte, ipSum: seq<Byte>,
    sourceIp: seq<Byte>, targetIp: seq<Byte>, ipOptions: seq<Byte>,
    sourcePort: int, targetPort: int, numbers: seq<Byte>, reserved: int, flags: Byte, tail: seq<Byte>,
    tcpOptions: seq<Byte>, data: seq<Byte>, padding: seq<Byte>)

  predicate WellFormed(f: Frame) {
    && |f.targetMac| == 6 && |f.sourceMac| == 6
    && |f.ident| == 2 && |f.ipSum| == 2 && |f.sourceIp| == 4 && |f.targetIp| == 4
    && |f.ipOptions| % 4 == 0 && |f.ipOptions| <= 40
    && 0 <= f.sourcePort < 65536 && 0 <= f.targetPort < 65536
    && |f.numbers| == 8 && 0 <= f.reserved < 16 && |f.tail| == 6
    && |f.tcpOptions| % 4 == 0 && |f.tcpOptions| <= 40
    && 40 + |f.ipOptions| + |f.tcpOptions| + |f.data| < 65536
  }

  function Bytes(word: int): seq<Byte>
    requires 0 <= word < 65536
  {
    [word / 256, word % 256]
  }

  function EthernetOf(f: Frame): seq<Byte> {
    f.targetMac + f.sourceMac + [8, 0]
  }

  function IpOf(f: Frame): seq<Byte>
    requires WellFormed(f)
  {
    var total := 40 + |f.ipOptions| + |f.tcpOptions| + |f.data|;
    [4 * 16 + (5 + |f.ipOptions| / 4), f.service] + Bytes(total)
    + f.ident + [if f.dontFragment then 0x40 else 0, 0]
    + [f.ttl, TCP] + f.ipSum
    + f.sourceIp + f.targetIp + f.ipOptions
  }

  /** numbers: sequence and acknowledgement; tail: window, checksum, urgent pointer. */
  function TcpOf(f: Frame): seq<Byte>
    requires WellFormed(f)
  {
    Bytes(f.sourcePort) + Bytes(f.targetPort) + f.numbers
    + [(5 + |f.tcpOptions| / 4) * 16 + f.reserved, f.flags] + f.tail
    + f.tcpOptions
  }

  function Encode(f: Frame): seq<Byte>
    requires WellFormed(f)
  {
    EthernetOf(f) + IpOf(f) + TcpOf(f) + f.data + f.padding
  }

  function HeaderLength(f: Frame): nat {
    ETHERNET + 40 + |f.ipOptions| + |f.tcpOptions|
  }

  lemma {:induction false} IpFields(f: Frame)
    requires WellFormed(f)
    ensures var ip := IpOf(f);
      && |ip| == 20 + |f.ipOptions|
      && (ip[0] % 16) * 4 == 20 + |f.ipOptions|
      && 256 * (ip[2] as int) + ip[3] as int == 40 + |f.ipOptions| + |f.tcpOptions| + |f.data|
      && ip[9] == TCP
      && ip[12..16] == f.sourceIp && ip[16..20] == f.targetIp
  {
  }

  lemma {:induction false} TcpFields(f: Frame)
    requires WellFormed(f)
    ensures var tcp := TcpOf(f);
      && |tcp| == 20 + |f.tcpOptions|
      && (tcp[12] / 16) * 4 == 20 + |f.tcpOptions|
      && 256 * (tcp[0] as int) + tcp[1] as int == f.sourcePort
      && 256 * (tcp[2] as int) + tcp[3] as int == f.targetPort
  {
  }

  lemma {:induction false} EthernetFields(f: Frame)
    requires WellFormed(f)
    ensures var eth := EthernetOf(f);
      |eth| == ETHERNET && eth[..6] == f.targetMac && eth[6..12] == f.sourceMac && eth[12] == 8 && eth[13] == 0
  {
  }

  /** Four pieces in a row, and where each lies in a prefix covering the first three. */
  lemma {:induction false} Slices(a: seq<Byte>, b: seq<Byte>, c: seq<Byte>, rest: seq<Byte>, n: nat)
    requires |a| + |b| + |c| <= n <= |a| + |b| + |c| + |rest|
    ensures var p := (a + b + c + rest)[..n];
      && p[..|a|] == a
      && p[|a|..|a| + |b|] == b
      && p[|a| + |b|..|a| + |b| + |c|] == c
      && p[|a| + |b| + |c|..] == rest[..n - |a| - |b| - |c|]
  {
  }

  /** A capture of the frame's first n bytes, covering both headers; what lies behind it is arbitrary. */
  predicate Captures(p: seq<Byte>, n: nat, f: Frame)
    requires WellFormed(f)
  {
    && n <= |p|
    && HeaderLength(f) <= n <= |Encode(f)|
    && p[..n] == Encode(f)[..n]
  }

  /** Where the parts of a frame lie in a capture that covers its headers. */
  lemma {:induction false} Parts(f: Frame, p: seq<Byte>, n: nat)
    requires WellFormed(f) && Captures(p, n, f)
    ensures var ip, tcp := IpOf(f), TcpOf(f);
      && |ip| == 20 + |f.ipOptions| && |tcp| == 20 + |f.tcpOptions|
      && p[..6] == f.targetMac && p[6..12] == f.sourceMac && p[12] == 8 && p[13] == 0
      && p[ETHERNET..ETHERNET + |ip|] == ip
      && p[ETHERNET + |ip|..ETHERNET + |ip| + |tcp|] == tcp
      && p[HeaderLength(f)..n] == (f.data + f.padding)[..n - HeaderLength(f)]
  {
    EthernetFields(f);
    IpFields(f);
    TcpFields(f);
    var eth, ip, tcp, q := EthernetOf(f), IpOf(f), TcpOf(f), p[..n];
    assert Encode(f) == eth + ip + tcp + (f.data + f.padding);
    Slices(eth, ip, tcp, f.data + f.padding, n);
    Part(p, n, 0, ETHERNET);
    Part(p, n, ETHERNET, ETHERNET + |ip|);
    Part(p, n, ETHERNET + |ip|, ETHERNET + |ip| + |tcp|);
    Part(p, n, HeaderLength(f), n);
    EthernetPart(p, eth);
  }

  lemma {:induction false} Part(p: seq<Byte>, n: nat, from: nat, to: nat)
    requires from <= to <= n <= |p|
    ensures p[..n][from..to] == p[from..to]
  {
  }

  lemma {:induction false} EthernetPart(p: seq<Byte>, eth: seq<Byte>)
    requires |eth| == ETHERNET <= |p| && p[0..ETHERNET] == eth
    ensures p[..6] == eth[..6] && p[6..12] == eth[6..12] && p[12] == eth[12] && p[13] == eth[13]
  {
    assert p[12] == p[0..ETHERNET][12] && p[13] == p[0..ETHERNET][13];
    assert p[0..ETHERNET][..6] == p[..6] && p[0..ETHERNET][6..12] == p[6..12];
  }

  lemma {:induction false} PartIndex(p: seq<Byte>, part: seq<Byte>, at: nat, i: nat)
    requires at + |part| <= |p| && p[at..at + |part|] == part && i < |part|
    ensures p[at + i] == part[i]
  {
    assert p[at..at + |part|][i] == p[at + i];
  }

  lemma {:induction false} PartSlice(p: seq<Byte>, part: seq<Byte>, at: nat, i: nat, j: nat)
    requires at + |part| <= |p| && p[at..at + |part|] == part && i <= j <= |part|
    ensures p[at + i..at + j] == part[i..j]
  {
    forall k | 0 <= k < j - i
      ensures p[at + i..at + j][k] == part[i..j][k]
    {
      PartIndex(p, part, at, i + k);
    }
  }

  /** The header fields the program reads are the ones of the frame. */
  lemma {:induction false} HeadersRead(f: Frame, p: seq<Byte>, n: nat)
    requires WellFormed(f) && Captures(p, n, f)
    ensures Readable(p) && IsIpv4(p) && p[ETHERNET + 9] == TCP
    ensures IpHeader(p) == 20 + |f.ipOptions| && TcpHeader(p) == 20 + |f.tcpOptions|
    ensures Word(p, ETHERNET + 2) == 40 + |f.ipOptions| + |f.tcpOptions| + |f.data|
    ensures Word(p, ETHERNET + IpHeader(p)) == f.sourcePort
    ensures Word(p, ETHERNET + IpHeader(p) + 2) == f.targetPort
  {
    var ip, tcp := IpOf(f), TcpOf(f);
    Parts(f, p, n);
    IpFields(f);
    TcpFields(f);
    PartIndex(p, ip, ETHERNET, 0);
    PartIndex(p, ip, ETHERNET, 2);
    PartIndex(p, ip, ETHERNET, 3);
    PartIndex(p, ip, ETHERNET, 9);
    PartIndex(p, tcp, ETHERNET + |ip|, 0);
    PartIndex(p, tcp, ETHERNET + |ip|, 1);
    PartIndex(p, tcp, ETHERNET + |ip|, 2);
    PartIndex(p, tcp, ETHERNET + |ip|, 3);
    PartIndex(p, tcp, ETHERNET + |ip|, 12);
  }

  /**
   For every unfragmented well-formed frame, with any options and padding, and every capture that
   covers both headers: addresses and ports come out as sent, and the payload printed is the
   sanitised TCP data as far as it was captured, with no byte of padding and none from behind the capture.
   */
  lemma {:induction false} PrintsTheData(f: Frame, p: seq<Byte>, n: nat)
    requires WellFormed(f) && Captures(p, n, f)
    ensures Readable(p)
    ensures Dissect(p, n) == Some(Report(
      f.sourceMac, f.targetMac, f.sourceIp, f.targetIp,
      20 + |f.ipOptions|, f.sourcePort, f.targetPort, 20 + |f.tcpOptions|,
      Sanitised(f.data[..Min(|f.data|, n - HeaderLength(f))])))
  {
    HeadersRead(f, p, n);
    AddressesRead(f, p, n);
    PayloadRead(f, p, n);
  }

  lemma {:induction false} AddressesRead(f: Frame, p: seq<Byte>, n: nat)
    requires WellFormed(f) && Captures(p, n, f)
    ensures p[0..6] == f.targetMac && p[6..12] == f.sourceMac
    ensures p[ETHERNET + 12..ETHERNET + 16] == f.sourceIp && p[ETHERNET + 16..ETHERNET + 20] == f.targetIp
  {
    var ip := IpOf(f);
    Parts(f, p, n);
    IpFields(f);
    PartSlice(p, ip, ETHERNET, 12, 16);
    PartSlice(p, ip, ETHERNET, 16, 20);
  }

  lemma {:induction false} PayloadRead(f: Frame, p: seq<Byte>, n: nat)
    requires WellFormed(f) && Captures(p, n, f)
    ensures HeadersThere(p) && PayloadStart(p) == HeaderLength(f)
    ensures PayloadLength(p, n) == Min(|f.data|, n - HeaderLength(f)) >= 0
    ensures p[HeaderLength(f)..HeaderLength(f) + PayloadLength(p, n)] == f.data[..PayloadLength(p, n)]
  {
    HeadersRead(f, p, n);
    Parts(f, p, n);
    var start, length := HeaderLength(f), Min(|f.data|, n - HeaderLength(f));
    assert p[start..n][..length] == p[start..start + length];
  }

  /** Sanitising keeps the length, and keeps exactly the printable bytes and line ends. */
  lemma {:induction false} SanitisedMeaning(bytes: seq<Byte>, i: nat)
    requires i < |bytes|
    ensures |Sanitised(bytes)| == |bytes|
    ensures Sanitised(bytes)[i] == bytes[i] <==> bytes[i] == 13 || bytes[i] == 10 || 32 <= bytes[i] <= 126
    ensures Sanitised(bytes)[i] != bytes[i] ==> Sanitised(bytes)[i] == 46
  {
    if |bytes| > 1 {
      SanitisedMeaning(bytes[..|bytes| - 1], if i < |bytes| - 1 then i else 0);
    }
  }
}
