/** Packet classification done at the head of the PacketIn handler: the
    Ethernet addresses, ingress port and EtherType are always read; IPv4
    source/destination only for EtherType 0x0800, ARP sender/target protocol
    addresses only for 0x0806. */
module Classifier {
  import opened NetTypes
  import opened OpenFlow

  /** What the packet parser can `load` from a PacketIn: the match's in_port
      and the header fields of the frame. Fields that a frame does not carry
      hold whatever the parser would return; the handler never reads them. */
  datatype PacketIn = PacketIn(
    data: seq<uint8>,
    inPort: uint32,
    ethSrc: MacAddr,
    ethDst: MacAddr,
    ethType: uint16,
    ipv4Src: uint32,
    ipv4Dst: uint32,
    arpSpa: uint32,
    arpTpa: uint32)

  /** Protocol-specific addresses, present only for IPv4 and ARP. */
  datatype L3Info =
    | Ipv4Addrs(ipSrc: uint32, ipDst: uint32)
    | ArpAddrs(spa: uint32, tpa: uint32)
    | NoL3

  datatype Classified = Classified(
    src: MacAddr, dst: MacAddr, inPort: uint32, ethType: uint16, l3: L3Info)

  /** The field reads of the handler. Unknown EtherTypes are classified too,
      without protocol fields. */
  function Classify(pi: PacketIn): (c: Classified)
    ensures c.src == pi.ethSrc && c.dst == pi.ethDst
    ensures c.inPort == pi.inPort && c.ethType == pi.ethType
    ensures c.l3.Ipv4Addrs? <==> pi.ethType == ETH_TYPE_IPV4
    ensures c.l3.ArpAddrs? <==> pi.ethType == ETH_TYPE_ARP
    ensures c.l3.Ipv4Addrs? ==> c.l3 == Ipv4Addrs(pi.ipv4Src, pi.ipv4Dst)
    ensures c.l3.ArpAddrs? ==> c.l3 == ArpAddrs(pi.arpSpa, pi.arpTpa)
  {
    var l3 :=
      if pi.ethType == ETH_TYPE_IPV4 then Ipv4Addrs(pi.ipv4Src, pi.ipv4Dst)
      else if pi.ethType == ETH_TYPE_ARP then ArpAddrs(pi.arpSpa, pi.arpTpa)
      else NoL3;
    Classified(pi.ethSrc, pi.ethDst, pi.inPort, pi.ethType, l3)
  }

  /** Protocol fields of a frame are read only for their own EtherType: two
      packets that differ only in the fields their EtherType does not carry
      classify alike. */
  lemma ClassifyReadsOnlyOwnProtocol(a: PacketIn, b: PacketIn)
    requires a.(ipv4Src := b.ipv4Src, ipv4Dst := b.ipv4Dst, arpSpa := b.arpSpa, arpTpa := b.arpTpa) == b
    requires a.ethType == ETH_TYPE_IPV4 ==> a.ipv4Src == b.ipv4Src && a.ipv4Dst == b.ipv4Dst
    requires a.ethType == ETH_TYPE_ARP ==> a.arpSpa == b.arpSpa && a.arpTpa == b.arpTpa
    ensures Classify(a) == Classify(b)
  {
  }
}
