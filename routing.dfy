/** The `Routing` application: the PacketIn handler (learn the source, then
    unicast to a known destination or flood), the messages it sends, and the
    bootstrap rules installed when a switch connects. */
module Routing {
  import opened NetTypes
  import opened OpenFlow
  import opened Classifier
  import opened HostLocation
  import opened PortTables

  /** Timeouts and priority of a learned unicast flow entry. */
  const LEARNED_IDLE_TIMEOUT: uint16 := 60
  const LEARNED_HARD_TIMEOUT: uint16 := 1800
  const LEARNED_PRIORITY: uint16 := 1

  /** `send_unicast`: the packet goes out of `targetPort`, and a flow entry
      matching (source MAC, destination MAC) is installed on table 0 so that
      the rest of the flow bypasses the controller. */
  function SendUnicast(targetPort: uint32, src: MacAddr, dst: MacAddr, data: seq<uint8>): (r: seq<Msg>)
    ensures CountPacketOuts(r) == 1 && CountFlowMods(r) == 1 && |r| == 2
    ensures r[0].PacketOut? && r[0].data == data && r[0].inPort.None?
    ensures r[1].FlowMod? && r[1].command == Add && r[1].tableId == 0
    ensures r[1].priority == LEARNED_PRIORITY
    ensures r[1].idleTimeout == 60 && r[1].hardTimeout == 1800
    ensures r[1].matchFields == [EthSrc(src), EthDst(dst)]
    ensures forall m <- r :: m.actions == [Output(targetPort, OFPCML_NO_BUFFER)]
  {
    var out := [Output(targetPort, OFPCML_NO_BUFFER)];
    var r := [ PacketOut(None, out, data),
               FlowMod(Add, 0, LEARNED_PRIORITY, LEARNED_IDLE_TIMEOUT, LEARNED_HARD_TIMEOUT,
                       [EthSrc(src), EthDst(dst)], out) ];
    CountTwo(r[0], r[1]);
    r
  }

  /** `send_broadcast`: one PacketOut to every port (OFPP_ALL) that keeps the
      ingress port, so the switch does not send the frame back; no flow entry. */
  function SendBroadcast(inPort: uint32, data: seq<uint8>): (r: seq<Msg>)
    ensures CountPacketOuts(r) == 1 && CountFlowMods(r) == 0 && |r| == 1
    ensures r[0].PacketOut? && r[0].inPort == Some(inPort) && r[0].data == data
    ensures r[0].actions == [Output(OFPP_ALL, OFPCML_NO_BUFFER)]
  {
    [PacketOut(Some(inPort), [Output(OFPP_ALL, OFPCML_NO_BUFFER)], data)]
  }

  /** The two rules `onSwitchUp` installs: ARP (priority 2) and IPv4
      (priority 1) go to the controller unbuffered, on table 0, with no
      timeout. */
  function SwitchUpRules(): (r: seq<Msg>)
    ensures |r| == 2 && CountFlowMods(r) == 2 && CountPacketOuts(r) == 0
    ensures forall m <- r ::
      && m.FlowMod? && m.command == Add && m.tableId == 0
      && m.idleTimeout == 0 && m.hardTimeout == 0
      && m.actions == [Output(OFPP_CONTROLLER, 0xFFFF)]
    ensures r[0].matchFields == [EthType(ETH_TYPE_ARP)] && r[0].priority == 2
    ensures r[1].matchFields == [EthType(ETH_TYPE_IPV4)] && r[1].priority == 1
  {
    var toController := [Output(OFPP_CONTROLLER, 0xFFFF)];
    var r := [ FlowMod(Add, 0, 2, 0, 0, [EthType(ETH_TYPE_ARP)], toController),
               FlowMod(Add, 0, 1, 0, 0, [EthType(ETH_TYPE_IPV4)], toController) ];
    CountTwo(r[0], r[1]);
    r
  }

  /** A learned unicast entry has the priority of the IPv4 bootstrap rule and
      a lower one than the ARP bootstrap rule. */
  lemma LearnedRuleDoesNotOutrankBootstrap(port: uint32, src: MacAddr, dst: MacAddr, data: seq<uint8>)
    ensures SendUnicast(port, src, dst, data)[1].priority == SwitchUpRules()[1].priority
    ensures SendUnicast(port, src, dst, data)[1].priority < SwitchUpRules()[0].priority
  {
  }

  /** What one PacketIn does: whether it was handled, what was sent, and the
      host table afterwards. */
  datatype Outcome = Outcome(handled: bool, msgs: seq<Msg>, next: SeenPorts)

  /** Where the handler sends a packet from the table `s` it had before the
      packet: the source is learned first, so a frame addressed to its own
      source goes back to the ingress port. */
  function Destination(s: SeenPorts, dpid: uint64, pi: PacketIn): Option<uint32> {
    if pi.ethDst == pi.ethSrc then Some(pi.inPort) else PortOf(s, dpid, pi.ethDst)
  }

  /** The PacketIn handler as a function of the host table: classify, learn
      the source (a broadcast source stops here, unhandled), look up the
      destination, then unicast or flood. */
  function PacketInOutcome(s: SeenPorts, dpid: uint64, pi: PacketIn): (r: Outcome)
    ensures r.handled <==> !IsBroadcast(pi.ethSrc)
    ensures !r.handled ==> r.msgs == [] && r.next == s
    ensures r.handled ==> r.next == Record(s, dpid, pi.ethSrc, pi.inPort)
    ensures r.handled ==> CountPacketOuts(r.msgs) == 1
    ensures r.handled && Destination(s, dpid, pi).Some? ==>
      r.msgs == SendUnicast(Destination(s, dpid, pi).value, pi.ethSrc, pi.ethDst, pi.data)
    ensures r.handled && Destination(s, dpid, pi).None? ==>
      r.msgs == SendBroadcast(pi.inPort, pi.data) && CountFlowMods(r.msgs) == 0
  {
    var c := Classify(pi);
    if IsBroadcast(c.src) then Outcome(false, [], s)
    else
      var learned := Record(s, dpid, c.src, c.inPort);
      var target := PortOf(learned, dpid, c.dst);
      var after := Touch(learned, dpid);
      var msgs :=
        if target.Some? then SendUnicast(target.value, c.src, c.dst, pi.data)
        else SendBroadcast(c.inPort, pi.data);
      Outcome(true, msgs, after)
  }

  /** The decision does not depend on the EtherType or on the protocol
      fields: frames of any EtherType are learned and forwarded alike. */
  lemma OutcomeIgnoresEtherType(s: SeenPorts, dpid: uint64, a: PacketIn, b: PacketIn)
    requires a.data == b.data && a.inPort == b.inPort
    requires a.ethSrc == b.ethSrc && a.ethDst == b.ethDst
    ensures PacketInOutcome(s, dpid, a) == PacketInOutcome(s, dpid, b)
  {
  }

  /** Handling the same PacketIn twice (a retransmission) repeats the same
      messages and leaves the table as the first time. */
  lemma RepeatedPacketInIsIdempotent(s: SeenPorts, dpid: uint64, pi: PacketIn)
    ensures var first := PacketInOutcome(s, dpid, pi);
      PacketInOutcome(first.next, dpid, pi) == first
  {
    var first := PacketInOutcome(s, dpid, pi);
    if first.handled {
      var inner := if dpid in s then s[dpid] else map[];
      assert inner[pi.ethSrc := pi.inPort][pi.ethSrc := pi.inPort] == inner[pi.ethSrc := pi.inPort];
      assert Record(first.next, dpid, pi.ethSrc, pi.inPort) == first.next;
    }
  }

  /** Once a host has sent a frame from port P of a switch, a frame to it on
      that switch from another non-broadcast host is sent to P, with a flow
      entry for the pair. */
  lemma ForwardsToLearnedPort(s: SeenPorts, dpid: uint64, a: PacketIn, b: PacketIn)
    requires !IsBroadcast(a.ethSrc) && !IsBroadcast(b.ethSrc)
    requires b.ethDst == a.ethSrc && b.ethSrc != a.ethSrc
    ensures var o := PacketInOutcome(PacketInOutcome(s, dpid, a).next, dpid, b);
      o.handled && o.msgs == SendUnicast(a.inPort, b.ethSrc, b.ethDst, b.data)
  {
  }

  /** A PacketIn delivered by switch `dpid`. */
  datatype Event = Event(dpid: uint64, pi: PacketIn)

  /** The host table after a sequence of PacketIns is handled one by one. */
  function Run(s: SeenPorts, evs: seq<Event>): SeenPorts
    decreases |evs|
  {
    if evs == [] then s
    else
      var last := evs[|evs| - 1];
      PacketInOutcome(Run(s, evs[..|evs| - 1]), last.dpid, last.pi).next
  }

  /** The ingress port of the latest frame from `mac` on switch `dpid` with
      a non-broadcast source, or the initial entry when there is none. */
  function LastSeenPort(s: SeenPorts, evs: seq<Event>, dpid: uint64, mac: MacAddr): Option<uint32>
    decreases |evs|
  {
    if evs == [] then PortOf(s, dpid, mac)
    else
      var last := evs[|evs| - 1];
      if last.dpid == dpid && last.pi.ethSrc == mac && !IsBroadcast(mac) then Some(last.pi.inPort)
      else LastSeenPort(s, evs[..|evs| - 1], dpid, mac)
  }

  /** Last write wins and no update is lost: after any sequence of PacketIns,
      the table holds for each (switch, MAC) the port of that host's latest
      frame on that switch. */
  lemma {:induction false} LearnedPortIsLastSeen(s: SeenPorts, evs: seq<Event>, dpid: uint64, mac: MacAddr)
    ensures PortOf(Run(s, evs), dpid, mac) == LastSeenPort(s, evs, dpid, mac)
    decreases |evs|
  {
    if evs != [] {
      LearnedPortIsLastSeen(s, evs[..|evs| - 1], dpid, mac);
    }
  }

  /** Starting from an empty table, the broadcast address is never learned. */
  lemma {:induction false} BroadcastNeverLearned(evs: seq<Event>, dpid: uint64)
    ensures PortOf(Run(map[], evs), dpid, BroadcastMac) == None
    decreases |evs|
  {
    LearnedPortIsLastSeen(map[], evs, dpid, BroadcastMac);
    LastSeenOfBroadcast(evs, dpid);
  }

  lemma {:induction false} LastSeenOfBroadcast(evs: seq<Event>, dpid: uint64)
    ensures LastSeenPort(map[], evs, dpid, BroadcastMac) == None
    decreases |evs|
  {
    if evs != [] {
      assert IsBroadcast(BroadcastMac);
      LastSeenOfBroadcast(evs[..|evs| - 1], dpid);
    }
  }

  /** The application object. The host table is created once and shared by
      every invocation of the PacketIn handler; `tables` holds one
      `Table_fields` per connected switch. */
  class RoutingApp {
    const db: HostsDatabase
    var tables: map<uint64, TableFields>

    constructor ()
      ensures fresh(db) && db.seenPorts == map[] && tables == map[]
    {
      db := new HostsDatabase();
      tables := map[];
    }

    /** The registered PacketIn handler. Returns whether the event was
        handled (false lets the next handler see it) and the messages sent
        to switch `dpid`, in order. */
    method OnPacketIn(dpid: uint64, pi: PacketIn) returns (handled: bool, out: seq<Msg>)
      modifies db
      ensures var o := PacketInOutcome(old(db.seenPorts), dpid, pi);
        handled == o.handled && out == o.msgs && db.seenPorts == o.next
      ensures !handled <==> IsBroadcast(pi.ethSrc)
      ensures handled ==> PortOf(db.seenPorts, dpid, pi.ethSrc) == Some(pi.inPort)
    {
      var c := Classify(pi);
      out := [];
      var learned := db.SetPort(dpid, c.src, c.inPort);
      if !learned {
        return false, out;
      }
      var target := db.GetPort(dpid, c.dst);
      if target.Some? {
        out := out + SendUnicast(target.value, c.src, c.dst, pi.data);
      } else {
        out := out + SendBroadcast(c.inPort, pi.data);
      }
      handled := true;
    }

    /** `onSwitchUp`: makes sure the switch has a `Table_fields` entry and
        sends it the two bootstrap rules. */
    method OnSwitchUp(dpid: uint64) returns (out: seq<Msg>)
      modifies this
      ensures out == SwitchUpRules()
      ensures tables.Keys == old(tables).Keys + {dpid}
      ensures forall d <- old(tables) :: tables[d] == old(tables)[d]
      ensures dpid !in old(tables) ==> fresh(tables[dpid]) && tables[dpid].Maps() == EmptyMaps
    {
      if dpid !in tables {
        var t := new TableFields();
        tables := tables[dpid := t];
      }
      out := SwitchUpRules();
    }
  }
}
