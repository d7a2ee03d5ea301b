/** The OpenFlow 1.3 messages the routing application sends, reduced to the
    fields it sets. Serialisation (libfluid) is not modelled: a message is a
    value and "send" appends it to the list of outgoing messages. */
module OpenFlow {
  import opened NetTypes

  /** Reserved port "all physical ports except the input port" (OFPP_ALL). */
  const OFPP_ALL: uint32 := 0xFFFF_FFFC
  /** Reserved port "send to the controller" (OFPP_CONTROLLER). */
  const OFPP_CONTROLLER: uint32 := 0xFFFF_FFFD
  /** max_len meaning "send the whole packet, do not buffer" (OFPCML_NO_BUFFER). */
  const OFPCML_NO_BUFFER: uint16 := 0xFFFF

  /** The EtherTypes the application distinguishes. */
  const ETH_TYPE_IPV4: uint16 := 0x0800
  const ETH_TYPE_ARP: uint16 := 0x0806

  /** Flow-mod commands; only OFPFC_ADD is ever issued. */
  datatype FlowModCommand = Add

  /** OXM match fields used in the flow entries. */
  datatype Oxm =
    | EthType(ethType: uint16)
    | EthSrc(src: MacAddr)
    | EthDst(dst: MacAddr)

  /** An output action: the port and how many bytes to send to the controller. */
  datatype Action = Output(port: uint32, maxLen: uint16)

  /** An outgoing message. `inPort` of a PacketOut is None when the code leaves
      the field at the library default. A FlowMod carries one apply-actions
      instruction, whose action list is `actions`; timeouts of 0 mean "none". */
  datatype Msg =
    | PacketOut(inPort: Option<uint32>, actions: seq<Action>, data: seq<uint8>)
    | FlowMod(command: FlowModCommand, tableId: uint8, priority: uint16,
              idleTimeout: uint16, hardTimeout: uint16,
              matchFields: seq<Oxm>, actions: seq<Action>)

  /** Number of PacketOut messages in a list. */
  function CountPacketOuts(msgs: seq<Msg>): nat {
    if msgs == [] then 0
    else (if msgs[0].PacketOut? then 1 else 0) + CountPacketOuts(msgs[1..])
  }

  /** Number of FlowMod messages in a list. */
  function CountFlowMods(msgs: seq<Msg>): nat {
    if msgs == [] then 0
    else (if msgs[0].FlowMod? then 1 else 0) + CountFlowMods(msgs[1..])
  }

  /** The counts of a two-message list. */
  lemma CountTwo(a: Msg, b: Msg)
    ensures CountPacketOuts([a, b]) == (if a.PacketOut? then 1 else 0) + (if b.PacketOut? then 1 else 0)
    ensures CountFlowMods([a, b]) == (if a.FlowMod? then 1 else 0) + (if b.FlowMod? then 1 else 0)
  {
    assert [a, b][1..] == [b];
    assert [b][1..] == [];
    assert CountPacketOuts([b]) == (if b.PacketOut? then 1 else 0) + CountPacketOuts([]);
    assert CountFlowMods([b]) == (if b.FlowMod? then 1 else 0) + CountFlowMods([]);
  }
}
