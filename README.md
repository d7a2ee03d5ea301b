# Routing: a reactive L2 learning switch for RUNOS, modelled in Dafny

The `Routing` application is a RUNOS controller plug-in for OpenFlow 1.3
switches. When a switch connects, it installs two bootstrap flow entries on
table 0. Each sends the first packets of a flow to the controller:

- ARP at priority 2;
- IPv4 at priority 1.

For every PacketIn, the application does the following:

1. It reads the Ethernet addresses, the ingress port and the EtherType. It
   also reads the IPv4 or ARP addresses when the EtherType calls for them.
2. It records the source MAC in the host location table (`HostsDatabase`),
   keyed by switch. A broadcast source ends the handling, and the handler
   returns false.
3. It looks up the destination MAC. If a port is known, it sends the packet
   out of that port and installs a flow entry: table 0, priority 1, idle
   timeout 60, hard timeout 1800, match (eth_src, eth_dst). Otherwise it
   floods the packet to `OFPP_ALL` and keeps the ingress port on the
   PacketOut.

Two more tables complete the picture:

- `MacIP` is a secondary IP -> MAC table.
- `Table_fields` is per-switch port bookkeeping. It keeps host IP <-> port
  and neighbour dpid <-> port as pairs of forward and inverse maps, with 0
  meaning "no mapping".

Files, one module each:

- `net_types.dfy` (`NetTypes`): the fixed-width integers as range-restricted
  integers, the 6-byte MAC address, the broadcast test and `Option`.
- `openflow.dfy` (`OpenFlow`): the messages sent, as values. "Sending" a
  message appends it to a list of outgoing messages.
- `classifier.dfy` (`Classifier`): the fields that the handler loads from a
  PacketIn.
- `hosts_database.dfy` (`HostLocation`): `HostsDatabase` as a class over a
  nested map dpid -> MAC -> port. Its specification is given by the
  functions `PortOf`, `Record` and `Touch`.
- `mac_ip.dfy` (`MacIPTable`): `MacIP` as a class over a map.
- `table_fields.dfy` (`PortTables`): `Table_fields` as a class with four map
  fields. Each method is specified by a function on the `PortMaps` value.
- `routing.dfy` (`Routing`): the messages built by `send_unicast`,
  `send_broadcast` and `onSwitchUp`, and the handler as a function
  (`PacketInOutcome`). It also holds the application object, whose methods
  update the host table in place.

At three points the code does something other than a learning switch's
usual design would suggest, and the model follows the code:

- `getPort` evaluates `seen_ports_[dpid]`. This inserts an empty inner map
  for a switch that has not been seen before. The model keeps that side
  effect (`Touch`), and proves that it changes no recorded port.
- The learned unicast entry has priority 1. That is the priority of the IPv4
  bootstrap rule, and it is below the ARP rule's priority. It is not
  strictly higher than both
  (`Routing.LearnedRuleDoesNotOutrankBootstrap`).
- `addHost` and `addswitch` do not clear what the port held before. A port
  that leads to a neighbouring switch and then gets a host maps to both,
  and a previous host of the port keeps its forward entry. A later
  `delPort` removes only the host
  (`PortTables.AddHostKeepsPriorMappingsOfPort`).

At two points the source text cannot be taken literally, and the model
follows its evident intent instead:

- `send_unicast` has an empty body, closed at src/Routing.cc:117-118. The
  PacketOut and FlowMod blocks stranded after it, at lines 120-157, are
  modelled as its body.
- `onSwitchUp` writes `table_[dpid]->first/second` (src/Routing.cc:72-73),
  which does not fit `Table_fields`. It is modelled as creating that
  switch's `Table_fields` entry, empty, if there is none. The two `= 0`
  writes are not modelled, because an absent inverse entry already reads
  as 0 (`HostAt`, `SwitchAt`).

## Model

| member | source | states |
|---|---|---|
| `NetTypes.IsBroadcastIffBroadcastMac` | src/Routing.cc:174 | the broadcast test holds for exactly one address, ff:ff:ff:ff:ff:ff |
| `Classifier.Classify` | src/Routing.cc:35-51 | source, destination, ingress port and EtherType are always taken; IPv4 addresses are present iff the EtherType is 0x0800, ARP addresses iff it is 0x0806, and each carries the packet's own fields |
| `Classifier.ClassifyReadsOnlyOwnProtocol` | src/Routing.cc:41-51 | the protocol fields of the other EtherType do not affect the classification |
| `HostLocation.Record` | src/Routing.cc:180 | after recording, (dpid, mac) maps to the new port (last write wins) and every other (dpid', mac') keeps its port |
| `HostLocation.Touch` | src/Routing.cc:187-189 | indexing the outer map on a lookup changes no recorded port; it only adds the switch's key, and only when that key is missing |
| `HostLocation.HostsDatabase.constructor` | src/Routing.cc:26 | the table starts empty |
| `HostLocation.HostsDatabase.SetPort` | src/Routing.cc:170-182 | returns false and changes nothing for the broadcast MAC; otherwise returns true, a lookup of (dpid, mac) gives the port, and other entries are unchanged |
| `HostLocation.HostsDatabase.GetPort` | src/Routing.cc:184-195 | returns the recorded port, or None exactly when no entry exists; no recorded port changes; the only state change is an empty inner map for an unseen switch |
| `MacIPTable.MacFor` | src/Routing.cc:203-206 | `getMac` gives the stored address, or the all-zero address for an unseen IP |
| `MacIPTable.MacForAfterConform` | src/Routing.cc:197-206 | after `setConform(mac, ip)`, `getMac(ip)` gives `mac`, and the answer for every other IP is unchanged |
| `MacIPTable.MacIP.constructor` | include/Routing.hpp:80-87 | the table starts empty |
| `MacIPTable.MacIP.SetConform` | src/Routing.cc:197-201 | returns true and stores `mac` for the IP, overwriting any earlier address |
| `MacIPTable.MacIP.GetMac` | src/Routing.cc:203-206 | returns the stored address or zero; a missing IP gets a zero entry, and no answer changes |
| `PortTables.AddHostTo` | include/Routing.hpp:95-98 | the IP maps to the port and the port to the IP; other hosts, other ports' entries and both switch maps are unchanged |
| `PortTables.AddSwitchTo` | include/Routing.hpp:99-102 | the dpid maps to the port and the port to the dpid; other switches, other ports' entries and both host maps are unchanged |
| `PortTables.AddPortTo` | include/Routing.hpp:103-106 | both inverse entries of the port become the 0 sentinel; the forward maps and other ports are unchanged |
| `PortTables.DelPortFrom` | include/Routing.hpp:107-117 | a nonzero host on the port loses both host entries and the switch maps stay as they were (the host side wins); otherwise a nonzero switch loses both switch entries and the host map stays; otherwise nothing is removed and both sides hold 0; other ports' entries never change |
| `PortTables.DelPortUndoesAddHost` | include/Routing.hpp:95-117 | `delPort` after `addHost` of a new nonzero IP restores every map, except that the port's inverse host entry is gone |
| `PortTables.DelPortUndoesAddSwitch` | include/Routing.hpp:99-117 | `delPort` after `addswitch` of a new nonzero dpid on a port with no host restores the switch maps, apart from the port's inverse switch entry, which is gone; the port keeps a 0 host entry |
| `PortTables.ZeroHostSurvivesDelPort` | include/Routing.hpp:95-111 | a host recorded under IP 0 looks like "no host", so `delPort` leaves its entry in place |
| `PortTables.DelPortOfOldPortDropsMovedHost` | include/Routing.hpp:95-111 | after a host moves from p1 to p2, `delPort(p1)` erases the host's current entry while p2's inverse entry still names it |
| `PortTables.AddHostKeepsPriorMappingsOfPort` | include/Routing.hpp:95-116 | after `addswitch(d, p)` then `addHost(h, p)`, port p maps to both h and d, and `delPort(p)` of a nonzero h keeps d; after `addHost(h1, p)` then `addHost(h2, p)`, h1 still maps to p |
| `PortTables.DelPortRemovesAtMostOne` | include/Routing.hpp:107-117 | one `delPort` removes at most one forward mapping and adds none |
| `PortTables.TableFields.constructor` | include/Routing.hpp:89-93 | all four maps start empty |
| `PortTables.TableFields.AddHost` | include/Routing.hpp:95-98 | in-place update whose new state is `AddHostTo` of the old one |
| `PortTables.TableFields.AddSwitch` | include/Routing.hpp:99-102 | in-place update whose new state is `AddSwitchTo` of the old one |
| `PortTables.TableFields.AddPort` | include/Routing.hpp:103-106 | in-place update whose new state is `AddPortTo` of the old one |
| `PortTables.TableFields.DelPort` | include/Routing.hpp:107-117 | reads through `operator[]` (inserting 0), then erases; the new state is `DelPortFrom` of the old one |
| `Routing.SendUnicast` | src/Routing.cc:117-157 | exactly one PacketOut carrying the packet, output to the target port, and exactly one FlowMod: ADD, table 0, priority 1, idle 60, hard 1800, match {eth_src, eth_dst}, output to the target port |
| `Routing.SendBroadcast` | src/Routing.cc:160-168 | exactly one PacketOut, output to `OFPP_ALL` with the ingress port kept, and no FlowMod |
| `Routing.SwitchUpRules` | src/Routing.cc:75-106 | exactly two ADD FlowMods on table 0 with no timeouts, both output to `OFPP_CONTROLLER` with max_len 0xFFFF: EtherType 0x0806 at priority 2, then 0x0800 at priority 1 |
| `Routing.LearnedRuleDoesNotOutrankBootstrap` | src/Routing.cc:75-135 | the learned entry's priority equals the IPv4 bootstrap rule's and is below the ARP rule's |
| `Routing.PacketInOutcome` | src/Routing.cc:29-68 | unhandled, with no message and an unchanged table, exactly for a broadcast source; otherwise the source is learned and exactly one PacketOut is sent; a known destination gives the unicast pair to its port (a frame to its own source goes back to the ingress port); an unknown one gives the flood and no FlowMod |
| `Routing.OutcomeIgnoresEtherType` | src/Routing.cc:39-64 | frames of any EtherType are learned and forwarded alike: the outcome depends only on the payload, ingress port and the two MACs |
| `Routing.RepeatedPacketInIsIdempotent` | src/Routing.cc:53-67 | handling the same PacketIn again sends the same messages and leaves the same table |
| `Routing.ForwardsToLearnedPort` | src/Routing.cc:53-61 | once host A has sent from port P, a frame to A from another host on that switch is sent to P, with a flow entry for the pair |
| `Routing.LearnedPortIsLastSeen` | src/Routing.cc:53-57 | after any sequence of PacketIns, the table holds for each (switch, MAC) the ingress port of that MAC's latest frame on that switch (last write wins, no update lost) |
| `Routing.BroadcastNeverLearned` | src/Routing.cc:174-177 | starting from an empty table, no sequence of PacketIns records the broadcast address |
| `Routing.RoutingApp.constructor` | src/Routing.cc:26-28 | the shared host table is fresh and empty |
| `Routing.RoutingApp.OnPacketIn` | src/Routing.cc:28-68 | returns the handled flag and the messages of `PacketInOutcome`, and leaves the host table in its next state; a handled packet's source is recorded at its ingress port |
| `Routing.RoutingApp.OnSwitchUp` | src/Routing.cc:71-107 | sends the two bootstrap rules; the switch gets a fresh, empty `Table_fields` if it had none, and every other entry is kept |

## Left out

- Locking (`boost::shared_mutex` and its lock guards): the tables are modelled as sequential objects, so interleavings between threads are not captured.
- The per-packet member fields of `Routing` (`src_mac_`, `dpid_`, `in_port_` and the rest): they are passed as parameters, so the race between concurrent handlers that share them is not modelled.
- Plugin and signal wiring: `REGISTER_APPLICATION`, the `connect` calls in `init`, and the handler's registration at priority -5.
- Packet parsing (`PacketParser`, `pkt.load`): a PacketIn is given as the values the parser would load.
- libfluid serialisation, the `EthAddress` string round trip through `stringstream`, and sending over a switch connection: messages are values, and sending appends them to a list.
- Logging.
- `onLinkUp` and `onLinkDiscovered`, whose bodies do nothing.
- `onSwitchDown`, `onLinkDown` and `onHostDiscovered`: they are declared but not defined, so they are not part of this model. As a result, no model operation calls the `Table_fields` mutators.
- The commented-out IPv4 FlowMod in `onSwitchUp` and the commented-out IP-based `setPort` call.
- The PacketOut's buffer id, and the `in_port` that `send_unicast` leaves at the library default (modelled as `None`): the library's default values are not part of this model.
