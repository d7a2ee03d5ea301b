/** Per-switch port bookkeeping (`Table_fields`): host IP <-> port and
    neighbouring switch dpid <-> port, each as a forward and an inverse map.
    The value 0 in an inverse map stands for "no mapping", and reading an
    inverse map with `operator[]` inserts that 0 when the port is absent. */
module PortTables {
  import opened NetTypes

  /** The four maps of one switch's table. */
  datatype PortMaps = PortMaps(
    hostTable: map<uint32, uint32>,       // IP -> port
    invHostTable: map<uint32, uint32>,    // port -> IP, 0 = none
    switchTable: map<uint64, uint32>,     // dpid -> port
    invSwitchTable: map<uint32, uint64>)  // port -> dpid, 0 = none

  const EmptyMaps := PortMaps(map[], map[], map[], map[])

  /** `inv_host_table_[port]` read as a value: the entry, or the sentinel 0. */
  function HostAt(t: PortMaps, port: uint32): uint32 {
    if port in t.invHostTable then t.invHostTable[port] else 0
  }

  /** `inv_switch_table_[port]` read as a value: the entry, or the sentinel 0. */
  function SwitchAt(t: PortMaps, port: uint32): uint64 {
    if port in t.invSwitchTable then t.invSwitchTable[port] else 0
  }

  /** The insertion `operator[]` performs on a read of an absent port. */
  function TouchHost(m: map<uint32, uint32>, port: uint32): map<uint32, uint32> {
    if port in m then m else m[port := 0]
  }

  function TouchSwitch(m: map<uint32, uint64>, port: uint32): map<uint32, uint64> {
    if port in m then m else m[port := 0]
  }

  /** `addHost(IP, Port)`. */
  function AddHostTo(t: PortMaps, ip: uint32, port: uint32): (r: PortMaps)
    ensures ip in r.hostTable && r.hostTable[ip] == port && HostAt(r, port) == ip
    ensures r.hostTable - {ip} == t.hostTable - {ip}
    ensures r.invHostTable - {port} == t.invHostTable - {port}
    ensures r.switchTable == t.switchTable && r.invSwitchTable == t.invSwitchTable
  {
    t.(hostTable := t.hostTable[ip := port], invHostTable := t.invHostTable[port := ip])
  }

  /** `addswitch(dpid, Port)`. */
  function AddSwitchTo(t: PortMaps, dpid: uint64, port: uint32): (r: PortMaps)
    ensures dpid in r.switchTable && r.switchTable[dpid] == port && SwitchAt(r, port) == dpid
    ensures r.switchTable - {dpid} == t.switchTable - {dpid}
    ensures r.invSwitchTable - {port} == t.invSwitchTable - {port}
    ensures r.hostTable == t.hostTable && r.invHostTable == t.invHostTable
  {
    t.(switchTable := t.switchTable[dpid := port], invSwitchTable := t.invSwitchTable[port := dpid])
  }

  /** `addPort(Port)`: both inverse entries of the port become the sentinel. */
  function AddPortTo(t: PortMaps, port: uint32): (r: PortMaps)
    ensures port in r.invHostTable && HostAt(r, port) == 0
    ensures port in r.invSwitchTable && SwitchAt(r, port) == 0
    ensures r.invHostTable - {port} == t.invHostTable - {port}
    ensures r.invSwitchTable - {port} == t.invSwitchTable - {port}
    ensures r.hostTable == t.hostTable && r.switchTable == t.switchTable
  {
    t.(invHostTable := t.invHostTable[port := 0], invSwitchTable := t.invSwitchTable[port := 0])
  }

  /** `delPort(Port)`: removes the host mapping of the port if there is one,
      otherwise its switch mapping if there is one. */
  function DelPortFrom(t: PortMaps, port: uint32): (r: PortMaps)
    // entries of other ports are never touched
    ensures r.invHostTable - {port} == t.invHostTable - {port}
    ensures r.invSwitchTable - {port} == t.invSwitchTable - {port}
    // a host on the port: its two host entries go, the switch side stays
    ensures HostAt(t, port) != 0 ==>
      && port !in r.invHostTable
      && r.hostTable == t.hostTable - {HostAt(t, port)}
      && r.switchTable == t.switchTable && r.invSwitchTable == t.invSwitchTable
    // otherwise a switch on the port: its two switch entries go, a 0 is left for the host side
    ensures HostAt(t, port) == 0 && SwitchAt(t, port) != 0 ==>
      && port !in r.invSwitchTable
      && r.switchTable == t.switchTable - {SwitchAt(t, port)}
      && r.hostTable == t.hostTable
      && port in r.invHostTable && r.invHostTable[port] == 0
    // neither: nothing is removed, both sides are left holding 0
    ensures HostAt(t, port) == 0 && SwitchAt(t, port) == 0 ==>
      && r.hostTable == t.hostTable && r.switchTable == t.switchTable
      && HostAt(r, port) == 0 && port in r.invHostTable
      && SwitchAt(r, port) == 0 && port in r.invSwitchTable
  {
    var invHost := TouchHost(t.invHostTable, port);
    if invHost[port] != 0 then
      var host := invHost[port];
      t.(hostTable := t.hostTable - {host}, invHostTable := invHost - {port})
    else
      var invSwitch := TouchSwitch(t.invSwitchTable, port);
      if invSwitch[port] != 0 then
        var dpid := invSwitch[port];
        t.(invHostTable := invHost, switchTable := t.switchTable - {dpid}, invSwitchTable := invSwitch - {port})
      else
        t.(invHostTable := invHost, invSwitchTable := invSwitch)
  }

  /** Taking down the port of a newly added host undoes `addHost`, apart from
      the port's inverse entry, which is gone afterwards. Needs a host key
      other than the sentinel and a host not already placed elsewhere. */
  lemma DelPortUndoesAddHost(t: PortMaps, ip: uint32, port: uint32)
    requires ip != 0 && ip !in t.hostTable
    ensures DelPortFrom(AddHostTo(t, ip, port), port) == t.(invHostTable := t.invHostTable - {port})
  {
  }

  /** Likewise for a neighbouring switch, provided no host occupies the port
      (a host would be removed instead). */
  lemma DelPortUndoesAddSwitch(t: PortMaps, dpid: uint64, port: uint32)
    requires dpid != 0 && dpid !in t.switchTable && HostAt(t, port) == 0
    ensures DelPortFrom(AddSwitchTo(t, dpid, port), port)
         == t.(invHostTable := TouchHost(t.invHostTable, port), invSwitchTable := t.invSwitchTable - {port})
  {
  }

  /** A host recorded under IP 0 is indistinguishable from "no host": taking
      its port down leaves the host entry in place. */
  lemma ZeroHostSurvivesDelPort(t: PortMaps, port: uint32)
    ensures var r := DelPortFrom(AddHostTo(t, 0, port), port);
      0 in r.hostTable && r.hostTable[0] == port
  {
  }

  /** `addHost` does not clear the inverse entry of a host's previous port:
      after a host moves from p1 to p2, taking p1 down erases the host's
      current entry while p2 still names it. */
  lemma DelPortOfOldPortDropsMovedHost(t: PortMaps, ip: uint32, p1: uint32, p2: uint32)
    requires ip != 0 && p1 != p2
    ensures var r := DelPortFrom(AddHostTo(AddHostTo(t, ip, p1), ip, p2), p1);
      ip !in r.hostTable && HostAt(r, p2) == ip
  {
  }

  /** `addHost` does not clear what the port held before: a neighbouring
      switch on the port stays mapped to it (and survives a later `delPort`
      of a nonzero host), and so does a previous host's forward entry. A
      port can therefore map to a host and a switch at once. */
  lemma AddHostKeepsPriorMappingsOfPort(t: PortMaps, dpid: uint64, h1: uint32, h2: uint32, port: uint32)
    requires h1 != h2
    ensures var r := AddHostTo(AddSwitchTo(t, dpid, port), h2, port);
      HostAt(r, port) == h2 && SwitchAt(r, port) == dpid
      && (h2 != 0 ==> dpid in DelPortFrom(r, port).switchTable)
    ensures var r := AddHostTo(AddHostTo(t, h1, port), h2, port);
      h1 in r.hostTable && r.hostTable[h1] == port && HostAt(r, port) == h2
  {
  }

  /** One `delPort` removes at most one forward mapping. */
  lemma DelPortRemovesAtMostOne(t: PortMaps, port: uint32)
    ensures var r := DelPortFrom(t, port);
      |r.hostTable| + |r.switchTable| + 1 >= |t.hostTable| + |t.switchTable|
      && r.hostTable.Keys <= t.hostTable.Keys && r.switchTable.Keys <= t.switchTable.Keys
  {
  }

  /** `Table_fields` as the object the C++ code mutates in place. */
  class TableFields {
    var hostTable: map<uint32, uint32>
    var invHostTable: map<uint32, uint32>
    var switchTable: map<uint64, uint32>
    var invSwitchTable: map<uint32, uint64>

    /** The four maps as one value. */
    function Maps(): PortMaps
      reads this
    {
      PortMaps(hostTable, invHostTable, switchTable, invSwitchTable)
    }

    constructor ()
      ensures Maps() == EmptyMaps
    {
      hostTable, invHostTable := map[], map[];
      switchTable, invSwitchTable := map[], map[];
    }

    method AddHost(ip: uint32, port: uint32)
      modifies this
      ensures Maps() == AddHostTo(old(Maps()), ip, port)
    {
      hostTable := hostTable[ip := port];
      invHostTable := invHostTable[port := ip];
    }

    method AddSwitch(dpid: uint64, port: uint32)
      modifies this
      ensures Maps() == AddSwitchTo(old(Maps()), dpid, port)
    {
      switchTable := switchTable[dpid := port];
      invSwitchTable := invSwitchTable[port := dpid];
    }

    method AddPort(port: uint32)
      modifies this
      ensures Maps() == AddPortTo(old(Maps()), port)
    {
      invHostTable := invHostTable[port := 0];
      invSwitchTable := invSwitchTable[port := 0];
    }

    method DelPort(port: uint32)
      modifies this
      ensures Maps() == DelPortFrom(old(Maps()), port)
    {
      if port !in invHostTable {
        invHostTable := invHostTable[port := 0];
      }
      if invHostTable[port] != 0 {
        var host := invHostTable[port];
        invHostTable := invHostTable - {port};
        hostTable := hostTable - {host};
      } else {
        if port !in invSwitchTable {
          invSwitchTable := invSwitchTable[port := 0];
        }
        if invSwitchTable[port] != 0 {
          var dpid := invSwitchTable[port];
          invSwitchTable := invSwitchTable - {port};
          switchTable := switchTable - {dpid};
        }
      }
    }
  }
}
