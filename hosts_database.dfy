/** The host location table (`HostsDatabase`): for each switch, the port on
    which each source MAC address was last seen. Locking is not modelled; the
    table is a sequential object. */
module HostLocation {
  import opened NetTypes

  /** `seen_ports_`: dpid -> (MAC -> ingress port). */
  type SeenPorts = map<uint64, map<MacAddr, uint32>>

  /** The port recorded for (dpid, mac), if any. */
  function PortOf(s: SeenPorts, dpid: uint64, mac: MacAddr): Option<uint32> {
    if dpid in s && mac in s[dpid] then Some(s[dpid][mac]) else None
  }

  /** `seen_ports_[dpid][mac] = in_port`: creates the inner map when needed
      and overwrites an earlier port (last write wins). */
  function Record(s: SeenPorts, dpid: uint64, mac: MacAddr, port: uint32): (r: SeenPorts)
    ensures PortOf(r, dpid, mac) == Some(port)
    ensures forall d, m | (d, m) != (dpid, mac) :: PortOf(r, d, m) == PortOf(s, d, m)
    ensures r.Keys == s.Keys + {dpid}
  {
    var inner := if dpid in s then s[dpid] else map[];
    s[dpid := inner[mac := port]]
  }

  /** The side effect of `seen_ports_[dpid]` on a lookup: an empty inner map is
      created for a switch not seen before. No recorded port changes. */
  function Touch(s: SeenPorts, dpid: uint64): (r: SeenPorts)
    ensures forall d, m :: PortOf(r, d, m) == PortOf(s, d, m)
    ensures r.Keys == s.Keys + {dpid}
    ensures dpid in s ==> r == s
  {
    if dpid in s then s else s[dpid := map[]]
  }

  class HostsDatabase {
    var seenPorts: SeenPorts

    constructor ()
      ensures seenPorts == map[]
    {
      seenPorts := map[];
    }

    /** `setPort`: refuses the broadcast address, otherwise records the port. */
    method SetPort(dpid: uint64, mac: MacAddr, inPort: uint32) returns (ok: bool)
      modifies this
      ensures ok == !IsBroadcast(mac)
      ensures seenPorts == if ok then Record(old(seenPorts), dpid, mac, inPort) else old(seenPorts)
      ensures ok ==> PortOf(seenPorts, dpid, mac) == Some(inPort)
      ensures forall d, m | (d, m) != (dpid, mac) :: PortOf(seenPorts, d, m) == PortOf(old(seenPorts), d, m)
    {
      if IsBroadcast(mac) {
        return false;
      }
      var inner := if dpid in seenPorts then seenPorts[dpid] else map[];
      seenPorts := seenPorts[dpid := inner[mac := inPort]];
      return true;
    }

    /** `getPort`: the recorded port or None. Looking up an unseen switch
        inserts an empty inner map for it, as `operator[]` does. */
    method GetPort(dpid: uint64, mac: MacAddr) returns (port: Option<uint32>)
      modifies this
      ensures port == PortOf(old(seenPorts), dpid, mac)
      ensures port.None? <==> !(dpid in old(seenPorts) && mac in old(seenPorts)[dpid])
      ensures seenPorts == Touch(old(seenPorts), dpid)
      ensures forall d, m :: PortOf(seenPorts, d, m) == PortOf(old(seenPorts), d, m)
    {
      if dpid !in seenPorts {
        seenPorts := seenPorts[dpid := map[]];
      }
      var inner := seenPorts[dpid];
      if mac in inner {
        port := Some(inner[mac]);
      } else {
        port := None;
      }
    }
  }
}
