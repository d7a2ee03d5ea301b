/** The secondary IP -> MAC table (`MacIP`). The map is keyed by a 64-bit
    integer although addresses arrive as 32-bit IPv4 addresses; the key is the
    address widened. A lookup of an unknown address inserts and returns the
    all-zero address, as `operator[]` does. */
module MacIPTable {
  import opened NetTypes

  /** The key under which an IPv4 address is stored: the address widened. */
  function KeyOf(ip: uint32): uint64
  {
    ip as int as uint64
  }

  /** The address `getMac` returns from table `c`: the stored one, or the
      default all-zero address. */
  function MacFor(c: map<uint64, MacAddr>, ip: uint32): (mac: MacAddr)
    ensures KeyOf(ip) in c ==> mac == c[KeyOf(ip)]
    ensures KeyOf(ip) !in c ==> mac == ZeroMac
  {
    if KeyOf(ip) in c then c[KeyOf(ip)] else ZeroMac
  }

  /** Recording `mac` for `ip` makes `getMac(ip)` answer `mac` and leaves the
      answer for every other address as it was. */
  lemma MacForAfterConform(c: map<uint64, MacAddr>, mac: MacAddr, ip: uint32, other: uint32)
    ensures MacFor(c[KeyOf(ip) := mac], ip) == mac
    ensures other != ip ==> MacFor(c[KeyOf(ip) := mac], other) == MacFor(c, other)
  {
  }

  class MacIP {
    var conform: map<uint64, MacAddr>

    constructor ()
      ensures conform == map[]
    {
      conform := map[];
    }

    /** `setConform`: last write wins; always reports success. */
    method SetConform(mac: MacAddr, ip: uint32) returns (ok: bool)
      modifies this
      ensures ok
      ensures conform == old(conform)[KeyOf(ip) := mac]
      ensures MacFor(conform, ip) == mac
    {
      conform := conform[KeyOf(ip) := mac];
      ok := true;
      MacForAfterConform(old(conform), mac, ip, ip);
    }

    /** `getMac`: the stored address, or the zero address, which is then
        stored for `ip`. */
    method GetMac(ip: uint32) returns (mac: MacAddr)
      modifies this
      ensures mac == MacFor(old(conform), ip)
      ensures conform == if KeyOf(ip) in old(conform) then old(conform) else old(conform)[KeyOf(ip) := ZeroMac]
      ensures forall other: uint32 :: MacFor(conform, other) == MacFor(old(conform), other)
    {
      var k := KeyOf(ip);
      if k !in conform {
        conform := conform[k := ZeroMac];
      }
      mac := conform[k];
    }
  }
}
