/** The provider's server descriptors and the category table of
    nordnm/nordapi.py. Fetching over HTTP is not modelled: a fetched list
    is an input, None when the request failed. */
module NordApi {
  import opened Basics

  /** VPN_CATEGORIES: long category name -> short name, in table order. */
  const VPN_CATEGORIES: seq<(string, string)> := [
    ("Standard VPN servers", "normal"),
    ("P2P", "p2p"),
    ("Double VPN", "double"),
    ("Dedicated IP servers", "dedicated"),
    ("Onion over VPN", "onion"),
    ("Anti DDoS", "ddos")
  ]

  /** The long names (the dict's keys) in table order. */
  function CategoryNames(): (names: seq<string>)
    ensures |names| == |VPN_CATEGORIES|
    ensures forall i :: 0 <= i < |names| ==> names[i] == VPN_CATEGORIES[i].0
  {
    seq(|VPN_CATEGORIES|, i requires 0 <= i < |VPN_CATEGORIES| => VPN_CATEGORIES[i].0)
  }

  function Lookup(table: seq<(string, string)>, long: string): (r: Option<string>)
    ensures r.None? <==> forall i :: 0 <= i < |table| ==> table[i].0 != long
    ensures r.Some? ==> exists i :: 0 <= i < |table| && table[i] == (long, r.value)
  {
    if table == [] then None
    else if table[0].0 == long then Some(table[0].1)
    else
      var r := Lookup(table[1..], long);
      assert forall i :: 1 <= i < |table| ==> table[i] == table[1..][i - 1];
      r
  }

  /** VPN_CATEGORIES[long]; None stands for the KeyError of an unknown name. */
  function ShortName(long: string): Option<string>
  {
    Lookup(VPN_CATEGORIES, long)
  }

  /** A long name has a short name exactly when it is in the table, and the
      short name is the one the table pairs it with. */
  lemma ShortNameSpec(long: string)
    ensures ShortName(long).Some? <==> long in CategoryNames()
    ensures ShortName(long).Some? ==> (long, ShortName(long).value) in VPN_CATEGORIES
  {
    var names := CategoryNames();
    if long in names {
      var i :| 0 <= i < |names| && names[i] == long;
      assert VPN_CATEGORIES[i].0 == long;
    }
  }

  /** One entry of the provider's server list, reduced to the fields the core reads:
      domain, flag (country code), load, ip_address, features.openvpn_tcp,
      features.openvpn_udp and the names of its categories. */
  datatype Server = Server(
    domain: string,
    flag: string,
    load: int,
    ipAddress: string,
    openvpnTcp: bool,
    openvpnUdp: bool,
    categories: seq<string>)

  /** The selection key (country code, short category name, protocol). */
  type Key = (string, string, string)

  /** The record stored per key: {name, domain, score, load, latency}. */
  datatype Record = Record(name: string, domain: string, score: real, load: int, latency: real)
}
