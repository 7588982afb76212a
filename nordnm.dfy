/** nordnm/nordnm.py: connection naming, the server policy filter, and the
    NordNM controller that reconciles the benchmarked best servers with the
    connections NetworkManager holds. The active-servers file is the field
    activeServers plus the trace saves of every map written to it. */
module NordNM {
  import opened Basics
  import opened Text
  import opened Dicts
  import opened NordApi
  import opened NetworkManager

  // ---------------------------------------------------------------------
  // generate_connection_name
  // ---------------------------------------------------------------------

  /** The short names of the categories, looked up in order; None when one
      of them is missing from VPN_CATEGORIES (the KeyError). */
  function ShortNames(cats: seq<string>): Option<seq<string>>
    decreases |cats|
  {
    if cats == [] then Some([])
    else
      match ShortNames(cats[..|cats| - 1])
      case None => None
      case Some(front) =>
        match ShortName(cats[|cats| - 1])
        case None => None
        case Some(n) => Some(front + [n])
  }

  /** domain.split('.')[0] */
  function ShortDomain(domain: string): string
  {
    Split(domain, '.')[0]
  }

  /** The connection name: the domain up to its first '.', " [", the short
      names of the categories joined by '|', "] [", the protocol and "]". */
  function ConnectionName(server: Server, protocol: string): Option<string>
  {
    match ShortNames(server.categories)
    case None => None
    case Some(names) => Some(ShortDomain(server.domain) + " [" + Join(names, '|') + "] [" + protocol + "]")
  }

  /** The short domain is the text of the domain before its first '.'. */
  lemma ShortDomainPrefix(domain: string)
    ensures var d := ShortDomain(domain);
      && |d| <= |domain| && d == domain[..|d|] && '.' !in d
      && (|d| == |domain| || domain[|d|] == '.')
  {
    FirstField(domain, '.');
  }

  /** The short names exist exactly when every category is in the table,
      one per category. */
  lemma {:induction false} ShortNamesSpec(cats: seq<string>)
    ensures ShortNames(cats).Some? <==> forall i :: 0 <= i < |cats| ==> cats[i] in CategoryNames()
    ensures ShortNames(cats).Some? ==> |ShortNames(cats).value| == |cats|
    decreases |cats|
  {
    if cats != [] {
      var front := cats[..|cats| - 1];
      ShortNamesSpec(front);
      ShortNameSpec(cats[|cats| - 1]);
      AllInSnoc(cats, front, CategoryNames());
    }
  }

  /** Every element of a non-empty sequence is in names exactly when every
      element before the last one is, and the last one is. */
  lemma AllInSnoc(cats: seq<string>, front: seq<string>, names: seq<string>)
    requires cats != [] && front == cats[..|cats| - 1]
    ensures (forall i :: 0 <= i < |cats| ==> cats[i] in names)
        <==> (forall i :: 0 <= i < |front| ==> front[i] in names) && cats[|cats| - 1] in names
  {
    assert forall i :: 0 <= i < |front| ==> front[i] == cats[i];
  }

  /** A name is generated exactly when every category of the server is in the table. */
  lemma ConnectionNameDefined(server: Server, protocol: string)
    ensures ConnectionName(server, protocol).Some? <==>
      forall i :: 0 <= i < |server.categories| ==> server.categories[i] in CategoryNames()
  {
    ShortNamesSpec(server.categories);
  }

  /** The protocol can be read back from the name: different protocols give different names. */
  lemma ConnectionNameDistinguishesProtocols(server: Server, p: string, q: string)
    requires ConnectionName(server, p).Some? && ConnectionName(server, q).Some?
    requires ConnectionName(server, p) == ConnectionName(server, q)
    ensures p == q
  {
    var prefix := ShortDomain(server.domain) + " [" + Join(ShortNames(server.categories).value, '|') + "] [";
    var np := ConnectionName(server, p).value;
    assert np == prefix + p + "]";
    assert ConnectionName(server, q).value == prefix + q + "]";
    assert |p| == |q|;
    assert p == np[|prefix|..|prefix| + |p|];
  }

  /** The short names of the first i + 1 categories extend those of the first i. */
  lemma ShortNamesSnoc(cats: seq<string>, i: nat)
    requires i < |cats| && ShortNames(cats[..i]).Some? && ShortName(cats[i]).Some?
    ensures ShortNames(cats[..i + 1]) == Some(ShortNames(cats[..i]).value + [ShortName(cats[i]).value])
  {
    assert cats[..i + 1][..i] == cats[..i];
  }

  /** An unknown category anywhere means no name. */
  lemma {:induction false} NoShortNames(cats: seq<string>, i: nat)
    requires i < |cats| && ShortName(cats[i]).None?
    ensures ShortNames(cats).None?
    decreases |cats|
  {
    if i < |cats| - 1 {
      var front := cats[..|cats| - 1];
      assert front[i] == cats[i];
      NoShortNames(front, i);
    }
  }

  /** generate_connection_name: the name built in a loop over the categories;
      an unknown category raises KeyError. */
  method GenerateConnectionName(server: Server, protocol: string) returns (r: Result<string>)
    ensures r.Ok? <==> ConnectionName(server, protocol).Some?
    ensures r.Ok? ==> r.value == ConnectionName(server, protocol).value
    ensures r.Raised? ==> r.error == KeyError
  {
    var cats := server.categories;
    var shortName := Split(server.domain, '.')[0];
    var joined := "";
    ghost var names: seq<string> := [];
    var i := 0;
    while i < |cats|
      invariant 0 <= i <= |cats|
      invariant ShortNames(cats[..i]) == Some(names) && |names| == i
      invariant joined == Join(names, '|')
    {
      var categoryName := ShortName(cats[i]);
      if categoryName.None? {
        NoShortNames(cats, i);
        return Raised(KeyError);
      }
      ShortNamesSnoc(cats, i);
      JoinSnoc(names, categoryName.value, '|');
      if i > 0 {
        joined := joined + "|" + categoryName.value;
      } else {
        joined := categoryName.value;
      }
      names := names + [categoryName.value];
      i := i + 1;
    }
    assert cats[..i] == cats;
    return Ok(shortName + " [" + joined + "] [" + protocol + "]");
  }

  // ---------------------------------------------------------------------
  // The server policy
  // ---------------------------------------------------------------------

  /** The user's selection: white/black lists of country codes (None when
      unset), the long category names and the protocols that are enabled. */
  datatype Policy = Policy(
    whitelist: Option<seq<string>>,
    blacklist: Option<seq<string>>,
    categories: seq<string>,
    protocols: seq<string>)

  /** country_is_selected */
  predicate CountryIsSelected(whitelist: Option<seq<string>>, blacklist: Option<seq<string>>, code: string)
  {
    || (Truthy(whitelist) && code in whitelist.value)
    || (!Truthy(whitelist) && Truthy(blacklist) && code !in blacklist.value)
    || (!Truthy(whitelist) && !Truthy(blacklist))
  }

  /** The three cases of the selection rule. */
  lemma CountryIsSelectedCases(whitelist: Option<seq<string>>, blacklist: Option<seq<string>>, code: string)
    ensures Truthy(whitelist) ==> (CountryIsSelected(whitelist, blacklist, code) <==> code in whitelist.value)
    ensures !Truthy(whitelist) && Truthy(blacklist) ==>
      (CountryIsSelected(whitelist, blacklist, code) <==> code !in blacklist.value)
    ensures !Truthy(whitelist) && !Truthy(blacklist) ==> CountryIsSelected(whitelist, blacklist, code)
  {
  }

  /** has_valid_categories: some category of the server is enabled. */
  predicate HasValidCategories(server: Server, valid: seq<string>)
  {
    exists i :: 0 <= i < |server.categories| && server.categories[i] in valid
  }

  /** has_valid_protocol */
  predicate HasValidProtocol(server: Server, protocols: seq<string>)
  {
    ("tcp" in protocols && server.openvpnTcp) || ("udp" in protocols && server.openvpnUdp)
  }

  /** The three checks of get_valid_servers. */
  predicate IsValidServer(policy: Policy, server: Server)
  {
    && CountryIsSelected(policy.whitelist, policy.blacklist, server.flag)
    && HasValidProtocol(server, policy.protocols)
    && HasValidCategories(server, policy.categories)
  }

  /** The servers that pass, in their order: a sub-sequence holding every
      valid server as often as the input does, and nothing else. */
  function ValidServers(policy: Policy, servers: seq<Server>): (r: seq<Server>)
    ensures IsSubsequence(r, servers)
    decreases |servers|
  {
    if servers == [] then []
    else
      var front := servers[..|servers| - 1];
      var last := servers[|servers| - 1];
      assert servers == front + [last];
      SubsequenceStep(ValidServers(policy, front), front, last, IsValidServer(policy, last));
      if IsValidServer(policy, last) then ValidServers(policy, front) + [last] else ValidServers(policy, front)
  }

  /** Every valid server is kept as often as the input holds it, every other one is dropped. */
  lemma {:induction false} ValidServersCount(policy: Policy, servers: seq<Server>, x: Server)
    ensures Count(ValidServers(policy, servers), x) == if IsValidServer(policy, x) then Count(servers, x) else 0
    decreases |servers|
  {
    if servers != [] {
      var front := servers[..|servers| - 1];
      var last := servers[|servers| - 1];
      assert servers == front + [last];
      ValidServersCount(policy, front, x);
      CountAppend(front, last, x);
      if IsValidServer(policy, last) {
        CountAppend(ValidServers(policy, front), last, x);
      }
    }
  }

  /** get_valid_servers */
  method GetValidServers(policy: Policy, servers: seq<Server>) returns (valid: seq<Server>)
    ensures valid == ValidServers(policy, servers)
  {
    valid := [];
    var i := 0;
    while i < |servers|
      invariant 0 <= i <= |servers|
      invariant valid == ValidServers(policy, servers[..i])
    {
      assert servers[..i + 1][..i] == servers[..i];
      var server := servers[i];
      if CountryIsSelected(policy.whitelist, policy.blacklist, server.flag)
         && HasValidProtocol(server, policy.protocols) && HasValidCategories(server, policy.categories) {
        valid := valid + [server];
      }
      i := i + 1;
    }
    assert servers[..i] == servers;
  }

  // ---------------------------------------------------------------------
  // get_ovpn_path
  // ---------------------------------------------------------------------

  /** fnmatch(f, domain + '.' + protocol + '*') for a domain without glob characters. */
  predicate MatchesConfig(f: string, domain: string, protocol: string)
  {
    StartsWith(f, domain + "." + protocol)
  }

  /** The last regular file of the listing that matches, in listing order. */
  function LastMatch(listing: seq<string>, isFile: set<string>, domain: string, protocol: string): Option<string>
    decreases |listing|
  {
    if listing == [] then None
    else if listing[|listing| - 1] in isFile && MatchesConfig(listing[|listing| - 1], domain, protocol)
    then Some(listing[|listing| - 1])
    else LastMatch(listing[..|listing| - 1], isFile, domain, protocol)
  }

  predicate IsConfigFile(f: string, isFile: set<string>, domain: string, protocol: string)
  {
    f in isFile && MatchesConfig(f, domain, protocol)
  }

  /** No file matches exactly when there is no path; a path is a matching
      file of the listing after which no other file matches. */
  lemma {:induction false} LastMatchSpec(listing: seq<string>, isFile: set<string>, domain: string, protocol: string)
    ensures LastMatch(listing, isFile, domain, protocol).None? <==>
      forall i :: 0 <= i < |listing| ==> !IsConfigFile(listing[i], isFile, domain, protocol)
    ensures LastMatch(listing, isFile, domain, protocol).Some? ==>
      exists i :: 0 <= i < |listing| && listing[i] == LastMatch(listing, isFile, domain, protocol).value
        && IsConfigFile(listing[i], isFile, domain, protocol)
        && (forall j :: i < j < |listing| ==> !IsConfigFile(listing[j], isFile, domain, protocol))
    decreases |listing|
  {
    if listing != [] {
      var front := listing[..|listing| - 1];
      LastMatchSpec(front, isFile, domain, protocol);
      var n := |listing| - 1;
      if IsConfigFile(listing[n], isFile, domain, protocol) {
        assert LastMatch(listing, isFile, domain, protocol) == Some(listing[n]);
      } else {
        assert LastMatch(listing, isFile, domain, protocol) == LastMatch(front, isFile, domain, protocol);
        if LastMatch(front, isFile, domain, protocol).None? {
          forall i | 0 <= i < |listing|
            ensures !IsConfigFile(listing[i], isFile, domain, protocol)
          {
            if i < n {
              assert listing[i] == front[i];
            }
          }
        } else {
          var i :| 0 <= i < |front| && front[i] == LastMatch(front, isFile, domain, protocol).value
            && IsConfigFile(front[i], isFile, domain, protocol)
            && (forall j :: i < j < |front| ==> !IsConfigFile(front[j], isFile, domain, protocol));
          assert listing[i] == front[i];
          forall j | i < j < |listing|
            ensures !IsConfigFile(listing[j], isFile, domain, protocol)
          {
            if j < n {
              assert listing[j] == front[j];
            }
          }
        }
      }
    }
  }

  /** get_ovpn_path: listing is os.listdir of the download directory (None
      when it raised, which is caught), isFile the names that are regular
      files. The loop keeps overwriting, so the last match wins. */
  method GetOvpnPath(listing: Option<seq<string>>, isFile: set<string>, domain: string, protocol: string)
    returns (path: Option<string>)
    ensures listing.None? ==> path.None?
    ensures listing.Some? ==> path == LastMatch(listing.value, isFile, domain, protocol)
  {
    path := None;
    if listing.None? {
      return;
    }
    var files := listing.value;
    var i := 0;
    while i < |files|
      invariant 0 <= i <= |files|
      invariant path == LastMatch(files[..i], isFile, domain, protocol)
    {
      assert files[..i + 1][..i] == files[..i];
      var f := files[i];
      if IsConfigFile(f, isFile, domain, protocol) {
        path := Some(f);
      }
      i := i + 1;
    }
    assert files[..i] == files;
  }

  // ---------------------------------------------------------------------
  // Reconciliation: specifications of the loops
  // ---------------------------------------------------------------------

  /** The active map after the loop of remove_active_connections has dropped its first n keys. */
  function DropFirst(d: Dict<Key, Record>, n: nat): (r: Dict<Key, Record>)
    requires n <= |d.keys|
  {
    Dict(d.keys[n..], d.entries - KeysBefore(d.keys, n))
  }

  /** The first n keys, as a set. */
  function KeysBefore(ks: seq<Key>, n: nat): (r: set<Key>)
    requires n <= |ks|
    ensures forall k :: k in r <==> k in ks[..n]
  {
    if n == 0 then {}
    else
      assert ks[..n] == ks[..n - 1] + [ks[n - 1]];
      KeysBefore(ks, n - 1) + {ks[n - 1]}
  }

  /** What is left is still a well-formed dictionary. */
  lemma DropFirstValid(d: Dict<Key, Record>, n: nat)
    requires d.Valid() && n <= |d.keys|
    ensures DropFirst(d, n).Valid()
  {
    var r := DropFirst(d, n);
    SuffixDistinct(d.keys, n);
    forall k | k in r.entries
      ensures k in r.keys
    {
      SuffixMember(d.keys, n, k);
    }
    forall i | 0 <= i < |r.keys|
      ensures r.keys[i] in r.entries
    {
      SuffixMember(d.keys, n, r.keys[i]);
    }
  }

  /** Deleting the next key of the loop drops one more. */
  lemma DropFirstStep(d: Dict<Key, Record>, n: nat)
    requires d.Valid() && n < |d.keys|
    ensures DropFirst(d, n).Valid()
    ensures DropFirst(d, n).Delete(d.keys[n]) == DropFirst(d, n + 1)
  {
    DropFirstValid(d, n);
    var k := d.keys[n];
    DistinctSpec(d.keys);
    DropNextKey(d.keys, n);
    DropNextEntry(d.entries, d.keys, n);
  }

  lemma DropNextEntry(m: map<Key, Record>, ks: seq<Key>, n: nat)
    requires n < |ks|
    ensures (m - KeysBefore(ks, n)) - {ks[n]} == m - KeysBefore(ks, n + 1)
  {
  }

  /** In distinct keys, removing the key at n from the suffix at n leaves the suffix at n + 1. */
  lemma DropNextKey(ks: seq<Key>, n: nat)
    requires n < |ks|
    requires forall i, j :: 0 <= i < j < |ks| ==> ks[i] != ks[j]
    ensures Without(ks[n..], ks[n]) == ks[n + 1..]
  {
    assert ks[n..] == [ks[n]] + ks[n + 1..];
    assert ks[n] !in ks[n + 1..] by {
      forall j | n + 1 <= j < |ks|
        ensures ks[j] != ks[n]
      {
      }
    }
    WithoutAbsent(ks[n + 1..], ks[n]);
  }

  lemma {:induction false} WithoutAbsent(s: seq<Key>, x: Key)
    requires x !in s
    ensures Without(s, x) == s
    decreases |s|
  {
    if s != [] {
      WithoutAbsent(s[1..], x);
      assert [s[0]] + s[1..] == s;
    }
  }

  lemma SnocAssoc<T>(a: seq<T>, b: seq<T>, x: T)
    ensures a + (b + [x]) == (a + b) + [x]
  {
  }

  /** Dropping every key leaves the empty dictionary. */
  lemma DropAll(d: Dict<Key, Record>)
    requires d.Valid()
    ensures DropFirst(d, |d.keys|) == Empty()
  {
    assert d.keys[..|d.keys|] == d.keys;
  }

  /** The snapshots remove_active_connections saves: one after each of the first n deletions. */
  function RemovalSaves(d: Dict<Key, Record>, n: nat): (r: seq<Dict<Key, Record>>)
    requires n <= |d.keys|
    ensures |r| == n
  {
    if n == 0 then [] else RemovalSaves(d, n - 1) + [DropFirst(d, n)]
  }

  /** The j-th write holds the map without its first j + 1 keys. */
  lemma {:induction false} RemovalSavesSpec(d: Dict<Key, Record>, n: nat)
    requires n <= |d.keys|
    ensures forall j :: 0 <= j < n ==> RemovalSaves(d, n)[j] == DropFirst(d, j + 1)
  {
    if n > 0 {
      RemovalSavesSpec(d, n - 1);
    }
  }

  /** The names of the records of the first n keys, in key order. */
  function NamesOf(d: Dict<Key, Record>, n: nat): (r: seq<string>)
    requires d.Valid() && n <= |d.keys|
    ensures |r| == n
  {
    if n == 0 then [] else NamesOf(d, n - 1) + [d.entries[d.keys[n - 1]].name]
  }

  /** The j-th name is the name stored under the j-th key. */
  lemma {:induction false} NamesOfSpec(d: Dict<Key, Record>, n: nat)
    requires d.Valid() && n <= |d.keys|
    ensures forall j :: 0 <= j < n ==> NamesOf(d, n)[j] == d.entries[d.keys[j]].name
  {
    if n > 0 {
      NamesOfSpec(d, n - 1);
    }
  }

  /** The loop's effect on the gateway: a connection that exists is deleted
      (which may fail); one that does not is skipped. */
  function RemovalEffect(host: Host, conns: set<string>, cfgs: map<string, Config>, names: seq<string>)
    : (r: (set<string>, map<string, Config>))
    decreases |names|
  {
    if names == [] then (conns, cfgs)
    else
      var (c, f) := RemovalEffect(host, conns, cfgs, names[..|names| - 1]);
      RemovalStep(host, c, f, names[|names| - 1])
  }

  /** One connection of the loop: deleted when it exists and nmcli agrees. */
  function RemovalStep(host: Host, conns: set<string>, cfgs: map<string, Config>, name: string)
    : (r: (set<string>, map<string, Config>))
  {
    if name in conns && name !in host.deleteFails then (conns - {name}, cfgs - {name}) else (conns, cfgs)
  }

  /** One more name: the loop goes one step further. */
  lemma RemovalEffectSnoc(host: Host, conns: set<string>, cfgs: map<string, Config>, names: seq<string>, name: string)
    ensures RemovalEffect(host, conns, cfgs, names + [name])
         == RemovalStep(host, RemovalEffect(host, conns, cfgs, names).0, RemovalEffect(host, conns, cfgs, names).1, name)
  {
    assert (names + [name])[..|names|] == names;
  }

  /** Every listed connection that nmcli can delete is gone, and nothing else changed. */
  lemma {:induction false} RemovalEffectClosed(host: Host, conns: set<string>, cfgs: map<string, Config>, names: seq<string>)
    ensures RemovalEffect(host, conns, cfgs, names).0 == conns - (set n | n in names && n !in host.deleteFails)
    ensures RemovalEffect(host, conns, cfgs, names).1
      == cfgs - (set n | n in names && n in conns && n !in host.deleteFails)
    decreases |names|
  {
    if names != [] {
      var front := names[..|names| - 1];
      RemovalEffectClosed(host, conns, cfgs, front);
      var name := names[|names| - 1];
      assert forall n :: n in names <==> n in front || n == name;
    }
  }

  /** The commit loop's state: the gateway, the (key, record) pairs stored
      into the active map so far, the updated flag and the number of new
      connections. */
  datatype Commit = Commit(
    conns: set<string>,
    cfgs: map<string, Config>,
    puts: seq<(Key, Record)>,
    updated: bool,
    newConnections: nat)

  /** What the sync imports with: the stored credentials and the provider's nameservers. */
  datatype ImportSettings = ImportSettings(username: Option<string>, password: Option<string>, dns: Option<seq<string>>)

  /** The active map after the puts, in order. */
  function Replay(a: Dict<Key, Record>, puts: seq<(Key, Record)>): (r: Dict<Key, Record>)
    requires a.Valid()
    ensures r.Valid()
    decreases |puts|
  {
    if puts == [] then a
    else Replay(a, puts[..|puts| - 1]).Put(puts[|puts| - 1].0, puts[|puts| - 1].1)
  }

  /** The file is written after every put: snapshot j is the map after the first j + 1 puts. */
  function Snapshots(a: Dict<Key, Record>, puts: seq<(Key, Record)>): (r: seq<Dict<Key, Record>>)
    requires a.Valid()
    ensures |r| == |puts|
    decreases |puts|
  {
    if puts == [] then [] else Snapshots(a, puts[..|puts| - 1]) + [Replay(a, puts)]
  }

  /** Snapshot j is the map after the first j + 1 puts. */
  lemma SnapshotsSpec(a: Dict<Key, Record>, puts: seq<(Key, Record)>)
    requires a.Valid()
    ensures forall j :: 0 <= j < |puts| ==> Snapshots(a, puts)[j] == Replay(a, puts[..j + 1])
  {
    forall j | 0 <= j < |puts|
      ensures Snapshots(a, puts)[j] == Replay(a, puts[..j + 1])
    {
      SnapshotAt(a, puts, j);
    }
  }

  /** Snapshot j, one index at a time. */
  lemma {:induction false} SnapshotAt(a: Dict<Key, Record>, puts: seq<(Key, Record)>, j: nat)
    requires a.Valid() && j < |puts|
    ensures Snapshots(a, puts)[j] == Replay(a, puts[..j + 1])
    decreases |puts|
  {
    var front := puts[..|puts| - 1];
    if j < |front| {
      SnapshotAt(a, front, j);
      assert front[..j + 1] == puts[..j + 1];
    } else {
      assert puts[..j + 1] == puts;
    }
  }

  /** One more put: the active map takes it and the saved file log gains
      the new map. */
  lemma LogStep(saves0: seq<Dict<Key, Record>>, a: Dict<Key, Record>, puts: seq<(Key, Record)>, key: Key, rec: Record)
    requires a.Valid()
    ensures Replay(a, puts + [(key, rec)]) == Replay(a, puts).Put(key, rec)
    ensures saves0 + Snapshots(a, puts + [(key, rec)])
         == (saves0 + Snapshots(a, puts)) + [Replay(a, puts + [(key, rec)])]
  {
    var p := puts + [(key, rec)];
    assert p[..|p| - 1] == puts;
    SnocAssoc(saves0, Snapshots(a, puts), Replay(a, p));
  }

  /** After a put the last snapshot is the active map. */
  lemma SnapshotsLast(a: Dict<Key, Record>, puts: seq<(Key, Record)>)
    requires a.Valid() && puts != []
    ensures Snapshots(a, puts)[|puts| - 1] == Replay(a, puts)
  {
    assert puts[..|puts|] == puts;
  }

  /** The active map holds the old keys and the keys that were put. */
  lemma {:induction false} ReplayKeys(a: Dict<Key, Record>, puts: seq<(Key, Record)>, k: Key)
    requires a.Valid()
    ensures k in Replay(a, puts).entries <==> k in a.entries || exists i :: 0 <= i < |puts| && puts[i].0 == k
    decreases |puts|
  {
    if puts != [] {
      var front := puts[..|puts| - 1];
      ReplayKeys(a, front, k);
      assert Replay(a, puts).entries == Replay(a, front).entries[puts[|puts| - 1].0 := puts[|puts| - 1].1];
      PutKeysSplit(puts, front, k);
    }
  }

  /** A key was put by some call exactly when it was put by the last call
      or by one of the calls before it. */
  lemma PutKeysSplit(puts: seq<(Key, Record)>, front: seq<(Key, Record)>, k: Key)
    requires puts != [] && front == puts[..|puts| - 1]
    ensures (exists i :: 0 <= i < |puts| && puts[i].0 == k)
        <==> puts[|puts| - 1].0 == k || exists i :: 0 <= i < |front| && front[i].0 == k
  {
    if exists i :: 0 <= i < |puts| && puts[i].0 == k {
      var i :| 0 <= i < |puts| && puts[i].0 == k;
      if i < |front| {
        assert front[i].0 == k;
      }
    }
    if exists i :: 0 <= i < |front| && front[i].0 == k {
      var i :| 0 <= i < |front| && front[i].0 == k;
      assert puts[i].0 == k;
    }
  }

  /** Each entry of the active map is one that was put, or an old entry. */
  lemma {:induction false} ReplayValues(a: Dict<Key, Record>, puts: seq<(Key, Record)>, k: Key)
    requires a.Valid()
    requires k in Replay(a, puts).entries
    ensures (exists i :: 0 <= i < |puts| && puts[i] == (k, Replay(a, puts).entries[k]))
      || (k in a.entries && Replay(a, puts).entries[k] == a.entries[k])
    decreases |puts|
  {
    if puts != [] && puts[|puts| - 1].0 != k {
      var front := puts[..|puts| - 1];
      ReplayValues(a, front, k);
      if exists i :: 0 <= i < |front| && front[i] == (k, Replay(a, front).entries[k]) {
        var i :| 0 <= i < |front| && front[i] == (k, Replay(a, front).entries[k]);
        assert puts[i] == front[i];
      }
    }
  }

  /** Store one pair. */
  function Put_(st: Commit, key: Key, rec: Record): Commit
  {
    st.(puts := st.puts + [(key, rec)])
  }

  /** One iteration of the commit loop (nordnm.py): the key is stored unless
      an import was attempted and failed. */
  function CommitStep(host: Host, st: Commit, key: Key, rec: Record, listing: seq<string>,
                      isFile: set<string>, creds: ImportSettings): Commit
  {
    if rec.name in st.conns then Put_(st, key, rec)
    else
      match LastMatch(listing, isFile, rec.domain, key.2)
      case None => Put_(st, key, rec)
      case Some(_) =>
        var (ok, c, f) := host.ImportEffect(st.conns, st.cfgs, rec.name, creds.username, creds.password, creds.dns, false);
        if ok then Put_(st.(conns := c, cfgs := f, updated := true, newConnections := st.newConnections + 1), key, rec)
        else st.(conns := c, cfgs := f)
  }

  /** The commit loop over the first n keys of the benchmark result. */
  function CommitAll(host: Host, st: Commit, best: Dict<Key, Record>, n: nat, listing: seq<string>,
                     isFile: set<string>, creds: ImportSettings): Commit
    requires best.Valid() && n <= |best.keys|
  {
    if n == 0 then st
    else
      var s := CommitAll(host, st, best, n - 1, listing, isFile, creds);
      CommitStep(host, s, best.keys[n - 1], best.entries[best.keys[n - 1]], listing, isFile, creds)
  }

  /** The incoming updated flag only feeds the returned flag: the gateway,
      the stored pairs and the count do not depend on it. */
  lemma {:induction false} CommitIgnoresFlag(host: Host, st: Commit, best: Dict<Key, Record>, n: nat,
                                             listing: seq<string>, isFile: set<string>, creds: ImportSettings,
                                             flag: bool)
    requires best.Valid() && n <= |best.keys|
    ensures var a := CommitAll(host, st, best, n, listing, isFile, creds);
      var b := CommitAll(host, st.(updated := flag), best, n, listing, isFile, creds);
      a.conns == b.conns && a.cfgs == b.cfgs && a.puts == b.puts && a.newConnections == b.newConnections
    decreases n
  {
    if n > 0 {
      CommitIgnoresFlag(host, st, best, n - 1, listing, isFile, creds, flag);
      var key := best.keys[n - 1];
      CommitStepIgnoresFlag(host, CommitAll(host, st, best, n - 1, listing, isFile, creds),
                            CommitAll(host, st.(updated := flag), best, n - 1, listing, isFile, creds),
                            key, best.entries[key], listing, isFile, creds);
    }
  }

  /** One step of the commit loop, from two states that differ at most in
      the updated flag, ends in states that differ at most in that flag. */
  lemma CommitStepIgnoresFlag(host: Host, a: Commit, b: Commit, key: Key, rec: Record, listing: seq<string>,
                              isFile: set<string>, creds: ImportSettings)
    requires a.conns == b.conns && a.cfgs == b.cfgs && a.puts == b.puts && a.newConnections == b.newConnections
    ensures var ra := CommitStep(host, a, key, rec, listing, isFile, creds);
      var rb := CommitStep(host, b, key, rec, listing, isFile, creds);
      ra.conns == rb.conns && ra.cfgs == rb.cfgs && ra.puts == rb.puts && ra.newConnections == rb.newConnections
  {
  }

  /** The step's decision: a key is left out only when its connection did
      not exist, a configuration file was found and the import failed. */
  lemma CommitStepRecords(host: Host, st: Commit, key: Key, rec: Record, listing: seq<string>,
                          isFile: set<string>, creds: ImportSettings)
    ensures var r := CommitStep(host, st, key, rec, listing, isFile, creds);
      var failed := rec.name !in st.conns && LastMatch(listing, isFile, rec.domain, key.2).Some?
        && !host.ImportEffect(st.conns, st.cfgs, rec.name, creds.username, creds.password, creds.dns, false).0;
      && (failed ==> r.puts == st.puts)
      && (!failed ==> r.puts == st.puts + [(key, rec)])
  {
  }

  /** A connection with no configuration file is still stored as active,
      although the gateway has no such connection afterwards. */
  lemma MissingConfigStillRecorded(host: Host, st: Commit, key: Key, rec: Record, listing: seq<string>,
                                   isFile: set<string>, creds: ImportSettings)
    requires rec.name !in st.conns
    requires LastMatch(listing, isFile, rec.domain, key.2).None?
    ensures CommitStep(host, st, key, rec, listing, isFile, creds).puts == st.puts + [(key, rec)]
    ensures rec.name !in CommitStep(host, st, key, rec, listing, isFile, creds).conns
  {
  }

  /** new_connections counts only successful imports, the loop sets the
      flag only through them, imports never take a connection away, and
      every pair stored is a key of the benchmark result with its record. */
  lemma {:induction false} CommitCounts(host: Host, st: Commit, best: Dict<Key, Record>, n: nat, listing: seq<string>,
                                        isFile: set<string>, creds: ImportSettings)
    requires best.Valid() && n <= |best.keys|
    ensures var r := CommitAll(host, st, best, n, listing, isFile, creds);
      && st.newConnections <= r.newConnections <= st.newConnections + n
      && (r.updated <==> st.updated || r.newConnections > st.newConnections)
      && st.conns <= r.conns
      && |st.puts| <= |r.puts| <= |st.puts| + n
      && r.puts[..|st.puts|] == st.puts
  {
    if n > 0 {
      CommitCounts(host, st, best, n - 1, listing, isFile, creds);
      var s := CommitAll(host, st, best, n - 1, listing, isFile, creds);
      var key := best.keys[n - 1];
      CommitStepRecords(host, s, key, best.entries[key], listing, isFile, creds);
      host.ImportEffectSpec(s.conns, s.cfgs, best.entries[key].name, creds.username, creds.password, creds.dns, false);
      var r := CommitStep(host, s, key, best.entries[key], listing, isFile, creds);
      if r.puts != s.puts {
        assert r.puts[..|st.puts|] == s.puts[..|st.puts|];
      }
    }
  }

  /** Every pair stored after the first |st.puts| is a key of the benchmark result with its record. */
  lemma {:induction false} CommitPutsFromBest(host: Host, st: Commit, best: Dict<Key, Record>, n: nat, listing: seq<string>,
                                              isFile: set<string>, creds: ImportSettings)
    requires best.Valid() && n <= |best.keys|
    ensures forall i :: |st.puts| <= i < |CommitAll(host, st, best, n, listing, isFile, creds).puts| ==>
      var p := CommitAll(host, st, best, n, listing, isFile, creds).puts[i];
      p.0 in best.entries && best.entries[p.0] == p.1
  {
    if n > 0 {
      CommitPutsFromBest(host, st, best, n - 1, listing, isFile, creds);
      var s := CommitAll(host, st, best, n - 1, listing, isFile, creds);
      var key := best.keys[n - 1];
      CommitStepRecords(host, s, key, best.entries[key], listing, isFile, creds);
      var r := CommitStep(host, s, key, best.entries[key], listing, isFile, creds);
      assert forall i :: 0 <= i < |s.puts| ==> r.puts[i] == s.puts[i];
    }
  }

  // ---------------------------------------------------------------------
  // The controller
  // ---------------------------------------------------------------------

  /** What one sync_servers call ended with. */
  datatype SyncOutcome =
    | Exit(status: int)                      // sys.exit
    | Crashed(error: Error)                  // an exception that is not caught
    | Synced(updated: bool, newConnections: nat)

  class NordNM {
    /** self.active_servers */
    var activeServers: Dict<Key, Record>
    /** Every map written to the active-servers file, in order. */
    var saves: seq<Dict<Key, Record>>
    const host: Host
    const policy: Policy

    predicate Valid()
      reads this
    {
      activeServers.Valid()
    }

    constructor(host: Host, policy: Policy, active: Dict<Key, Record>)
      requires active.Valid()
      ensures Valid()
      ensures this.host == host && this.policy == policy && activeServers == active && saves == []
    {
      this.host := host;
      this.policy := policy;
      activeServers := active;
      saves := [];
    }

    /** remove_active_connections: every connection of the map that exists
        is deleted, the key is dropped from the copy whatever the deletion
        returned, and the copy is saved after each key. */
    method RemoveActiveConnections() returns (removed: bool)
      requires Valid()
      modifies this, host
      ensures Valid()
      ensures removed <==> |old(activeServers.keys)| > 0
      ensures activeServers == Empty()
      ensures saves == old(saves) + RemovalSaves(old(activeServers), |old(activeServers.keys)|)
      ensures (host.connections, host.configs)
        == RemovalEffect(host, old(host.connections), old(host.configs), NamesOf(old(activeServers), |old(activeServers.keys)|))
      ensures host.files == old(host.files)
    {
      if activeServers.keys == [] {
        assert saves + RemovalSaves(activeServers, 0) == saves;
        return false;
      }
      var copy := RemoveEach(activeServers);
      activeServers := copy;
      return true;
    }

    /** The loop of remove_active_connections over the keys of original. */
    method RemoveEach(original: Dict<Key, Record>) returns (copy: Dict<Key, Record>)
      requires original.Valid()
      modifies this, host
      ensures copy == Empty()
      ensures saves == old(saves) + RemovalSaves(original, |original.keys|)
      ensures (host.connections, host.configs)
        == RemovalEffect(host, old(host.connections), old(host.configs), NamesOf(original, |original.keys|))
      ensures host.files == old(host.files)
    {
      var ks := original.keys;
      copy := original;
      assert DropFirst(original, 0) == original;
      var i := 0;
      while i < |ks|
        invariant 0 <= i <= |ks|
        invariant copy == DropFirst(original, i)
        invariant saves == old(saves) + RemovalSaves(original, i)
        invariant (host.connections, host.configs) == RemovalEffect(host, old(host.connections), old(host.configs), NamesOf(original, i))
        invariant host.files == old(host.files)
      {
        var name := original.entries[ks[i]].name;
        assert NamesOf(original, i + 1) == NamesOf(original, i) + [name];
        RemovalEffectSnoc(host, old(host.connections), old(host.configs), NamesOf(original, i), name);
        RemoveIfExists(name);
        copy := SaveWithout(original, i, copy, old(saves));
        i := i + 1;
      }
      DropAll(original);
    }

    /** if connection_exists(name): remove_connection(name) */
    method RemoveIfExists(name: string)
      modifies host
      ensures (host.connections, host.configs) == RemovalStep(host, old(host.connections), old(host.configs), name)
      ensures host.files == old(host.files)
    {
      if name in host.connections {
        var _ := host.RemoveConnection(name);
      }
    }

    /** del the next key of the copy, then save the copy. */
    method SaveWithout(original: Dict<Key, Record>, i: nat, copy: Dict<Key, Record>, ghost saves0: seq<Dict<Key, Record>>)
      returns (next: Dict<Key, Record>)
      requires original.Valid() && i < |original.keys| && copy == DropFirst(original, i)
      requires saves == saves0 + RemovalSaves(original, i)
      modifies this
      ensures next == DropFirst(original, i + 1) && next.Valid()
      ensures saves == saves0 + RemovalSaves(original, i + 1)
      ensures activeServers == old(activeServers)
    {
      DropFirstStep(original, i);
      next := copy.Delete(original.keys[i]);
      assert RemovalSaves(original, i + 1) == RemovalSaves(original, i) + [next];
      SnocAssoc(saves0, RemovalSaves(original, i), next);
      saves := saves + [next];
    }

    /** The commit loop of sync_servers over the benchmark result's keys, in order. */
    method CommitBestServers(best: Dict<Key, Record>, listing: seq<string>, isFile: set<string>,
                             creds: ImportSettings, updated0: bool)
      returns (updated: bool, newConnections: nat)
      requires Valid() && best.Valid()
      modifies this, host
      ensures Valid()
      ensures var r := CommitAll(host, Commit(old(host.connections), old(host.configs), [], updated0, 0),
                                 best, |best.keys|, listing, isFile, creds);
        && host.connections == r.conns && host.configs == r.cfgs
        && updated == r.updated && newConnections == r.newConnections
        && activeServers == Replay(old(activeServers), r.puts)
        && saves == old(saves) + Snapshots(old(activeServers), r.puts)
      ensures host.files == old(host.files)
    {
      updated := updated0;
      newConnections := 0;
      ghost var st0 := Commit(host.connections, host.configs, [], updated0, 0);
      ghost var puts: seq<(Key, Record)> := [];
      var i := 0;
      while i < |best.keys|
        invariant 0 <= i <= |best.keys|
        invariant CommitAll(host, st0, best, i, listing, isFile, creds)
          == Commit(host.connections, host.configs, puts, updated, newConnections)
        invariant activeServers == Replay(old(activeServers), puts)
        invariant saves == old(saves) + Snapshots(old(activeServers), puts)
        invariant host.files == old(host.files)
      {
        var key := best.keys[i];
        ghost var puts1 := CommitStep(host, Commit(host.connections, host.configs, puts, updated, newConnections),
                                      key, best.entries[key], listing, isFile, creds).puts;
        ghost var a0 := old(activeServers);
        updated, newConnections := CommitOne(key, best.entries[key], listing, isFile, creds, updated, newConnections, puts);
        if puts1 != puts {
          LogStep(old(saves), a0, puts, key, best.entries[key]);
        }
        puts := puts1;
        i := i + 1;
      }
    }

    /** One iteration of the commit loop: a connection that does not exist
        yet is imported when its configuration file is found; the key is
        stored and the map saved unless that import failed. */
    method CommitOne(key: Key, rec: Record, listing: seq<string>, isFile: set<string>, creds: ImportSettings,
                     updated0: bool, n0: nat, ghost puts0: seq<(Key, Record)>)
      returns (updated: bool, newConnections: nat)
      requires Valid()
      modifies this, host
      ensures Valid()
      ensures var r := CommitStep(host, Commit(old(host.connections), old(host.configs), puts0, updated0, n0),
                                  key, rec, listing, isFile, creds);
        && host.connections == r.conns && host.configs == r.cfgs
        && updated == r.updated && newConnections == r.newConnections
        && (r.puts == puts0 ==> activeServers == old(activeServers) && saves == old(saves))
        && (r.puts != puts0 ==>
              && r.puts == puts0 + [(key, rec)]
              && activeServers == old(activeServers).Put(key, rec)
              && saves == old(saves) + [activeServers])
      ensures host.files == old(host.files)
    {
      updated, newConnections := updated0, n0;
      var imported := true;
      var name := rec.name;
      if name !in host.connections {
        var filePath := GetOvpnPath(Some(listing), isFile, rec.domain, key.2);
        if filePath.Some? {
          var ok := host.ImportConnection(name, creds.username, creds.password, creds.dns, false);
          if ok {
            updated := true;
            newConnections := newConnections + 1;
          } else {
            imported := false;
          }
        }
      }
      if imported {
        activeServers := activeServers.Put(key, rec);
        saves := saves + [activeServers];
      }
    }

    /** sync_servers, given the download directory's listing (None when it
        is missing: os.listdir raises), the fetched server list (None when
        the request failed) and the benchmark result. */
    method SyncServers(preserveVpn: bool, killswitchPath: string, listing: Option<seq<string>>, isFile: set<string>,
                       serverList: Option<seq<Server>>, best: Dict<Key, Record>, creds: ImportSettings)
      returns (outcome: SyncOutcome)
      requires Valid() && best.Valid()
      modifies this, host
      ensures Valid()
      ensures listing.None? ==> outcome == Crashed(FileNotFound)
      ensures outcome.Exit? <==>
        listing.Some? && (listing.value == [] || !Truthy(serverList) || ValidServers(policy, serverList.value) == [])
      ensures outcome.Exit? ==> outcome.status == 1
      ensures outcome.Exit? || outcome.Crashed? ==>
        && activeServers == old(activeServers) && saves == old(saves)
        && host.connections == old(host.connections) && host.configs == old(host.configs)
        && host.files == old(host.files)
      ensures outcome.Synced? ==>
        && activeServers.Valid() && old(activeServers).Valid()
        && outcome.updated == (|old(activeServers.keys)| > 0 || AUTO_CONNECT_PATH !in old(host.files)
                               || AUTO_CONNECT_PATH !in host.removeFails || outcome.newConnections > 0)
      ensures outcome.Synced? && old(activeServers).Valid() ==>
        var rm := RemovalEffect(host, old(host.connections), old(host.configs),
                                NamesOf(old(activeServers), |old(activeServers.keys)|));
        var r := CommitAll(host, Commit(rm.0, rm.1, [], false, 0), best, |best.keys|, listing.value, isFile, creds);
        && activeServers == Replay(Empty(), r.puts)
        && saves == old(saves) + RemovalSaves(old(activeServers), |old(activeServers.keys)|) + Snapshots(Empty(), r.puts)
        && host.connections == r.conns && host.configs == r.cfgs
        && outcome.newConnections == r.newConnections
    {
      if listing.None? {
        return Crashed(FileNotFound);
      }
      if listing.value == [] {
        return Exit(1);
      }
      if !Truthy(serverList) {
        return Exit(1);
      }
      var valid := GetValidServers(policy, serverList.value);
      if valid == [] {
        return Exit(1);
      }
      if !preserveVpn {
        var _ := host.RemoveKillswitch(killswitchPath);
      }
      var updated := false;
      var removed := RemoveActiveConnections();
      if removed {
        updated := true;
      }
      var autoRemoved := host.RemoveAutoconnect();
      if autoRemoved {
        updated := true;
      }
      ghost var before := Commit(host.connections, host.configs, [], updated, 0);
      CommitCounts(host, before, best, |best.keys|, listing.value, isFile, creds);
      CommitIgnoresFlag(host, before.(updated := false), best, |best.keys|, listing.value, isFile, creds, updated);
      var n;
      updated, n := CommitBestServers(best, listing.value, isFile, creds, updated);
      return Synced(updated, n);
    }

    /** enable_auto_connect: the key is looked up with the country
        upper-cased; what get_interfaces raised inside set_auto_connect
        propagates. Once set_auto_connect has written the script (and the
        active VPNs have been disconnected) the code calls
        networkmanager.enable_connection, which that module does not
        define: the call raises AttributeError, so the method never
        reports success. */
    method EnableAutoConnect(countryCode: string, category: string, protocol: string,
                             interfaces: Result<Option<seq<string>>>) returns (r: Result<bool>)
      modifies host
      ensures var present := (Upper(countryCode), category, protocol) in activeServers.entries;
        r == if !present then Ok(false)
             else if interfaces.Raised? then Raised(interfaces.error)
             else if Truthy(interfaces.value) then Raised(AttributeError)
             else Ok(false)
      ensures host.files == if (Upper(countryCode), category, protocol) in activeServers.entries
                               && interfaces.Ok? && Truthy(interfaces.value)
                            then old(host.files) + {AUTO_CONNECT_PATH} else old(host.files)
      ensures host.connections == old(host.connections) && host.configs == old(host.configs)
    {
      var key := (Upper(countryCode), category, protocol);
      if key in activeServers.entries {
        var name := activeServers.entries[key].name;
        var autoSet := host.SetAutoConnect(name, interfaces);
        if autoSet.Raised? {
          return autoSet;
        }
        if autoSet.value {
          return Raised(AttributeError);
        }
      }
      return Ok(false);
    }
  }
}
