/** nordnm/importer.py: the second generation of the sync. The active
    connections are a list of names persisted after every import; the
    server filter only asks for a selected country and some OpenVPN
    transport. The benchmark result, the configuration directory's listing
    and the fetched server list are inputs; the pickle file is the `saves`
    log of the lists written to it. */
module Importer {
  import opened Basics
  import opened Text
  import opened Dicts
  import opened NordApi
  import opened NetworkManager
  import opened NordNM
  import Settings
  import Configuration

  // ---------------------------------------------------------------------
  // get_valid_servers
  // ---------------------------------------------------------------------

  /** The test of get_valid_servers: the country is selected (by the rule
      of country_is_selected, shared with nordnm.py) and the server offers
      OpenVPN over TCP or UDP. Categories and protocol settings play no part. */
  predicate IsCandidate(whitelist: Option<seq<string>>, blacklist: Option<seq<string>>, server: Server)
  {
    CountryIsSelected(whitelist, blacklist, server.flag) && (server.openvpnTcp || server.openvpnUdp)
  }

  /** The servers that pass, in their order. */
  function Candidates(whitelist: Option<seq<string>>, blacklist: Option<seq<string>>, servers: seq<Server>)
    : (r: seq<Server>)
    ensures IsSubsequence(r, servers)
    decreases |servers|
  {
    if servers == [] then []
    else
      var front := servers[..|servers| - 1];
      var last := servers[|servers| - 1];
      assert servers == front + [last];
      var keep := IsCandidate(whitelist, blacklist, last);
      SubsequenceStep(Candidates(whitelist, blacklist, front), front, last, keep);
      if keep then Candidates(whitelist, blacklist, front) + [last] else Candidates(whitelist, blacklist, front)
  }

  /** Every candidate is kept as often as the input holds it, every other server is dropped. */
  lemma {:induction false} CandidatesCount(whitelist: Option<seq<string>>, blacklist: Option<seq<string>>,
                                           servers: seq<Server>, x: Server)
    ensures Count(Candidates(whitelist, blacklist, servers), x)
            == if IsCandidate(whitelist, blacklist, x) then Count(servers, x) else 0
    decreases |servers|
  {
    if servers != [] {
      var front := servers[..|servers| - 1];
      var last := servers[|servers| - 1];
      assert servers == front + [last];
      CandidatesCount(whitelist, blacklist, front, x);
      CountAppend(front, last, x);
      if IsCandidate(whitelist, blacklist, last) {
        CountAppend(Candidates(whitelist, blacklist, front), last, x);
      }
    }
  }

  /** The filter of nordnm.py, with the same country lists, keeps no server
      that this filter drops: it only adds the protocol and category checks. */
  lemma StricterThanNordNM(policy: Policy, servers: seq<Server>, x: Server)
    requires x in ValidServers(policy, servers)
    ensures x in Candidates(policy.whitelist, policy.blacklist, servers)
  {
    ValidServersCount(policy, servers, x);
    CandidatesCount(policy.whitelist, policy.blacklist, servers, x);
  }

  // ---------------------------------------------------------------------
  // The commit loop of sync_servers
  // ---------------------------------------------------------------------

  /** The state the commit loop threads: the gateway, the active list, the
      lists written to the file, the updated flag and the new-connection count. */
  datatype Pass = Pass(
    conns: set<string>,
    cfgs: map<string, Config>,
    active: seq<string>,
    saves: seq<seq<string>>,
    updated: bool,
    newConnections: nat)

  /** One key of the loop. An empty record and a name already in the list
      are skipped; a name whose configuration file is missing is skipped
      with a warning; otherwise the connection is imported, and only a
      successful import appends the name and writes the list. */
  function PassStep(host: Host, st: Pass, key: Key, entry: Option<Record>, listing: seq<string>,
                    isFile: set<string>, creds: ImportSettings): Pass
  {
    if entry.None? || entry.value.name in st.active then st
    else
      var name := entry.value.name;
      match LastMatch(listing, isFile, entry.value.domain, key.2)
      case None => st
      case Some(_) =>
        var (ok, c, f) := host.ImportEffect(st.conns, st.cfgs, name, creds.username, creds.password, creds.dns, false);
        if ok then Pass(c, f, st.active + [name], st.saves + [st.active + [name]], true, st.newConnections + 1)
        else st.(conns := c, cfgs := f)
  }

  /** The loop over the first n keys of the benchmark result. */
  function PassAll(host: Host, st: Pass, best: Dict<Key, Option<Record>>, n: nat, listing: seq<string>,
                   isFile: set<string>, creds: ImportSettings): Pass
    requires best.Valid() && n <= |best.keys|
  {
    if n == 0 then st
    else
      var s := PassAll(host, st, best, n - 1, listing, isFile, creds);
      PassStep(host, s, best.keys[n - 1], best.entries[best.keys[n - 1]], listing, isFile, creds)
  }

  /** A failed import, or a missing configuration file, leaves the list, the
      file and the count as they were. */
  lemma PassStepSkips(host: Host, st: Pass, key: Key, rec: Record, listing: seq<string>,
                      isFile: set<string>, creds: ImportSettings)
    requires rec.name !in st.active
    requires LastMatch(listing, isFile, rec.domain, key.2).None?
          || !host.ImportEffect(st.conns, st.cfgs, rec.name, creds.username, creds.password, creds.dns, false).0
    ensures var r := PassStep(host, st, key, Some(rec), listing, isFile, creds);
      r.active == st.active && r.saves == st.saves && r.newConnections == st.newConnections && r.updated == st.updated
  {
  }

  /** One step either leaves the list, the file, the flag and the count as
      they were, or appends one new name, writes the list and counts it. */
  lemma PassStepShape(host: Host, st: Pass, key: Key, entry: Option<Record>, listing: seq<string>,
                      isFile: set<string>, creds: ImportSettings)
    ensures var r := PassStep(host, st, key, entry, listing, isFile, creds);
      || (r.active == st.active && r.saves == st.saves && r.newConnections == st.newConnections
          && r.updated == st.updated)
      || (entry.Some? && entry.value.name !in st.active && r.active == st.active + [entry.value.name]
          && r.saves == st.saves + [r.active] && r.newConnections == st.newConnections + 1 && r.updated)
  {
  }

  /** No element occurs twice. */
  predicate NoDuplicates(s: seq<string>)
  {
    forall i, j :: 0 <= i < j < |s| ==> s[i] != s[j]
  }

  /** The loop only appends to the list, one name per successful import,
      never a name already there; it writes the list right after each
      append, and the flag is raised by an import alone. */
  lemma {:induction false} PassAllSpec(host: Host, st: Pass, best: Dict<Key, Option<Record>>, n: nat,
                                       listing: seq<string>, isFile: set<string>, creds: ImportSettings)
    requires best.Valid() && n <= |best.keys|
    requires NoDuplicates(st.active)
    ensures var r := PassAll(host, st, best, n, listing, isFile, creds);
      && NoDuplicates(r.active)
      && |r.active| == |st.active| + (r.newConnections - st.newConnections)
      && r.newConnections >= st.newConnections
      && r.active[..|st.active|] == st.active
      && (r.updated <==> st.updated || r.newConnections > st.newConnections)
      && |r.saves| == |st.saves| + (r.newConnections - st.newConnections)
      && r.saves[..|st.saves|] == st.saves
      && (forall j :: |st.saves| <= j < |r.saves| ==> r.saves[j] == r.active[..|st.active| + (j - |st.saves|) + 1])
  {
    if n > 0 {
      PassAllSpec(host, st, best, n - 1, listing, isFile, creds);
      var s := PassAll(host, st, best, n - 1, listing, isFile, creds);
      var key := best.keys[n - 1];
      var r := PassStep(host, s, key, best.entries[key], listing, isFile, creds);
      PassStepShape(host, s, key, best.entries[key], listing, isFile, creds);
      if r.active != s.active {
        var name := best.entries[key].value.name;
        assert r.active[..|st.active|] == s.active[..|st.active|];
        assert r.saves[..|st.saves|] == s.saves[..|st.saves|];
        forall j | |st.saves| <= j < |r.saves|
          ensures r.saves[j] == r.active[..|st.active| + (j - |st.saves|) + 1]
        {
          if j < |s.saves| {
            assert r.active[..|st.active| + (j - |st.saves|) + 1] == s.active[..|st.active| + (j - |st.saves|) + 1];
          } else {
            assert r.active[..|r.active|] == r.active;
          }
        }
      }
    }
  }

  /** Every name the loop appends is the name of a record of the benchmark result. */
  lemma {:induction false} PassNamesFromBest(host: Host, st: Pass, best: Dict<Key, Option<Record>>, n: nat,
                                             listing: seq<string>, isFile: set<string>, creds: ImportSettings)
    requires best.Valid() && n <= |best.keys|
    ensures var r := PassAll(host, st, best, n, listing, isFile, creds);
      forall name :: name in r.active && name !in st.active ==>
        exists k :: k in best.entries && best.entries[k].Some? && best.entries[k].value.name == name
  {
    if n > 0 {
      PassNamesFromBest(host, st, best, n - 1, listing, isFile, creds);
      var key := best.keys[n - 1];
      assert key in best.entries;
    }
  }

  // ---------------------------------------------------------------------
  // The controller
  // ---------------------------------------------------------------------

  /** What run ended with: sys.exit, an uncaught exception, or a finished
      run that restarted NetworkManager or not. */
  datatype RunOutcome = RunExit(status: int) | RunCrashed(error: Error) | RunFinished(restarted: bool)

  class Importer {
    /** self.active_list */
    var activeList: seq<string>
    /** Every list written to the active-list file, in order. */
    var saves: seq<seq<string>>
    /** self.best_servers; a key that holds an empty dict is None. */
    var bestServers: Dict<Key, Option<Record>>
    /** What the settings file's country lists parsed to. */
    const whitelist: Option<seq<string>>
    const blacklist: Option<seq<string>>
    const host: Host
    /** self.config, which sync_servers reads the ping attempts through. */
    const config: Configuration.ConfigHandler

    predicate Valid()
      reads this
    {
      bestServers.Valid()
    }

    /** setup: the lists come from the settings, the active list from its
        file, and best_servers starts empty. */
    constructor(host: Host, config: Configuration.ConfigHandler,
                whitelist: Option<seq<string>>, blacklist: Option<seq<string>>, active: seq<string>)
      ensures Valid()
      ensures this.host == host && this.config == config
      ensures this.whitelist == whitelist && this.blacklist == blacklist
      ensures activeList == active && saves == [] && bestServers == Empty()
    {
      this.host := host;
      this.config := config;
      this.whitelist := whitelist;
      this.blacklist := blacklist;
      activeList := active;
      saves := [];
      bestServers := Empty();
    }

    /** get_valid_servers: None when the list could not be fetched (or was empty). */
    method GetValidServers(serverList: Option<seq<Server>>) returns (r: Option<seq<Server>>)
      ensures r.None? <==> !Truthy(serverList)
      ensures r.Some? ==> r.value == Candidates(whitelist, blacklist, serverList.value)
    {
      if !Truthy(serverList) {
        return None;
      }
      var servers := serverList.value;
      var valid := [];
      var i := 0;
      while i < |servers|
        invariant 0 <= i <= |servers|
        invariant valid == Candidates(whitelist, blacklist, servers[..i])
      {
        assert servers[..i + 1][..i] == servers[..i];
        var server := servers[i];
        if CountryIsSelected(whitelist, blacklist, server.flag) && (server.openvpnTcp || server.openvpnUdp) {
          valid := valid + [server];
        }
        i := i + 1;
      }
      assert servers[..i] == servers;
      return Some(valid);
    }

    /** purge_active_connections: the auto-connect script goes first when
        asked; every listed connection is then deleted (a failed deletion is
        only logged) and the emptied list is written once. It returns True
        when the list was non-empty, None (false) otherwise. */
    method PurgeActiveConnections(removeAutoconnect: bool) returns (purged: bool)
      modifies this, host
      ensures purged <==> old(activeList) != []
      ensures activeList == []
      ensures saves == if purged then old(saves) + [[]] else old(saves)
      ensures (host.connections, host.configs)
              == RemovalEffect(host, old(host.connections), old(host.configs), old(activeList))
      ensures host.files == if removeAutoconnect && (AUTO_CONNECT_PATH !in host.removeFails)
                            then old(host.files) - {AUTO_CONNECT_PATH} else old(host.files)
      ensures bestServers == old(bestServers)
    {
      if removeAutoconnect {
        var _ := host.RemoveAutoconnect();
      }
      if activeList == [] {
        return false;
      }
      var names := activeList;
      var i := 0;
      while i < |names|
        invariant 0 <= i <= |names|
        invariant (host.connections, host.configs)
                  == RemovalEffect(host, old(host.connections), old(host.configs), names[..i])
        invariant host.files == if removeAutoconnect && (AUTO_CONNECT_PATH !in host.removeFails)
                                then old(host.files) - {AUTO_CONNECT_PATH} else old(host.files)
        invariant activeList == names && saves == old(saves) && bestServers == old(bestServers)
      {
        assert names[..i + 1][..i] == names[..i];
        var _ := host.RemoveConnection(names[i]);
        i := i + 1;
      }
      assert names[..i] == names;
      activeList := [];
      saves := saves + [activeList];
      return true;
    }

    /** The commit loop of sync_servers over the benchmark result's keys. */
    method CommitBestServers(listing: seq<string>, isFile: set<string>, creds: ImportSettings, updated0: bool)
      returns (updated: bool, newConnections: nat)
      requires Valid()
      modifies this, host
      ensures Valid() && bestServers == old(bestServers)
      ensures var r := PassAll(host, Pass(old(host.connections), old(host.configs), old(activeList), old(saves), updated0, 0),
                               bestServers, |bestServers.keys|, listing, isFile, creds);
        && host.connections == r.conns && host.configs == r.cfgs
        && activeList == r.active && saves == r.saves
        && updated == r.updated && newConnections == r.newConnections
      ensures host.files == old(host.files)
    {
      updated, newConnections := updated0, 0;
      ghost var st0 := Pass(host.connections, host.configs, activeList, saves, updated0, 0);
      var keys := bestServers.keys;
      var i := 0;
      while i < |keys|
        invariant 0 <= i <= |keys| && keys == bestServers.keys && bestServers == old(bestServers)
        invariant PassAll(host, st0, bestServers, i, listing, isFile, creds)
                  == Pass(host.connections, host.configs, activeList, saves, updated, newConnections)
        invariant host.files == old(host.files)
      {
        var key := keys[i];
        var entry := bestServers.entries[key];
        if entry.Some? && entry.value.name !in activeList {
          var rec := entry.value;
          var filePath := GetOvpnPath(Some(listing), isFile, rec.domain, key.2);
          if filePath.Some? {
            var ok := host.ImportConnection(rec.name, creds.username, creds.password, creds.dns, false);
            if ok {
              updated := true;
              newConnections := newConnections + 1;
              activeList := activeList + [rec.name];
              saves := saves + [activeList];
            }
          }
        }
        i := i + 1;
      }
    }

    /** sync_servers, given the configuration directory's listing, the
        fetched server list (None when the request failed), the output of
        the active-connection listing and the benchmark result.
        disconnect_active_vpn is handed the active list, whose missing
        values() raises an AttributeError that the function catches before
        any VPN is taken down; only a failed listing escapes, as the
        AttributeError of its handler. */
    method SyncServers(listing: seq<string>, isFile: set<string>, serverList: Option<seq<Server>>,
                       activeVpns: CommandOutput, best: Dict<Key, Option<Record>>, creds: ImportSettings)
      returns (outcome: SyncOutcome)
      requires Valid() && best.Valid()
      modifies this, host, config
      ensures Valid()
      ensures outcome.Exit? <==>
        listing == [] || !Truthy(serverList) || Candidates(whitelist, blacklist, serverList.value) == []
      ensures outcome.Exit? ==> outcome.status == 1
      ensures outcome.Crashed? <==>
        && !outcome.Exit?
        && (activeVpns.Failed? || (Settings.StoredPingAttempts(old(config.config)).None? && "Benchmarking" !in old(config.config)))
      ensures outcome.Crashed? ==> outcome.error == if activeVpns.Failed? then AttributeError else NoSectionError
      ensures outcome.Exit? || outcome.Crashed? ==>
        && activeList == old(activeList) && saves == old(saves) && bestServers == old(bestServers)
        && host.connections == old(host.connections) && host.configs == old(host.configs)
        && host.files == old(host.files) && config.config == old(config.config)
      ensures outcome.Synced? ==>
        config.config == if Settings.StoredPingAttempts(old(config.config)).Some? then old(config.config)
                         else Settings.WithDefaultPingAttempts(old(config.config))
      ensures config.saves == old(config.saves)
      ensures outcome.Synced? ==>
        var r := PassAll(host, Pass(RemovalEffect(host, old(host.connections), old(host.configs), old(activeList)).0,
                                    RemovalEffect(host, old(host.connections), old(host.configs), old(activeList)).1,
                                    [], old(saves) + (if old(activeList) != [] then [[]] else []),
                                    old(activeList) != [], 0),
                         best, |best.keys|, listing, isFile, creds);
        && bestServers == best
        && activeList == r.active && saves == r.saves
        && host.connections == r.conns && host.configs == r.cfgs
        && outcome.newConnections == r.newConnections
        && outcome.updated == r.updated
      ensures outcome.Synced? ==>
        && NoDuplicates(activeList) && outcome.newConnections == |activeList|
        && (outcome.updated <==> old(activeList) != [] || activeList != [])
    {
      if listing == [] {
        return Exit(1);
      }
      var valid := GetValidServers(serverList);
      if valid.None? || valid.value == [] {
        return Exit(1);
      }
      if activeVpns.Failed? {
        return Crashed(AttributeError);
      }
      var pingAttempts := config.GetPingAttempts();
      if pingAttempts.Raised? {
        return Crashed(pingAttempts.error);
      }
      bestServers := best;
      ghost var removal := RemovalEffect(host, host.connections, host.configs, activeList);
      ghost var saves0 := saves + (if activeList != [] then [[]] else []);
      assert activeList == [] ==> saves0 == saves;
      var updated := PurgeActiveConnections(true);
      ghost var st := Pass(host.connections, host.configs, activeList, saves, updated, 0);
      assert st == Pass(removal.0, removal.1, [], saves0, old(activeList) != [], 0);
      PassAllSpec(host, st, best, |best.keys|, listing, isFile, creds);
      var n;
      updated, n := CommitBestServers(listing, isFile, creds, updated);
      return Synced(updated, n);
    }

    /** select_auto_connect: the key is looked up with the country
        upper-cased; an auto-connect script is written for a key that is
        present (set_auto_connect's own result is ignored, what it raises
        propagates), and a key that holds an empty record raises KeyError
        on its name. */
    method SelectAutoConnect(countryCode: string, category: string, protocol: string,
                             interfaces: Result<Option<seq<string>>>) returns (r: Result<bool>)
      requires Valid()
      modifies host
      ensures var key := (Upper(countryCode), category, protocol);
        && (r.Raised? <==> key in bestServers.entries && (bestServers.entries[key].None? || interfaces.Raised?))
        && (r.Raised? ==> r.error == if bestServers.entries[key].None? then KeyError else interfaces.error)
        && (r.Ok? ==> (r.value <==> key in bestServers.entries))
        && host.files == if r == Ok(true) && interfaces.Ok? && Truthy(interfaces.value)
                         then old(host.files) + {AUTO_CONNECT_PATH}
                         else old(host.files)
      ensures host.connections == old(host.connections) && host.configs == old(host.configs)
    {
      var key := (Upper(countryCode), category, protocol);
      if key !in bestServers.entries {
        return Ok(false);
      }
      var entry := bestServers.entries[key];
      if entry.None? {
        return Raised(KeyError);
      }
      var autoSet := host.SetAutoConnect(entry.value.name, interfaces);
      if autoSet.Raised? {
        return autoSet;
      }
      return Ok(true);
    }

    /** run: downloading the configurations is not modelled. A sync takes
        precedence over a purge; an auto-connect request overwrites the
        flag with its own result; NetworkManager is restarted exactly when
        the final flag is set. */
    method Run(sync: bool, purge: bool, autoConnect: Option<(string, string, string)>,
               listing: seq<string>, isFile: set<string>, serverList: Option<seq<Server>>, activeVpns: CommandOutput,
               best: Dict<Key, Option<Record>>, creds: ImportSettings, interfaces: Result<Option<seq<string>>>)
      returns (outcome: RunOutcome)
      requires Valid() && best.Valid()
      modifies this, host, config
      ensures Valid()
      ensures sync && (listing == [] || !Truthy(serverList) || Candidates(whitelist, blacklist, serverList.value) == [])
              ==> outcome == RunExit(1)
      ensures !sync && purge ==> activeList == [] && bestServers == old(bestServers)
      ensures !sync && !purge ==> activeList == old(activeList) && saves == old(saves) && bestServers == old(bestServers)
      ensures outcome.RunFinished? && autoConnect.None? ==>
        outcome.restarted == (if sync then old(activeList) != [] || activeList != []
                              else purge && old(activeList) != [])
      ensures outcome.RunFinished? && autoConnect.Some? ==>
        outcome.restarted == ((Upper(autoConnect.value.0), autoConnect.value.1, autoConnect.value.2) in bestServers.entries)
      ensures (sync && activeVpns.Failed? && outcome != RunExit(1)) ==> outcome == RunCrashed(AttributeError)
      ensures (sync && Settings.StoredPingAttempts(old(config.config)).None? && "Benchmarking" !in old(config.config)
               && outcome != RunExit(1)) ==> outcome.RunCrashed?
      ensures outcome.RunCrashed? ==>
        || (sync && (outcome.error == NoSectionError || outcome.error == AttributeError))
        || (autoConnect.Some? && (outcome.error == KeyError || (interfaces.Raised? && outcome.error == interfaces.error)))
    {
      var updated := false;
      if sync {
        var r := SyncServers(listing, isFile, serverList, activeVpns, best, creds);
        if r.Exit? {
          return RunExit(r.status);
        }
        if r.Crashed? {
          return RunCrashed(r.error);
        }
        updated := r.updated;
      } else if purge {
        updated := PurgeActiveConnections(true);
      }
      if autoConnect.Some? {
        var (country, category, protocol) := autoConnect.value;
        var selected := SelectAutoConnect(country, category, protocol, interfaces);
        if selected.Raised? {
          return RunCrashed(selected.error);
        }
        updated := selected.value;
      }
      return RunFinished(updated);
    }
  }
}
