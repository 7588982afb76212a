/** nordnm/nordmanager.py: the newest controller. It keeps the active
    servers in a cached property over a pickled file, selects servers with
    its own country rule, and rebuilds the active map from the benchmark
    result. Its generate_connection_name is the same code as the one of
    nordnm/nordnm.py and is modelled by NordNM.GenerateConnectionName. */
module NordManager {
  import opened Basics
  import opened Text
  import opened Dicts
  import opened NordApi
  import opened NetworkManager
  import opened NordNM

  // ---------------------------------------------------------------------
  // is_valid_server
  // ---------------------------------------------------------------------

  /** server_has_valid_country as written: once the whitelist is non-empty
      any non-empty code passes; the whitelist is never searched. */
  predicate HasValidCountry(whitelist: Option<seq<string>>, blacklist: Option<seq<string>>, code: string)
  {
    if !Truthy(blacklist) && !Truthy(whitelist) then true
    else if Truthy(whitelist) && code != "" && Truthy(whitelist) then true
    else if !Truthy(whitelist) && Truthy(blacklist) && code !in blacklist.value then true
    else false
  }

  /** The cases of the rule: no lists admits everything, a whitelist admits
      every non-empty code, a blacklist alone admits the codes it lacks. */
  lemma HasValidCountryCases(whitelist: Option<seq<string>>, blacklist: Option<seq<string>>, code: string)
    ensures !Truthy(whitelist) && !Truthy(blacklist) ==> HasValidCountry(whitelist, blacklist, code)
    ensures Truthy(whitelist) ==> (HasValidCountry(whitelist, blacklist, code) <==> code != "")
    ensures !Truthy(whitelist) && Truthy(blacklist) ==>
      (HasValidCountry(whitelist, blacklist, code) <==> code !in blacklist.value)
  {
  }

  /** Where this rule and country_is_selected of nordnm.py part: a code
      missing from a non-empty whitelist passes here and not there. */
  lemma WhitelistNotSearched(whitelist: Option<seq<string>>, blacklist: Option<seq<string>>, code: string)
    requires Truthy(whitelist) && code != "" && code !in whitelist.value
    ensures HasValidCountry(whitelist, blacklist, code)
    ensures !CountryIsSelected(whitelist, blacklist, code)
  {
  }

  /** is_valid_server: country, then protocol, then categories. */
  predicate ServerIsValid(policy: Policy, server: Server)
  {
    && HasValidCountry(policy.whitelist, policy.blacklist, server.flag)
    && HasValidProtocol(server, policy.protocols)
    && HasValidCategories(server, policy.categories)
  }

  /** [s for s in server_list if self.is_valid_server(s)] */
  function FilterValid(policy: Policy, servers: seq<Server>): (r: seq<Server>)
    ensures IsSubsequence(r, servers)
    decreases |servers|
  {
    if servers == [] then []
    else
      var front := servers[..|servers| - 1];
      var last := servers[|servers| - 1];
      assert servers == front + [last];
      SubsequenceStep(FilterValid(policy, front), front, last, ServerIsValid(policy, last));
      if ServerIsValid(policy, last) then FilterValid(policy, front) + [last] else FilterValid(policy, front)
  }

  /** Every valid server is kept as often as the input holds it, every other one is dropped. */
  lemma {:induction false} FilterValidCount(policy: Policy, servers: seq<Server>, x: Server)
    ensures Count(FilterValid(policy, servers), x) == if ServerIsValid(policy, x) then Count(servers, x) else 0
    decreases |servers|
  {
    if servers != [] {
      var front := servers[..|servers| - 1];
      var last := servers[|servers| - 1];
      assert servers == front + [last];
      FilterValidCount(policy, front, x);
      CountAppend(front, last, x);
      if ServerIsValid(policy, last) {
        CountAppend(FilterValid(policy, front), last, x);
      }
    }
  }

  // ---------------------------------------------------------------------
  // get_ovpn_path
  // ---------------------------------------------------------------------

  /** The glob pattern domain + '.' + protocol + '*.ovpn' for a domain and
      protocol without glob characters. */
  predicate GlobMatches(f: string, domain: string, protocol: string)
  {
    var prefix := domain + "." + protocol;
    && |prefix| + |".ovpn"| <= |f|
    && StartsWith(f, prefix)
    && EndsWith(f, ".ovpn")
  }

  /** get_ovpn_path: the first name the glob lists, or None. */
  function FirstConfig(files: seq<string>, domain: string, protocol: string): Option<string>
    decreases |files|
  {
    if files == [] then None
    else if GlobMatches(files[0], domain, protocol) then Some(files[0])
    else FirstConfig(files[1..], domain, protocol)
  }

  /** None exactly when no listed name matches; otherwise the first match. */
  lemma {:induction false} FirstConfigSpec(files: seq<string>, domain: string, protocol: string)
    ensures var r := FirstConfig(files, domain, protocol);
      && (r.None? <==> forall i :: 0 <= i < |files| ==> !GlobMatches(files[i], domain, protocol))
      && (r.Some? ==>
            exists i :: 0 <= i < |files| && files[i] == r.value && GlobMatches(files[i], domain, protocol)
                        && forall j :: 0 <= j < i ==> !GlobMatches(files[j], domain, protocol))
    decreases |files|
  {
    if files != [] && !GlobMatches(files[0], domain, protocol) {
      FirstConfigSpec(files[1..], domain, protocol);
      var r := FirstConfig(files[1..], domain, protocol);
      assert forall i :: 1 <= i < |files| ==> files[i] == files[1..][i - 1];
      if r.Some? {
        var i :| 0 <= i < |files[1..]| && files[1..][i] == r.value && GlobMatches(files[1..][i], domain, protocol)
                 && forall j :: 0 <= j < i ==> !GlobMatches(files[1..][j], domain, protocol);
        assert files[i + 1] == r.value;
      }
    }
  }

  // ---------------------------------------------------------------------
  // The commit loop of sync_servers
  // ---------------------------------------------------------------------

  /** The state of the commit loop: the gateway's connections and the pairs
      put into new_servers so far, in order. The keyfiles are followed
      separately, by StagedConfigs. */
  datatype Staged = Staged(conns: set<string>, puts: seq<(Key, Record)>)

  /** The connections after an import: the name is added unless the import fails. */
  function ConnectionsAfterImport(host: Host, conns: set<string>, name: string): set<string>
  {
    if name in host.copyFails || name in host.importFails then conns else conns + {name}
  }

  /** One iteration: an existing connection is kept; a missing configuration
      file skips the key; otherwise the connection is imported and the key
      kept whatever the import returned. */
  function StageStep(host: Host, st: Staged, key: Key, rec: Record, configFiles: seq<string>): Staged
  {
    if rec.name in st.conns then st.(puts := st.puts + [(key, rec)])
    else
      match FirstConfig(configFiles, rec.domain, key.2)
      case None => st
      case Some(_) => Staged(ConnectionsAfterImport(host, st.conns, rec.name), st.puts + [(key, rec)])
  }

  /** The commit loop over the first n keys of the benchmark result, from the
      connections c. */
  function StageAll(host: Host, c: set<string>, best: Dict<Key, Record>, n: nat, configFiles: seq<string>): Staged
    requires best.Valid() && n <= |best.keys|
  {
    if n == 0 then Staged(c, [])
    else
      var s := StageAll(host, c, best, n - 1, configFiles);
      StageStep(host, s, best.keys[n - 1], best.entries[best.keys[n - 1]], configFiles)
  }

  /** The keyfiles after the first n iterations, from the keyfiles f: each
      import edits them as ImportEffect says, without IPv6. */
  function StagedConfigs(host: Host, c: set<string>, f: map<string, Config>, best: Dict<Key, Record>, n: nat,
                         configFiles: seq<string>, creds: ImportSettings): map<string, Config>
    requires best.Valid() && n <= |best.keys|
  {
    if n == 0 then f
    else
      var s := StageAll(host, c, best, n - 1, configFiles);
      var key := best.keys[n - 1];
      var rec := best.entries[key];
      var cf := StagedConfigs(host, c, f, best, n - 1, configFiles, creds);
      if rec.name in s.conns || FirstConfig(configFiles, rec.domain, key.2).None? then cf
      else host.ImportEffect(s.conns, cf, rec.name, creds.username, creds.password, creds.dns, false).2
  }

  /** Iteration i of the loop in terms of the state the first i iterations left. */
  lemma StagedNext(host: Host, c: set<string>, f: map<string, Config>, best: Dict<Key, Record>, i: nat,
                   configFiles: seq<string>, creds: ImportSettings)
    requires best.Valid() && i < |best.keys|
    ensures var s := StageAll(host, c, best, i, configFiles);
      var key := best.keys[i];
      var rec := best.entries[key];
      var cf := StagedConfigs(host, c, f, best, i, configFiles, creds);
      && StageAll(host, c, best, i + 1, configFiles) == StageStep(host, s, key, rec, configFiles)
      && StagedConfigs(host, c, f, best, i + 1, configFiles, creds)
         == if rec.name in s.conns || FirstConfig(configFiles, rec.domain, key.2).None? then cf
            else host.ImportEffect(s.conns, cf, rec.name, creds.username, creds.password, creds.dns, false).2
  {
  }

  /** A key is kept exactly when its connection exists or a configuration
      file is found; the result of the import plays no part. */
  lemma StageStepRecords(host: Host, st: Staged, key: Key, rec: Record, configFiles: seq<string>)
    ensures var r := StageStep(host, st, key, rec, configFiles);
      && r.puts == (if rec.name in st.conns || FirstConfig(configFiles, rec.domain, key.2).Some?
                    then st.puts + [(key, rec)] else st.puts)
      && st.conns <= r.conns
      && (rec.name in st.conns || FirstConfig(configFiles, rec.domain, key.2).None? ==> r.conns == st.conns)
  {
  }

  /** Step n of the loop: key n - 1 is put exactly when its connection
      exists or its configuration file is found. */
  lemma StageAllStep(host: Host, c: set<string>, best: Dict<Key, Record>, n: nat, configFiles: seq<string>)
    requires best.Valid() && 0 < n <= |best.keys|
    ensures var s := StageAll(host, c, best, n - 1, configFiles);
      var r := StageAll(host, c, best, n, configFiles);
      var key := best.keys[n - 1];
      var rec := best.entries[key];
      && r.puts == (if rec.name in s.conns || FirstConfig(configFiles, rec.domain, key.2).Some?
                    then s.puts + [(key, rec)] else s.puts)
      && s.conns <= r.conns
  {
    var s := StageAll(host, c, best, n - 1, configFiles);
    StageStepRecords(host, s, best.keys[n - 1], best.entries[best.keys[n - 1]], configFiles);
  }

  /** A put at the end of the sequence is the last put into the map. */
  lemma ReplayAppend(a: Dict<Key, Record>, puts: seq<(Key, Record)>, key: Key, rec: Record)
    requires a.Valid()
    ensures Replay(a, puts + [(key, rec)]) == Replay(a, puts).Put(key, rec)
  {
    assert (puts + [(key, rec)])[..|puts|] == puts;
  }

  /** From step m to step n the loop only appends, each new pair is the key
      of one of those steps with its record, and no connection goes. */
  lemma {:induction false} LaterPuts(host: Host, c: set<string>, best: Dict<Key, Record>, configFiles: seq<string>,
                                     m: nat, n: nat)
    requires best.Valid() && m <= n <= |best.keys|
    ensures var p := StageAll(host, c, best, m, configFiles);
      var q := StageAll(host, c, best, n, configFiles);
      && |p.puts| <= |q.puts| <= |p.puts| + (n - m)
      && q.puts[..|p.puts|] == p.puts
      && (forall j :: |p.puts| <= j < |q.puts| ==> q.puts[j].0 in best.keys[m..n] && q.puts[j].1 == best.entries[q.puts[j].0])
      && p.conns <= q.conns
  {
    if m < n {
      LaterPuts(host, c, best, configFiles, m, n - 1);
      StageAllStep(host, c, best, n, configFiles);
      PutsStep(best, m, n, StageAll(host, c, best, m, configFiles).puts, StageAll(host, c, best, n - 1, configFiles).puts,
               StageAll(host, c, best, n, configFiles).puts);
    }
  }

  /** One step of LaterPuts on the sequences alone. */
  lemma PutsStep(best: Dict<Key, Record>, m: nat, n: nat, p: seq<(Key, Record)>, q0: seq<(Key, Record)>,
                 q: seq<(Key, Record)>)
    requires best.Valid() && m < n <= |best.keys|
    requires |p| <= |q0| <= |p| + (n - 1 - m) && q0[..|p|] == p
    requires forall j :: |p| <= j < |q0| ==> q0[j].0 in best.keys[m..n - 1] && q0[j].1 == best.entries[q0[j].0]
    requires q == q0 || q == q0 + [(best.keys[n - 1], best.entries[best.keys[n - 1]])]
    ensures |p| <= |q| <= |p| + (n - m) && q[..|p|] == p
    ensures forall j :: |p| <= j < |q| ==> q[j].0 in best.keys[m..n] && q[j].1 == best.entries[q[j].0]
  {
    assert forall x :: x in best.keys[m..n - 1] ==> x in best.keys[m..n];
    assert best.keys[m..n][n - 1 - m] == best.keys[n - 1];
    if q != q0 {
      assert q[..|q0|] == q0;
      assert q[..|p|] == q0[..|p|];
      assert forall j :: |p| <= j < |q0| ==> q[j] == q0[j];
    }
  }

  /** Puts of other keys after the prefix p do not change whether k is in the map. */
  lemma {:induction false} ReplayIgnores(p: seq<(Key, Record)>, q: seq<(Key, Record)>, k: Key)
    requires |p| <= |q| && q[..|p|] == p
    requires forall j :: |p| <= j < |q| ==> q[j].0 != k
    ensures k in Replay(Empty(), q).entries <==> k in Replay(Empty(), p).entries
    decreases |q|
  {
    if |q| > |p| {
      var front := q[..|q| - 1];
      assert front[..|p|] == p;
      ReplayIgnores(p, front, k);
    } else {
      assert q == p;
    }
  }

  /** A map built only from the first m keys of the benchmark result with
      their records holds nothing else. */
  lemma {:induction false} ReplayFromBest(q: seq<(Key, Record)>, best: Dict<Key, Record>, m: nat)
    requires best.Valid() && m <= |best.keys|
    requires forall j :: 0 <= j < |q| ==> q[j].0 in best.keys[..m] && q[j].1 == best.entries[q[j].0]
    ensures forall k :: k in Replay(Empty(), q).entries ==>
      k in best.keys[..m] && Replay(Empty(), q).entries[k] == best.entries[k]
    decreases |q|
  {
    if q != [] {
      var front := q[..|q| - 1];
      assert forall j :: 0 <= j < |front| ==> front[j] == q[j];
      ReplayFromBest(front, best, m);
    }
  }

  /** After the first m steps new_servers holds only keys among the first
      m keys of the benchmark result, each with its record from there, and
      no connection has gone. */
  lemma StagedFromBest(host: Host, c: set<string>, best: Dict<Key, Record>, m: nat, configFiles: seq<string>)
    requires best.Valid() && m <= |best.keys|
    ensures var r := StageAll(host, c, best, m, configFiles);
      && |r.puts| <= m
      && c <= r.conns
      && forall k :: k in Replay(Empty(), r.puts).entries ==>
           k in best.keys[..m] && Replay(Empty(), r.puts).entries[k] == best.entries[k]
  {
    LaterPuts(host, c, best, configFiles, 0, m);
    assert best.keys[0..m] == best.keys[..m];
    ReplayFromBest(StageAll(host, c, best, m, configFiles).puts, best, m);
  }

  /** The last key is not among the keys before it. */
  lemma LastKeyIsNew(best: Dict<Key, Record>, n: nat, x: Key)
    requires best.Valid() && 0 < n <= |best.keys| && x in best.keys[..n - 1]
    ensures x != best.keys[n - 1]
  {
    var q :| 0 <= q < n - 1 && best.keys[..n - 1][q] == x;
    assert best.keys[q] == x;
    DistinctSpec(best.keys);
  }

  /** Key m - 1 is not in new_servers before step m. */
  lemma LastKeyNotYetIn(host: Host, c: set<string>, best: Dict<Key, Record>, m: nat, configFiles: seq<string>)
    requires best.Valid() && 0 < m <= |best.keys|
    ensures best.keys[m - 1] !in Replay(Empty(), StageAll(host, c, best, m - 1, configFiles).puts).entries
  {
    var key := best.keys[m - 1];
    var added := Replay(Empty(), StageAll(host, c, best, m - 1, configFiles).puts);
    StagedFromBest(host, c, best, m - 1, configFiles);
    if key in added.entries {
      assert key in best.keys[..m - 1];
      LastKeyIsNew(best, m, key);
    }
  }

  /** Key i is in new_servers after its own step exactly when its
      connection existed then or its configuration file was found. */
  lemma StagedAt(host: Host, c: set<string>, best: Dict<Key, Record>, configFiles: seq<string>, i: nat)
    requires best.Valid() && i < |best.keys|
    ensures var key := best.keys[i];
      key in Replay(Empty(), StageAll(host, c, best, i + 1, configFiles).puts).entries
      <==> best.entries[key].name in StageAll(host, c, best, i, configFiles).conns
           || FirstConfig(configFiles, best.entries[key].domain, key.2).Some?
  {
    var key := best.keys[i];
    var before := StageAll(host, c, best, i, configFiles).puts;
    var after := StageAll(host, c, best, i + 1, configFiles).puts;
    StageAllStep(host, c, best, i + 1, configFiles);
    LastKeyNotYetIn(host, c, best, i + 1, configFiles);
    if after != before {
      ReplayAppend(Empty(), before, key, best.entries[key]);
    }
  }

  /** The later steps leave key i where its own step put it (or not). */
  lemma StagedStable(host: Host, c: set<string>, best: Dict<Key, Record>, configFiles: seq<string>, i: nat, n: nat)
    requires best.Valid() && i < n <= |best.keys|
    ensures best.keys[i] in Replay(Empty(), StageAll(host, c, best, n, configFiles).puts).entries
            <==> best.keys[i] in Replay(Empty(), StageAll(host, c, best, i + 1, configFiles).puts).entries
  {
    LaterPuts(host, c, best, configFiles, i + 1, n);
    var p := StageAll(host, c, best, i + 1, configFiles).puts;
    var q := StageAll(host, c, best, n, configFiles).puts;
    DistinctSpec(best.keys);
    forall j | |p| <= j < |q|
      ensures q[j].0 != best.keys[i]
    {
      var t :| 0 <= t < n - (i + 1) && best.keys[i + 1..n][t] == q[j].0;
      assert best.keys[i + 1 + t] == q[j].0;
    }
    ReplayIgnores(p, q, best.keys[i]);
  }

  /** Key i of the benchmark result ends up in new_servers exactly when its
      connection existed at that point of the loop or its configuration file
      was found. */
  lemma StagedIncludes(host: Host, c: set<string>, best: Dict<Key, Record>, n: nat,
                       configFiles: seq<string>, i: nat)
    requires best.Valid() && i < n <= |best.keys|
    ensures var key := best.keys[i];
      var before := StageAll(host, c, best, i, configFiles);
      key in Replay(Empty(), StageAll(host, c, best, n, configFiles).puts).entries
      <==> best.entries[key].name in before.conns || FirstConfig(configFiles, best.entries[key].domain, key.2).Some?
  {
    StagedAt(host, c, best, configFiles, i);
    StagedStable(host, c, best, configFiles, i, n);
  }

  /** A connection that did not exist is kept once its file is found, even
      when its import failed and the gateway has no such connection. */
  lemma FailedImportStillKept(host: Host, st: Staged, key: Key, rec: Record, configFiles: seq<string>)
    requires rec.name !in st.conns && FirstConfig(configFiles, rec.domain, key.2).Some?
    requires rec.name in host.copyFails || rec.name in host.importFails
    ensures StageStep(host, st, key, rec, configFiles).puts == st.puts + [(key, rec)]
    ensures rec.name !in StageStep(host, st, key, rec, configFiles).conns
  {
  }

  // ---------------------------------------------------------------------
  // The controller
  // ---------------------------------------------------------------------

  /** sync_servers ends with sys.exit or returns None. */
  datatype ManagerOutcome = ManagerExit(status: int) | ManagerDone

  /** Python truthiness of the cached dict. */
  predicate TruthyDict(d: Option<Dict<Key, Record>>)
  {
    d.Some? && |d.value.keys| > 0
  }

  class Manager {
    /** self._active_servers */
    var cache: Option<Dict<Key, Record>>
    /** The pickled active-servers file; None while it does not exist. */
    var storage: Option<Dict<Key, Record>>
    /** Every map written to that file, in order. */
    var saves: seq<Dict<Key, Record>>
    /** self._config_info */
    var configInfoCache: Option<string>
    /** The config-info file; None while it does not exist. */
    var configInfoFile: Option<string>
    const host: Host
    const policy: Policy

    predicate Valid()
      reads this
    {
      && (cache.Some? ==> cache.value.Valid())
      && (storage.Some? ==> storage.value.Valid())
    }

    constructor(host: Host, policy: Policy, storage: Option<Dict<Key, Record>>, configInfoFile: Option<string>)
      requires storage.Some? ==> storage.value.Valid()
      ensures Valid()
      ensures this.host == host && this.policy == policy
      ensures this.storage == storage && this.configInfoFile == configInfoFile
      ensures cache == None && configInfoCache == None && saves == []
    {
      this.host := host;
      this.policy := policy;
      this.storage := storage;
      this.configInfoFile := configInfoFile;
      cache := None;
      configInfoCache := None;
      saves := [];
    }

    /** The active_servers getter: a truthy cache is returned as it is;
        otherwise the file is loaded into the cache, and when it is missing
        the cache is returned unchanged. */
    method GetActiveServers() returns (r: Option<Dict<Key, Record>>)
      requires Valid()
      modifies this
      ensures Valid()
      ensures cache == if TruthyDict(old(cache)) then old(cache) else if storage.Some? then storage else old(cache)
      ensures r == cache
      ensures storage == old(storage) && saves == old(saves)
      ensures configInfoCache == old(configInfoCache) && configInfoFile == old(configInfoFile)
    {
      if cache.Some? && cache.value.keys != [] {
        return cache;
      }
      if storage.Some? {
        cache := storage;
      }
      return cache;
    }

    /** The active_servers setter writes the file and leaves the cache alone. */
    method SetActiveServers(value: Dict<Key, Record>)
      requires Valid() && value.Valid()
      modifies this
      ensures Valid()
      ensures storage == Some(value) && saves == old(saves) + [value]
      ensures cache == old(cache)
      ensures configInfoCache == old(configInfoCache) && configInfoFile == old(configInfoFile)
    {
      storage := Some(value);
      saves := saves + [value];
    }

    /** The config_info getter: a falsy cache is filled from the file with
        its newlines removed; a missing file raises. */
    method GetConfigInfo() returns (r: Result<string>)
      modifies this
      ensures TruthyString(old(configInfoCache)) ==> r == Ok(old(configInfoCache).value) && configInfoCache == old(configInfoCache)
      ensures !TruthyString(old(configInfoCache)) && configInfoFile.None? ==>
        r == Raised(FileNotFound) && configInfoCache == old(configInfoCache)
      ensures !TruthyString(old(configInfoCache)) && configInfoFile.Some? ==>
        && r == Ok(RemoveChar(configInfoFile.value, '\n')) && configInfoCache == Some(r.value) && '\n' !in r.value
      ensures configInfoFile == old(configInfoFile)
      ensures cache == old(cache) && storage == old(storage) && saves == old(saves)
    {
      if !TruthyString(configInfoCache) {
        if configInfoFile.None? {
          return Raised(FileNotFound);
        }
        configInfoCache := Some(RemoveChar(configInfoFile.value, '\n'));
      }
      return Ok(configInfoCache.value);
    }

    /** The config_info setter writes the file and the cache. */
    method SetConfigInfo(value: string)
      modifies this
      ensures configInfoFile == Some(value) && configInfoCache == Some(value)
      ensures cache == old(cache) && storage == old(storage) && saves == old(saves)
    {
      configInfoFile := Some(value);
      configInfoCache := Some(value);
    }

    /** sync_servers, given the fetched server list (None when the request
        failed), the benchmark result and the names glob lists one
        directory below the configuration directory. */
    method SyncServers(preserveVpn: bool, killswitchPath: string, serverList: Option<seq<Server>>,
                       best: Dict<Key, Record>, configFiles: seq<string>, creds: ImportSettings)
      returns (outcome: ManagerOutcome)
      requires Valid() && best.Valid()
      modifies this, host
      ensures Valid()
      ensures outcome.ManagerExit? <==> !Truthy(serverList) || FilterValid(policy, serverList.value) == []
      ensures outcome.ManagerExit? ==>
        && outcome.status == 1
        && cache == old(cache) && storage == old(storage) && saves == old(saves)
        && host.connections == old(host.connections) && host.configs == old(host.configs)
        && host.files == old(host.files)
      ensures outcome.ManagerDone? ==> SyncEffect(preserveVpn, best, configFiles, creds)
      ensures configInfoCache == old(configInfoCache) && configInfoFile == old(configInfoFile)
    {
      if !Truthy(serverList) {
        return ManagerExit(1);
      }
      var servers := FilterValid(policy, serverList.value);
      if servers == [] {
        return ManagerExit(1);
      }
      if !preserveVpn {
        var _ := host.RemoveKillswitch(killswitchPath);
        var _ := GetActiveServers();
      }
      Rebuild(best, configFiles, creds);
      return ManagerDone;
    }

    /** What a sync_servers call that did not exit leaves behind: the file
        was first written empty, then, when new_servers is non-empty, written
        with the cached map merged with new_servers; the cached map is the
        old file content when (and only when) the getter loaded it for the
        disconnect step. */
    twostate predicate SyncEffect(preserveVpn: bool, best: Dict<Key, Record>, configFiles: seq<string>,
                                  creds: ImportSettings)
      reads this, host
      requires best.Valid()
    {
      var cache1 := if preserveVpn || TruthyDict(old(cache)) then old(cache)
                    else if old(storage).Some? then old(storage) else old(cache);
      var r := StageAll(host, old(host.connections), best, |best.keys|, configFiles);
      var added := Replay(Empty(), r.puts);
      var base := if TruthyDict(cache1) then cache1.value else Empty();
      && host.connections == r.conns
      && host.configs == StagedConfigs(host, old(host.connections), old(host.configs), best, |best.keys|, configFiles, creds)
      && (cache1.Some? ==> cache1.value.Valid())
      && saves == old(saves) + [Empty()] + (if |added.keys| > 0 then [Merge(base, added)] else [])
      && storage == Some(saves[|saves| - 1])
      && cache == (if |added.keys| > 0 && !TruthyDict(cache1) then Some(Empty()) else cache1)
      && host.files <= old(host.files)
      && (AUTO_CONNECT_PATH !in host.removeFails ==> AUTO_CONNECT_PATH !in host.files)
    }

    /** The rest of sync_servers: the file is written empty, auto-connect
        removed, new_servers collected, and the file written again with the
        getter's map merged with new_servers when there is any. */
    method Rebuild(best: Dict<Key, Record>, configFiles: seq<string>, creds: ImportSettings)
      requires Valid() && best.Valid()
      modifies this, host
      ensures Valid()
      ensures var r := StageAll(host, old(host.connections), best, |best.keys|, configFiles);
        var added := Replay(Empty(), r.puts);
        var base := if TruthyDict(old(cache)) then old(cache).value else Empty();
        && host.connections == r.conns
        && host.configs == StagedConfigs(host, old(host.connections), old(host.configs), best, |best.keys|, configFiles, creds)
        && saves == old(saves) + [Empty()] + (if |added.keys| > 0 then [Merge(base, added)] else [])
        && storage == Some(saves[|saves| - 1])
        && cache == (if |added.keys| > 0 && !TruthyDict(old(cache)) then Some(Empty()) else old(cache))
      ensures host.files == if AUTO_CONNECT_PATH in host.removeFails then old(host.files)
                            else old(host.files) - {AUTO_CONNECT_PATH}
      ensures configInfoCache == old(configInfoCache) && configInfoFile == old(configInfoFile)
    {
      SetActiveServers(Empty());
      var _ := host.RemoveAutoconnect();
      var newServers;
      ghost var puts;
      newServers, puts := CollectNewServers(best, configFiles, creds);
      AddNewServers(newServers);
    }

    /** The end of sync_servers: when any new server was collected, the
        getter's map merged with the new servers is written to the file. */
    method AddNewServers(newServers: Dict<Key, Record>)
      requires Valid() && newServers.Valid() && storage.Some? && |saves| > 0 && storage.value == saves[|saves| - 1]
      modifies this
      ensures Valid()
      ensures var base := if TruthyDict(old(cache)) then old(cache).value else old(storage).value;
        && saves == old(saves) + (if |newServers.keys| > 0 then [Merge(base, newServers)] else [])
        && storage == Some(saves[|saves| - 1])
        && cache == (if |newServers.keys| > 0 && !TruthyDict(old(cache)) then old(storage) else old(cache))
      ensures configInfoCache == old(configInfoCache) && configInfoFile == old(configInfoFile)
    {
      if |newServers.keys| > 0 {
        var current := GetActiveServers();
        SetActiveServers(Merge(current.value, newServers));
      }
    }

    /** The loop of sync_servers over the benchmark result's keys, in order. */
    method CollectNewServers(best: Dict<Key, Record>, configFiles: seq<string>, creds: ImportSettings)
      returns (newServers: Dict<Key, Record>, ghost puts: seq<(Key, Record)>)
      requires best.Valid()
      modifies host
      ensures var r := StageAll(host, old(host.connections), best, |best.keys|, configFiles);
        && host.connections == r.conns && puts == r.puts
      ensures host.configs == StagedConfigs(host, old(host.connections), old(host.configs), best, |best.keys|, configFiles, creds)
      ensures newServers == Replay(Empty(), puts)
      ensures host.files == old(host.files)
    {
      newServers := Empty();
      puts := [];
      ghost var c0, f0 := host.connections, host.configs;
      var i := 0;
      while i < |best.keys|
        invariant 0 <= i <= |best.keys|
        invariant StageAll(host, c0, best, i, configFiles) == Staged(host.connections, puts)
        invariant host.configs == StagedConfigs(host, c0, f0, best, i, configFiles, creds)
        invariant newServers == Replay(Empty(), puts)
        invariant host.files == old(host.files)
      {
        newServers, puts := StageOne(best, i, configFiles, creds, newServers, puts, c0, f0);
        i := i + 1;
      }
    }

    /** Iteration i of the loop, from the state the first i iterations left. */
    method StageOne(best: Dict<Key, Record>, i: nat, configFiles: seq<string>, creds: ImportSettings,
                    newServers0: Dict<Key, Record>, ghost puts0: seq<(Key, Record)>,
                    ghost c0: set<string>, ghost f0: map<string, Config>)
      returns (newServers: Dict<Key, Record>, ghost puts: seq<(Key, Record)>)
      requires best.Valid() && i < |best.keys|
      requires StageAll(host, c0, best, i, configFiles) == Staged(host.connections, puts0)
      requires host.configs == StagedConfigs(host, c0, f0, best, i, configFiles, creds)
      requires newServers0 == Replay(Empty(), puts0)
      modifies host
      ensures StageAll(host, c0, best, i + 1, configFiles) == Staged(host.connections, puts)
      ensures host.configs == StagedConfigs(host, c0, f0, best, i + 1, configFiles, creds)
      ensures newServers == Replay(Empty(), puts)
      ensures host.files == old(host.files)
    {
      var key := best.keys[i];
      var rec := best.entries[key];
      StagedNext(host, c0, f0, best, i, configFiles, creds);
      if rec.name in host.connections {
        newServers := newServers0.Put(key, rec);
        puts := puts0 + [(key, rec)];
        ReplayAppend(Empty(), puts0, key, rec);
        return;
      }
      var filePath := FirstConfig(configFiles, rec.domain, key.2);
      if filePath.None? {
        return newServers0, puts0;
      }
      host.ImportEffectConnections(host.connections, host.configs, rec.name, creds.username, creds.password, creds.dns, false);
      var _ := host.ImportConnection(rec.name, creds.username, creds.password, creds.dns, false);
      newServers := newServers0.Put(key, rec);
      puts := puts0 + [(key, rec)];
      ReplayAppend(Empty(), puts0, key, rec);
    }

    /** sync: reload_connections would run when sync_servers returns
        something truthy, which its None never is; networkmanager does not
        define reload_connections, so that call would raise AttributeError. */
    method Sync(preserveVpn: bool, killswitchPath: string, serverList: Option<seq<Server>>,
                best: Dict<Key, Record>, configFiles: seq<string>, creds: ImportSettings)
      returns (outcome: ManagerOutcome, reloaded: bool)
      requires Valid() && best.Valid()
      modifies this, host
      ensures Valid()
      ensures !reloaded
      ensures outcome.ManagerExit? <==> !Truthy(serverList) || FilterValid(policy, serverList.value) == []
      ensures outcome.ManagerExit? ==> cache == old(cache) && storage == old(storage) && saves == old(saves)
      ensures outcome.ManagerDone? ==> SyncEffect(preserveVpn, best, configFiles, creds)
    {
      outcome := SyncServers(preserveVpn, killswitchPath, serverList, best, configFiles, creds);
      reloaded := false;
    }
  }
}
