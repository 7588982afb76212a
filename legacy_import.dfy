/** import.py: the first generation of the importer. It imports every
    downloaded configuration file whose country is selected, remembers the
    imported connection names in a list, and removes blacklisted ones on the
    next run. The nmcli commands run with check=True, so a failing command
    raises CalledProcessError and ends the run, and so does an exception of
    add_credentials' keyfile edit. The download, the keyfile written back
    and the service restart are not modelled. */
module LegacyImport {
  import opened Basics
  import opened Text
  import NetworkManager

  // ---------------------------------------------------------------------
  // ConfigHandler
  // ---------------------------------------------------------------------

  /** The values ConfigHandler's getters return for settings.conf's
      [General] country-blacklist and country-whitelist and [Credentials]
      username and password: after the parser's `%` interpolation on read,
      so a stored `%%` is held as `%`. */
  datatype Settings = Settings(blacklist: string, whitelist: string, username: string, password: string)

  /** The values ConfigHandler's constructor writes before a file is read. */
  const DEFAULT_SETTINGS: Settings := Settings(
    "# simply write country codes separated by spaces e.g. \"country-blacklist = us ca\"",
    "# simply write country codes separated by spaces e.g. \"country-whitelist = us ca\" If this is non-empty, the blacklist is ignored",
    "", "")

  /** get_blacklist: the setting split at every single space. The list is
      never empty, the fields hold no space, and joining them gives the
      setting back. */
  function GetBlacklist(cfg: Settings): (r: seq<string>)
    ensures |r| >= 1
    ensures forall i :: 0 <= i < |r| ==> ' ' !in r[i]
    ensures Join(r, ' ') == cfg.blacklist
  {
    JoinSplit(cfg.blacklist, ' ');
    SplitFields(cfg.blacklist, ' ');
    Split(cfg.blacklist, ' ')
  }

  /** get_whitelist, the same split of the whitelist setting. */
  function GetWhitelist(cfg: Settings): (r: seq<string>)
    ensures |r| >= 1
    ensures forall i :: 0 <= i < |r| ==> ' ' !in r[i]
    ensures Join(r, ' ') == cfg.whitelist
  {
    JoinSplit(cfg.whitelist, ' ');
    SplitFields(cfg.whitelist, ' ');
    Split(cfg.whitelist, ' ')
  }

  /** An empty setting splits into one empty field, which Python counts as
      a non-empty (truthy) list. */
  lemma EmptySettingIsTruthy(cfg: Settings)
    requires cfg.whitelist == ""
    ensures GetWhitelist(cfg) == [""]
  {
  }

  // ---------------------------------------------------------------------
  // Names of configuration files
  // ---------------------------------------------------------------------

  /** get_country_code: the first two characters of the name. */
  function CountryCode(name: string): (code: string)
    ensures |code| == if |name| < 2 then |name| else 2
    ensures code == name[..|code|]
  {
    Take(name, 2)
  }

  /** The index of the last c in s, or -1. */
  function LastIndexOf(s: string, c: char): (k: int)
    ensures -1 <= k < |s|
    ensures k >= 0 ==> s[k] == c
    ensures forall j :: k < j < |s| ==> s[j] != c
    decreases |s|
  {
    if s == [] then -1
    else if s[|s| - 1] == c then |s| - 1
    else LastIndexOf(s[..|s| - 1], c)
  }

  predicate AllDots(s: string)
  {
    forall i :: 0 <= i < |s| ==> s[i] == '.'
  }

  /** os.path.splitext(name)[0] for a name without a directory part: the
      name cut at its last dot, unless everything before that dot is dots
      (a hidden file), in which case the name is kept whole. */
  function Stem(name: string): (stem: string)
    ensures |stem| <= |name| && stem == name[..|stem|]
  {
    var k := LastIndexOf(name, '.');
    if k < 0 || AllDots(name[..k]) then name else name[..k]
  }

  /** A stem that is not all dots, followed by a dot and a dot-free
      extension, is what splitext gives back. */
  lemma StemOfConfigName(stem: string, ext: string)
    requires '.' !in ext
    requires !AllDots(stem)
    ensures Stem(stem + "." + ext) == stem
  {
    var name := stem + "." + ext;
    assert name[|stem|] == '.';
    assert forall j :: |stem| < j < |name| ==> name[j] == ext[j - |stem| - 1];
    assert name[..|stem|] == stem;
  }

  // ---------------------------------------------------------------------
  // The active list
  // ---------------------------------------------------------------------

  /** list.remove(x): the first occurrence of x deleted. */
  function RemoveFirst(s: seq<string>, x: string): (r: seq<string>)
    requires x in s
    ensures |r| == |s| - 1
    ensures forall y :: Count(r, y) == Count(s, y) - (if y == x then 1 else 0)
    decreases |s|
  {
    if s[0] == x then s[1..] else [s[0]] + RemoveFirst(s[1..], x)
  }

  /** What sync_imports threads: the active list, NetworkManager's
      connections, and the error that ended the run, if any. */
  datatype Legacy = Legacy(active: seq<string>, conns: set<string>, error: Option<Error>)

  /** The purge loop of sync_imports from position i on. It runs over the
      list by position while remove_connection deletes from that same list,
      so the entry after a removed one moves into the position just
      examined and is passed over. A failing delete ends the run. */
  function PurgeFrom(st: Legacy, i: nat, blackList: seq<string>, deleteFails: set<string>): Legacy
    decreases |st.active| - i
  {
    if st.error.Some? || i >= |st.active| then st
    else
      var c := st.active[i];
      if CountryCode(c) !in blackList then PurgeFrom(st, i + 1, blackList, deleteFails)
      else if c !in st.conns || c in deleteFails then st.(error := Some(CalledProcessError))
      else PurgeFrom(Legacy(RemoveFirst(st.active, c), st.conns - {c}, None), i + 1, blackList, deleteFails)
  }

  /** Two blacklisted entries side by side: the second is never examined
      and stays, both in the list and in NetworkManager. */
  lemma PurgeSkipsFollower()
    ensures PurgeFrom(Legacy(["us1", "us2"], {"us1", "us2"}, None), 0, ["us"], {})
            == Legacy(["us2"], {"us2"}, None)
  {
    var st := Legacy(["us1", "us2"], {"us1", "us2"}, None);
    assert CountryCode("us1") == "us";
    assert RemoveFirst(["us1", "us2"], "us1") == ["us2"];
    assert PurgeFrom(Legacy(["us2"], {"us2"}, None), 1, ["us"], {}) == Legacy(["us2"], {"us2"}, None);
  }

  /** The purge only ever removes blacklisted entries: every other entry
      stays as often as it was listed, every connection that goes away is
      a blacklisted entry of the list, and the list never grows. */
  lemma {:induction false} PurgeRemovesOnlyBlacklisted(st: Legacy, i: nat, blackList: seq<string>,
                                                       deleteFails: set<string>, x: string)
    requires CountryCode(x) !in blackList
    ensures Count(PurgeFrom(st, i, blackList, deleteFails).active, x) == Count(st.active, x)
    ensures |PurgeFrom(st, i, blackList, deleteFails).active| <= |st.active|
    ensures PurgeFrom(st, i, blackList, deleteFails).conns <= st.conns
    ensures forall c :: c in st.conns - PurgeFrom(st, i, blackList, deleteFails).conns ==>
      c in st.active && CountryCode(c) in blackList
    decreases |st.active| - i
  {
    if st.error.None? && i < |st.active| {
      var c := st.active[i];
      if CountryCode(c) !in blackList {
        PurgeRemovesOnlyBlacklisted(st, i + 1, blackList, deleteFails, x);
      } else if c in st.conns && c !in deleteFails {
        var next := Legacy(RemoveFirst(st.active, c), st.conns - {c}, None);
        PurgeRemovesOnlyBlacklisted(next, i + 1, blackList, deleteFails, x);
        var r := PurgeFrom(st, i, blackList, deleteFails);
        forall d | d in st.conns - r.conns
          ensures d in st.active && CountryCode(d) in blackList
        {
          if d != c {
            assert d in next.active;
            assert Count(next.active, d) == Count(st.active, d);
          }
        }
      }
    }
  }

  /** The import test of sync_imports: with a (truthy) whitelist the code
      must be whitelisted, otherwise it must not be blacklisted. */
  predicate Wanted(whiteList: seq<string>, blackList: seq<string>, code: string)
  {
    if whiteList != [] then code in whiteList else code !in blackList
  }

  /** What the import loop depends on besides the lists: the files nmcli
      fails to import, the keyfile NetworkManager writes under
      system-connections for each connection it imports (found by
      add_credentials under its name or with a trailing underscore), and
      the username and password get_username and get_password return. */
  datatype ImportContext = ImportContext(importFails: set<string>, keyfiles: map<string, NetworkManager.Config>,
                                         username: string, password: string)

  /** add_credentials(name): without a keyfile it returns doing nothing;
      otherwise it makes the edit of add_connection_credentials, which
      raises KeyError without a [vpn] section and ValueError when the
      interpolation check refuses the username or the password. */
  function CredentialsError(ctx: ImportContext, name: string): (e: Option<Error>)
    ensures e.None? <==>
      name !in ctx.keyfiles || NetworkManager.WithCredentials(ctx.keyfiles[name], ctx.username, ctx.password).Some?
    ensures e.Some? ==> e == Some(KeyError) || e == Some(ValueError)
  {
    if name !in ctx.keyfiles then None
    else if "vpn" !in ctx.keyfiles[name] then Some(KeyError)
    else if !InterpolationSafe(ctx.username) || !InterpolationSafe(ctx.password) then Some(ValueError)
    else None
  }

  /** One file of the import loop: a file whose stem is not active and
      whose country is wanted is imported, which adds the connection; the
      stem is appended to the list unless add_credentials raised. */
  function ImportStep(st: Legacy, file: string, whiteList: seq<string>, blackList: seq<string>,
                      ctx: ImportContext): Legacy
  {
    if st.error.Some? then st
    else if Stem(file) !in st.active && Wanted(whiteList, blackList, CountryCode(file)) then
      if file in ctx.importFails then st.(error := Some(CalledProcessError))
      else if CredentialsError(ctx, Stem(file)).Some? then
        Legacy(st.active, st.conns + {Stem(file)}, CredentialsError(ctx, Stem(file)))
      else Legacy(st.active + [Stem(file)], st.conns + {Stem(file)}, None)
    else st
  }

  /** The import loop over the files of the download directory, in listing order. */
  function ImportAll(st: Legacy, files: seq<string>, whiteList: seq<string>, blackList: seq<string>,
                     ctx: ImportContext): Legacy
    decreases |files|
  {
    if files == [] then st
    else ImportStep(ImportAll(st, files[..|files| - 1], whiteList, blackList, ctx),
                    files[|files| - 1], whiteList, blackList, ctx)
  }

  /** The import loop only appends: each stem it adds is new to the list
      and is added once. */
  lemma {:induction false} ImportAllAppends(st: Legacy, files: seq<string>, whiteList: seq<string>,
                                            blackList: seq<string>, ctx: ImportContext)
    ensures var r := ImportAll(st, files, whiteList, blackList, ctx);
      && |r.active| >= |st.active| && r.active[..|st.active|] == st.active
      && (forall i, j :: |st.active| <= i < j < |r.active| ==> r.active[i] != r.active[j])
      && (forall i :: |st.active| <= i < |r.active| ==> r.active[i] !in st.active)
    decreases |files|
  {
    if files != [] {
      var front := files[..|files| - 1];
      var f := files[|files| - 1];
      ImportAllAppends(st, front, whiteList, blackList, ctx);
      var s := ImportAll(st, front, whiteList, blackList, ctx);
      var r := ImportStep(s, f, whiteList, blackList, ctx);
      if r.active != s.active {
        assert r.active == s.active + [Stem(f)];
        assert r.active[..|st.active|] == s.active[..|st.active|];
        assert forall i :: 0 <= i < |s.active| ==> s.active[i] in s.active;
      }
    }
  }

  /** Each stem the import loop adds comes from a wanted file of the listing. */
  lemma {:induction false} ImportAllProvenance(st: Legacy, files: seq<string>, whiteList: seq<string>,
                                               blackList: seq<string>, ctx: ImportContext)
    ensures var r := ImportAll(st, files, whiteList, blackList, ctx);
      forall x :: x in r.active && x !in st.active ==>
        exists f :: f in files && Stem(f) == x && Wanted(whiteList, blackList, CountryCode(f))
    decreases |files|
  {
    if files != [] {
      var front := files[..|files| - 1];
      ImportAllProvenance(st, front, whiteList, blackList, ctx);
      assert forall g :: g in front ==> g in files;
    }
  }

  /** NetworkManager gains the stems the import loop adds to the list, and
      one more only when add_credentials raised for it, which ended the loop. */
  lemma {:induction false} ImportAllConnections(st: Legacy, files: seq<string>, whiteList: seq<string>,
                                                blackList: seq<string>, ctx: ImportContext)
    ensures var r := ImportAll(st, files, whiteList, blackList, ctx);
      st.conns + (set x | x in r.active && x !in st.active) <= r.conns
    ensures var r := ImportAll(st, files, whiteList, blackList, ctx);
      forall x :: x in r.conns && x !in st.conns && x !in r.active ==>
        CredentialsError(ctx, x).Some? && r.error == CredentialsError(ctx, x)
    ensures forall x :: x in st.active ==> x in ImportAll(st, files, whiteList, blackList, ctx).active
    decreases |files|
  {
    if files != [] {
      var front := files[..|files| - 1];
      ImportAllConnections(st, front, whiteList, blackList, ctx);
    }
  }

  /** When no import fails, every wanted file has its stem in the list afterwards. */
  lemma {:induction false} ImportAllComplete(st: Legacy, files: seq<string>, whiteList: seq<string>,
                                             blackList: seq<string>, ctx: ImportContext)
    requires ImportAll(st, files, whiteList, blackList, ctx).error.None?
    ensures forall f :: f in files && Wanted(whiteList, blackList, CountryCode(f)) ==>
      Stem(f) in ImportAll(st, files, whiteList, blackList, ctx).active
    decreases |files|
  {
    if files != [] {
      var front := files[..|files| - 1];
      assert ImportAll(st, front, whiteList, blackList, ctx).error.None?;
      ImportAllComplete(st, front, whiteList, blackList, ctx);
      ImportAllConnections(st, front, whiteList, blackList, ctx);
      assert forall g :: g in files ==> g in front || g == files[|files| - 1];
    }
  }

  // ---------------------------------------------------------------------
  // The importer
  // ---------------------------------------------------------------------

  class Importer {
    var activeList: seq<string>
    /** Names of the connections NetworkManager knows. */
    var connections: set<string>
    /** Every list written to the list file, in order. */
    var saves: seq<seq<string>>
    const blackList: seq<string>
    const whiteList: seq<string>
    /** Connection names nmcli fails to delete, file names it fails to import. */
    const deleteFails: set<string>
    const importFails: set<string>
    /** The keyfile NetworkManager writes for each connection it imports. */
    const keyfiles: map<string, NetworkManager.Config>
    /** What get_username and get_password return. */
    const username: string
    const password: string

    /** __init__: without a settings file both lists are empty (and the
        defaults are written out); with one, they are its split settings,
        so the whitelist is never empty and the blacklist is only consulted
        by the purge. stored is the list file's content, if it exists. */
    constructor(settingsFile: Option<Settings>, stored: Option<seq<string>>, connections: set<string>,
                deleteFails: set<string>, importFails: set<string>, keyfiles: map<string, NetworkManager.Config>)
      ensures settingsFile.None? ==> blackList == [] && whiteList == []
      ensures settingsFile.Some? ==>
        blackList == GetBlacklist(settingsFile.value) && whiteList == GetWhitelist(settingsFile.value)
      ensures settingsFile.Some? ==> whiteList != []
      ensures activeList == (if stored.Some? then stored.value else [])
      ensures this.connections == connections && saves == []
      ensures this.deleteFails == deleteFails && this.importFails == importFails && this.keyfiles == keyfiles
      ensures var cfg := if settingsFile.Some? then settingsFile.value else DEFAULT_SETTINGS;
        username == cfg.username && password == cfg.password
    {
      if settingsFile.Some? {
        blackList := GetBlacklist(settingsFile.value);
        whiteList := GetWhitelist(settingsFile.value);
        username := settingsFile.value.username;
        password := settingsFile.value.password;
      } else {
        blackList := [];
        whiteList := [];
        username := DEFAULT_SETTINGS.username;
        password := DEFAULT_SETTINGS.password;
      }
      this.keyfiles := keyfiles;
      activeList := if stored.Some? then stored.value else [];
      this.connections := connections;
      saves := [];
      this.deleteFails := deleteFails;
      this.importFails := importFails;
    }

    /** remove_connection: nmcli deletes the connection (or raises), then
        the first occurrence of the name leaves the list (or ValueError). */
    method RemoveConnection(name: string) returns (error: Option<Error>)
      modifies this
      ensures name !in old(connections) || name in deleteFails ==>
        error == Some(CalledProcessError) && activeList == old(activeList) && connections == old(connections)
      ensures name in old(connections) && name !in deleteFails ==>
        && connections == old(connections) - {name}
        && (name in old(activeList) ==> error.None? && activeList == RemoveFirst(old(activeList), name))
        && (name !in old(activeList) ==> error == Some(ValueError) && activeList == old(activeList))
      ensures saves == old(saves)
    {
      if name !in connections || name in deleteFails {
        return Some(CalledProcessError);
      }
      connections := connections - {name};
      if name !in activeList {
        return Some(ValueError);
      }
      activeList := RemoveFirst(activeList, name);
      return None;
    }

    /** The context the import loop's specification runs in. */
    function Context(): ImportContext
    {
      ImportContext(importFails, keyfiles, username, password)
    }

    /** add_credentials: the keyfile edited in memory as
        add_connection_credentials does it; the file written back is not
        modelled. */
    method AddCredentials(filename: string) returns (error: Option<Error>)
      ensures error == CredentialsError(Context(), filename)
    {
      if filename !in keyfiles {
        return None;
      }
      if "vpn" !in keyfiles[filename] {
        return Some(KeyError);
      }
      var config := new NetworkManager.ConnectionConfig(keyfiles[filename]);
      var ok := config.AddConnectionCredentials(username, password);
      if !ok {
        return Some(ValueError);
      }
      return None;
    }

    /** import_ovpn: nmcli imports the file (or raises), which creates a
        connection named after its stem; add_credentials edits its keyfile
        (or raises), and then the stem is appended to the list. */
    method ImportOvpn(file: string) returns (error: Option<Error>)
      modifies this
      ensures file in importFails ==>
        error == Some(CalledProcessError) && activeList == old(activeList) && connections == old(connections)
      ensures file !in importFails ==>
        && error == CredentialsError(Context(), Stem(file))
        && connections == old(connections) + {Stem(file)}
        && activeList == if error.None? then old(activeList) + [Stem(file)] else old(activeList)
      ensures saves == old(saves)
    {
      if file in importFails {
        return Some(CalledProcessError);
      }
      connections := connections + {Stem(file)};
      error := AddCredentials(Stem(file));
      if error.Some? {
        return;
      }
      activeList := activeList + [Stem(file)];
    }

    /** The purge loop of sync_imports: for connection in self.active_list. */
    method Purge() returns (error: Option<Error>)
      modifies this
      ensures Legacy(activeList, connections, error)
              == PurgeFrom(Legacy(old(activeList), old(connections), None), 0, blackList, deleteFails)
      ensures saves == old(saves)
    {
      var i := 0;
      error := None;
      while i < |activeList|
        invariant PurgeFrom(Legacy(activeList, connections, None), i, blackList, deleteFails)
                  == PurgeFrom(Legacy(old(activeList), old(connections), None), 0, blackList, deleteFails)
        invariant error.None? && saves == old(saves)
        decreases |activeList| - i
      {
        var c := activeList[i];
        i := i + 1;
        if CountryCode(c) in blackList {
          error := RemoveConnection(c);
          if error.Some? {
            return;
          }
        }
      }
    }

    /** The import loop of sync_imports over the download directory's listing. */
    method ImportFiles(files: seq<string>) returns (error: Option<Error>)
      modifies this
      ensures Legacy(activeList, connections, error)
              == ImportAll(Legacy(old(activeList), old(connections), None), files, whiteList, blackList, Context())
      ensures saves == old(saves)
    {
      error := None;
      var i := 0;
      while i < |files|
        invariant 0 <= i <= |files|
        invariant Legacy(activeList, connections, None)
                  == ImportAll(Legacy(old(activeList), old(connections), None), files[..i], whiteList, blackList, Context())
        invariant error.None? && saves == old(saves)
      {
        assert files[..i + 1][..i] == files[..i];
        var file := files[i];
        var code := CountryCode(file);
        if Stem(file) !in activeList && Wanted(whiteList, blackList, code) {
          error := ImportOvpn(file);
          if error.Some? {
            assert ImportAll(Legacy(old(activeList), old(connections), None), files[..i + 1], whiteList, blackList, Context())
                   == Legacy(activeList, connections, error);
            ImportErrorSticks(Legacy(activeList, connections, error), files[i + 1..]);
            assert files[..i + 1] + files[i + 1..] == files;
            ImportAllConcat(Legacy(old(activeList), old(connections), None), files[..i + 1], files[i + 1..]);
            return;
          }
        }
        i := i + 1;
      }
      assert files[..i] == files;
    }

    /** Once the import loop has raised, the remaining files change nothing. */
    lemma {:induction false} ImportErrorSticks(st: Legacy, files: seq<string>)
      requires st.error.Some?
      ensures ImportAll(st, files, whiteList, blackList, Context()) == st
      decreases |files|
    {
      if files != [] {
        ImportErrorSticks(st, files[..|files| - 1]);
      }
    }

    /** Running the import loop over a ++ b is running it over a, then b. */
    lemma {:induction false} ImportAllConcat(st: Legacy, a: seq<string>, b: seq<string>)
      ensures ImportAll(st, a + b, whiteList, blackList, Context())
              == ImportAll(ImportAll(st, a, whiteList, blackList, Context()), b, whiteList, blackList, Context())
      decreases |b|
    {
      if b == [] {
        assert a + b == a;
      } else {
        assert (a + b)[..|a + b| - 1] == a + b[..|b| - 1];
        ImportAllConcat(st, a, b[..|b| - 1]);
      }
    }

    /** sync_imports then start's single save of the list; a raised error
        ends the run before the save. */
    method Start(files: seq<string>) returns (error: Option<Error>)
      modifies this
      ensures var p := PurgeFrom(Legacy(old(activeList), old(connections), None), 0, blackList, deleteFails);
        && (p.error.Some? ==> error == p.error && activeList == p.active && connections == p.conns)
        && (p.error.None? ==>
              Legacy(activeList, connections, error)
              == ImportAll(Legacy(p.active, p.conns, None), files, whiteList, blackList, Context()))
      ensures saves == if error.None? then old(saves) + [activeList] else old(saves)
    {
      error := Purge();
      if error.Some? {
        return;
      }
      error := ImportFiles(files);
      if error.Some? {
        return;
      }
      saves := saves + [activeList];
    }
  }
}
