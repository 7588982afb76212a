# nordnm sync pipeline — a Dafny model

nordnm keeps NetworkManager's VPN connections in step with NordVPN's
servers. The steps are:

1. It reads the user's country, category, protocol and ping settings.
2. It filters the server list by those settings.
3. It benchmarks the servers and keeps the best one per (country, category, protocol) key.
4. It removes the connections of the previous run and imports the new best ones.
5. It records the active servers in a pickled file.

The repository holds four generations of this pipeline:

- `import.py`;
- `nordnm/importer.py`;
- `nordnm/nordnm.py`;
- `nordnm/nordmanager.py`.

They share `nordnm/benchmarking.py`, `nordnm/networkmanager.py` and the settings readers `nordnm/settings.py` and `nordnm/config.py`. Each generation is modelled on its own with its own contract, because their call sites disagree with each other. For example, `get_best_servers` takes four required arguments (nordnm/benchmarking.py:91), but importer.py:220 passes two and nordnm.py:361 and nordmanager.py:173 pass three, so each of those calls raises TypeError as written. It also returns a `(dict, count)` tuple (benchmarking.py:115), which no caller unpacks: nordnm.py:375 calls `.keys()` on it. So in every sync the benchmark result is an input, given as the dictionary the callers expect.

The model's modules:

- `Basics`, `Text`, `Dicts`: Python's `Option`/exception results, string `split`/`join`/`strip`/`upper`/`lower`, and insertion-ordered dictionaries.
- `NordApi`: the `VPN_CATEGORIES` table and the server and record shapes.
- `NetworkManager`:
  - the parsers of `nmcli` output;
  - the connection-config edits (class `ConnectionConfig`, a map of sections);
  - the gateway (class `Host`), which holds the set of connection names, the files under the dispatcher directory and the stored connection configs. Its fields also list which deletions, copies, imports and saves fail.
- `Benchmarking`:
  - the score gates;
  - `compare_server` as an update of the shared best-servers dictionary (class `SelectionIndex`);
  - `get_best_servers` as a sequential fold over measured servers.
- `NordNM`, `NordManager`, `Importer`, `LegacyImport`: the four controllers, as classes. Every write of the pickled active file is appended to a `saves` trace, so that "written after every step" can be stated.
- `Settings` and `Configuration`: the two settings handlers over a configparser-like map of sections. Each has a `saves` trace of written files.

Network, subprocess and file-system results are parameters of the operations: a fetched server list, a directory listing, `nmcli` output, and the gateway's failure sets.

## Model

| member | source | states |
|---|---|---|
| NordApi.CategoryNames | nordnm/nordapi.py:10-17 | the long category names, one per table entry, in table order |
| NordApi.Lookup | nordnm/nordapi.py:10-17 | a dictionary lookup fails exactly when no entry has the long name; otherwise it returns that entry's short name |
| NordApi.ShortNameSpec | nordnm/nordapi.py:10-17 | `VPN_CATEGORIES[name]` succeeds exactly for the six table names and yields the paired short name |
| NordNM.ShortDomainPrefix | nordnm/nordnm.py:21 | the short name is the longest prefix of the domain that holds no '.'; it ends at the first '.' or at the end of the domain |
| NordNM.ShortNamesSpec | nordnm/nordnm.py:24-29 | the category short names exist exactly when every category is a table name; there is one short name per category |
| NordNM.ConnectionNameDefined | nordnm/nordnm.py:20-31 | a connection name exists exactly when every category of the server is in `VPN_CATEGORIES`; otherwise the lookup raises |
| NordNM.ConnectionNameDistinguishesProtocols | nordnm/nordnm.py:31 | the same server under two protocols never gets the same connection name |
| NordNM.GenerateConnectionName | nordnm/nordnm.py:20-31 | the loop returns `short [names] [protocol]`, the short category names joined by a vertical bar, exactly when the name is defined, and raises KeyError otherwise |
| NordNM.CountryIsSelectedCases | nordnm/nordnm.py:266-271 | a non-empty whitelist selects exactly its members and ignores the blacklist; otherwise a non-empty blacklist selects exactly its non-members; otherwise every code is selected |
| NordNM.ValidServers | nordnm/nordnm.py:293-303 | the valid servers are an order-preserving sub-list of the input |
| NordNM.ValidServersCount | nordnm/nordnm.py:273-303 | a server passing the country, protocol and category checks is kept as often as the input holds it; any other server is dropped |
| NordNM.GetValidServers | nordnm/nordnm.py:293-303 | the loop's list is exactly the filtered list |
| NordNM.LastMatchSpec | nordnm/nordnm.py:199-213 | no path exactly when no listed regular file matches `domain.protocol*`; otherwise the path is the last listed match |
| NordNM.GetOvpnPath | nordnm/nordnm.py:199-213 | a missing directory gives None (the error is logged); otherwise the result is the last match |
| NordNM.RemovalSavesSpec | nordnm/nordnm.py:235-241 | the j-th file written during removal holds the original map without its first j+1 keys |
| NordNM.NamesOfSpec | nordnm/nordnm.py:235-236 | removal visits the connection names in the map's key order |
| NordNM.RemovalEffectClosed | nordnm/nordnm.py:235-241 | removal takes from the gateway every visited name whose delete succeeds; configs go only for connections that existed |
| NordNM.DropAll | nordnm/nordnm.py:240-243 | deleting every key, one at a time, leaves the empty map |
| NordNM.SnapshotsSpec | nordnm/nordnm.py:394-396 | the j-th file written by the commit loop holds the map with the first j+1 recorded pairs stored |
| NordNM.ReplayKeys | nordnm/nordnm.py:395 | after the commit loop a key is in the map exactly when it was there before or was recorded |
| NordNM.ReplayValues | nordnm/nordnm.py:395 | every value in the map after the loop was recorded under that key or was already there |
| NordNM.CommitIgnoresFlag | nordnm/nordnm.py:374-397 | the incoming `updated` flag does not affect the gateway, the recorded pairs or the count |
| NordNM.CommitStepRecords | nordnm/nordnm.py:376-396 | a key is left out only when its connection did not exist, a config file was found and the import failed; every other key is recorded |
| NordNM.MissingConfigStillRecorded | nordnm/nordnm.py:383-395 | a server with no config file is still recorded as active, although no connection was made for it |
| NordNM.CommitCounts | nordnm/nordnm.py:374-397 | new connections grow by at most one per key; `updated` is set exactly when it already was or an import succeeded; the gateway only grows; earlier records are kept |
| NordNM.CommitPutsFromBest | nordnm/nordnm.py:394-395 | each recorded pair is a key of the benchmark result with its own record |
| NordNM.NordNM.constructor | nordnm/nordnm.py:158-169 | the handler starts from the loaded active servers and the country policy, with nothing written yet |
| NordNM.NordNM.RemoveActiveConnections | nordnm/nordnm.py:231-247 | returns true exactly when the map was non-empty; the map ends empty; one file is written per key, each without one more key; the gateway loses the names whose delete succeeds; a key is dropped even when its delete fails |
| NordNM.NordNM.RemoveEach | nordnm/nordnm.py:234-243 | the removal loop over a copy: the copy ends empty, with the saves and gateway effect above |
| NordNM.NordNM.RemoveIfExists | nordnm/nordnm.py:237-238 | an existing connection is deleted (unless the delete fails); a missing one is left alone |
| NordNM.NordNM.SaveWithout | nordnm/nordnm.py:240-241 | one key is dropped from the copy and the copy is written |
| NordNM.NordNM.CommitBestServers | nordnm/nordnm.py:374-397 | the gateway, flag and count are those of the commit fold; the map is the old one with the recorded pairs stored in order; one file is written per recorded pair |
| NordNM.NordNM.CommitOne | nordnm/nordnm.py:376-396 | one iteration: either the map and file are unchanged (failed import) or the pair is stored and the map written once |
| NordNM.NordNM.SyncServers | nordnm/nordnm.py:320-412 | a missing config directory raises; no configs, no server list or no valid server exits with status 1 and changes nothing; otherwise: old connections are removed; the map becomes the pairs recorded by the commit loop; the file trace is the removal writes then the commit writes; `updated` holds exactly when something was removed, `remove_autoconnect` returned true, or an import succeeded |
| NordNM.NordNM.EnableAutoConnect | nordnm/nordnm.py:215-229 | never true: when (upper(country), category, protocol) is active, what `get_interfaces` raised propagates; when interfaces were found, the auto-connect file is written and the call of `enable_connection`, which `networkmanager` does not define, raises AttributeError; otherwise false and no file is written |
| Benchmarking.ServerScoreGates | nordnm/benchmarking.py:18-32 | load ≥ 95: (0, load, None) without a probe; load < 95: the probed rtt is returned; loss ≥ 5 keeps score 0; otherwise the formula's score |
| Benchmarking.SupportedProtocolsSpec | nordnm/benchmarking.py:36-40 | a protocol is supported exactly when the server has its feature and it is enabled; udp is listed before tcp |
| Benchmarking.OfferKey | nordnm/benchmarking.py:56-63 | offering one key keeps the dictionary well-formed and never reports failure (it either succeeds or raises) |
| Benchmarking.OfferKeyEffect | nordnm/benchmarking.py:56-63 | the offered key is overwritten with the server's record exactly when the score beats the stored one (-1 when absent); other keys are untouched |
| Benchmarking.OfferProtocols | nordnm/benchmarking.py:55-63 | the protocol loop keeps the dictionary well-formed and never reports failure |
| Benchmarking.OfferProtocolsEffect | nordnm/benchmarking.py:55-63 | each (country, category, p) for p in the supported protocols follows the overwrite rule; all other keys are untouched |
| Benchmarking.OfferProtocolsAbsorbs | nordnm/benchmarking.py:55-63 | once a name lookup raises, the remaining protocols change nothing |
| Benchmarking.OfferCategories | nordnm/benchmarking.py:50-63 | the category loop keeps the dictionary well-formed and never reports failure |
| Benchmarking.OfferCategory | nordnm/benchmarking.py:51-63 | offering one category keeps the dictionary well-formed and never reports failure; its effect is stated through `OfferCategoriesEffect` |
| Benchmarking.CoversSpec | nordnm/benchmarking.py:50-53 | a short category is offered exactly when some category of the server is enabled and maps to it |
| Benchmarking.OfferCategoriesEffect | nordnm/benchmarking.py:50-63 | the keys (lower(flag), offered category, supported protocol) follow the overwrite rule; all other keys are untouched |
| Benchmarking.OfferCategoriesAbsorbs | nordnm/benchmarking.py:50-63 | once a lookup raises, the remaining categories change nothing |
| Benchmarking.Compare | nordnm/benchmarking.py:35-65 | `compare_server` keeps the dictionary well-formed, whether it returns or raises |
| Benchmarking.CompareEffect | nordnm/benchmarking.py:44-65 | returns True exactly when the latency is truthy; a falsy latency leaves the map unchanged; every candidate key follows the overwrite rule; non-candidate keys are untouched |
| Benchmarking.CompareScores | nordnm/benchmarking.py:56-63 | stored scores never decrease; after a successful comparison a candidate key's score is at least the server's; a changed score equals the server's |
| Benchmarking.OverloadedNeverInstalled | nordnm/benchmarking.py:25-48 | a server at 95% load or more returns False and changes nothing |
| Benchmarking.LossyServerFillsEmptyKeys | nordnm/benchmarking.py:29-63 | a lossy server with a truthy rtt still fills an absent candidate key with score 0 |
| Benchmarking.KnownCategoriesNeverRaise | nordnm/benchmarking.py:50-63 | a server whose categories are all table names never makes `compare_server` raise |
| Benchmarking.CategoriesNeverRaise | nordnm/benchmarking.py:50-63 | with known categories and a defined connection name the category loop does not raise |
| Benchmarking.ProtocolsNeverRaise | nordnm/benchmarking.py:55-63 | with a defined connection name the protocol loop does not raise |
| Benchmarking.SelectionIndex.constructor | nordnm/benchmarking.py:93 | the shared dictionary starts empty |
| Benchmarking.SelectionIndex.CompareServer | nordnm/benchmarking.py:35-65 | the in-place update leaves the dictionary and result of `compare_server`'s specification |
| Benchmarking.SelectionIndex.OfferCategoriesTo | nordnm/benchmarking.py:50-63 | the category loop updates the dictionary as its specification says |
| Benchmarking.SelectionIndex.OfferCategoryTo | nordnm/benchmarking.py:51-63 | one category's update matches its specification |
| Benchmarking.SelectionIndex.OfferProtocolsTo | nordnm/benchmarking.py:55-63 | the protocol loop updates the dictionary as its specification says |
| Benchmarking.SelectionIndex.OfferKeyTo | nordnm/benchmarking.py:56-63 | one key's strict-improvement update matches its specification |
| Benchmarking.GetNumProcesses | nordnm/benchmarking.py:68-88 | the pool size is min(servers, soft limit − used descriptors, 512) |
| Benchmarking.Benchmark | nordnm/benchmarking.py:104-107 | the sequential fold keeps the dictionary well-formed |
| Benchmarking.BenchmarkResults | nordnm/benchmarking.py:104-107 | without a raise there is one result per server, True exactly when its latency was truthy |
| Benchmarking.BenchmarkMaximal | nordnm/benchmarking.py:104-107 | every key holds a score at least that of every successful candidate server for it |
| Benchmarking.BenchmarkProvenance | nordnm/benchmarking.py:104-107 | every key's record was there before or is exactly the record of a successful candidate server |
| Benchmarking.BenchmarkCountries | nordnm/benchmarking.py:42 | every new key's country is the lower-cased flag of some measured server |
| Benchmarking.AutoConnectMissesBenchmarkKeys | nordnm/benchmarking.py:42 | an upper-cased country code that holds a letter, as auto-connect looks it up, is never a key of a fresh benchmark result |
| Benchmarking.BenchmarkAbsorbs | nordnm/benchmarking.py:104-107 | a raise in one comparison ends the run; later servers change nothing |
| Benchmarking.GetBestServers | nordnm/benchmarking.py:91-115 | a pool size below 1 raises ValueError; a raise inside a comparison propagates; otherwise the result is (the dictionary, the number of True results) |
| NetworkManager.Fields | nordnm/networkmanager.py:43 | splitting a stripped line on ':' gives at least one field |
| NetworkManager.SecondColumnRaisedPrefix | nordnm/networkmanager.py:41-46 | an IndexError on one line ends the parse; later lines do not matter |
| NetworkManager.CollectSecondColumn | nordnm/networkmanager.py:40-48 | the loop collects, in order, the second field of each non-empty line whose type is selected |
| NetworkManager.GetVpnConnections | nordnm/networkmanager.py:33-53 | a failed command raises AttributeError in its handler, which calls the undefined `utils.format_std_string`; otherwise the names of the `vpn` lines in order, or the IndexError of a bare `vpn` line |
| NetworkManager.InterfaceTypes | nordnm/networkmanager.py:68 | the selected types are exactly wifi (when asked) and ethernet (when asked) |
| NetworkManager.GetInterfaces | nordnm/networkmanager.py:56-80 | a failed command raises AttributeError in its handler, and nothing else raises; an error while parsing gives False; otherwise the devices of the selected types, in order |
| NetworkManager.TerseLinesParse | nordnm/networkmanager.py:41-48 | parsing lines made by joining rows with ':' gives back the second field of exactly the rows whose type is selected |
| NetworkManager.ParseTerseOutput | nordnm/networkmanager.py:38-48 | the same round trip through the whole output split on newlines |
| NetworkManager.DisconnectMatching | nordnm/networkmanager.py:264-268 | the inner loop issues one down per managed record with the line's name, by the line's UUID, stopping at a failed down |
| NetworkManager.DisconnectActiveVpn | nordnm/networkmanager.py:251-279 | a failed listing raises AttributeError with no downs issued; otherwise the downs are those of the line loop, a failed down raises AttributeError after it, and the result is true exactly when one was issued and the loop did not abort |
| NetworkManager.DisconnectLineOnlyManaged | nordnm/networkmanager.py:263-268 | one line only adds downs, and only its own UUID when its name is managed |
| NetworkManager.DisconnectOnlyManaged | nordnm/networkmanager.py:259-268 | every connection taken down is an active VPN whose name is managed; unmanaged VPNs stay up |
| NetworkManager.DisconnectFlag | nordnm/networkmanager.py:259-270 | the `disabled` flag is set exactly when a down was issued |
| NetworkManager.DisconnectResult | nordnm/networkmanager.py:252-273 | the result is true exactly when the loop did not abort and issued at least one down; the handler raises exactly when the last down issued failed |
| NetworkManager.Ipv6DisabledOnly | nordnm/networkmanager.py:174-176 | only ipv6.method changes, to 'ignore' |
| NetworkManager.NameserversOnly | nordnm/networkmanager.py:179-185 | the edit succeeds exactly when the ipv4 section exists and the ';'-joined list passes the `%` check of `ConfigParser`'s default interpolation (otherwise KeyError or ValueError); then only ipv4.dns (the join) and ipv4.ignore-auto-dns ('true') change |
| NetworkManager.NameserversRoundTrip | nordnm/networkmanager.py:180-182 | when the edit succeeds, splitting the stored dns value on ';' gives back the nameserver list |
| NetworkManager.PlainNameserversAccepted | nordnm/networkmanager.py:179-185 | nameservers without a `%` (dotted addresses) always pass the interpolation check, so the edit succeeds whenever the ipv4 section exists |
| NetworkManager.CredentialsOnly | nordnm/networkmanager.py:188-194 | the edit succeeds exactly when the vpn section exists (otherwise KeyError) and both username and password pass the `%` check of the `ConfigParser` built at line 148 with its default interpolation (otherwise ValueError); then vpn.password-flags becomes "0" and vpn.username the user, vpn-secrets is replaced by a section holding only the password, and nothing else changes |
| Text.LonePercentUnsafe | nordnm/networkmanager.py:146-148 | the `ConfigParser` here interpolates with `%`: a single `%` that neither doubles nor opens a `%(name)s` reference, as in `pa%ss`, makes a value unsafe to set |
| Text.EscapedIsSafe | nordnm/networkmanager.py:146-148 | doubling every `%` is the escape that interpolation expects: deleting the escapes gives the value without its `%` signs, and the doubled value is always safe to set |
| NetworkManager.LonePercentCredentialsRefused | nordnm/networkmanager.py:190-192 | a password such as `pa%ss` makes the credential edit fail with ValueError, whatever the config and username |
| NetworkManager.ConnectionConfig.constructor | nordnm/networkmanager.py:146-153 | a read connection config holds the file's sections |
| NetworkManager.ConnectionConfig.DisableIpv6 | nordnm/networkmanager.py:174-176 | the in-place edit succeeds exactly when the ipv6 section exists and then leaves the edited sections |
| NetworkManager.ConnectionConfig.SetDnsNameservers | nordnm/networkmanager.py:179-185 | the in-place edit succeeds exactly when the ipv4 section exists and the joined list passes the interpolation check, and then leaves the edited sections; a failure changes nothing |
| NetworkManager.ConnectionConfig.AddConnectionCredentials | nordnm/networkmanager.py:188-194 | the in-place edit succeeds exactly when the pure edit does, and then leaves its sections; without a vpn section nothing changes; a refused username leaves only password-flags set; a refused password leaves password-flags and username set and vpn-secrets emptied |
| NetworkManager.EditedConfigCredentials | nordnm/networkmanager.py:209-210 | credentials are applied exactly when both username and password are truthy; otherwise the vpn sections are untouched |
| NetworkManager.EditedConfigNetwork | nordnm/networkmanager.py:212-216 | DNS is applied only for a truthy list; ipv6 is disabled unless `ipv6=True`; otherwise those sections are untouched |
| NetworkManager.EditedConfigFails | nordnm/networkmanager.py:207-216 | the edits raise exactly when an applied edit lacks its section (KeyError) or sets a value the interpolation check refuses (ValueError) |
| NetworkManager.EditImported | nordnm/networkmanager.py:207-216 | the edits run in the source's order: credentials, then DNS, then ipv6; the first KeyError or ValueError stops them |
| NetworkManager.Host.RemoveFile | nordnm/networkmanager.py:138-143 | a missing file is NotFound, a refused one Refused; only a removed file leaves the set |
| NetworkManager.Host.RemoveAutoconnect | nordnm/networkmanager.py:136-143 | returns true when the file was missing or removed, and then the file is absent |
| NetworkManager.Host.RemoveKillswitch | nordnm/networkmanager.py:83-91 | a missing script returns true and leaves the persistence file; otherwise the script and then the persistence file are removed, and a missing persistence file still counts as success |
| NetworkManager.Host.RemoveConnection | nordnm/networkmanager.py:234-248 | with the failure handler as intended (see Findings): true exactly when the connection existed and the delete succeeded; then the connection and its config are gone, and otherwise nothing changes |
| NetworkManager.Host.SetAutoConnect | nordnm/networkmanager.py:117-133 | what `get_interfaces` raised propagates and nothing is written; otherwise the auto-connect script is written exactly when some interface was found |
| NetworkManager.Host.ImportConnection | nordnm/networkmanager.py:197-231 | with the failure handler as intended (see Findings): the gateway and configs change as the import effect says, and files do not change; a failed copy or import, or an edit that raises KeyError or ValueError, returns false |
| NetworkManager.ImportEffectConnections | nordnm/networkmanager.py:198-205 | the connection exists afterwards exactly unless the copy or the nmcli import failed |
| NetworkManager.ImportEffectSpec | nordnm/networkmanager.py:197-231 | a failed copy or import changes nothing; the result is true exactly when the import succeeded, a config was read and its edits apply without KeyError or ValueError (a `%` the interpolation refuses); a failed save still returns true |
| NetworkManager.Host.NmcliDeleteFailureRaises | nordnm/networkmanager.py:234-246 | as written, `remove_connection` never returns False: it raises AttributeError exactly for a name that does not exist or whose delete fails, where the corrected `RemoveConnection` returns false |
| NetworkManager.Host.NmcliImportFailureRaises | nordnm/networkmanager.py:197-229 | as written, `import_connection` raises AttributeError exactly when the copy succeeds and the nmcli import fails, where the corrected import reports a failed import that changed nothing; in every other case the two agree |
| NetworkManager.Host.RemovalAsWritten | nordnm/networkmanager.py:234-246 | as written, `remove_connection` never returns False: every failure raises AttributeError |
| NetworkManager.Host.ImportEffectAsWritten | nordnm/networkmanager.py:197-229 | as written, `import_connection` raises only AttributeError, and only for a name whose nmcli import fails |
| NordManager.HasValidCountryCases | nordnm/nordmanager.py:132-140 | no lists admit every code; a non-empty whitelist admits every non-empty code without a membership test; otherwise a blacklist admits its non-members |
| NordManager.WhitelistNotSearched | nordnm/nordmanager.py:136 | a code outside the whitelist is valid here but not selected by nordnm.py's rule |
| NordManager.FilterValid | nordnm/nordmanager.py:192 | the filtered server list is an order-preserving sub-list |
| NordManager.FilterValidCount | nordnm/nordmanager.py:131-162 | a server that is valid (country, protocol, category) is kept as often as the input holds it; any other server is dropped |
| NordManager.FirstConfigSpec | nordnm/nordmanager.py:106-108 | None exactly when no file matches the glob; otherwise the first match |
| NordManager.StageStepRecords | nordnm/nordmanager.py:217-230 | a key goes into `new_servers` exactly when its connection exists or a config file was found; only an attempted import changes the gateway |
| NordManager.StagedFromBest | nordnm/nordmanager.py:215-230 | `new_servers` holds only keys of the benchmark result, with their own records |
| NordManager.StagedIncludes | nordnm/nordmanager.py:215-230 | a key ends in `new_servers` exactly when, at its turn, its connection existed or its config file was found |
| NordManager.FailedImportStillKept | nordnm/nordmanager.py:224-230 | a key whose import fails is still put in `new_servers` |
| NordManager.Manager.constructor | nordnm/nordmanager.py:34-41 | both caches start empty and nothing is written |
| NordManager.Manager.GetActiveServers | nordnm/nordmanager.py:56-65 | a truthy cache is returned as is; otherwise the stored file, if any, is loaded into the cache |
| NordManager.Manager.SetActiveServers | nordnm/nordmanager.py:67-71 | the setter writes the file and leaves the cache alone |
| NordManager.Manager.GetConfigInfo | nordnm/nordmanager.py:43-48 | a truthy cache is returned; otherwise the file's content without newlines is cached and returned; a missing file raises |
| NordManager.Manager.SetConfigInfo | nordnm/nordmanager.py:50-54 | the setter writes both the file and the cache |
| NordManager.Manager.SyncServers | nordnm/nordmanager.py:180-235 | exits with status 1 exactly when the list is missing or no server is valid, changing nothing; otherwise the file is written empty, then, if `new_servers` is non-empty, written with the getter's map merged with `new_servers` (new entries win) |
| NordManager.Manager.Rebuild | nordnm/nordmanager.py:211-235 | the file trace is {} then the merge; the gateway and configs are those of the staging loop; auto-connect is removed |
| NordManager.Manager.AddNewServers | nordnm/nordmanager.py:231-233 | with no new server nothing is written; otherwise one write of the map the getter returns (the cache when truthy, else the file) merged with the new servers, which the file then holds |
| NordManager.Manager.CollectNewServers | nordnm/nordmanager.py:215-230 | the loop builds exactly the pairs its specification stages, in key order |
| NordManager.Manager.StageOne | nordnm/nordmanager.py:216-230 | one iteration extends the staged pairs and gateway as the fold's next step |
| NordManager.Manager.Sync | nordnm/nordmanager.py:92-95 | `sync_servers` returns None, so `sync` never reloads; otherwise as `sync_servers` |
| Importer.Candidates | nordnm/importer.py:175-193 | the valid server list is an order-preserving sub-list of the fetched one |
| Importer.CandidatesCount | nordnm/importer.py:181-188 | a server with a selected country and an OpenVPN feature is kept as often as the input holds it; any other server is dropped; categories and protocols are ignored |
| Importer.StricterThanNordNM | nordnm/importer.py:187 | every server nordnm.py's filter keeps is also kept here |
| Importer.PassStepSkips | nordnm/importer.py:233-242 | an iteration whose config file is missing or whose import fails leaves the list, the writes and the count unchanged |
| Importer.PassAllSpec | nordnm/importer.py:226-242 | the pass only appends distinct names; one new connection per append; one write per append, each holding the list up to that name; `updated` is set exactly when it already was or a connection was added |
| Importer.PassNamesFromBest | nordnm/importer.py:227-239 | every appended name is the name of a non-empty entry of `best_servers` |
| Importer.Importer.constructor | nordnm/importer.py:48-63 | setup: the config handler, the lists as read from it, the loaded active list, an empty `best_servers` |
| Importer.Importer.GetValidServers | nordnm/importer.py:175-193 | None exactly when the fetched list is falsy; otherwise the filtered list |
| Importer.Importer.PurgeActiveConnections | nordnm/importer.py:132-150 | auto-connect removed first when asked; every listed connection deleted; the list becomes [] and is written once; true exactly when the list was non-empty |
| Importer.Importer.CommitBestServers | nordnm/importer.py:226-242 | the gateway, list, writes, flag and count are those of the commit pass over `best_servers` in key order |
| Importer.Importer.SyncServers | nordnm/importer.py:202-255 | exits with status 1 and changes nothing when no configs, no list or no valid server; otherwise a failed active-connection listing raises AttributeError in `disconnect_active_vpn`, and then `get_ping_attempts` raises NoSectionError exactly when no positive value is stored and there is no [Benchmarking] section, both changing nothing; otherwise purges then runs the commit pass; the list ends duplicate-free; the count equals its length; `updated` holds exactly when the old or new list is non-empty |
| Importer.Importer.SelectAutoConnect | nordnm/importer.py:120-130 | true exactly when (upper(country), category, protocol) is in `best_servers`; an empty entry raises KeyError; otherwise what `get_interfaces` raised propagates; the script is written only on success |
| Importer.Importer.Run | nordnm/importer.py:65-81 | sync wins over purge; a sync that does not exit raises AttributeError for a failed active-connection listing and otherwise NoSectionError under the condition `SyncServers` states; a requested auto-connect's result replaces `updated`, and its raise is KeyError or the one from `get_interfaces`; restart happens exactly when the final `updated` is true |
| LegacyImport.GetBlacklist | import.py:68-69 | the setting split on ' ': at least one token, no token holds a space, and they join back to the setting |
| LegacyImport.GetWhitelist | import.py:71-72 | the same for the whitelist |
| LegacyImport.EmptySettingIsTruthy | import.py:71-72 | an empty setting yields `['']`, a truthy list |
| LegacyImport.CountryCode | import.py:149-151 | the first two characters of the name (fewer for a shorter name) |
| LegacyImport.Stem | import.py:122 | `splitext`'s stem is a prefix of the name |
| LegacyImport.StemOfConfigName | import.py:122 | the stem of `stem.ext` is `stem` |
| LegacyImport.RemoveFirst | import.py:129 | `list.remove` takes away exactly one occurrence of the name |
| LegacyImport.PurgeSkipsFollower | import.py:155-157 | with `us1`, `us2` active and `us` blacklisted, the purge removes only `us1`: the follower of a removed element is skipped |
| LegacyImport.PurgeRemovesOnlyBlacklisted | import.py:155-157 | a name whose code is not blacklisted stays; the list never grows; only active blacklisted connections are deleted |
| LegacyImport.ImportAllAppends | import.py:160-169 | the import loop only appends, and appends each stem at most once and only if it was not active |
| LegacyImport.ImportAllProvenance | import.py:160-169 | every appended stem is that of a listed file whose code passes the whitelist/blacklist rule |
| LegacyImport.CredentialsError | import.py:99-116 | `add_credentials` raises exactly when the connection file exists and its credential edit fails: KeyError without a vpn section, ValueError for a refused `%`; without the file it returns quietly |
| LegacyImport.ImportAllConnections | import.py:160-169 | the gateway gains every appended name; a name gained but not appended is one whose credential edit raised, and that error ends the loop; active names stay |
| LegacyImport.ImportAllComplete | import.py:160-169 | without an error every wanted file's stem ends up active |
| LegacyImport.ImportErrorSticks | import.py:160-169 | after a failed `nmcli` import, the rest of the loop does nothing |
| LegacyImport.ImportAllConcat | import.py:160-169 | the loop over two listings is the loop over the first, then the second |
| LegacyImport.Importer.constructor | import.py:75-91 | lists, username and password come from the settings file when it exists, and are the defaults otherwise; the active list comes from the list file |
| LegacyImport.Importer.AddCredentials | import.py:99-116 | the in-place credential edit raises exactly the error `CredentialsError` gives for the file |
| LegacyImport.Importer.RemoveConnection | import.py:126-129 | a failed delete raises and changes nothing; otherwise the connection is gone and the name's first occurrence is removed from the list, or ValueError when it was not listed |
| LegacyImport.Importer.ImportOvpn | import.py:120-124 | a failed import raises; otherwise the stem becomes a connection, the credential edit runs, and the stem is appended only when that edit did not raise |
| LegacyImport.Importer.Purge | import.py:155-157 | the purge loop's effect is its index-by-index specification |
| LegacyImport.Importer.ImportFiles | import.py:160-169 | the import loop's effect is its specification |
| LegacyImport.Importer.Start | import.py:93-97 | purge then import; the list is written once, only when nothing raised |
| Settings.Get | nordnm/settings.py:83 | a value exists exactly when the section and the lower-cased option do; otherwise NoSectionError or NoOptionError |
| Settings.GetBoolean | nordnm/settings.py:101 | true/false exactly for configparser's true and false words; anything else raises |
| Settings.UpperTokens | nordnm/settings.py:85 | the upper-cased `' '`-split tokens: at least one, none holds a space, joining them gives the upper-cased setting |
| Settings.CountryList | nordnm/settings.py:82-94 | errors propagate; None exactly for an empty setting; otherwise the tokens, a truthy list |
| Settings.CountryListUnique | nordnm/settings.py:82-87 | the description of `get_blacklist` determines its result |
| Settings.EnabledCategoriesSpec | nordnm/settings.py:96-104 | the result raises when some option does (the first one wins); otherwise it is the sub-sequence of table names whose option is true |
| Settings.EnabledCategoriesReadBack | nordnm/settings.py:96-104 | options that read as the set `keep` give exactly the table names in `keep`, in order |
| Settings.EnabledCategoriesRaised | nordnm/settings.py:99-101 | the first option that raises decides the error |
| Settings.EnabledCategoriesRaisedExtend | nordnm/settings.py:99-101 | once a category raises, the longer loops raise the same |
| Settings.Protocols | nordnm/settings.py:106-115 | tcp is read first and its error wins; the result is the sub-sequence of [tcp, udp] whose options are true |
| Settings.Decimal | nordnm/settings.py:56 | `str(n)` is a non-empty string of digits |
| Settings.ParseDecimal | nordnm/settings.py:119 | `int(str(n)) == n` |
| Settings.StoredPingAttempts | nordnm/settings.py:118-121 | a stored value is used only when it parses to a positive integer |
| Settings.DefaultPingAttemptsSticks | nordnm/settings.py:125-127 | after the default is written back, the next read returns 5 through the first branch |
| Settings.SortedCategoryNames | nordnm/settings.py:43 | the table's names in sorted order |
| Settings.SortedNamesAreTableNames | nordnm/settings.py:43 | the sorted names are exactly the table's names |
| Settings.OptionKey | nordnm/settings.py:45 | the option name keeps its length and lower-cases its first letter |
| Settings.CategoriesSectionLookup | nordnm/settings.py:43-45 | each asked category's option holds its answer |
| Settings.TableOptionsDistinct | nordnm/config.py:46-48 | the six category options are distinct |
| Settings.SortedOptionsDistinct | nordnm/settings.py:43-45 | the same in sorted order |
| Settings.SavedSettingsAreNew | nordnm/settings.py:22-59 | the four sections the prompt builds fit the new-settings description: the stored whitelist, the blacklist (empty unless the whitelist is), the categories, tcp and udp as yes/no, and the ping attempts (5 when left empty) all read back as answered |
| Settings.NewSettingsReadBack | nordnm/settings.py:22-59 | new settings read back as entered: never both a whitelist and a blacklist; a whitelist exactly when one was typed; the enabled categories in table order; the chosen protocols; 5 ping attempts by default, or the positive number typed |
| Settings.AnswerReadsBack | nordnm/settings.py:44-45 | a stored `str(bool).lower()` reads back as that bool |
| Settings.CategoriesReadBack | nordnm/settings.py:96-104 | a categories section written in any complete order reads back as the enabled names in table order |
| Settings.SettingsHandler.constructor | nordnm/settings.py:12-20 | loaded settings are kept; otherwise new ones are prompted for and written once |
| Settings.SettingsHandler.GetBlacklist | nordnm/settings.py:82-87 | the stored blacklist as upper-cased tokens, None when empty |
| Settings.SettingsHandler.GetWhitelist | nordnm/settings.py:89-94 | the stored whitelist as upper-cased tokens, None when empty |
| Settings.SettingsHandler.GetCategories | nordnm/settings.py:96-104 | the loop returns the enabled table names in table order, or the first raise |
| Settings.SettingsHandler.GetProtocols | nordnm/settings.py:106-115 | the enabled protocols, tcp first |
| Settings.SettingsHandler.GetPingAttempts | nordnm/settings.py:117-127 | a stored positive value is returned; otherwise 5 is returned and written back; a missing section raises NoSectionError on the write |
| Settings.SettingsHandler.SaveNewSettings | nordnm/settings.py:22-59 | the settings fit the new-settings description with sorted categories; whitelist and blacklist are never both set; one write |
| Settings.AskCategories | nordnm/settings.py:43-45 | the prompt loop builds one answer per category; each table category's option holds its answer |
| Settings.SettingsPromptRaises | nordnm/settings.py:41-50 | whatever the answers, the prompts as written raise AttributeError at the first `input_yes_no` and leave settings without a [Protocols] section, which are never the new settings for those answers |
| Settings.NewSettingsAsWritten | nordnm/settings.py:34-45 | as written, the prompts raise AttributeError before [Protocols] and [Benchmarking] are added |
| Configuration.ConfigHandler.constructor | nordnm/config.py:12-23 | loaded config kept; otherwise prompted and written once |
| Configuration.ConfigPromptRaises | nordnm/config.py:37-53 | whatever the answers, the prompts as written raise: ValueError exactly when a country answer the parser sets holds a `%` its default interpolation refuses, AttributeError from `input_yes_no` otherwise; the configuration left is never the new one |
| Configuration.NewConfigAsWritten | nordnm/config.py:37-47 | as written, the prompts raise ValueError or AttributeError before [Protocols] and [Benchmarking] are added |
| Configuration.ConfigHandler.GetBlacklist | nordnm/config.py:85-90 | the stored blacklist as upper-cased tokens, None when empty |
| Configuration.ConfigHandler.GetWhitelist | nordnm/config.py:92-97 | the stored whitelist as upper-cased tokens, None when empty |
| Configuration.ConfigHandler.GetCategories | nordnm/config.py:99-107 | the enabled table names in table order, or the first raise |
| Configuration.ConfigHandler.GetProtocols | nordnm/config.py:109-118 | the enabled protocols, tcp first |
| Configuration.ConfigHandler.GetPingAttempts | nordnm/config.py:120-130 | a stored positive value, else 5 written back; a missing section raises |
| Configuration.ConfigHandler.SaveNewConfig | nordnm/config.py:25-62 | the config fits the new-settings description with categories in table order; whitelist and blacklist are never both set; one write |

## Left out

- Network access is not modelled: the server list, nameservers, config downloads and zip extraction. These become parameters (a fetched list or None, a directory listing).
- `subprocess` calls to `nmcli` and `systemctl` are not run. What they would report becomes data: output text and failure sets on `Host`. `restart` and `set_killswitch` are not modelled. `set_killswitch` writes templated shell text.
- `reload_connections` and `enable_connection` are not defined in `nordnm/networkmanager.py`. They are called at nordnm.py:178 and :224 and at nordmanager.py:95 and :123, and each call raises AttributeError. The model raises it in `NordNM.NordNM.EnableAutoConnect`. The `sync` calls are never reached in nordmanager.py, and nordnm.py's `sync` is not part of this model.
- NordNM.NordNM.EnableAutoConnect: the `disconnect_active_vpn` it runs after `set_auto_connect` has written the file (nordnm.py:222-223) is not applied, as in the sync routines. What it could raise is AttributeError, the result the method already gives on that path.
- The nameserver list comes from `nordapi.get_nameservers()`, which returns the raw response bytes or None (nordnm/nordapi.py:36-40). Joining `map(str, …)` over bytes would join their decimal byte codes. The model takes a list of strings instead, so that join of byte codes is not modelled.
- `disconnect_active_vpn` is modelled on its own. Inside the sync routines its downs are not applied, because `Host` records which connections exist, not which are up.
- `connection_exists` (nordnm.py:305, nordmanager.py:164) is modelled as membership in `Host.connections` in `NordNM.NordNM.RemoveIfExists`, in the commit step of `NordNM.NordNM.CommitBestServers` (`NordNM.NordNM.CommitOne`) and in `NordManager.Manager.StageOne`. As written, `get_vpn_connections` raises AttributeError for a failed listing (its handler calls the undefined `utils.format_std_string`) and IndexError for a `vpn` line without a `:`; those raises are not modelled at these call sites.
- Pickle files, settings files and the config-info file are modelled as map or option fields plus a `saves` trace. Failed writes and unreadable pickles are not modelled. A list file that fails to unpickle would leave the list None.
- Directory creation, `chown` and `make_executable` are not modelled.
- The score formula (`numpy.exp`, `Decimal`, `round`) is left out. Each measured server carries its score as a real, together with the rtt and loss. `utils.get_rtt_loss` does not exist in the repository, so those values are inputs.
- The multiprocessing pool and shared `Manager` dict are left out. The comparisons are folded in list order, so concurrent interleavings are not modelled.
- `getrlimit` and the descriptor count are parameters of `GetNumProcesses`.
- `nordmanager.py`:
  - `paths.ROOT`, `paths.LEGACY_FILES`, `paths.OVPN_CONFIGS` and `paths.CONFIG_INFO` do not exist in `nordnm/paths.py`. `remove_killswitch()` is called without its argument. The model supplies the path, and the legacy-file removal is left out.
  - `enable_auto_connect`, `delete_configs`, `download_configs` and `ensure_config_dirs` are not part of this model.
- `nordnm.py`: the command-line dispatch in `__init__`, `sync` with its config download, the splash and the printing commands are not modelled.
- `importer.py`: `get_configs` and `create_directories` are not modelled.
- `import.py`:
  - `add_credentials` reads the connection file for the stem, or the one with a trailing `_`; the model takes one keyfile per stem. The keyfile written back is not modelled.
  - `get_username` and `get_password` read through the settings handler, whose `ConfigParser` interpolates `%` on read (a stored `%%` reads back as `%`); the model takes the values the getters return, after interpolation.
  - `download_configs` and the `ConfigHandler` save and load are not modelled.
  - The final `service network-manager restart` is not modelled.
- Settings and config handlers:
  - Interactive prompts (`input`, `input_yes_no`) become parameters of the corrected saves (see Findings).
  - The comment keys written with `allow_no_value` are not stored.
  - `config.py`'s `%` interpolation is modelled only in `Configuration.NewConfigAsWritten`. Reading a stored value holding a `%` is not modelled.
  - A settings section maps each option to a string. Options that `allow_no_value` leaves as None are not represented. For such an option `get_blacklist` and `get_whitelist` return None (settings.py:82-94); `int(None)` in `get_ping_attempts` raises a TypeError that settings.py:122 catches, so the default is used; `getboolean` raises AttributeError in `get_categories` and `get_protocols`. None of this is modelled, nor is the `[DEFAULT]` section's fallback for options missing from a section.
  - Case mapping is ASCII-only.
  - `int()` is modelled for optional whitespace, an optional sign and ASCII digits. Underscores and non-ASCII digits are not accepted.
- NordNM.CommitStepRecords: follows the corrected `import_connection`, where a failed nmcli import gives False; as written that import raises AttributeError (see Findings).
- NordNM.NordNM.RemoveActiveConnections: follows the corrected `remove_connection`, where a failed delete gives False; as written the first failed delete raises AttributeError (see Findings).
- NetworkManager.ImportEffectSpec: states the corrected `import_connection`; as written a failed nmcli import raises AttributeError (see Findings).
- NetworkManager.Host.RemoveConnection: states the corrected handler; as written a failed delete raises AttributeError (see Findings).
- NetworkManager.Host.ImportConnection: states the corrected handler; as written a failed nmcli import raises AttributeError (see Findings).
- NordManager.FailedImportStillKept: follows the corrected `import_connection`; as written a failed nmcli import raises AttributeError and the sync stops there (see Findings).
- Importer.PassStepSkips: follows the corrected `import_connection`; as written a failed nmcli import raises AttributeError (see Findings).
- Importer.Importer.PurgeActiveConnections: follows the corrected `remove_connection`; as written the first failed delete raises AttributeError (see Findings).
- Settings.SettingsHandler.constructor: states the settings the prompts were meant to save; as written the first `input_yes_no` raises AttributeError (see Findings).
- Settings.SettingsHandler.SaveNewSettings: states the intended save; as written it raises at the first `input_yes_no` (see Findings).
- Configuration.ConfigHandler.constructor: states the configuration the prompts were meant to save; as written the prompts raise (see Findings).
- Configuration.ConfigHandler.SaveNewConfig: states the intended save. As written it raises at the first `input_yes_no`, or earlier with ValueError for a country answer holding a `%` the default interpolation refuses (config.py:40-42); the corrected save does not model that ValueError (see Findings).
- NordNM.NordNM.constructor: takes the country lists and the category and protocol policy as given. What `get_blacklist`, `get_whitelist`, `get_categories` and `get_protocols` raise for a missing section or a malformed boolean is not modelled.
- NordManager.Manager.constructor: as written, `__init__` always raises AttributeError. It calls `ensure_config_dirs` first (nordmanager.py:35), and that reads the undefined `paths.ROOT` at nordmanager.py:99 under a handler for `FileExistsError` only, so no method of the class is ever reached. The model supplies the directories and constructs the handler as if the paths existed. It also takes the country lists and the policy as given; a raise from those getters is not modelled.
- Importer.Importer.constructor: takes the country lists as given; what `get_blacklist` and `get_whitelist` raise for a missing section or option is not modelled.
- NordNM.NordNM.SyncServers: the NoSectionError of `get_ping_attempts` (nordnm.py:359), the raises of `getboolean` while filtering (nordnm.py:274-284) and the AttributeError `disconnect_active_vpn` can raise are not modelled; the benchmark result is an input.
- NordManager.Manager.SyncServers: the NoSectionError of `get_ping_attempts` (nordmanager.py:174), the raises of `getboolean` while filtering (nordmanager.py:143-153) and the AttributeError `disconnect_active_vpn` can raise are not modelled.
- Importer.Importer.SyncServers: `disconnect_active_vpn` is handed the active list at importer.py:214. The list has no `values()`, so the function can raise only for a failed listing and never takes a connection down; the model states just that raise.
- NordNM.NordNM.SyncServers: does not state which dispatcher files a successful sync leaves.
- NordManager.Manager.SyncServers: states only that no dispatcher file is added and that auto-connect is gone unless its removal fails. Which kill-switch files go is not stated.
- Importer.Importer.Run: states the exit, purge-only and restart decisions. The state after a sync is stated by `Importer.Importer.SyncServers` and not repeated.

## Findings

| source | as written | input that shows it | evidently intended | confidence | as-written member | corrected member |
|---|---|---|---|---|---|---|
| nordnm/networkmanager.py:241-244 | the `CalledProcessError` handler of `remove_connection` calls `utils.format_std_string`, which nordnm/utils.py does not define, so a failed delete raises AttributeError | removing a connection name that nmcli does not know | log the nmcli error and return False | not executed | NetworkManager.Host.RemovalAsWritten | NetworkManager.Host.RemoveConnection |
| nordnm/networkmanager.py:224-227 | the `CalledProcessError` handler of `import_connection` calls the same undefined function, so a failed nmcli import raises AttributeError | importing a file that nmcli rejects, such as a truncated .ovpn file | log the nmcli error and return False | not executed | NetworkManager.Host.ImportEffectAsWritten | NetworkManager.Host.ImportConnection |
| nordnm/settings.py:44 | `save_new_settings` calls `utils.input_yes_no`, which nordnm/utils.py does not define, so the first category prompt raises AttributeError and nothing is saved | a first run with no settings file, whatever the answers | ask a yes/no question and store `str(answer).lower()` | not executed | Settings.NewSettingsAsWritten | Settings.SettingsHandler.SaveNewSettings |
| nordnm/config.py:47 | `save_new_config` calls the same undefined `utils.input_yes_no`, so it raises AttributeError, or ValueError earlier for a country answer holding a lone `%` | a first run with no config file, whatever the answers | ask a yes/no question and store `str(answer).lower()` | not executed | Configuration.NewConfigAsWritten | Configuration.ConfigHandler.SaveNewConfig |
