/** nordnm/config.py: the ConfigHandler the importer reads its country
    lists and ping attempts through, an earlier copy of the settings
    handler. It differs from it in asking for the categories in table order
    rather than sorted order; the configparser model, the getters' meaning
    and the save's read-back are shared with the Settings module. */
module Configuration {
  import opened Basics
  import opened Text
  import opened NordApi
  import opened NetworkManager
  import opened Settings

  class ConfigHandler {
    /** self.config, as configparser parsed it. */
    var config: Config
    /** Every configuration written to the file, in order. */
    var saves: seq<Config>

    /** __init__: the configuration file as loaded, or None when it is
        missing or does not parse, in which case a new configuration is
        asked for (the answers are the remaining parameters) and saved. */
    constructor(loaded: Option<Config>, whitelist: string, blacklist: string, enabled: set<string>,
                tcp: bool, udp: bool, pingAttempts: string)
      ensures loaded.Some? ==> config == loaded.value && saves == []
      ensures loaded.None? ==>
        IsNewSettings(config, CategoryNames(), whitelist, blacklist, enabled, tcp, udp, pingAttempts)
        && saves == [config]
    {
      config := if loaded.Some? then loaded.value else map[];
      saves := [];
      new;
      if loaded.None? {
        SaveNewConfig(whitelist, blacklist, enabled, tcp, udp, pingAttempts);
      }
    }

    /** get_blacklist */
    function GetBlacklist(): (r: Result<Option<seq<string>>>)
      reads this
      ensures CountryListOf(r, Get(config, "Countries", "country-blacklist"))
    {
      CountryList(config, "country-blacklist")
    }

    /** get_whitelist */
    function GetWhitelist(): (r: Result<Option<seq<string>>>)
      reads this
      ensures CountryListOf(r, Get(config, "Countries", "country-whitelist"))
    {
      CountryList(config, "country-whitelist")
    }

    /** get_categories: the table's names, in table order, whose option is true. */
    method GetCategories() returns (r: Result<seq<string>>)
      ensures r == EnabledCategories(config, CategoryNames())
      ensures CategoriesOf(r, config, CategoryNames())
    {
      EnabledCategoriesSpec(config, CategoryNames());
      var names := CategoryNames();
      var categories := [];
      var i := 0;
      while i < |names|
        invariant 0 <= i <= |names|
        invariant EnabledCategories(config, names[..i]) == Ok(categories)
      {
        assert names[..i + 1][..i] == names[..i];
        var enabled := GetBoolean(config, "Categories", OptionName(names[i]));
        if enabled.Raised? {
          EnabledCategoriesRaised(config, names, i + 1);
          assert names[..|names|] == names;
          return Raised(enabled.error);
        }
        if enabled.value {
          categories := categories + [names[i]];
        }
        i := i + 1;
      }
      assert names[..i] == names;
      return Ok(categories);
    }

    /** get_protocols */
    function GetProtocols(): (r: Result<seq<string>>)
      reads this
      ensures ProtocolsOf(r, config)
    {
      Protocols(config)
    }

    /** get_ping_attempts: a stored positive integer is returned; otherwise
        the default is returned and written back into the configuration
        (not the file). Writing it back raises NoSectionError when there is no
        [Benchmarking] section, and that is not caught. */
    method GetPingAttempts() returns (r: Result<int>)
      modifies this
      ensures r.Ok? ==> r.value > 0
      ensures StoredPingAttempts(old(config)).Some? ==>
        r == Ok(StoredPingAttempts(old(config)).value) && config == old(config)
      ensures StoredPingAttempts(old(config)).None? && "Benchmarking" in old(config) ==>
        r == Ok(DEFAULT_PING_ATTEMPTS) && config == WithDefaultPingAttempts(old(config))
      ensures StoredPingAttempts(old(config)).None? && "Benchmarking" !in old(config) ==>
        r == Raised(NoSectionError) && config == old(config)
      ensures saves == old(saves)
    {
      var stored := StoredPingAttempts(config);
      if stored.Some? {
        return Ok(stored.value);
      }
      if "Benchmarking" !in config {
        return Raised(NoSectionError);
      }
      config := WithDefaultPingAttempts(config);
      return Ok(DEFAULT_PING_ATTEMPTS);
    }

    /** save_new_config, given the user's answers: the whitelist prompt
        first, the blacklist prompt only when it was left empty, one yes/no
        per category in table order, tcp, udp, and the ping attempts (empty
        for the default). The configuration is then saved once. */
    method SaveNewConfig(whitelist: string, blacklist: string, enabled: set<string>,
                           tcp: bool, udp: bool, pingAttempts: string)
      modifies this
      ensures IsNewSettings(config, CategoryNames(), whitelist, blacklist, enabled, tcp, udp, pingAttempts)
      ensures !(Truthy(GetWhitelist().value) && Truthy(GetBlacklist().value))
      ensures saves == old(saves) + [config]
    {
      var black := "";
      if whitelist == "" {
        black := blacklist;
      }
      var countries := map["country-blacklist" := black, "country-whitelist" := whitelist];
      var categories := AskCategories(CategoryNames(), enabled);
      var protocols := map["tcp" := Answer(tcp), "udp" := Answer(udp)];
      var ping := if pingAttempts == "" then Decimal(DEFAULT_PING_ATTEMPTS) else pingAttempts;
      config := map["Countries" := countries, "Categories" := categories, "Protocols" := protocols,
                      "Benchmarking" := map["ping-attempts" := ping]];
      TableOrder();
      SavedSettingsAreNew(config, CategoryNames(), whitelist, blacklist, enabled, tcp, udp, pingAttempts);
      NewSettingsReadBack(config, CategoryNames(), whitelist, blacklist, enabled, tcp, udp, pingAttempts);
      saves := saves + [config];
    }
  }

  /** save_new_config as the repository has it. The parser keeps
      ConfigParser's default interpolation, so setting the blacklist answer
      (which counts only when the whitelist answer is empty) and then the
      whitelist answer raises ValueError for a `%` it refuses; otherwise
      the first category prompt raises AttributeError, utils.input_yes_no
      not being defined in nordnm/utils.py. Nothing has been saved. */
  function NewConfigAsWritten(whitelist: string, blacklist: string): (r: (Error, Config))
    ensures r.0 == ValueError || r.0 == AttributeError
    ensures "Protocols" !in r.1 && "Benchmarking" !in r.1
  {
    var black := if whitelist == "" then blacklist else "";
    if !InterpolationSafe(black) then (ValueError, map["Countries" := map[]])
    else if !InterpolationSafe(whitelist) then (ValueError, map["Countries" := map["country-blacklist" := black]])
    else (AttributeError, map["Countries" := map["country-blacklist" := black, "country-whitelist" := whitelist],
                              "Categories" := map[]])
  }

  /** Whatever the answers, the prompts as written raise (ValueError exactly
      for a refused `%`) and leave a configuration that is not the one
      SaveNewConfig writes for them. */
  lemma ConfigPromptRaises(whitelist: string, blacklist: string, enabled: set<string>,
                           tcp: bool, udp: bool, pingAttempts: string)
    ensures NewConfigAsWritten(whitelist, blacklist).0 == ValueError
            || NewConfigAsWritten(whitelist, blacklist).0 == AttributeError
    ensures NewConfigAsWritten(whitelist, blacklist).0 == ValueError
            <==> !InterpolationSafe(if whitelist == "" then blacklist else "") || !InterpolationSafe(whitelist)
    ensures !IsNewSettings(NewConfigAsWritten(whitelist, blacklist).1, CategoryNames(),
                           whitelist, blacklist, enabled, tcp, udp, pingAttempts)
  {
  }
}
