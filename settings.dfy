/** nordnm/settings.py: the user's settings file, parsed by configparser
    into sections of options, and the getters the sync reads it through.
    The prompts of save_new_settings are replaced by their answers, and the
    file write by a log of the settings written. */
module Settings {
  import opened Basics
  import opened Text
  import opened NordApi
  import opened NetworkManager

  const DEFAULT_PING_ATTEMPTS: int := 5

  // ---------------------------------------------------------------------
  // configparser
  // ---------------------------------------------------------------------

  /** ConfigParser.get: option names are lower-cased (optionxform) when a
      file is read and when an option is looked up. */
  function Get(cfg: Config, section: string, option: string): (r: Result<string>)
    ensures r.Ok? <==> section in cfg && Lower(option) in cfg[section]
    ensures r.Raised? ==> r.error == if section in cfg then NoOptionError else NoSectionError
  {
    if section !in cfg then Raised(NoSectionError)
    else if Lower(option) !in cfg[section] then Raised(NoOptionError)
    else Ok(cfg[section][Lower(option)])
  }

  const TRUE_STATES: set<string> := {"1", "yes", "true", "on"}
  const FALSE_STATES: set<string> := {"0", "no", "false", "off"}

  /** ConfigParser.getboolean: the value, lower-cased, must be one of the
      boolean words; anything else raises ValueError. */
  function GetBoolean(cfg: Config, section: string, option: string): (r: Result<bool>)
    ensures r.Ok? ==> Get(cfg, section, option).Ok?
    ensures r == Ok(true) <==> Get(cfg, section, option).Ok? && Lower(Get(cfg, section, option).value) in TRUE_STATES
    ensures r == Ok(false) <==> Get(cfg, section, option).Ok? && Lower(Get(cfg, section, option).value) in FALSE_STATES
  {
    match Get(cfg, section, option)
    case Raised(e) => Raised(e)
    case Ok(v) =>
      if Lower(v) in TRUE_STATES then Ok(true)
      else if Lower(v) in FALSE_STATES then Ok(false)
      else Raised(ValueError)
  }

  // ---------------------------------------------------------------------
  // Country lists
  // ---------------------------------------------------------------------

  /** [code.upper() for code in s.split(' ')] */
  function UpperTokens(s: string): (r: seq<string>)
    ensures |r| >= 1
    ensures forall i :: 0 <= i < |r| ==> ' ' !in r[i]
    ensures Join(r, ' ') == Upper(s)
  {
    var parts := Split(s, ' ');
    SplitFields(s, ' ');
    JoinSplit(s, ' ');
    UpperJoin(parts);
    var r := seq(|parts|, i requires 0 <= i < |parts| => Upper(parts[i]));
    forall i | 0 <= i < |r|
      ensures ' ' !in r[i]
    {
      UpperKeepsSpaces(parts[i]);
    }
    r
  }

  /** Upper-casing never makes or removes a space. */
  lemma UpperKeepsSpaces(s: string)
    ensures ' ' in Upper(s) <==> ' ' in s
  {
    if ' ' in s {
      var i :| 0 <= i < |s| && s[i] == ' ';
      assert Upper(s)[i] == ' ';
    }
    if ' ' in Upper(s) {
      var i :| 0 <= i < |s| && Upper(s)[i] == ' ';
      assert s[i] == ' ';
    }
  }

  lemma UpperConcat(a: string, b: string)
    ensures Upper(a + b) == Upper(a) + Upper(b)
  {
  }

  /** Upper-casing the fields and joining them by spaces is upper-casing the joined string. */
  lemma {:induction false} UpperJoin(parts: seq<string>)
    ensures Join(seq(|parts|, i requires 0 <= i < |parts| => Upper(parts[i])), ' ') == Upper(Join(parts, ' '))
    decreases |parts|
  {
    var ups := seq(|parts|, i requires 0 <= i < |parts| => Upper(parts[i]));
    if |parts| > 1 {
      var rest := parts[1..];
      UpperJoin(rest);
      assert ups[1..] == seq(|rest|, i requires 0 <= i < |rest| => Upper(rest[i]));
      UpperConcat(parts[0] + [' '], Join(rest, ' '));
      UpperConcat(parts[0], [' ']);
    }
  }

  /** What get_blacklist / get_whitelist return for a stored setting: the
      error of the lookup, None for an empty setting, and otherwise the
      space-free fields that, joined by spaces, are the setting upper-cased
      (so empty codes are kept). */
  predicate CountryListOf(r: Result<Option<seq<string>>>, stored: Result<string>)
  {
    && (r.Raised? <==> stored.Raised?)
    && (r.Raised? ==> r.error == stored.error)
    && (r.Ok? ==> (r.value.Some? <==> stored.value != ""))
    && (r.Ok? && r.value.Some? ==>
          && |r.value.value| >= 1
          && Join(r.value.value, ' ') == Upper(stored.value)
          && (forall i :: 0 <= i < |r.value.value| ==> ' ' !in r.value.value[i]))
  }

  /** get_blacklist / get_whitelist on the given option of [Countries]. */
  function CountryList(cfg: Config, option: string): (r: Result<Option<seq<string>>>)
    ensures CountryListOf(r, Get(cfg, "Countries", option))
    ensures r.Ok? && r.value.Some? ==> Truthy(r.value)
  {
    match Get(cfg, "Countries", option)
    case Raised(e) => Raised(e)
    case Ok(s) => if s == "" then Ok(None) else Ok(Some(UpperTokens(s)))
  }

  /** The fields of a country list are determined by the setting: no two
      lists both read as the same setting. */
  lemma CountryListUnique(r1: Result<Option<seq<string>>>, r2: Result<Option<seq<string>>>, stored: Result<string>)
    requires CountryListOf(r1, stored) && CountryListOf(r2, stored)
    ensures r1 == r2
  {
    if r1.Ok? && r1.value.Some? {
      var a := r1.value.value;
      var b := r2.value.value;
      SplitJoin(a, ' ');
      SplitJoin(b, ' ');
    }
  }

  // ---------------------------------------------------------------------
  // Categories and protocols
  // ---------------------------------------------------------------------

  /** The option a category is stored under: spaces become dashes. */
  function OptionName(long: string): string
  {
    ReplaceChar(long, ' ', '-')
  }

  /** The loop of get_categories over names: each name whose option reads
      true is appended; the first getboolean that raises ends the loop. */
  function EnabledCategories(cfg: Config, names: seq<string>): Result<seq<string>>
    decreases |names|
  {
    if names == [] then Ok([])
    else
      var last := names[|names| - 1];
      match EnabledCategories(cfg, names[..|names| - 1])
      case Raised(e) => Raised(e)
      case Ok(acc) =>
        match GetBoolean(cfg, "Categories", OptionName(last))
        case Raised(e) => Raised(e)
        case Ok(b) => Ok(if b then acc + [last] else acc)
  }

  /** What get_categories promises over names: it succeeds exactly when
      every option reads as a boolean, and then returns, in the given order,
      exactly the names whose option is true. */
  predicate CategoriesOf(r: Result<seq<string>>, cfg: Config, names: seq<string>)
  {
    && (r.Ok? <==> forall i :: 0 <= i < |names| ==> GetBoolean(cfg, "Categories", OptionName(names[i])).Ok?)
    && (r.Ok? ==>
          && IsSubsequence(r.value, names)
          && (forall n :: n in r.value ==> n in names)
          && forall n :: n in names ==> (n in r.value <==> GetBoolean(cfg, "Categories", OptionName(n)) == Ok(true)))
  }

  /** get_categories succeeds exactly when every option reads as a boolean,
      and then returns, in the given order, exactly the names whose option
      is true. */
  lemma {:induction false} EnabledCategoriesSpec(cfg: Config, names: seq<string>)
    ensures CategoriesOf(EnabledCategories(cfg, names), cfg, names)
    decreases |names|
  {
    if names != [] {
      var front := names[..|names| - 1];
      var last := names[|names| - 1];
      assert names == front + [last];
      EnabledCategoriesSpec(cfg, front);
      assert forall i :: 0 <= i < |front| ==> front[i] == names[i];
      var r := EnabledCategories(cfg, names);
      if r.Ok? {
        var acc := EnabledCategories(cfg, front).value;
        var b := GetBoolean(cfg, "Categories", OptionName(last)).value;
        SubsequenceStep(acc, front, last, b);
        assert r.value == if b then acc + [last] else acc;
        forall n | n in names
          ensures n in r.value <==> GetBoolean(cfg, "Categories", OptionName(n)) == Ok(true)
        {
          if n == last {
            if n in front {
              assert n in acc <==> b;
            } else {
              assert n !in acc;
            }
          } else {
            assert n in front;
            assert n in r.value <==> n in acc;
          }
        }
      }
    }
  }

  /** The names of xs, in order, that are in keep. */
  function Filter(xs: seq<string>, keep: set<string>): (r: seq<string>)
    ensures IsSubsequence(r, xs)
    ensures forall x :: x in r <==> x in xs && x in keep
    decreases |xs|
  {
    if xs == [] then []
    else
      var front := xs[..|xs| - 1];
      var last := xs[|xs| - 1];
      assert xs == front + [last];
      var keepLast := last in keep;
      SubsequenceStep(Filter(front, keep), front, last, keepLast);
      if keepLast then Filter(front, keep) + [last] else Filter(front, keep)
  }

  /** When every name's option reads as whether the name is in keep, the
      categories read back are exactly those names, in order. */
  lemma {:induction false} EnabledCategoriesReadBack(cfg: Config, names: seq<string>, keep: set<string>)
    requires forall n :: n in names ==> GetBoolean(cfg, "Categories", OptionName(n)) == Ok(n in keep)
    ensures EnabledCategories(cfg, names) == Ok(Filter(names, keep))
    decreases |names|
  {
    if names != [] {
      var front := names[..|names| - 1];
      assert forall n :: n in front ==> n in names;
      EnabledCategoriesReadBack(cfg, front, keep);
    }
  }

  /** What get_protocols promises: tcp is read, then udp; the first error
      is raised; otherwise the result lists, tcp first, the protocols whose
      option is true. */
  predicate ProtocolsOf(r: Result<seq<string>>, cfg: Config)
  {
    var tcp := GetBoolean(cfg, "Protocols", "tcp");
    var udp := GetBoolean(cfg, "Protocols", "udp");
    && (r.Ok? <==> tcp.Ok? && udp.Ok?)
    && (r.Raised? ==> r.error == if tcp.Raised? then tcp.error else udp.error)
    && (r.Ok? ==>
          && IsSubsequence(r.value, ["tcp", "udp"])
          && ("tcp" in r.value <==> tcp == Ok(true))
          && ("udp" in r.value <==> udp == Ok(true)))
  }

  /** get_protocols */
  function Protocols(cfg: Config): (r: Result<seq<string>>)
    ensures ProtocolsOf(r, cfg)
  {
    match GetBoolean(cfg, "Protocols", "tcp")
    case Raised(e) => Raised(e)
    case Ok(tcp) =>
      match GetBoolean(cfg, "Protocols", "udp")
      case Raised(e) => Raised(e)
      case Ok(udp) =>
        var r := (if tcp then ["tcp"] else []) + (if udp then ["udp"] else []);
        assert ["tcp", "udp"][..1] == ["tcp"];
        assert IsSubsequence(["tcp"], ["tcp"]);
        Ok(r)
  }

  // ---------------------------------------------------------------------
  // Ping attempts
  // ---------------------------------------------------------------------

  predicate IsDigit(c: char)
  {
    '0' <= c <= '9'
  }

  predicate AllDigits(s: string)
  {
    forall i :: 0 <= i < |s| ==> IsDigit(s[i])
  }

  /** The value of a string of decimal digits. */
  function DigitsValue(s: string): nat
    requires AllDigits(s)
    decreases |s|
  {
    if s == [] then 0 else DigitsValue(s[..|s| - 1]) * 10 + (s[|s| - 1] as int - '0' as int)
  }

  /** Python int(s) on ASCII input: whitespace around, an optional sign,
      then decimal digits; None for the ValueError of anything else. */
  function ParseInt(s: string): Option<int>
  {
    var t := Strip(s);
    var signed := t != [] && (t[0] == '-' || t[0] == '+');
    var digits := if signed then t[1..] else t;
    if digits == [] || !AllDigits(digits) then None
    else if signed && t[0] == '-' then Some(-(DigitsValue(digits) as int))
    else Some(DigitsValue(digits))
  }

  /** str(n) for n >= 0. */
  function Decimal(n: nat): (s: string)
    ensures |s| >= 1 && AllDigits(s)
    decreases n
  {
    if n < 10 then [('0' as int + n) as char] else Decimal(n / 10) + [('0' as int + n % 10) as char]
  }

  lemma {:induction false} DecimalValue(n: nat)
    ensures DigitsValue(Decimal(n)) == n
    decreases n
  {
    if n >= 10 {
      DecimalValue(n / 10);
      var s := Decimal(n);
      assert s[..|s| - 1] == Decimal(n / 10);
    }
  }

  /** int(str(n)) == n for every n >= 0. */
  lemma ParseDecimal(n: nat)
    ensures ParseInt(Decimal(n)) == Some(n)
  {
    var s := Decimal(n);
    DigitNotSpace(s[0]);
    DigitNotSpace(s[|s| - 1]);
    StripUnpadded(s);
    assert Strip(s) == s;
    assert s[0] != '-' && s[0] != '+';
    DecimalValue(n);
  }

  lemma DigitNotSpace(c: char)
    requires IsDigit(c)
    ensures !IsSpace(c) && c != '-' && c != '+'
  {
  }

  /** The value of [Benchmarking] ping-attempts when it is a positive
      integer; None when it is missing, malformed or not positive. */
  function StoredPingAttempts(cfg: Config): (r: Option<int>)
    ensures r.Some? ==> r.value > 0
  {
    match Get(cfg, "Benchmarking", "ping-attempts")
    case Raised(_) => None
    case Ok(v) =>
      match ParseInt(v)
      case None => None
      case Some(n) => if n > 0 then Some(n) else None
  }

  /** The settings after get_ping_attempts wrote the default back. */
  function WithDefaultPingAttempts(cfg: Config): Config
    requires "Benchmarking" in cfg
  {
    cfg["Benchmarking" := cfg["Benchmarking"][Lower("ping-attempts") := Decimal(DEFAULT_PING_ATTEMPTS)]]
  }

  /** Once the default is written back, the next call finds it through the
      first branch: the warning is only given once. */
  lemma DefaultPingAttemptsSticks(cfg: Config)
    requires "Benchmarking" in cfg
    ensures StoredPingAttempts(WithDefaultPingAttempts(cfg)) == Some(DEFAULT_PING_ATTEMPTS)
  {
    ParseDecimal(DEFAULT_PING_ATTEMPTS);
  }

  // ---------------------------------------------------------------------
  // save_new_settings
  // ---------------------------------------------------------------------

  /** sorted(VPN_CATEGORIES.keys()), as positions in the table: the
      categories are asked in this order. */
  const SORTED_ORDER: seq<nat> := [5, 3, 2, 4, 1, 0]

  function SortedCategoryNames(): (names: seq<string>)
    ensures |names| == |SORTED_ORDER|
    ensures forall i :: 0 <= i < |names| ==> names[i] == CategoryNames()[SORTED_ORDER[i]]
  {
    seq(|SORTED_ORDER|, i requires 0 <= i < |SORTED_ORDER| => CategoryNames()[SORTED_ORDER[i]])
  }

  /** The sorted names are the table's names. */
  lemma SortedNamesAreTableNames()
    ensures forall j :: 0 <= j < |CategoryNames()| ==> CategoryNames()[j] in SortedCategoryNames()
    ensures forall n :: n in SortedCategoryNames() ==> n in CategoryNames()
  {
    var sorted := SortedCategoryNames();
    forall j | 0 <= j < |CategoryNames()|
      ensures CategoryNames()[j] in sorted
    {
      var k := if j == 5 then 0 else if j == 3 then 1 else if j == 2 then 2 else if j == 4 then 3 else if j == 1 then 4 else 5;
      assert sorted[k] == CategoryNames()[j];
    }
  }

  /** What str(answer).lower() writes for a yes/no answer. */
  function Answer(yes: bool): string
  {
    if yes then "true" else "false"
  }

  /** The option a name is stored under once configparser lower-cases it. */
  function OptionKey(long: string): (k: string)
    ensures |k| == |long|
    ensures |long| > 0 && long[0] != ' ' ==> k[0] == LowerChar(long[0])
  {
    Lower(OptionName(long))
  }

  /** The [Categories] section after setting each name's option, in order. */
  function CategoriesSection(names: seq<string>, enabled: set<string>): map<string, string>
    decreases |names|
  {
    if names == [] then map[]
    else
      var last := names[|names| - 1];
      CategoriesSection(names[..|names| - 1], enabled)[OptionKey(last) := Answer(last in enabled)]
  }

  /** Distinct names are stored under distinct options. */
  predicate DistinctOptions(names: seq<string>)
  {
    forall a, b :: a in names && b in names && a != b ==> OptionKey(a) != OptionKey(b)
  }

  /** A name's option holds the answer for that name. */
  lemma {:induction false} CategoriesSectionLookup(names: seq<string>, enabled: set<string>, n: string)
    requires DistinctOptions(names) && n in names
    ensures OptionKey(n) in CategoriesSection(names, enabled)
    ensures CategoriesSection(names, enabled)[OptionKey(n)] == Answer(n in enabled)
    decreases |names|
  {
    var front := names[..|names| - 1];
    var last := names[|names| - 1];
    assert forall m :: m in front ==> m in names;
    if n != last {
      assert names == front + [last];
      CategoriesSectionLookup(front, enabled, n);
    }
  }

  /** The six categories are stored under six different options: only
      "Standard VPN servers" and "Dedicated IP servers" have the same
      length, and they differ in their first letter. */
  lemma TableOptionsDistinct()
    ensures forall i, j :: 0 <= i < |CategoryNames()| && 0 <= j < |CategoryNames()| && i != j ==>
      OptionKey(CategoryNames()[i]) != OptionKey(CategoryNames()[j])
  {
    var names := CategoryNames();
    var keys := seq(|names|, i requires 0 <= i < |names| => OptionKey(names[i]));
    assert |keys[0]| == |VPN_CATEGORIES[0].0| == 20;
    assert |keys[1]| == |VPN_CATEGORIES[1].0| == 3;
    assert |keys[2]| == |VPN_CATEGORIES[2].0| == 10;
    assert |keys[3]| == |VPN_CATEGORIES[3].0| == 20;
    assert |keys[4]| == |VPN_CATEGORIES[4].0| == 14;
    assert |keys[5]| == |VPN_CATEGORIES[5].0| == 9;
    assert keys[0][0] == 's' && keys[3][0] == 'd';
    forall i, j | 0 <= i < |keys| && 0 <= j < |keys| && i != j
      ensures keys[i] != keys[j]
    {
      assert i == 0 || i == 1 || i == 2 || i == 3 || i == 4 || i == 5;
      assert j == 0 || j == 1 || j == 2 || j == 3 || j == 4 || j == 5;
      if |keys[i]| == |keys[j]| {
        assert keys[i][0] != keys[j][0];
      }
    }
  }

  /** The sorted names are stored under distinct options. */
  lemma SortedOptionsDistinct()
    ensures DistinctOptions(SortedCategoryNames())
  {
    TableOptionsDistinct();
    var names := CategoryNames();
    var sorted := SortedCategoryNames();
    forall a, b | a in sorted && b in sorted && a != b
      ensures OptionKey(a) != OptionKey(b)
    {
      var i :| 0 <= i < |sorted| && sorted[i] == a;
      var j :| 0 <= j < |sorted| && sorted[j] == b;
      assert names[SORTED_ORDER[i]] == a && names[SORTED_ORDER[j]] == b;
    }
  }

  /** An order the categories may be asked in: it holds every table name,
      and distinct names in it are stored under distinct options. */
  predicate CategoryOrder(order: seq<string>)
  {
    DistinctOptions(order) && forall n :: n in CategoryNames() ==> n in order
  }

  /** Table order is such an order (config.py asks in it). */
  lemma TableOrder()
    ensures CategoryOrder(CategoryNames())
  {
    TableOptionsDistinct();
    var names := CategoryNames();
    forall a, b | a in names && b in names && a != b
      ensures OptionKey(a) != OptionKey(b)
    {
      var i :| 0 <= i < |names| && names[i] == a;
      var j :| 0 <= j < |names| && names[j] == b;
    }
  }

  /** Sorted order is such an order (settings.py asks in it). */
  lemma SortedOrder()
    ensures CategoryOrder(SortedCategoryNames())
  {
    SortedOptionsDistinct();
    SortedNamesAreTableNames();
    forall n | n in CategoryNames()
      ensures n in SortedCategoryNames()
    {
      var j :| 0 <= j < |CategoryNames()| && CategoryNames()[j] == n;
    }
  }

  /** The section and option names the save writes are pairwise different. */
  lemma KeysDistinct()
    ensures "Countries" != "Categories" && "Countries" != "Protocols" && "Countries" != "Benchmarking"
    ensures "Categories" != "Protocols" && "Categories" != "Benchmarking" && "Protocols" != "Benchmarking"
    ensures "country-blacklist" != "country-whitelist" && "tcp" != "udp"
  {
    assert "Countries"[0] != "Protocols"[0];
    assert "country-blacklist"[8] != "country-whitelist"[8];
    assert "tcp"[0] != "udp"[0];
  }

  /** The settings save_new_settings writes, given the answers: the
      blacklist answer only counts when the whitelist answer is empty. The
      comment lines it adds to [Countries] are not modelled. */
  predicate IsNewSettings(cfg: Config, order: seq<string>, whitelist: string, blacklist: string,
                          enabled: set<string>, tcp: bool, udp: bool, pingAttempts: string)
  {
    && Get(cfg, "Countries", "country-whitelist") == Ok(whitelist)
    && Get(cfg, "Countries", "country-blacklist") == Ok(if whitelist == "" then blacklist else "")
    && "Categories" in cfg && cfg["Categories"] == CategoriesSection(order, enabled)
    && GetBoolean(cfg, "Protocols", "tcp") == Ok(tcp)
    && GetBoolean(cfg, "Protocols", "udp") == Ok(udp)
    && Get(cfg, "Benchmarking", "ping-attempts")
       == Ok(if pingAttempts == "" then Decimal(DEFAULT_PING_ATTEMPTS) else pingAttempts)
  }

  /** The four sections the save writes, in the form the save writes them,
      are new settings for those answers. */
  lemma SavedSettingsAreNew(cfg: Config, order: seq<string>, whitelist: string, blacklist: string,
                            enabled: set<string>, tcp: bool, udp: bool, pingAttempts: string)
    requires CategoryOrder(order)
    requires cfg == map[
      "Countries" := map["country-blacklist" := if whitelist == "" then blacklist else "", "country-whitelist" := whitelist],
      "Categories" := CategoriesSection(order, enabled),
      "Protocols" := map["tcp" := Answer(tcp), "udp" := Answer(udp)],
      "Benchmarking" := map["ping-attempts" := if pingAttempts == "" then Decimal(DEFAULT_PING_ATTEMPTS) else pingAttempts]]
    ensures IsNewSettings(cfg, order, whitelist, blacklist, enabled, tcp, udp, pingAttempts)
  {
    KeysDistinct();
    SavedCountries(cfg, whitelist, if whitelist == "" then blacklist else "");
    SavedProtocols(cfg, tcp, udp);
    SavedPingAttempts(cfg, if pingAttempts == "" then Decimal(DEFAULT_PING_ATTEMPTS) else pingAttempts);
  }

  /** The saved [Countries] section reads back as the two answers stored in it. */
  lemma SavedCountries(cfg: Config, whitelist: string, blacklist: string)
    requires "Countries" in cfg
    requires cfg["Countries"] == map["country-blacklist" := blacklist, "country-whitelist" := whitelist]
    ensures Get(cfg, "Countries", "country-whitelist") == Ok(whitelist)
    ensures Get(cfg, "Countries", "country-blacklist") == Ok(blacklist)
  {
    KeysDistinct();
    LowerOfLowercase("country-blacklist");
    LowerOfLowercase("country-whitelist");
  }

  /** The saved [Protocols] section reads back as the two yes/no answers. */
  lemma SavedProtocols(cfg: Config, tcp: bool, udp: bool)
    requires "Protocols" in cfg
    requires cfg["Protocols"] == map["tcp" := Answer(tcp), "udp" := Answer(udp)]
    ensures GetBoolean(cfg, "Protocols", "tcp") == Ok(tcp)
    ensures GetBoolean(cfg, "Protocols", "udp") == Ok(udp)
  {
    KeysDistinct();
    LowerOfLowercase("tcp");
    LowerOfLowercase("udp");
    AnswerReadsBack(cfg, "Protocols", "tcp", tcp);
    AnswerReadsBack(cfg, "Protocols", "udp", udp);
  }

  /** The saved [Benchmarking] section reads back as the stored ping attempts. */
  lemma SavedPingAttempts(cfg: Config, ping: string)
    requires "Benchmarking" in cfg && cfg["Benchmarking"] == map["ping-attempts" := ping]
    ensures Get(cfg, "Benchmarking", "ping-attempts") == Ok(ping)
  {
    LowerOfLowercase("ping-attempts");
  }

  /** What the getters read back from freshly saved settings: never both a
      whitelist and a blacklist, the accepted categories in table order,
      the accepted protocols, and the ping attempts typed (5 when none). */
  lemma NewSettingsReadBack(cfg: Config, order: seq<string>, whitelist: string, blacklist: string,
                            enabled: set<string>, tcp: bool, udp: bool, pingAttempts: string)
    requires IsNewSettings(cfg, order, whitelist, blacklist, enabled, tcp, udp, pingAttempts)
    requires CategoryOrder(order)
    ensures !(Truthy(CountryList(cfg, "country-whitelist").value) && Truthy(CountryList(cfg, "country-blacklist").value))
    ensures CountryList(cfg, "country-whitelist").value.Some? <==> whitelist != ""
    ensures EnabledCategories(cfg, CategoryNames()) == Ok(Filter(CategoryNames(), enabled))
    ensures Protocols(cfg) == Ok((if tcp then ["tcp"] else []) + (if udp then ["udp"] else []))
    ensures pingAttempts == "" ==> StoredPingAttempts(cfg) == Some(DEFAULT_PING_ATTEMPTS)
    ensures forall n: nat :: n > 0 && pingAttempts == Decimal(n) ==> StoredPingAttempts(cfg) == Some(n)
  {
    CategoriesReadBack(cfg, order, enabled);
    ParseDecimal(DEFAULT_PING_ATTEMPTS);
    forall n: nat | n > 0 && pingAttempts == Decimal(n)
      ensures StoredPingAttempts(cfg) == Some(n)
    {
      ParseDecimal(n);
    }
  }

  /** An option name without capitals is its own lower-cased form. */
  lemma LowerOfLowercase(s: string)
    requires forall i :: 0 <= i < |s| ==> !('A' <= s[i] <= 'Z')
    ensures Lower(s) == s
  {
  }

  /** A yes/no answer written by the save reads back as that answer. */
  lemma AnswerReadsBack(cfg: Config, section: string, option: string, yes: bool)
    requires Get(cfg, section, option) == Ok(Answer(yes))
    ensures GetBoolean(cfg, section, option) == Ok(yes)
  {
    var a := Answer(yes);
    assert Lower(a) == a by {
      forall i | 0 <= i < |a|
        ensures Lower(a)[i] == a[i]
      {
      }
    }
    assert yes ==> a in TRUE_STATES;
    assert !yes ==> a !in TRUE_STATES && a in FALSE_STATES;
  }

  /** The saved [Categories] section reads back as the accepted names, in table order. */
  lemma CategoriesReadBack(cfg: Config, order: seq<string>, enabled: set<string>)
    requires CategoryOrder(order)
    requires "Categories" in cfg && cfg["Categories"] == CategoriesSection(order, enabled)
    ensures EnabledCategories(cfg, CategoryNames()) == Ok(Filter(CategoryNames(), enabled))
  {
    forall n | n in CategoryNames()
      ensures GetBoolean(cfg, "Categories", OptionName(n)) == Ok(n in enabled)
    {
      CategoriesSectionLookup(order, enabled, n);
      AnswerReadsBack(cfg, "Categories", OptionName(n), n in enabled);
    }
    EnabledCategoriesReadBack(cfg, CategoryNames(), enabled);
  }

  // ---------------------------------------------------------------------
  // The handler
  // ---------------------------------------------------------------------

  class SettingsHandler {
    /** self.settings, as configparser parsed it. */
    var settings: Config
    /** Every settings value written to the file, in order. */
    var saves: seq<Config>

    /** __init__: the settings file as loaded, or None when it is missing or
        does not parse, in which case new settings are asked for (the
        answers are the remaining parameters) and saved. */
    constructor(loaded: Option<Config>, whitelist: string, blacklist: string, enabled: set<string>,
                tcp: bool, udp: bool, pingAttempts: string)
      ensures loaded.Some? ==> settings == loaded.value && saves == []
      ensures loaded.None? ==>
        IsNewSettings(settings, SortedCategoryNames(), whitelist, blacklist, enabled, tcp, udp, pingAttempts)
        && saves == [settings]
    {
      settings := if loaded.Some? then loaded.value else map[];
      saves := [];
      new;
      if loaded.None? {
        SaveNewSettings(whitelist, blacklist, enabled, tcp, udp, pingAttempts);
      }
    }

    /** get_blacklist */
    function GetBlacklist(): (r: Result<Option<seq<string>>>)
      reads this
      ensures CountryListOf(r, Get(settings, "Countries", "country-blacklist"))
    {
      CountryList(settings, "country-blacklist")
    }

    /** get_whitelist */
    function GetWhitelist(): (r: Result<Option<seq<string>>>)
      reads this
      ensures CountryListOf(r, Get(settings, "Countries", "country-whitelist"))
    {
      CountryList(settings, "country-whitelist")
    }

    /** get_categories: the table's names, in table order, whose option is true. */
    method GetCategories() returns (r: Result<seq<string>>)
      ensures r == EnabledCategories(settings, CategoryNames())
      ensures CategoriesOf(r, settings, CategoryNames())
    {
      EnabledCategoriesSpec(settings, CategoryNames());
      var names := CategoryNames();
      var categories := [];
      var i := 0;
      while i < |names|
        invariant 0 <= i <= |names|
        invariant EnabledCategories(settings, names[..i]) == Ok(categories)
      {
        assert names[..i + 1][..i] == names[..i];
        var enabled := GetBoolean(settings, "Categories", OptionName(names[i]));
        if enabled.Raised? {
          EnabledCategoriesRaised(settings, names, i + 1);
          assert names[..|names|] == names;
          return Raised(enabled.error);
        }
        if enabled.value {
          categories := categories + [names[i]];
        }
        i := i + 1;
      }
      assert names[..i] == names;
      return Ok(categories);
    }

    /** get_protocols */
    function GetProtocols(): (r: Result<seq<string>>)
      reads this
      ensures ProtocolsOf(r, settings)
    {
      Protocols(settings)
    }

    /** get_ping_attempts: a stored positive integer is returned; otherwise
        the default is returned and written back into the settings (not the
        file). Writing it back raises NoSectionError when there is no
        [Benchmarking] section, and that is not caught. */
    method GetPingAttempts() returns (r: Result<int>)
      modifies this
      ensures r.Ok? ==> r.value > 0
      ensures StoredPingAttempts(old(settings)).Some? ==>
        r == Ok(StoredPingAttempts(old(settings)).value) && settings == old(settings)
      ensures StoredPingAttempts(old(settings)).None? && "Benchmarking" in old(settings) ==>
        r == Ok(DEFAULT_PING_ATTEMPTS) && settings == WithDefaultPingAttempts(old(settings))
      ensures StoredPingAttempts(old(settings)).None? && "Benchmarking" !in old(settings) ==>
        r == Raised(NoSectionError) && settings == old(settings)
      ensures saves == old(saves)
    {
      var stored := StoredPingAttempts(settings);
      if stored.Some? {
        return Ok(stored.value);
      }
      if "Benchmarking" !in settings {
        return Raised(NoSectionError);
      }
      settings := WithDefaultPingAttempts(settings);
      return Ok(DEFAULT_PING_ATTEMPTS);
    }

    /** save_new_settings, given the user's answers: the whitelist prompt
        first, the blacklist prompt only when it was left empty, one yes/no
        per category in sorted order, tcp, udp, and the ping attempts
        (empty for the default). The settings are then saved once. */
    method SaveNewSettings(whitelist: string, blacklist: string, enabled: set<string>,
                           tcp: bool, udp: bool, pingAttempts: string)
      modifies this
      ensures IsNewSettings(settings, SortedCategoryNames(), whitelist, blacklist, enabled, tcp, udp, pingAttempts)
      ensures !(Truthy(GetWhitelist().value) && Truthy(GetBlacklist().value))
      ensures saves == old(saves) + [settings]
    {
      var black := "";
      if whitelist == "" {
        black := blacklist;
      }
      var countries := map["country-blacklist" := black, "country-whitelist" := whitelist];
      var categories := AskCategories(SortedCategoryNames(), enabled);
      var protocols := map["tcp" := Answer(tcp), "udp" := Answer(udp)];
      var ping := if pingAttempts == "" then Decimal(DEFAULT_PING_ATTEMPTS) else pingAttempts;
      settings := map["Countries" := countries, "Categories" := categories, "Protocols" := protocols,
                      "Benchmarking" := map["ping-attempts" := ping]];
      SortedOrder();
      SavedSettingsAreNew(settings, SortedCategoryNames(), whitelist, blacklist, enabled, tcp, udp, pingAttempts);
      NewSettingsReadBack(settings, SortedCategoryNames(), whitelist, blacklist, enabled, tcp, udp, pingAttempts);
      saves := saves + [settings];
    }
  }

  /** save_new_settings as the repository has it: utils.input_yes_no is not
      defined in nordnm/utils.py, so the first category prompt raises
      AttributeError. By then [Countries] holds the two answers and
      [Categories] has been added empty; nothing has been saved. */
  function NewSettingsAsWritten(whitelist: string, blacklist: string): (r: (Error, Config))
    ensures r.0 == AttributeError && "Protocols" !in r.1 && "Benchmarking" !in r.1
  {
    (AttributeError,
     map["Countries" := map["country-blacklist" := if whitelist == "" then blacklist else "",
                            "country-whitelist" := whitelist],
         "Categories" := map[]])
  }

  /** Whatever the answers, the prompts as written raise and leave settings
      that are not the new settings SaveNewSettings writes for them: there
      is no [Protocols] section to read tcp from. */
  lemma SettingsPromptRaises(whitelist: string, blacklist: string, enabled: set<string>,
                             tcp: bool, udp: bool, pingAttempts: string)
    ensures NewSettingsAsWritten(whitelist, blacklist).0 == AttributeError
    ensures GetBoolean(NewSettingsAsWritten(whitelist, blacklist).1, "Protocols", "tcp").Raised?
    ensures !IsNewSettings(NewSettingsAsWritten(whitelist, blacklist).1, SortedCategoryNames(),
                           whitelist, blacklist, enabled, tcp, udp, pingAttempts)
  {
  }

  /** The category loop of save_new_settings: one option per category, in
      sorted order, set to whether the user accepted it. */
  method AskCategories(order: seq<string>, enabled: set<string>) returns (section: map<string, string>)
    ensures section == CategoriesSection(order, enabled)
    ensures CategoryOrder(order) ==>
      forall n :: n in CategoryNames() ==> OptionKey(n) in section && section[OptionKey(n)] == Answer(n in enabled)
  {
    var names := order;
    section := map[];
    var i := 0;
    while i < |names|
      invariant 0 <= i <= |names|
      invariant section == CategoriesSection(names[..i], enabled)
    {
      assert names[..i + 1][..i] == names[..i];
      section := section[OptionKey(names[i]) := Answer(names[i] in enabled)];
      i := i + 1;
    }
    assert names[..i] == names;
    if CategoryOrder(order) {
      forall n | n in CategoryNames()
        ensures OptionKey(n) in section && section[OptionKey(n)] == Answer(n in enabled)
      {
        CategoriesSectionLookup(order, enabled, n);
      }
    }
  }

  /** Once a getboolean of the loop raises, get_categories raises that error. */
  lemma EnabledCategoriesRaised(cfg: Config, names: seq<string>, n: nat)
    requires 0 < n <= |names|
    requires EnabledCategories(cfg, names[..n - 1]).Ok?
    requires GetBoolean(cfg, "Categories", OptionName(names[n - 1])).Raised?
    ensures EnabledCategories(cfg, names) == Raised(GetBoolean(cfg, "Categories", OptionName(names[n - 1])).error)
  {
    EnabledCategoriesRaisedExtend(cfg, names, n, |names|);
    assert names[..|names|] == names;
  }

  /** A raised getboolean at position n - 1 decides every longer prefix. */
  lemma {:induction false} EnabledCategoriesRaisedExtend(cfg: Config, names: seq<string>, n: nat, m: nat)
    requires 0 < n <= m <= |names|
    requires EnabledCategories(cfg, names[..n - 1]).Ok?
    requires GetBoolean(cfg, "Categories", OptionName(names[n - 1])).Raised?
    ensures EnabledCategories(cfg, names[..m]) == Raised(GetBoolean(cfg, "Categories", OptionName(names[n - 1])).error)
    decreases m
  {
    if m == n {
      assert names[..m][..m - 1] == names[..n - 1];
    } else {
      EnabledCategoriesRaisedExtend(cfg, names, n, m - 1);
      assert names[..m][..m - 1] == names[..m - 1];
    }
  }
}
