/** nordnm/networkmanager.py: parsing of NetworkManager's terse tabular
    output, in-place edits of a connection's keyfile, and the host state the
    gateway functions change (connections, dispatcher files, keyfiles).
    The nmcli, systemctl and file-system calls themselves are not modelled:
    what a command prints, and which operations of the host fail, are inputs. */
module NetworkManager {
  import opened Basics
  import opened Text

  const AUTO_CONNECT_PATH: string := "/etc/NetworkManager/dispatcher.d/auto_vpn"
  const KILLSWITCH_PATH: string := "/etc/NetworkManager/dispatcher.d/killswitch_vpn"

  /** One nmcli run: its decoded standard output when it exits with status 0,
      Failed when check_returncode() raises CalledProcessError. */
  datatype CommandOutput = Completed(stdout: string) | Failed

  // Every `except subprocess.CalledProcessError` handler of networkmanager.py
  // calls utils.format_std_string, which nordnm/utils.py does not define.
  // The handler therefore raises AttributeError itself, and a sibling
  // `except Exception` clause does not catch what a handler raises: a failed
  // nmcli command ends these functions with AttributeError, not False.

  // ---------------------------------------------------------------------
  // Tabular output parsing
  // ---------------------------------------------------------------------

  /** line.strip().split(':') */
  function Fields(line: string): (f: seq<string>)
    ensures |f| >= 1
  {
    Split(Strip(line), ':')
  }

  /** The second field of every non-empty line whose first field is one of
      types, in order. A selected line with a single field raises
      IndexError, and nothing after it is looked at. */
  function SecondColumn(lines: seq<string>, types: set<string>): Result<seq<string>>
    decreases |lines|
  {
    if lines == [] then Ok([])
    else
      match SecondColumn(lines[..|lines| - 1], types)
      case Raised(e) => Raised(e)
      case Ok(names) =>
        var line := lines[|lines| - 1];
        if line == "" then Ok(names)
        else
          var f := Fields(line);
          if f[0] !in types then Ok(names)
          else if |f| < 2 then Raised(IndexError)
          else Ok(names + [f[1]])
  }

  /** Once a prefix has raised, the whole output raises the same error. */
  lemma {:induction false} SecondColumnRaisedPrefix(lines: seq<string>, types: set<string>, n: nat)
    requires n <= |lines|
    requires SecondColumn(lines[..n], types).Raised?
    ensures SecondColumn(lines, types) == SecondColumn(lines[..n], types)
    decreases |lines| - n
  {
    if n < |lines| {
      assert lines[..n + 1][..n] == lines[..n];
      SecondColumnRaisedPrefix(lines, types, n + 1);
    } else {
      assert lines[..n] == lines;
    }
  }

  /** The loop shared by get_vpn_connections and get_interfaces. */
  method CollectSecondColumn(lines: seq<string>, types: set<string>) returns (r: Result<seq<string>>)
    ensures r == SecondColumn(lines, types)
  {
    var names: seq<string> := [];
    var i := 0;
    while i < |lines|
      invariant 0 <= i <= |lines|
      invariant SecondColumn(lines[..i], types) == Ok(names)
    {
      assert lines[..i + 1][..i] == lines[..i];
      var line := lines[i];
      if line != "" {
        var elements := Fields(line);
        if elements[0] in types {
          if |elements| < 2 {
            SecondColumnRaisedPrefix(lines, types, i + 1);
            return Raised(IndexError);
          }
          names := names + [elements[1]];
        }
      }
      i := i + 1;
    }
    assert lines[..i] == lines;
    return Ok(names);
  }

  /** get_vpn_connections: a failed nmcli run raises AttributeError in the
      handler, and the IndexError of a bare "vpn" line is not caught. The
      False of the handler's last line is never returned, so the result is
      never Ok(None). */
  method GetVpnConnections(output: CommandOutput) returns (r: Result<Option<seq<string>>>)
    ensures output.Failed? ==> r == Raised(AttributeError)
    ensures r.Ok? ==> r.value.Some?
    ensures output.Completed? ==>
      match SecondColumn(Split(output.stdout, '\n'), {"vpn"})
      case Ok(names) => r == Ok(Some(names))
      case Raised(e) => r == Raised(e)
  {
    match output
    case Failed =>
      return Raised(AttributeError);
    case Completed(stdout) =>
      var names := CollectSecondColumn(Split(stdout, '\n'), {"vpn"});
      match names
      case Ok(ns) => return Ok(Some(ns));
      case Raised(e) => return Raised(e);
  }

  /** The device types get_interfaces keeps. */
  function InterfaceTypes(wifi: bool, ethernet: bool): (types: set<string>)
    ensures "wifi" in types <==> wifi
    ensures "ethernet" in types <==> ethernet
    ensures forall t :: t in types ==> t == "wifi" || t == "ethernet"
  {
    (if wifi then {"wifi"} else {}) + (if ethernet then {"ethernet"} else {})
  }

  /** get_interfaces: a failed nmcli run raises AttributeError in the
      handler; the IndexError of a bare selected line is caught by
      `except Exception` and gives Ok(None) for the False returned. */
  method GetInterfaces(output: CommandOutput, wifi: bool, ethernet: bool) returns (r: Result<Option<seq<string>>>)
    ensures r.Raised? <==> output.Failed?
    ensures r.Raised? ==> r.error == AttributeError
    ensures output.Completed? ==>
      match SecondColumn(Split(output.stdout, '\n'), InterfaceTypes(wifi, ethernet))
      case Ok(names) => r == Ok(Some(names))
      case Raised(_) => r == Ok(None)
  {
    match output
    case Failed =>
      return Raised(AttributeError);
    case Completed(stdout) =>
      var names := CollectSecondColumn(Split(stdout, '\n'), InterfaceTypes(wifi, ethernet));
      match names
      case Ok(ns) => return Ok(Some(ns));
      case Raised(_) => return Ok(None);
  }

  // The inverse: nmcli --terse --mode tabular prints each row's fields
  // joined by ':' on a line of its own.

  function TerseLines(rows: seq<seq<string>>): (lines: seq<string>)
    ensures |lines| == |rows|
    ensures forall i :: 0 <= i < |rows| ==> lines[i] == Join(rows[i], ':')
    decreases |rows|
  {
    if rows == [] then [] else TerseLines(rows[..|rows| - 1]) + [Join(rows[|rows| - 1], ':')]
  }

  /** The whole output, every line ended by a newline. */
  function TerseOutput(rows: seq<seq<string>>): string
  {
    Join(TerseLines(rows) + [""], '\n')
  }

  /** A row nmcli prints unambiguously: at least two fields, none holding
      ':' or a newline, and no whitespace around the line. Names containing
      ':' are escaped by nmcli and are outside this model. */
  predicate PlainRow(row: seq<string>)
  {
    && |row| >= 2
    && (forall k :: 0 <= k < |row| ==> ':' !in row[k] && '\n' !in row[k])
    && Strip(Join(row, ':')) == Join(row, ':')
  }

  /** The second field of the rows whose type is selected, in order. */
  function SelectedNames(rows: seq<seq<string>>, types: set<string>): seq<string>
    decreases |rows|
  {
    if rows == [] then []
    else
      var last := rows[|rows| - 1];
      SelectedNames(rows[..|rows| - 1], types) + (if |last| >= 2 && last[0] in types then [last[1]] else [])
  }

  lemma {:induction false} JoinAvoids(parts: seq<string>, sep: char, c: char)
    requires c != sep
    requires forall k :: 0 <= k < |parts| ==> c !in parts[k]
    ensures c !in Join(parts, sep)
    decreases |parts|
  {
    if |parts| > 1 {
      JoinAvoids(parts[1..], sep, c);
    }
  }

  /** Appending a non-empty line with at least two fields to a listing that
      parses adds that line's name when its type is selected. */
  lemma SecondColumnAppend(lines: seq<string>, line: string, types: set<string>, names: seq<string>)
    requires SecondColumn(lines, types) == Ok(names)
    requires line != "" && |Fields(line)| >= 2
    ensures SecondColumn(lines + [line], types)
      == Ok(names + if Fields(line)[0] in types then [Fields(line)[1]] else [])
  {
    var all := lines + [line];
    assert all[..|all| - 1] == lines;
    assert all[|all| - 1] == line;
    var f := Fields(line);
    if f[0] in types {
      assert SecondColumn(all, types) == Ok(names + [f[1]]);
    } else {
      assert SecondColumn(all, types) == Ok(names);
      assert names + [] == names;
    }
  }

  /** A printed row is a non-empty line whose fields are the row. */
  lemma PlainRowFields(row: seq<string>)
    requires PlainRow(row)
    ensures Join(row, ':') != "" && Fields(Join(row, ':')) == row
  {
    assert Join(row, ':') == row[0] + [':'] + Join(row[1..], ':');
    SplitJoin(row, ':');
  }

  lemma {:induction false} TerseLinesParse(rows: seq<seq<string>>, types: set<string>)
    requires forall i :: 0 <= i < |rows| ==> PlainRow(rows[i])
    ensures SecondColumn(TerseLines(rows), types) == Ok(SelectedNames(rows, types))
    decreases |rows|
  {
    if rows != [] {
      var front := rows[..|rows| - 1];
      var row := rows[|rows| - 1];
      assert TerseLines(rows) == TerseLines(front) + [Join(row, ':')];
      TerseLinesParse(front, types);
      PlainRowFields(row);
      SecondColumnAppend(TerseLines(front), Join(row, ':'), types, SelectedNames(front, types));
    }
  }

  /** Parsing what nmcli prints gives back the selected rows' names. */
  lemma ParseTerseOutput(rows: seq<seq<string>>, types: set<string>)
    requires forall i :: 0 <= i < |rows| ==> PlainRow(rows[i])
    ensures SecondColumn(Split(TerseOutput(rows), '\n'), types) == Ok(SelectedNames(rows, types))
  {
    var lines := TerseLines(rows) + [""];
    forall k | 0 <= k < |lines|
      ensures '\n' !in lines[k]
    {
      if k < |rows| {
        JoinAvoids(rows[k], ':', '\n');
      }
    }
    SplitJoin(lines, '\n');
    assert lines[..|lines| - 1] == TerseLines(rows);
    TerseLinesParse(rows, types);
  }

  // ---------------------------------------------------------------------
  // disconnect_active_vpn
  // ---------------------------------------------------------------------

  /** The state of the disconnect loop: the flag, the UUIDs a down command
      was issued for (in order), whether an exception ended the loop, and
      whether that exception was a failed down command's
      CalledProcessError (the other one is IndexError). */
  datatype Disconnect = Disconnect(disabled: bool, downs: seq<string>, aborted: bool, downFailed: bool)

  /** The inner loop over the managed records' names for one vpn line. */
  function DisconnectLine(st: Disconnect, f: seq<string>, managed: seq<string>, downFails: set<string>): Disconnect
    decreases |managed|
  {
    if managed == [] then st
    else
      var s := DisconnectLine(st, f, managed[..|managed| - 1], downFails);
      if s.aborted then s
      else if |f| < 2 then s.(aborted := true)
      else if f[1] != managed[|managed| - 1] then s
      else if |f| < 3 then s.(aborted := true)
      else if f[2] in downFails then s.(downs := s.downs + [f[2]], aborted := true, downFailed := true)
      else s.(downs := s.downs + [f[2]], disabled := true)
  }

  /** The outer loop over the lines of the active-connection listing. */
  function DisconnectLines(lines: seq<string>, managed: seq<string>, downFails: set<string>): Disconnect
    decreases |lines|
  {
    if lines == [] then Disconnect(false, [], false, false)
    else
      var s := DisconnectLines(lines[..|lines| - 1], managed, downFails);
      var line := lines[|lines| - 1];
      if s.aborted || line == "" then s
      else
        var f := Fields(line);
        if f[0] != "vpn" then s else DisconnectLine(s, f, managed, downFails)
  }

  lemma {:induction false} DisconnectAbortedPrefix(lines: seq<string>, managed: seq<string>, downFails: set<string>, n: nat)
    requires n <= |lines|
    requires DisconnectLines(lines[..n], managed, downFails).aborted
    ensures DisconnectLines(lines, managed, downFails) == DisconnectLines(lines[..n], managed, downFails)
    decreases |lines| - n
  {
    if n < |lines| {
      assert lines[..n + 1][..n] == lines[..n];
      DisconnectAbortedPrefix(lines, managed, downFails, n + 1);
    } else {
      assert lines[..n] == lines;
    }
  }

  lemma {:induction false} DisconnectLineAbortedPrefix(st: Disconnect, f: seq<string>, managed: seq<string>, downFails: set<string>, n: nat)
    requires n <= |managed|
    requires DisconnectLine(st, f, managed[..n], downFails).aborted
    ensures DisconnectLine(st, f, managed, downFails) == DisconnectLine(st, f, managed[..n], downFails)
    decreases |managed| - n
  {
    if n < |managed| {
      assert managed[..n + 1][..n] == managed[..n];
      DisconnectLineAbortedPrefix(st, f, managed, downFails, n + 1);
    } else {
      assert managed[..n] == managed;
    }
  }

  /** The inner loop of disconnect_active_vpn for one vpn line: a down
      command for every managed name equal to the line's name. */
  method DisconnectMatching(st0: Disconnect, elements: seq<string>, managed: seq<string>, downFails: set<string>)
    returns (st: Disconnect)
    requires !st0.aborted && !st0.downFailed
    ensures st == DisconnectLine(st0, elements, managed, downFails)
    ensures !st.aborted ==> !st.downFailed
  {
    st := st0;
    var j := 0;
    while j < |managed|
      invariant 0 <= j <= |managed|
      invariant st == DisconnectLine(st0, elements, managed[..j], downFails)
      invariant !st.aborted && !st.downFailed
    {
      assert managed[..j + 1][..j] == managed[..j];
      var abort := false;
      if |elements| < 2 {
        abort := true;
      } else if elements[1] == managed[j] {
        if |elements| < 3 {
          abort := true;
        } else {
          st := st.(downs := st.downs + [elements[2]]);
          if elements[2] in downFails {
            st := st.(downFailed := true);
            abort := true;
          } else {
            st := st.(disabled := true);
          }
        }
      }
      if abort {
        st := st.(aborted := true);
        DisconnectLineAbortedPrefix(st0, elements, managed, downFails, j + 1);
        return;
      }
      j := j + 1;
    }
    assert managed[..j] == managed;
  }

  /** disconnect_active_vpn: managed holds the names of the records of
      active_servers.values(), in order; downFails the UUIDs whose down
      command fails. It returns the flag, or the AttributeError raised in
      the handler when the listing or a down command failed, and the UUIDs
      a down was issued for (the last one failed when an error ended the
      loop). The IndexError of a short line is caught and gives False. */
  method DisconnectActiveVpn(managed: seq<string>, output: CommandOutput, downFails: set<string>)
    returns (r: Result<bool>, downs: seq<string>)
    ensures output.Failed? ==> r == Raised(AttributeError) && downs == []
    ensures output.Completed? ==>
      var st := DisconnectLines(Split(output.stdout, '\n'), managed, downFails);
      && r == (if st.downFailed then Raised(AttributeError) else Ok(st.disabled && !st.aborted))
      && downs == st.downs
  {
    if output.Failed? {
      return Raised(AttributeError), [];
    }
    var lines := Split(output.stdout, '\n');
    var st := Disconnect(false, [], false, false);
    var i := 0;
    while i < |lines|
      invariant 0 <= i <= |lines|
      invariant st == DisconnectLines(lines[..i], managed, downFails)
      invariant !st.aborted && !st.downFailed
    {
      assert lines[..i + 1][..i] == lines[..i];
      var line := lines[i];
      if line != "" {
        var elements := Fields(line);
        if elements[0] == "vpn" {
          st := DisconnectMatching(st, elements, managed, downFails);
          if st.aborted {
            DisconnectAbortedPrefix(lines, managed, downFails, i + 1);
            return (if st.downFailed then Raised(AttributeError) else Ok(false)), st.downs;
          }
        }
      }
      i := i + 1;
    }
    assert lines[..i] == lines;
    return Ok(st.disabled), st.downs;
  }

  /** The downs issued for one line extend the earlier ones, and each new one
      is the line's UUID, on a line whose name is managed. */
  lemma {:induction false} DisconnectLineOnlyManaged(st: Disconnect, f: seq<string>, managed: seq<string>, downFails: set<string>)
    ensures |DisconnectLine(st, f, managed, downFails).downs| >= |st.downs|
    ensures DisconnectLine(st, f, managed, downFails).downs[..|st.downs|] == st.downs
    ensures |DisconnectLine(st, f, managed, downFails).downs| > |st.downs| ==> 3 <= |f| && f[1] in managed
    ensures forall u :: u in DisconnectLine(st, f, managed, downFails).downs ==> u in st.downs || u == f[2]
    decreases |managed|
  {
    if managed != [] {
      var front := managed[..|managed| - 1];
      DisconnectLineOnlyManaged(st, f, front, downFails);
      assert forall x :: x in front ==> x in managed;
      var s := DisconnectLine(st, f, front, downFails);
      if !s.aborted && |f| >= 3 && f[1] == managed[|managed| - 1] {
        var r := DisconnectLine(st, f, managed, downFails);
        assert r.downs == s.downs + [f[2]];
        assert r.downs[..|s.downs|] == s.downs;
        assert r.downs[..|st.downs|] == s.downs[..|st.downs|];
      }
    }
  }

  /** The UUIDs of the listed vpn lines whose name is one of the managed names. */
  function ManagedUuids(lines: seq<string>, managed: seq<string>): set<string>
    decreases |lines|
  {
    if lines == [] then {}
    else
      var f := Fields(lines[|lines| - 1]);
      ManagedUuids(lines[..|lines| - 1], managed)
        + (if lines[|lines| - 1] != "" && f[0] == "vpn" && 3 <= |f| && f[1] in managed then {f[2]} else {})
  }

  /** Every UUID taken down is that of an active vpn line whose name is one
      of the managed names: VPNs this tool does not manage are left up. */
  lemma {:induction false} DisconnectOnlyManaged(lines: seq<string>, managed: seq<string>, downFails: set<string>)
    ensures forall u :: u in DisconnectLines(lines, managed, downFails).downs ==> u in ManagedUuids(lines, managed)
    decreases |lines|
  {
    if lines != [] {
      var front := lines[..|lines| - 1];
      DisconnectOnlyManaged(front, managed, downFails);
      var s := DisconnectLines(front, managed, downFails);
      var line := lines[|lines| - 1];
      var f := Fields(line);
      if !s.aborted && line != "" && f[0] == "vpn" {
        DisconnectLineOnlyManaged(s, f, managed, downFails);
      }
    }
  }

  /** The flag is set exactly when a down command was issued; a failed
      down ends the loop, and it is the last down issued: every earlier one
      succeeded. */
  predicate DisconnectConsistent(st: Disconnect, downFails: set<string>)
  {
    && (st.disabled ==> |st.downs| > 0)
    && (!st.aborted ==> (st.disabled <==> |st.downs| > 0))
    && (!st.aborted ==> !st.downFailed)
    && (!st.downFailed ==> forall u :: u in st.downs ==> u !in downFails)
    && (st.downFailed ==> st.aborted && |st.downs| > 0 && st.downs[|st.downs| - 1] in downFails)
  }

  lemma {:induction false} DisconnectLineFlag(st: Disconnect, f: seq<string>, managed: seq<string>, downFails: set<string>)
    requires !st.aborted && DisconnectConsistent(st, downFails)
    ensures DisconnectConsistent(DisconnectLine(st, f, managed, downFails), downFails)
    decreases |managed|
  {
    if managed != [] {
      DisconnectLineFlag(st, f, managed[..|managed| - 1], downFails);
    }
  }

  lemma {:induction false} DisconnectFlag(lines: seq<string>, managed: seq<string>, downFails: set<string>)
    ensures DisconnectConsistent(DisconnectLines(lines, managed, downFails), downFails)
    decreases |lines|
  {
    if lines != [] {
      var front := lines[..|lines| - 1];
      DisconnectFlag(front, managed, downFails);
      var s := DisconnectLines(front, managed, downFails);
      var line := lines[|lines| - 1];
      if !s.aborted && line != "" && Fields(line)[0] == "vpn" {
        DisconnectLineFlag(s, Fields(line), managed, downFails);
      }
    }
  }

  /** disconnect_active_vpn returns True iff the loop ran to its end and
      issued a down command; it raises exactly when the last down issued
      is one that fails. */
  lemma DisconnectResult(managed: seq<string>, stdout: string, downFails: set<string>)
    ensures var st := DisconnectLines(Split(stdout, '\n'), managed, downFails);
      && ((st.disabled && !st.aborted) <==> (!st.aborted && |st.downs| > 0))
      && (st.downFailed <==> |st.downs| > 0 && st.downs[|st.downs| - 1] in downFails)
  {
    DisconnectFlag(Split(stdout, '\n'), managed, downFails);
  }

  // ---------------------------------------------------------------------
  // Connection keyfiles: sections of key/value pairs
  // ---------------------------------------------------------------------

  type Config = map<string, map<string, string>>

  /** disable_ipv6; None for the KeyError of a missing [ipv6] section. */
  function Ipv6Disabled(c: Config): Option<Config>
  {
    if "ipv6" in c then Some(c["ipv6" := c["ipv6"]["method" := "ignore"]]) else None
  }

  /** set_dns_nameservers; None for the KeyError of a missing [ipv4]
      section, or for the ValueError the parser's interpolation raises when
      the joined list is not InterpolationSafe. */
  function WithNameservers(c: Config, dns: seq<string>): Option<Config>
  {
    if "ipv4" !in c || !InterpolationSafe(Join(dns, ';')) then None
    else Some(c["ipv4" := c["ipv4"]["dns" := Join(dns, ';')]["ignore-auto-dns" := "true"]])
  }

  /** add_connection_credentials; None for the KeyError of a missing [vpn]
      section, or for the ValueError raised when the username or the
      password is not InterpolationSafe (get_connection_config's parser
      keeps the default BasicInterpolation). */
  function WithCredentials(c: Config, username: string, password: string): Option<Config>
  {
    if "vpn" !in c || !InterpolationSafe(username) || !InterpolationSafe(password) then None
    else
      Some(c["vpn" := c["vpn"]["password-flags" := "0"]["username" := username]]
            ["vpn-secrets" := map["password" := password]])
  }

  /** disable_ipv6 sets ipv6.method and changes no other section or key. */
  lemma Ipv6DisabledOnly(c: Config, s: string, k: string)
    requires "ipv6" in c
    ensures var r := Ipv6Disabled(c).value;
      && r.Keys == c.Keys && r["ipv6"]["method"] == "ignore"
      && (s in c && s != "ipv6" ==> r[s] == c[s])
      && (k != "method" && k in c["ipv6"] ==> k in r["ipv6"] && r["ipv6"][k] == c["ipv6"][k])
  {
  }

  /** set_dns_nameservers succeeds exactly when [ipv4] exists and the
      joined list passes the interpolation check; it then sets ipv4.dns and
      ipv4.ignore-auto-dns and nothing else. */
  lemma NameserversOnly(c: Config, dns: seq<string>, s: string, k: string)
    ensures WithNameservers(c, dns).Some? <==> "ipv4" in c && InterpolationSafe(Join(dns, ';'))
    ensures WithNameservers(c, dns).Some? ==>
      var r := WithNameservers(c, dns).value;
      && r.Keys == c.Keys
      && r["ipv4"]["dns"] == Join(dns, ';') && r["ipv4"]["ignore-auto-dns"] == "true"
      && (s in c && s != "ipv4" ==> r[s] == c[s])
      && (k != "dns" && k != "ignore-auto-dns" && k in c["ipv4"] ==> k in r["ipv4"] && r["ipv4"][k] == c["ipv4"][k])
  {
  }

  /** The stored nameserver string splits back into the list. */
  lemma NameserversRoundTrip(c: Config, dns: seq<string>)
    requires WithNameservers(c, dns).Some?
    requires |dns| >= 1 && forall i :: 0 <= i < |dns| ==> ';' !in dns[i]
    ensures Split(WithNameservers(c, dns).value["ipv4"]["dns"], ';') == dns
  {
    SplitJoin(dns, ';');
  }

  /** Addresses hold no percent sign, so their list is always accepted. */
  lemma PlainNameserversAccepted(c: Config, dns: seq<string>)
    requires "ipv4" in c
    requires forall i :: 0 <= i < |dns| ==> '%' !in dns[i]
    ensures WithNameservers(c, dns).Some?
  {
    JoinPlain(dns, ';', '%');
    DropEscapesPlain(Join(dns, ';'));
    DropReferencesPlain(Join(dns, ';'));
    HasPercentIn(Join(dns, ';'));
    InterpolationSafePasses(Join(dns, ';'));
  }

  /** add_connection_credentials succeeds exactly when [vpn] exists and
      both values pass the interpolation check; it then sets the two vpn
      keys and replaces the vpn-secrets section by one holding only the
      password. */
  lemma CredentialsOnly(c: Config, username: string, password: string, s: string, k: string)
    ensures WithCredentials(c, username, password).Some? <==>
      "vpn" in c && InterpolationSafe(username) && InterpolationSafe(password)
    ensures WithCredentials(c, username, password).Some? ==>
      var r := WithCredentials(c, username, password).value;
      && r.Keys == c.Keys + {"vpn-secrets"}
      && r["vpn"]["password-flags"] == "0" && r["vpn"]["username"] == username
      && r["vpn-secrets"] == map["password" := password]
      && (s in c && s != "vpn" && s != "vpn-secrets" ==> r[s] == c[s])
      && (k != "password-flags" && k != "username" && k in c["vpn"] ==> k in r["vpn"] && r["vpn"][k] == c["vpn"][k])
  {
  }

  /** A password such as "pa%ss" is refused even where [vpn] exists. */
  lemma LonePercentCredentialsRefused(c: Config, username: string)
    ensures WithCredentials(c, username, "pa%ss").None?
  {
    LonePercentUnsafe("pa", "ss");
    assert "pa" + "%" + "ss" == "pa%ss";
  }

  /** A connection keyfile read into memory; the helpers edit it in place. */
  class ConnectionConfig {
    var sections: Config

    constructor(c: Config)
      ensures sections == c
    {
      sections := c;
    }

    /** ok is false for the KeyError of a missing section, which leaves the config as it was. */
    method DisableIpv6() returns (ok: bool)
      modifies this
      ensures ok == Ipv6Disabled(old(sections)).Some?
      ensures sections == if ok then Ipv6Disabled(old(sections)).value else old(sections)
    {
      if "ipv6" !in sections {
        return false;
      }
      sections := sections["ipv6" := sections["ipv6"]["method" := "ignore"]];
      return true;
    }

    /** ok is false for the KeyError of a missing [ipv4] section or the
        ValueError of the interpolation check; both are raised before
        anything is set. */
    method SetDnsNameservers(dns: seq<string>) returns (ok: bool)
      modifies this
      ensures ok == WithNameservers(old(sections), dns).Some?
      ensures sections == if ok then WithNameservers(old(sections), dns).value else old(sections)
    {
      if "ipv4" !in sections {
        return false;
      }
      var dnsString := Join(dns, ';');
      if !InterpolationSafe(dnsString) {
        return false;
      }
      sections := sections["ipv4" := sections["ipv4"]["dns" := dnsString]];
      sections := sections["ipv4" := sections["ipv4"]["ignore-auto-dns" := "true"]];
      return true;
    }

    /** ok is false for the KeyError of a missing [vpn] section, which
        changes nothing, or for the ValueError of the interpolation check,
        which leaves the assignments made before it in place. */
    method AddConnectionCredentials(username: string, password: string) returns (ok: bool)
      modifies this
      ensures ok == WithCredentials(old(sections), username, password).Some?
      ensures ok ==> sections == WithCredentials(old(sections), username, password).value
      ensures "vpn" !in old(sections) ==> sections == old(sections)
      ensures "vpn" in old(sections) && !InterpolationSafe(username) ==>
        sections == old(sections)["vpn" := old(sections)["vpn"]["password-flags" := "0"]]
      ensures "vpn" in old(sections) && InterpolationSafe(username) && !InterpolationSafe(password) ==>
        sections == old(sections)["vpn" := old(sections)["vpn"]["password-flags" := "0"]["username" := username]]
                                 ["vpn-secrets" := map[]]
    {
      if "vpn" !in sections {
        return false;
      }
      var c, vpn := sections, sections["vpn"]["password-flags" := "0"];
      sections := c["vpn" := vpn];
      if !InterpolationSafe(username) {
        return false;
      }
      vpn := vpn["username" := username];
      sections := c["vpn" := vpn]["vpn-secrets" := map[]];
      if !InterpolationSafe(password) {
        return false;
      }
      sections := c["vpn" := vpn]["vpn-secrets" := map["password" := password]];
      return true;
    }
  }

  /** The edits import_connection makes to a freshly imported keyfile, in
      its order: credentials when both are truthy, DNS when the list is
      truthy, ipv6 disabled unless asked to keep it. None when an edit met a
      missing section or a value the interpolation check refuses (the
      exception is caught and the import reports False). */
  function EditedConfig(c: Config, username: Option<string>, password: Option<string>,
                        dns: Option<seq<string>>, ipv6: bool): Option<Config>
  {
    var c1 := if TruthyString(username) && TruthyString(password)
              then WithCredentials(c, username.value, password.value) else Some(c);
    if c1.None? then None
    else
      var c2 := if Truthy(dns) then WithNameservers(c1.value, dns.value) else c1;
      if c2.None? then None
      else if !ipv6 then Ipv6Disabled(c2.value) else c2
  }

  /** Credentials are written only when username and password are both truthy. */
  lemma EditedConfigCredentials(c: Config, username: Option<string>, password: Option<string>,
                                dns: Option<seq<string>>, ipv6: bool)
    requires EditedConfig(c, username, password, dns, ipv6).Some?
    ensures var r := EditedConfig(c, username, password, dns, ipv6).value;
      if TruthyString(username) && TruthyString(password) then
        && r["vpn"]["username"] == username.value && r["vpn"]["password-flags"] == "0"
        && r["vpn-secrets"] == map["password" := password.value]
      else
        && ("vpn" in r <==> "vpn" in c) && ("vpn" in c ==> r["vpn"] == c["vpn"])
        && ("vpn-secrets" in r <==> "vpn-secrets" in c) && ("vpn-secrets" in c ==> r["vpn-secrets"] == c["vpn-secrets"])
  {
  }

  /** DNS is written only for a truthy list; ipv6 is disabled unless ipv6 is set. */
  lemma EditedConfigNetwork(c: Config, username: Option<string>, password: Option<string>,
                            dns: Option<seq<string>>, ipv6: bool)
    requires EditedConfig(c, username, password, dns, ipv6).Some?
    ensures var r := EditedConfig(c, username, password, dns, ipv6).value;
      && (Truthy(dns) ==> r["ipv4"]["dns"] == Join(dns.value, ';') && r["ipv4"]["ignore-auto-dns"] == "true")
      && (!Truthy(dns) ==> ("ipv4" in r <==> "ipv4" in c) && ("ipv4" in c ==> r["ipv4"] == c["ipv4"]))
      && (!ipv6 ==> r["ipv6"]["method"] == "ignore")
      && (ipv6 ==> ("ipv6" in r <==> "ipv6" in c) && ("ipv6" in c ==> r["ipv6"] == c["ipv6"]))
  {
  }

  /** The edits fail exactly when one of them needs a missing section or
      sets a value the interpolation check refuses. */
  lemma EditedConfigFails(c: Config, username: Option<string>, password: Option<string>,
                          dns: Option<seq<string>>, ipv6: bool)
    ensures EditedConfig(c, username, password, dns, ipv6).None? <==>
      || (TruthyString(username) && TruthyString(password) &&
          ("vpn" !in c || !InterpolationSafe(username.value) || !InterpolationSafe(password.value)))
      || (Truthy(dns) && ("ipv4" !in c || !InterpolationSafe(Join(dns.value, ';'))))
      || (!ipv6 && "ipv6" !in c)
  {
  }

  /** The edit sequence of import_connection on the in-memory config:
      None when an edit raised KeyError or ValueError. */
  method EditImported(c: Config, username: Option<string>, password: Option<string>,
                      dns: Option<seq<string>>, ipv6: bool) returns (r: Option<Config>)
    ensures r == EditedConfig(c, username, password, dns, ipv6)
  {
    var config := new ConnectionConfig(c);
    var done: bool;
    if TruthyString(username) && TruthyString(password) {
      done := config.AddConnectionCredentials(username.value, password.value);
      if !done {
        return None;
      }
    }
    if Truthy(dns) {
      done := config.SetDnsNameservers(dns.value);
      if !done {
        return None;
      }
    }
    if !ipv6 {
      done := config.DisableIpv6();
      if !done {
        return None;
      }
    }
    return Some(config.sections);
  }

  /** What one removal by os.remove does. */
  datatype Removal = Removed | NotFound | Refused

  // ---------------------------------------------------------------------
  // The host: the gateway's connections and the files the core touches
  // ---------------------------------------------------------------------

  /** The machine NetworkManager runs on, as far as the core sees it.
      The constants say which operations fail on this host. */
  class Host {
    /** Names of the connections NetworkManager knows. */
    var connections: set<string>
    /** Paths of the dispatcher scripts and the kill-switch persistence file present. */
    var files: set<string>
    /** The keyfile under system-connections of each connection that has one. */
    var configs: map<string, Config>

    /** Connection names nmcli fails to delete. */
    const deleteFails: set<string>
    /** Paths whose removal raises an error other than FileNotFoundError. */
    const removeFails: set<string>
    /** Connection names whose configuration file cannot be copied to the
        temporary import path (shutil.copy raises before nmcli runs). */
    const copyFails: set<string>
    /** Connection names whose nmcli import fails. */
    const importFails: set<string>
    /** The keyfile NetworkManager writes when a connection of that name is imported. */
    const importedConfig: map<string, Config>
    /** Connection names whose keyfile cannot be written back. */
    const saveFails: set<string>

    constructor(connections: set<string>, files: set<string>, configs: map<string, Config>,
                deleteFails: set<string>, removeFails: set<string>, copyFails: set<string>, importFails: set<string>,
                importedConfig: map<string, Config>, saveFails: set<string>)
      ensures this.connections == connections && this.files == files && this.configs == configs
      ensures this.deleteFails == deleteFails && this.removeFails == removeFails
      ensures this.copyFails == copyFails && this.importFails == importFails && this.importedConfig == importedConfig
      ensures this.saveFails == saveFails
    {
      this.connections := connections;
      this.files := files;
      this.configs := configs;
      this.deleteFails := deleteFails;
      this.removeFails := removeFails;
      this.copyFails := copyFails;
      this.importFails := importFails;
      this.importedConfig := importedConfig;
      this.saveFails := saveFails;
    }

    /** os.remove(path). */
    method RemoveFile(path: string) returns (r: Removal)
      modifies this
      ensures r == if path !in old(files) then NotFound else if path in removeFails then Refused else Removed
      ensures files == if r == Removed then old(files) - {path} else old(files)
      ensures connections == old(connections) && configs == old(configs)
    {
      if path !in files {
        return NotFound;
      }
      if path in removeFails {
        return Refused;
      }
      files := files - {path};
      return Removed;
    }

    /** remove_autoconnect: True when the script is gone afterwards, whether or not it existed. */
    method RemoveAutoconnect() returns (ok: bool)
      modifies this
      ensures ok <==> AUTO_CONNECT_PATH !in old(files) || AUTO_CONNECT_PATH !in removeFails
      ensures ok ==> AUTO_CONNECT_PATH !in files
      ensures files == if ok then old(files) - {AUTO_CONNECT_PATH} else old(files)
      ensures connections == old(connections) && configs == old(configs)
    {
      var r := RemoveFile(AUTO_CONNECT_PATH);
      ok := r != Refused;
    }

    /** remove_killswitch: the script first, then the persistence file. A
        missing script ends the call with True before the persistence file
        is looked at. */
    method RemoveKillswitch(persistencePath: string) returns (ok: bool)
      modifies this
      ensures KILLSWITCH_PATH !in old(files) ==> ok && files == old(files)
      ensures KILLSWITCH_PATH in old(files) && KILLSWITCH_PATH in removeFails ==> !ok && files == old(files)
      ensures KILLSWITCH_PATH in old(files) && KILLSWITCH_PATH !in removeFails ==>
        var rest := old(files) - {KILLSWITCH_PATH};
        && ok == (persistencePath !in rest || persistencePath !in removeFails)
        && files == if persistencePath in rest && persistencePath !in removeFails then rest - {persistencePath} else rest
      ensures connections == old(connections) && configs == old(configs)
    {
      var r := RemoveFile(KILLSWITCH_PATH);
      if r == NotFound {
        return true;
      }
      if r == Refused {
        return false;
      }
      r := RemoveFile(persistencePath);
      ok := r != Refused;
    }

    /** remove_connection: nmcli deletes the connection and its keyfile.
        A failed delete (a name nmcli does not know included) gives False,
        the value its handler logs and returns once format_std_string
        exists; RemovalAsWritten is the function as the repository has it. */
    method RemoveConnection(name: string) returns (ok: bool)
      modifies this
      ensures ok == (name in old(connections) && name !in deleteFails)
      ensures connections == if ok then old(connections) - {name} else old(connections)
      ensures configs == if ok then old(configs) - {name} else old(configs)
      ensures files == old(files)
    {
      if name !in connections || name in deleteFails {
        return false;
      }
      connections := connections - {name};
      configs := configs - {name};
      return true;
    }

    /** set_auto_connect, given what get_interfaces returned or raised:
        its AttributeError propagates; otherwise the dispatcher script is
        written only when some interface was found, and Ok(false) stands
        for the None the source then returns. */
    method SetAutoConnect(connection: string, interfaces: Result<Option<seq<string>>>) returns (r: Result<bool>)
      modifies this
      ensures r == if interfaces.Raised? then Raised(interfaces.error) else Ok(Truthy(interfaces.value))
      ensures files == if r == Ok(true) then old(files) + {AUTO_CONNECT_PATH} else old(files)
      ensures connections == old(connections) && configs == old(configs)
    {
      if interfaces.Raised? {
        return Raised(interfaces.error);
      }
      if !Truthy(interfaces.value) {
        return Ok(false);
      }
      files := files + {AUTO_CONNECT_PATH};
      return Ok(true);
    }

    /** import_connection. A failed copy or nmcli import gives False, the
        value the handlers log and return once format_std_string exists
        (ImportEffectAsWritten is the function as the repository has it).
        After a successful import the keyfile is read, edited in the order
        of EditedConfig and written back; a failed write still returns True. */
    method ImportConnection(name: string, username: Option<string>, password: Option<string>,
                            dns: Option<seq<string>>, ipv6: bool) returns (ok: bool)
      modifies this
      ensures (ok, connections, configs) == ImportEffect(old(connections), old(configs), name, username, password, dns, ipv6)
      ensures files == old(files)
    {
      if name in copyFails || name in importFails {
        return false;
      }
      connections := connections + {name};
      if name in importedConfig {
        configs := configs[name := importedConfig[name]];
      }
      if name !in configs {
        return false;
      }
      var edited := EditImported(configs[name], username, password, dns, ipv6);
      if edited.None? {
        return false;
      }
      if name !in saveFails {
        configs := configs[name := edited.value];
      }
      return true;
    }

    /** What ImportConnection does to the connections and keyfiles, as a
        function, for the specifications of the commit loops. */
    function ImportEffect(conns: set<string>, cfgs: map<string, Config>, name: string,
                          username: Option<string>, password: Option<string>,
                          dns: Option<seq<string>>, ipv6: bool): (bool, set<string>, map<string, Config>)
    {
      if name in copyFails || name in importFails then (false, conns, cfgs)
      else
        var c0 := if name in importedConfig then cfgs[name := importedConfig[name]] else cfgs;
        if name !in c0 then (false, conns + {name}, c0)
        else
          var edited := EditedConfig(c0[name], username, password, dns, ipv6);
          var ok := edited.Some?;
          (ok, conns + {name}, if ok && name !in saveFails then c0[name := edited.value] else c0)
    }

    /** The connections after an import: the name is added unless the import fails. */
    lemma ImportEffectConnections(conns: set<string>, cfgs: map<string, Config>, name: string,
                                  username: Option<string>, password: Option<string>,
                                  dns: Option<seq<string>>, ipv6: bool)
      ensures ImportEffect(conns, cfgs, name, username, password, dns, ipv6).1
              == if name in copyFails || name in importFails then conns else conns + {name}
    {
    }

    /** A failed import changes nothing; otherwise the connection exists
        afterwards, the result says whether its keyfile could be edited, and
        the edited keyfile is kept unless writing it failed. */
    lemma ImportEffectSpec(conns: set<string>, cfgs: map<string, Config>, name: string,
                           username: Option<string>, password: Option<string>,
                           dns: Option<seq<string>>, ipv6: bool)
      ensures var r := ImportEffect(conns, cfgs, name, username, password, dns, ipv6);
        var stored := if name in importedConfig then importedConfig[name] else if name in cfgs then cfgs[name] else map[];
        && (name in copyFails || name in importFails ==> r == (false, conns, cfgs))
        && (name !in copyFails && name !in importFails ==> r.1 == conns + {name})
        && (r.0 <==> name !in copyFails && name !in importFails && (name in importedConfig || name in cfgs)
                     && EditedConfig(stored, username, password, dns, ipv6).Some?)
        && (r.0 && name !in saveFails ==> r.2 == cfgs[name := EditedConfig(stored, username, password, dns, ipv6).value])
        && (name !in copyFails && name !in importFails && name in saveFails ==>
              r.2 == if name in importedConfig then cfgs[name := importedConfig[name]] else cfgs)
    {
    }

    /** remove_connection as the repository has it: the handler of a failed
        delete raises AttributeError, so a name nmcli cannot delete, one
        that no longer exists included, raises instead of giving False. */
    function RemovalAsWritten(conns: set<string>, name: string): (r: Result<bool>)
      ensures r.Ok? ==> r.value
      ensures r.Raised? ==> r.error == AttributeError
    {
      if name in conns && name !in deleteFails then Ok(true) else Raised(AttributeError)
    }

    /** As written, remove_connection never returns False: it raises exactly
        where RemoveConnection gives false, and otherwise returns True. */
    lemma NmcliDeleteFailureRaises(conns: set<string>, name: string)
      ensures RemovalAsWritten(conns, name).Raised? <==> name !in conns || name in deleteFails
      ensures RemovalAsWritten(conns, name).Ok? ==> RemovalAsWritten(conns, name).value
    {
    }

    /** import_connection as the repository has it: a failed copy is caught
        by `except Exception` and gives False, but a failed nmcli import
        raises AttributeError in its handler. */
    function ImportEffectAsWritten(conns: set<string>, cfgs: map<string, Config>, name: string,
                                   username: Option<string>, password: Option<string>,
                                   dns: Option<seq<string>>, ipv6: bool): (r: Result<(bool, set<string>, map<string, Config>)>)
      ensures r.Raised? ==> r.error == AttributeError && name in importFails
    {
      if name in copyFails then Ok((false, conns, cfgs))
      else if name in importFails then Raised(AttributeError)
      else Ok(ImportEffect(conns, cfgs, name, username, password, dns, ipv6))
    }

    /** As written, the import raises exactly for a name whose copy succeeds
        and whose nmcli import fails, where ImportEffect reports a failed
        import that changed nothing; everywhere else the two agree. */
    lemma NmcliImportFailureRaises(conns: set<string>, cfgs: map<string, Config>, name: string,
                                   username: Option<string>, password: Option<string>,
                                   dns: Option<seq<string>>, ipv6: bool)
      ensures var w := ImportEffectAsWritten(conns, cfgs, name, username, password, dns, ipv6);
        var e := ImportEffect(conns, cfgs, name, username, password, dns, ipv6);
        && (w.Raised? <==> name !in copyFails && name in importFails)
        && (w.Raised? ==> w.error == AttributeError && e == (false, conns, cfgs))
        && (w.Ok? ==> w.value == e)
    {
    }
  }
}
