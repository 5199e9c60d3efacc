/**
 * The wpa_supplicant backend: every command is `wpa_cli -i <interface> ...`.
 * Scanning reads the tab-separated `scan_results` table; connecting adds a
 * network, configures it command by command and selects it.
 */
module WpaCli {
  import opened Types
  import opened Text
  import opened Shell
  import opened Wifi

  const WpaName := "wpa_cli"
  /** The default timeout of `_call`, and the longer one of scanning and selecting. */
  const WpaTimeout: nat := 10
  const WpaSlowTimeout: nat := 15
  const WpaAddFailed := "Failed to add network"
  const WpaConfigFailed := "Failed to configure network"
  const WpaSelectFailed := "Failed to select network"

  /** `WpaCliBackend._call`'s command line. */
  function WpaCmd(iface: string, args: seq<string>): seq<string>
  {
    ["wpa_cli", "-i", iface] + args
  }

  function AddCmd(iface: string): seq<string>
  {
    WpaCmd(iface, ["add_network"])
  }

  function EnableCmd(iface: string, id: string): seq<string>
  {
    WpaCmd(iface, ["enable_network", id])
  }

  function SelectCmd(iface: string, id: string): seq<string>
  {
    WpaCmd(iface, ["select_network", id])
  }

  // ---------------------------------------------------------------------
  // Signal levels
  // ---------------------------------------------------------------------

  /** A signal level read as intended: decimal digits after at most one '-'. */
  function WpaSignal(s: string): (r: Option<int>)
    ensures r.Some? ==> IsDigits(LStrip(s, {'-'}))
  {
    if IsDigits(s) then Some(DecimalValue(s))
    else if s != [] && s[0] == '-' && IsDigits(s[1..]) then Some(-(DecimalValue(s[1..]) as int))
    else None
  }

  /**
   * The signal level as the scan computes it: the guard `lstrip("-").isdigit()`
   * admits any number of leading '-', and `int` raises on two or more of them.
   * `None` stands for that exception; `Some(v)` is the value stored.
   */
  function WpaSignalAsWritten(s: string): Option<Option<int>>
  {
    if !IsDigits(LStrip(s, {'-'})) then Some(None)
    else if IsDigits(s) || (s != [] && s[0] == '-' && IsDigits(s[1..])) then Some(WpaSignal(s))
    else None
  }

  /** "--45" passes the guard and converting it raises, which ends the whole scan; read as intended it is no signal. */
  lemma WpaSignalDoubleMinus()
    ensures IsDigits(LStrip("--45", {'-'})) && WpaSignalAsWritten("--45").None?
    ensures WpaSignal("--45").None?
  {
    assert LStrip("--45", {'-'}) == "45" by {
      assert "--45"[1..] == "-45" && "-45"[1..] == "45";
    }
    assert "--45"[1..] == "-45";
  }

  /** Wherever the scan as written does not raise, it stores the intended value. */
  lemma WpaSignalAgrees(s: string)
    ensures WpaSignalAsWritten(s).Some? ==> WpaSignalAsWritten(s) == Some(WpaSignal(s))
  {
  }

  /** Every integer's decimal text reads back as that integer. */
  lemma WpaSignalRoundTrip(i: int)
    ensures WpaSignal(IntToString(i)) == Some(i)
  {
    if i >= 0 {
      DecimalOfNatToString(i);
    } else {
      var s := IntToString(i);
      assert s[1..] == NatToString(-i);
      DecimalOfNatToString(-i);
    }
  }

  // ---------------------------------------------------------------------
  // Flags
  // ---------------------------------------------------------------------

  const FlagBrackets: set<char> := {'[', ']'}

  /** `[flag.strip("[]") for flag in pieces if "]" in flag]`. */
  function FlagsOfPieces(pieces: seq<string>): (r: seq<string>)
    ensures |r| <= |pieces|
  {
    if pieces == [] then []
    else (if ']' in pieces[0] then [Strip(pieces[0], FlagBrackets)] else []) + FlagsOfPieces(pieces[1..])
  }

  /** The security flags of a `flags` column such as "[WPA2-PSK-CCMP][ESS]". */
  function WpaFlags(flags: string): seq<string>
  {
    FlagsOfPieces(Split(flags, '['))
  }

  /** The `flags` column for a list of flags: each one in brackets. */
  function Bracketed(toks: seq<string>): string
  {
    if toks == [] then "" else "[" + toks[0] + "]" + Bracketed(toks[1..])
  }

  /** Each flag with its closing bracket: the pieces of a `flags` column after the first. */
  function Closed(toks: seq<string>): (r: seq<string>)
    ensures |r| == |toks|
  {
    if toks == [] then [] else [toks[0] + "]"] + Closed(toks[1..])
  }

  /** A bracket-free prefix followed by bracketed flags splits at each '[' into the prefix and the closed flags. */
  lemma {:induction false} BracketedTail(x: string, toks: seq<string>)
    requires Avoids(x, {'['})
    requires forall k :: 0 <= k < |toks| ==> Avoids(toks[k], FlagBrackets)
    ensures Split(x + Bracketed(toks), '[') == [x] + Closed(toks)
    decreases |toks|
  {
    if toks == [] {
      assert x + Bracketed(toks) == x;
      SplitWhole(x, '[');
    } else {
      var y := toks[0] + "]";
      var rest := Bracketed(toks[1..]);
      assert Avoids(toks[0], FlagBrackets);
      assert Avoids(y, {'['});
      assert Bracketed(toks) == ['['] + (y + rest);
      assert x + Bracketed(toks) == x + ['['] + (y + rest);
      SplitAt(x, '[', y + rest);
      forall k | 0 <= k < |toks[1..]| ensures Avoids(toks[1..][k], FlagBrackets) {
        assert toks[1..][k] == toks[k + 1];
      }
      BracketedTail(y, toks[1..]);
      assert Closed(toks) == [y] + Closed(toks[1..]);
    }
  }

  /** A `flags` column splits at each '[' into an empty first piece and the closed flags. */
  lemma BracketedPieces(toks: seq<string>)
    requires forall k :: 0 <= k < |toks| ==> Avoids(toks[k], FlagBrackets)
    ensures Split(Bracketed(toks), '[') == [""] + Closed(toks)
  {
    BracketedTail("", toks);
    assert "" + Bracketed(toks) == Bracketed(toks);
  }

  lemma StripClosed(t: string)
    requires Avoids(t, FlagBrackets)
    ensures Strip(t + "]", FlagBrackets) == t
  {
    var s := t + "]";
    if t == [] {
      assert LStrip(s, FlagBrackets) == LStrip([], FlagBrackets);
    } else {
      assert s[0] == t[0];
      assert LStrip(s, FlagBrackets) == s;
      assert s[..|s| - 1] == t;
      assert RStrip(t, FlagBrackets) == t;
    }
  }

  lemma {:induction false} FlagsOfClosed(toks: seq<string>)
    requires forall k :: 0 <= k < |toks| ==> Avoids(toks[k], FlagBrackets)
    ensures FlagsOfPieces(Closed(toks)) == toks
  {
    if toks != [] {
      var c := Closed(toks);
      assert c[0] == toks[0] + "]" && c[1..] == Closed(toks[1..]);
      assert ']' in c[0] by { assert c[0][|toks[0]|] == ']'; }
      StripClosed(toks[0]);
      FlagsOfClosed(toks[1..]);
    }
  }

  /** Bracket-free flags, written in brackets, read back as those flags. */
  lemma WpaFlagsRoundTrip(toks: seq<string>)
    requires forall k :: 0 <= k < |toks| ==> Avoids(toks[k], FlagBrackets)
    ensures WpaFlags(Bracketed(toks)) == toks
  {
    BracketedPieces(toks);
    assert ']' !in "";
    FlagsOfClosed(toks);
  }

  // ---------------------------------------------------------------------
  // Scanning
  // ---------------------------------------------------------------------

  /** The network of one table row split at its tabs: BSSID, frequency, signal, flags, SSID. */
  function WpaNetworkOf(parts: seq<string>): (n: Network)
    requires |parts| >= 5
    ensures n.bssid == Some(parts[0]) && n.ssid == parts[4]
  {
    Network(parts[4], Some(parts[0]), WpaSignal(parts[2]), WpaFlags(parts[3]))
  }

  /** The networks of the table rows: one per row with at least five columns, in row order. */
  function WpaNetworksOf(rows: seq<string>): (nets: seq<Network>)
    ensures |nets| <= |rows|
  {
    if rows == [] then []
    else
      var parts := Split(rows[|rows| - 1], '\t');
      WpaNetworksOf(rows[..|rows| - 1]) + (if |parts| < 5 then [] else [WpaNetworkOf(parts)])
  }

  /** The networks of a `scan_results` answer: nothing on failure, else the rows after the header. */
  function WpaScanOf(res: CommandResult): seq<Network>
  {
    var lines := SplitLines(res.stdout);
    if res.returncode != 0 || lines == [] then [] else WpaNetworksOf(lines[1..])
  }

  /** The parsing half of `WpaCliBackend.scan`. */
  method ParseWpaScan(res: CommandResult) returns (nets: seq<Network>)
    ensures nets == WpaScanOf(res)
  {
    var lines := SplitLines(res.stdout);
    if res.returncode != 0 || lines == [] {
      return [];
    }
    nets := [];
    for i := 1 to |lines|
      invariant nets == WpaNetworksOf(lines[1..i])
    {
      assert lines[1..i + 1][..i - 1] == lines[1..i];
      var parts := Split(lines[i], '\t');
      if |parts| < 5 {
        continue;
      }
      nets := nets + [Network(parts[4], Some(parts[0]), WpaSignal(parts[2]), WpaFlags(parts[3]))];
    }
    assert lines[1..|lines|] == lines[1..];
  }

  /** `WpaCliBackend.scan`: a `scan` request, then `scan_results`, both with the longer timeout. */
  method WpaCliScan(h: Host, iface: string) returns (nets: seq<Network>)
    modifies h
    ensures h.trace == old(h.trace) + [Exec(WpaCmd(iface, ["scan"]), WpaSlowTimeout),
                                       Exec(WpaCmd(iface, ["scan_results"]), WpaSlowTimeout)]
    ensures nets == WpaScanOf(Answer(h.env, old(h.trace) + [Exec(WpaCmd(iface, ["scan"]), WpaSlowTimeout)],
                                     WpaCmd(iface, ["scan_results"]), WpaSlowTimeout))
  {
    var _ := h.Run(WpaCmd(iface, ["scan"]), WpaSlowTimeout);
    var results := h.Run(WpaCmd(iface, ["scan_results"]), WpaSlowTimeout);
    nets := ParseWpaScan(results);
  }

  /** A column of the table: no tab and no line break. */
  predicate WpaField(s: string)
  {
    Avoids(s, {'\t'}) && Avoids(s, LineBreaks)
  }

  /** A network wpa_cli can list and the parser can read back. */
  predicate WpaListable(n: Network)
  {
    n.bssid.Some? && WpaField(n.bssid.value) && WpaField(n.ssid)
    && forall k :: 0 <= k < |n.security| ==> WpaField(n.security[k]) && Avoids(n.security[k], FlagBrackets)
  }

  /** The row wpa_cli prints for a network seen at frequency `freq`. */
  function WpaRow(n: Network, freq: nat): string
    requires WpaListable(n)
  {
    n.bssid.value + "\t" + (NatToString(freq) + "\t" + ((if n.signal.Some? then IntToString(n.signal.value) else "")
      + "\t" + (Bracketed(n.security) + "\t" + n.ssid)))
  }

  lemma {:induction false} BracketedField(toks: seq<string>)
    requires forall k :: 0 <= k < |toks| ==> WpaField(toks[k])
    ensures WpaField(Bracketed(toks))
  {
    if toks != [] {
      BracketedField(toks[1..]);
    }
  }

  lemma SignalField(v: Option<int>)
    ensures WpaField(if v.Some? then IntToString(v.value) else "")
  {
    if v.Some? && v.value < 0 {
      assert IntToString(v.value) == "-" + NatToString(-v.value);
    }
  }

  lemma WpaColumns(a: string, b: string, c: string, d: string, e: string)
    requires Avoids(a, {'\t'}) && Avoids(b, {'\t'}) && Avoids(c, {'\t'}) && Avoids(d, {'\t'}) && Avoids(e, {'\t'})
    ensures Split(a + "\t" + (b + "\t" + (c + "\t" + (d + "\t" + e))), '\t') == [a, b, c, d, e]
  {
    var r3 := d + "\t" + e;
    var r2 := c + "\t" + r3;
    var r1 := b + "\t" + r2;
    SplitWhole(e, '\t');
    SplitAt(d, '\t', e);
    assert Split(r3, '\t') == [d, e];
    SplitAt(c, '\t', r3);
    assert Split(r2, '\t') == [c, d, e];
    SplitAt(b, '\t', r2);
    assert Split(r1, '\t') == [b, c, d, e];
    SplitAt(a, '\t', r1);
  }

  /** A listed network's row has five columns and reads back as the network. */
  lemma WpaRowRoundTrip(n: Network, freq: nat)
    requires WpaListable(n)
    ensures var parts := Split(WpaRow(n, freq), '\t'); |parts| == 5 && WpaNetworkOf(parts) == n
  {
    var sig := if n.signal.Some? then IntToString(n.signal.value) else "";
    SignalField(n.signal);
    BracketedField(n.security);
    WpaColumns(n.bssid.value, NatToString(freq), sig, Bracketed(n.security), n.ssid);
    WpaFlagsRoundTrip(n.security);
    if n.signal.Some? {
      WpaSignalRoundTrip(n.signal.value);
    }
  }

  lemma WpaRowField(n: Network, freq: nat)
    requires WpaListable(n)
    ensures Avoids(WpaRow(n, freq), LineBreaks)
  {
    SignalField(n.signal);
    BracketedField(n.security);
  }

  function WpaRows(nets: seq<Network>, freq: nat): (rows: seq<string>)
    requires forall k :: 0 <= k < |nets| ==> WpaListable(nets[k])
    ensures |rows| == |nets|
    ensures forall k :: 0 <= k < |nets| ==> rows[k] == WpaRow(nets[k], freq)
  {
    if nets == [] then [] else WpaRows(nets[..|nets| - 1], freq) + [WpaRow(nets[|nets| - 1], freq)]
  }

  lemma {:induction false} WpaRowsRoundTrip(nets: seq<Network>, freq: nat)
    requires forall k :: 0 <= k < |nets| ==> WpaListable(nets[k])
    ensures WpaNetworksOf(WpaRows(nets, freq)) == nets
  {
    if nets != [] {
      var k := |nets| - 1;
      var init := nets[..k];
      var last := nets[k];
      assert WpaListable(last);
      var rows := WpaRows(nets, freq);
      assert rows[..k] == WpaRows(init, freq);
      assert rows[k] == WpaRow(last, freq);
      WpaRowsRoundTrip(init, freq);
      WpaRowRoundTrip(last, freq);
      assert WpaNetworksOf(rows) == init + [last];
      InitLast(nets);
    }
  }

  /** The table of listed networks, under any header line, parses back to them on success. */
  lemma WpaScanOutput(res: CommandResult, header: string, nets: seq<Network>, freq: nat)
    requires Avoids(header, LineBreaks)
    requires forall k :: 0 <= k < |nets| ==> WpaListable(nets[k])
    requires res.stdout == JoinLines([header] + WpaRows(nets, freq))
    ensures WpaScanOf(res) == if res.returncode != 0 then [] else nets
  {
    var ls := [header] + WpaRows(nets, freq);
    forall k | 0 <= k < |ls| ensures Avoids(ls[k], LineBreaks) {
      if k > 0 {
        assert ls[k] == WpaRow(nets[k - 1], freq);
        WpaRowField(nets[k - 1], freq);
      }
    }
    SplitJoinLines(ls);
    assert ls[1..] == WpaRows(nets, freq);
    WpaRowsRoundTrip(nets, freq);
  }

  // ---------------------------------------------------------------------
  // Connecting
  // ---------------------------------------------------------------------

  /** A value in double quotes, as `set_network` takes strings. */
  function Quote(s: string): string
  {
    "\"" + s + "\""
  }

  /** The `set_network` argument lists for network `id`: SSID and scan_ssid, then what the type needs. */
  function WpaConfigArgs(id: string, ssid: string, password: Option<string>, sec: Security): seq<seq<string>>
  {
    var key := Quote(PasswordText(password));
    [["set_network", id, "ssid", Quote(ssid)], ["set_network", id, "scan_ssid", "1"]]
      + (match sec
         case Open => [["set_network", id, "key_mgmt", "NONE"]]
         case Wep => [["set_network", id, "key_mgmt", "NONE"], ["set_network", id, "wep_key0", key]]
         case Wpa3 => [["set_network", id, "psk", key], ["set_network", id, "key_mgmt", "SAE"]]
         case _ => [["set_network", id, "psk", key], ["set_network", id, "key_mgmt", "WPA-PSK"]])
  }

  /** The key management each type is configured with. */
  function KeyMgmt(sec: Security): string
  {
    match sec
    case Open => "NONE"
    case Wep => "NONE"
    case Wpa3 => "SAE"
    case _ => "WPA-PSK"
  }

  /**
   * Every configuration command sets one variable of network `id`; the SSID
   * and scan_ssid come first, the key management is set exactly once, and a
   * key is sent, quoted, exactly for the types other than open.
   */
  lemma WpaConfigProps(id: string, ssid: string, password: Option<string>, sec: Security)
    ensures var args := WpaConfigArgs(id, ssid, password, sec);
      |args| == (if sec == Open then 3 else 4)
      && (forall k :: 0 <= k < |args| ==> |args[k]| == 4 && args[k][0] == "set_network" && args[k][1] == id)
      && args[0][2..] == ["ssid", Quote(ssid)] && args[1][2..] == ["scan_ssid", "1"]
      && (forall k :: 0 <= k < |args| && args[k][2] == "key_mgmt" ==> args[k][3] == KeyMgmt(sec))
      && (exists k :: 0 <= k < |args| && args[k][2] == "key_mgmt")
      && ((exists k :: 2 <= k < |args| && args[k][2] in {"psk", "wep_key0"}) <==> sec != Open)
      && (forall k :: 2 <= k < |args| && args[k][2] in {"psk", "wep_key0"} ==>
            args[k][3] == Quote(PasswordText(password)))
  {
    var args := WpaConfigArgs(id, ssid, password, sec);
    if sec == Open || sec == Wep {
      assert args[2][2] == "key_mgmt";
    } else {
      assert args[3][2] == "key_mgmt";
    }
    if sec == Wep {
      assert args[3][2] in {"psk", "wep_key0"};
    } else if sec != Open {
      assert args[2][2] in {"psk", "wep_key0"};
    }
  }

  /** Runs the configuration commands in order until one fails; the value is the failing result, if any. */
  function ConfigStep(env: Env, w: seq<Event>, iface: string, cmds: seq<seq<string>>): (s: Step<Option<CommandResult>>)
    ensures |s.trace| <= |cmds|
    decreases |cmds|
  {
    if cmds == [] then Step(None, [])
    else
      var r := Answer(env, w, WpaCmd(iface, cmds[0]), WpaTimeout);
      var e := Exec(WpaCmd(iface, cmds[0]), WpaTimeout);
      if r.returncode != 0 then Step(Some(r), [e])
      else
        var rest := ConfigStep(env, w + [e], iface, cmds[1..]);
        Step(rest.value, [e] + rest.trace)
  }

  /** The result of the `k`-th configuration command, run after the commands before it. */
  function ConfigRc(env: Env, w: seq<Event>, iface: string, cmds: seq<seq<string>>, t: seq<Event>, k: nat): int
    requires k < |cmds| && k <= |t|
  {
    Answer(env, w + t[..k], WpaCmd(iface, cmds[k]), WpaTimeout).returncode
  }

  /** The commands run are a prefix of the list, and the whole list runs when none fails. */
  lemma {:induction false} ConfigCommands(env: Env, w: seq<Event>, iface: string, cmds: seq<seq<string>>)
    ensures var s := ConfigStep(env, w, iface, cmds);
      (forall k :: 0 <= k < |s.trace| ==> s.trace[k] == Exec(WpaCmd(iface, cmds[k]), WpaTimeout))
      && (s.value.None? ==> |s.trace| == |cmds|)
      && (s.value.Some? ==> s.trace != [])
    decreases |cmds|
  {
    if cmds != [] {
      var e := Exec(WpaCmd(iface, cmds[0]), WpaTimeout);
      if Answer(env, w, WpaCmd(iface, cmds[0]), WpaTimeout).returncode == 0 {
        ConfigCommands(env, w + [e], iface, cmds[1..]);
      }
    }
  }

  /**
   * Every command run succeeds except a failing last one, whose result is
   * the value.
   */
  lemma {:induction false} ConfigResults(env: Env, w: seq<Event>, iface: string, cmds: seq<seq<string>>)
    ensures var s := ConfigStep(env, w, iface, cmds);
      var n := |s.trace|;
      (forall k :: 0 <= k < n ==> (ConfigRc(env, w, iface, cmds, s.trace, k) != 0 <==> k == n - 1 && s.value.Some?))
      && (s.value.Some? ==> n > 0 && s.value.value == Answer(env, w + s.trace[..n - 1], WpaCmd(iface, cmds[n - 1]), WpaTimeout))
    decreases |cmds|
  {
    if cmds != [] {
      var e := Exec(WpaCmd(iface, cmds[0]), WpaTimeout);
      var s := ConfigStep(env, w, iface, cmds);
      assert w + s.trace[..0] == w;
      if Answer(env, w, WpaCmd(iface, cmds[0]), WpaTimeout).returncode == 0 {
        var rest := ConfigStep(env, w + [e], iface, cmds[1..]);
        ConfigResults(env, w + [e], iface, cmds[1..]);
        ConfigCommands(env, w + [e], iface, cmds[1..]);
        assert s.trace == [e] + rest.trace;
        forall k | 1 <= k <= |s.trace|
          ensures w + s.trace[..k] == (w + [e]) + rest.trace[..k - 1]
        {
          assert s.trace[..k] == [e] + rest.trace[..k - 1];
        }
        forall k | 1 <= k < |s.trace|
          ensures ConfigRc(env, w, iface, cmds, s.trace, k) == ConfigRc(env, w + [e], iface, cmds[1..], rest.trace, k - 1)
        {
          assert w + s.trace[..k] == (w + [e]) + rest.trace[..k - 1];
        }
        if s.value.Some? {
          assert w + s.trace[..|s.trace| - 1] == (w + [e]) + rest.trace[..|rest.trace| - 1];
        }
      }
    }
  }

  /** `RunConfig`: the loop of `connect` over the configuration commands. */
  method RunConfig(h: Host, iface: string, cmds: seq<seq<string>>) returns (failed: Option<CommandResult>)
    modifies h
    ensures var s := ConfigStep(h.env, old(h.trace), iface, cmds); failed == s.value && h.trace == old(h.trace) + s.trace
  {
    ghost var w := h.trace;
    ghost var full := ConfigStep(h.env, w, iface, cmds);
    ghost var done: seq<Event> := [];
    var rest := cmds;
    while rest != []
      invariant h.trace == w + done
      invariant full == After(done, ConfigStep(h.env, h.trace, iface, rest))
    {
      ghost var e := Exec(WpaCmd(iface, rest[0]), WpaTimeout);
      var res := h.Run(WpaCmd(iface, rest[0]), WpaTimeout);
      if res.returncode != 0 {
        return Some(res);
      }
      AppendAssoc(w, done, [e]);
      AppendAssoc(done, [e], ConfigStep(h.env, h.trace, iface, rest[1..]).trace);
      done := done + [e];
      rest := rest[1..];
    }
    return None;
  }

  /**
   * The network id `add_network` prints, read as written: the last line of
   * its stripped output. `None` stands for the `IndexError` a blank output
   * raises.
   */
  function NetworkId(stdout: string): (r: Option<string>)
    ensures r.None? <==> Trim(stdout) == []
  {
    var ls := SplitLines(Trim(stdout));
    if ls == [] then None else Some(ls[|ls| - 1])
  }

  /** A blank reply to a successful `add_network` leaves no network id: the code as written raises. */
  lemma BlankAddRaises(res: CommandResult)
    requires res.returncode == 0 && Within(res.stdout, Whitespace)
    ensures NetworkId(res.stdout).None?
  {
    StripEmptyIff(res.stdout, Whitespace);
  }

  /** `enable_network` (its result unused), then `select_network` with the longer timeout. */
  function SelectStep(env: Env, w: seq<Event>, iface: string, id: string): Step<ConnectionResult>
  {
    var en := Exec(EnableCmd(iface, id), WpaTimeout);
    var sel := SelectCmd(iface, id);
    var r := Answer(env, w + [en], sel, WpaSlowTimeout);
    Step(if r.returncode != 0 then ConnectionResult(WpaName, false, OrDefault(Trim(r.stderr), WpaSelectFailed))
         else ConnectionResult(WpaName, true, Connected),
         [en, Exec(sel, WpaSlowTimeout)])
  }

  /** The end of `connect`: enable the configured network, then select it. */
  method SelectNetwork(h: Host, iface: string, id: string) returns (r: ConnectionResult)
    modifies h
    ensures var s := SelectStep(h.env, old(h.trace), iface, id); r == s.value && h.trace == old(h.trace) + s.trace
  {
    var _ := h.Run(EnableCmd(iface, id), WpaTimeout);
    var selRes := h.Run(SelectCmd(iface, id), WpaSlowTimeout);
    if selRes.returncode != 0 {
      return ConnectionResult(WpaName, false, OrDefault(Trim(selRes.stderr), WpaSelectFailed));
    }
    return ConnectionResult(WpaName, true, Connected);
  }

  /**
   * `WpaCliBackend.connect`: add a network, configure it until a command
   * fails, then enable and select it. A successful `add_network` with a
   * blank reply counts as a failed add.
   */
  function WpaConnectStep(env: Env, w: seq<Event>, iface: string, ssid: string, password: Option<string>,
                          sec: Security): Step<ConnectionResult>
  {
    var add := AddCmd(iface);
    var ar := Answer(env, w, add, WpaTimeout);
    var t1 := [Exec(add, WpaTimeout)];
    var id := NetworkId(ar.stdout);
    if ar.returncode != 0 then Step(ConnectionResult(WpaName, false, OrDefault(Trim(ar.stderr), WpaAddFailed)), t1)
    else if id.None? then Step(ConnectionResult(WpaName, false, WpaAddFailed), t1)
    else
      var c := ConfigStep(env, w + t1, iface, WpaConfigArgs(id.value, ssid, password, sec));
      if c.value.Some? then
        Step(ConnectionResult(WpaName, false, OrDefault(Trim(c.value.value.stderr), WpaConfigFailed)), t1 + c.trace)
      else
        var s := SelectStep(env, w + t1 + c.trace, iface, id.value);
        Step(s.value, t1 + c.trace + s.trace)
  }

  method WpaCliConnect(h: Host, iface: string, ssid: string, password: Option<string>, sec: Security)
    returns (r: ConnectionResult)
    modifies h
    ensures var s := WpaConnectStep(h.env, old(h.trace), iface, ssid, password, sec);
      r == s.value && h.trace == old(h.trace) + s.trace
  {
    ghost var w := h.trace;
    var addRes := h.Run(AddCmd(iface), WpaTimeout);
    if addRes.returncode != 0 {
      return ConnectionResult(WpaName, false, OrDefault(Trim(addRes.stderr), WpaAddFailed));
    }
    var id := NetworkId(addRes.stdout);
    if id.None? {
      return ConnectionResult(WpaName, false, WpaAddFailed);
    }
    ghost var t1 := [Exec(AddCmd(iface), WpaTimeout)];
    var failed := RunConfig(h, iface, WpaConfigArgs(id.value, ssid, password, sec));
    ghost var c := ConfigStep(h.env, w + t1, iface, WpaConfigArgs(id.value, ssid, password, sec));
    AppendAssoc(w, t1, c.trace);
    if failed.Some? {
      return ConnectionResult(WpaName, false, OrDefault(Trim(failed.value.stderr), WpaConfigFailed));
    }
    r := SelectNetwork(h, iface, id.value);
    AppendAssoc(w, t1 + c.trace, SelectStep(h.env, w + t1 + c.trace, iface, id.value).trace);
  }

  /**
   * The attempt starts with `add_network`; a failed add, or one that replies
 * with no network id, issues nothing more.
   * It succeeds exactly when the add, every configuration command and the
   * selection succeed, and then it has issued the add, all of the
   * configuration, `enable_network` and `select_network`, in that order.
   */
  lemma WpaConnectProps(env: Env, w: seq<Event>, iface: string, ssid: string, password: Option<string>, sec: Security)
    ensures var s := WpaConnectStep(env, w, iface, ssid, password, sec);
      var ar := Answer(env, w, AddCmd(iface), WpaTimeout);
      s.trace[0] == Exec(AddCmd(iface), WpaTimeout)
      && (ar.returncode != 0 ==> |s.trace| == 1 && !s.value.success)
      && (ar.returncode == 0 && NetworkId(ar.stdout).None? ==>
            |s.trace| == 1 && s.value == ConnectionResult(WpaName, false, WpaAddFailed))
      && (s.value.success ==>
            ar.returncode == 0 && NetworkId(ar.stdout).Some?
            && var id := NetworkId(ar.stdout).value;
               var cmds := WpaConfigArgs(id, ssid, password, sec);
               var c := ConfigStep(env, w + s.trace[..1], iface, cmds);
               c.value.None? && |c.trace| == |cmds|
               && s.trace == s.trace[..1] + c.trace
                             + [Exec(EnableCmd(iface, id), WpaTimeout),
                                Exec(SelectCmd(iface, id), WpaSlowTimeout)]
               && s.value == ConnectionResult(WpaName, true, Connected))
  {
    var s := WpaConnectStep(env, w, iface, ssid, password, sec);
    var ar := Answer(env, w, AddCmd(iface), WpaTimeout);
    if ar.returncode == 0 && NetworkId(ar.stdout).Some? {
      var id := NetworkId(ar.stdout).value;
      var t1 := [Exec(AddCmd(iface), WpaTimeout)];
      var c := ConfigStep(env, w + t1, iface, WpaConfigArgs(id, ssid, password, sec));
      ConfigCommands(env, w + t1, iface, WpaConfigArgs(id, ssid, password, sec));
      assert s.trace[..1] == t1;
    }
  }
}
