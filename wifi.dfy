/**
 * The Wi-Fi helpers: security labels, the network records the scanners
 * produce, and for each backend (nmcli, wpa_cli, iwctl, iwlist/iwconfig)
 * its scan parser and its connect command sequence. Commands go through the
 * same host as the Ethernet tool; `shutil.which` is the host's `Which`.
 */
module Wifi {
  import opened Types
  import opened Text
  import opened Shell

  // ---------------------------------------------------------------------
  // Security labels
  // ---------------------------------------------------------------------

  datatype Security = Open | Wep | Wpa | Wpa2 | Wpa3

  /** The enum's value: the label it is written as. */
  function SecurityValue(s: Security): string
  {
    match s
    case Open => "open"
    case Wep => "wep"
    case Wpa => "wpa"
    case Wpa2 => "wpa2"
    case Wpa3 => "wpa3"
  }

  /** A label as `from_label` compares it: lower-cased, with every '-' removed. */
  function Normalize(text: string): string
  {
    RemoveChar(Lower(text), '-')
  }

  /** `SecurityType.from_label`: aliases map to their type; no label and unknown labels mean WPA2. */
  function FromLabel(value: Option<string>): (r: Security)
    ensures value.None? ==> r == Wpa2
    ensures r == Open ==> value.Some? && Normalize(value.value) in {"open", "none"}
  {
    if value.None? then Wpa2 else FromAlias(Normalize(value.value))
  }

  /** The `mapping.get(normalized, WPA2)` lookup of `from_label`. */
  function FromAlias(n: string): Security
  {
    if n == "open" || n == "none" then Open
    else if n == "wep" then Wep
    else if n == "wpa" || n == "wpa1" then Wpa
    else if n == "wpa2" then Wpa2
    else if n == "wpa3" || n == "sae" then Wpa3
    else Wpa2
  }

  /** Text with no ASCII capital and no '-': normalising leaves it unchanged. */
  predicate Plain(s: string)
  {
    forall i :: 0 <= i < |s| ==> !('A' <= s[i] <= 'Z') && s[i] != '-'
  }

  lemma NormalizePlain(s: string)
    requires Plain(s)
    ensures Normalize(s) == s
  {
    assert Lower(s) == s;
    RemoveCharAbsent(s, '-');
  }

  /** Every type's own value reads back as that type. */
  lemma FromLabelValue(s: Security)
    ensures FromLabel(Some(SecurityValue(s))) == s
  {
    NormalizePlain(SecurityValue(s));
  }

  /** The alias table read both ways: each type comes from exactly its aliases, WPA2 also from any unknown label. */
  lemma FromLabelTable(text: string)
    ensures var n := Normalize(text);
      var r := FromLabel(Some(text));
      (r == Open <==> n == "open" || n == "none")
      && (r == Wep <==> n == "wep")
      && (r == Wpa <==> n == "wpa" || n == "wpa1")
      && (r == Wpa3 <==> n == "wpa3" || n == "sae")
      && (r == Wpa2 <==> n !in {"open", "none", "wep", "wpa", "wpa1", "wpa3", "sae"})
  {
  }

  lemma {:induction false} LowerRemoveDash(s: string)
    ensures Lower(RemoveChar(s, '-')) == RemoveChar(Lower(s), '-')
  {
    if s != [] {
      LowerRemoveDash(s[1..]);
      assert Lower(s)[1..] == Lower(s[1..]);
      var head: string := if s[0] == '-' then [] else [s[0]];
      assert Lower(head + RemoveChar(s[1..], '-')) == Lower(head) + Lower(RemoveChar(s[1..], '-'));
    }
  }

  lemma LowerIdempotent(s: string)
    ensures Lower(Lower(s)) == Lower(s)
  {
  }

  /** Labels are compared without regard to ASCII case or to hyphens. */
  lemma FromLabelInsensitive(text: string)
    ensures FromLabel(Some(Lower(text))) == FromLabel(Some(text))
    ensures FromLabel(Some(RemoveChar(text, '-'))) == FromLabel(Some(text))
  {
    LowerIdempotent(text);
    assert Normalize(Lower(text)) == Normalize(text);
    LowerRemoveDash(text);
    RemoveCharAbsent(RemoveChar(Lower(text), '-'), '-');
    assert Normalize(RemoveChar(text, '-')) == Normalize(text);
  }

  // ---------------------------------------------------------------------
  // Networks and connection results
  // ---------------------------------------------------------------------

  /** `WirelessNetwork`: one network a scan observed. */
  datatype Network = Network(ssid: string, bssid: Option<string>, signal: Option<int>, security: seq<string>)

  /** `ConnectionResult`. */
  datatype ConnectionResult = ConnectionResult(backend: string, success: bool, message: string)

  /** `s or fallback` for a string. */
  function OrDefault(s: string, fallback: string): (r: string)
    ensures r != [] <== fallback != []
  {
    if s == [] then fallback else s
  }

  /** Python's truth value of an optional password: present and non-empty. */
  predicate HasPassword(password: Option<string>)
  {
    password.Some? && password.value != []
  }

  /** `password or ""`. */
  function PasswordText(password: Option<string>): string
  {
    if password.Some? then password.value else ""
  }

  /** The first character outside `cs` makes the string survive stripping. */
  lemma TrimNonEmpty(s: string, i: nat)
    requires i < |s| && s[i] !in Whitespace
    ensures Trim(s) != []
  {
    StripEmptyIff(s, Whitespace);
  }

  /** The elements of `xs` that are not empty, in order (a list comprehension's `if x`). */
  function NonEmpty(xs: seq<string>): (r: seq<string>)
    ensures forall k :: 0 <= k < |r| ==> r[k] != []
    ensures (forall k :: 0 <= k < |xs| ==> xs[k] != []) ==> r == xs
  {
    if xs == [] then []
    else (if xs[0] == [] then [] else [xs[0]]) + NonEmpty(xs[1..])
  }

  lemma {:induction false} SplitAt(a: string, sep: char, b: string)
    requires Avoids(a, {sep})
    ensures Split(a + [sep] + b, sep) == [a] + Split(b, sep)
  {
    var s := a + [sep] + b;
    assert s[..|a|] == a;
    FirstInAt(s, {sep}, |a|);
    assert s[|a| + 1..] == b;
  }

  lemma SplitWhole(a: string, sep: char)
    requires Avoids(a, {sep})
    ensures Split(a, sep) == [a]
  {
    FirstInProps(a, {sep});
  }

  /** Splitting tokens joined with a separator none of them holds gives back the tokens. */
  lemma {:induction false} SplitJoin(toks: seq<string>, sep: char)
    requires toks != []
    requires forall k :: 0 <= k < |toks| ==> Avoids(toks[k], {sep})
    ensures Split(Join(toks, [sep]), sep) == toks
  {
    assert Avoids(toks[0], {sep});
    if |toks| == 1 {
      SplitWhole(toks[0], sep);
    } else {
      var rest := toks[1..];
      forall k | 0 <= k < |rest| ensures Avoids(rest[k], {sep}) {
        assert rest[k] == toks[k + 1];
      }
      SplitJoin(rest, sep);
      assert Join(toks, [sep]) == toks[0] + [sep] + Join(rest, [sep]);
      SplitAt(toks[0], sep, Join(rest, [sep]));
    }
  }

  // ---------------------------------------------------------------------
  // nmcli
  // ---------------------------------------------------------------------

  const NmcliName := "nmcli"
  const NmcliScanTimeout: nat := 20
  const NmcliConnectTimeout: nat := 30
  const NmcliConnectFailed := "nmcli connection failed"
  const NmcliWarnPrefix := "[WARN] nmcli failed to connect: "
  const Connected := "Connected"

  function NmcliScanCmd(iface: string): seq<string>
  {
    ["nmcli", "-t", "-f", "BSSID,SSID,SECURITY,SIGNAL", "--separator", "|", "device", "wifi", "list", "ifname", iface]
  }

  /** Field `k` of a line padded with `None` to four fields, read as `field or ""`. */
  function Field(parts: seq<string>, k: nat): string
  {
    if k < |parts| then parts[k] else ""
  }

  /** The network one non-blank line of nmcli's terse listing describes. */
  function NmcliNetworkOf(line: string): (n: Network)
    ensures n.bssid.Some? ==> n.bssid.value != []
    ensures forall k :: 0 <= k < |n.security| ==> n.security[k] != []
  {
    var parts := Split(line, '|');
    var bssid := Field(parts, 0);
    var signal := Field(parts, 3);
    Network(Field(parts, 1),
            if bssid == [] then None else Some(bssid),
            if IsDigits(signal) then Some(DecimalValue(signal)) else None,
            NonEmpty(Split(Field(parts, 2), ' ')))
  }

  /** The networks of nmcli's listing: one per non-blank line, in line order. */
  function NmcliNetworksOf(lines: seq<string>): (nets: seq<Network>)
    ensures |nets| <= |lines|
  {
    if lines == [] then []
    else
      NmcliNetworksOf(lines[..|lines| - 1])
        + (if Trim(lines[|lines| - 1]) == [] then [] else [NmcliNetworkOf(lines[|lines| - 1])])
  }

  function NmcliScanOf(res: CommandResult): seq<Network>
  {
    if res.returncode != 0 then [] else NmcliNetworksOf(SplitLines(res.stdout))
  }

  /** The parsing half of `NmcliBackend.scan`. */
  method ParseNmcliScan(res: CommandResult) returns (nets: seq<Network>)
    ensures nets == NmcliScanOf(res)
  {
    if res.returncode != 0 {
      return [];
    }
    var lines := SplitLines(res.stdout);
    nets := [];
    for i := 0 to |lines|
      invariant nets == NmcliNetworksOf(lines[..i])
    {
      assert lines[..i + 1][..i] == lines[..i];
      if Trim(lines[i]) == [] {
        continue;
      }
      var parts := Split(lines[i], '|');
      var bssid := Field(parts, 0);
      var signal := Field(parts, 3);
      nets := nets + [Network(Field(parts, 1),
                              if bssid == [] then None else Some(bssid),
                              if IsDigits(signal) then Some(DecimalValue(signal)) else None,
                              NonEmpty(Split(Field(parts, 2), ' ')))];
    }
    assert lines[..|lines|] == lines;
  }

  /** `NmcliBackend.scan`. */
  method NmcliScan(h: Host, iface: string) returns (nets: seq<Network>)
    modifies h
    ensures h.trace == old(h.trace) + [Exec(NmcliScanCmd(iface), NmcliScanTimeout)]
    ensures nets == NmcliScanOf(Answer(h.env, old(h.trace), NmcliScanCmd(iface), NmcliScanTimeout))
  {
    var res := h.Run(NmcliScanCmd(iface), NmcliScanTimeout);
    nets := ParseNmcliScan(res);
  }

  /** A field nmcli's terse listing can carry: no separator and no line break. */
  predicate NmcliField(s: string)
  {
    Avoids(s, {'|'}) && Avoids(s, LineBreaks)
  }

  /** A network nmcli can list and the parser can read back. */
  predicate Listable(n: Network)
  {
    NmcliField(n.ssid)
    && (n.bssid.Some? ==> n.bssid.value != [] && NmcliField(n.bssid.value))
    && (n.signal.Some? ==> n.signal.value >= 0)
    && forall k :: 0 <= k < |n.security| ==>
         n.security[k] != [] && NmcliField(n.security[k]) && Avoids(n.security[k], {' '})
  }

  /** The line nmcli prints for a network: BSSID, SSID, security tokens and signal, separated by '|'. */
  function NmcliLine(n: Network): string
    requires Listable(n)
  {
    (if n.bssid.Some? then n.bssid.value else "") + "|" + n.ssid + "|" + Join(n.security, " ") + "|"
      + (if n.signal.Some? then NatToString(n.signal.value) else "")
  }

  lemma {:induction false} JoinAvoids(toks: seq<string>, sep: string, cs: set<char>)
    requires Avoids(sep, cs)
    requires forall k :: 0 <= k < |toks| ==> Avoids(toks[k], cs)
    ensures Avoids(Join(toks, sep), cs)
  {
    if |toks| > 1 {
      JoinAvoids(toks[1..], sep, cs);
    }
  }

  lemma NmcliFields(b: string, s: string, t: string, g: string)
    requires Avoids(b, {'|'}) && Avoids(s, {'|'}) && Avoids(t, {'|'}) && Avoids(g, {'|'})
    ensures Split(b + "|" + s + "|" + t + "|" + g, '|') == [b, s, t, g]
  {
    assert b + "|" + s + "|" + t + "|" + g == b + ['|'] + (s + ['|'] + (t + ['|'] + g));
    SplitAt(b, '|', s + ['|'] + (t + ['|'] + g));
    SplitAt(s, '|', t + ['|'] + g);
    SplitAt(t, '|', g);
    SplitWhole(g, '|');
  }

  /** The security tokens read back from their space-joined field. */
  lemma SecurityField(toks: seq<string>)
    requires forall k :: 0 <= k < |toks| ==> toks[k] != [] && Avoids(toks[k], {' '})
    ensures NonEmpty(Split(Join(toks, " "), ' ')) == toks
  {
    if toks == [] {
      assert Split(Join(toks, " "), ' ') == [""];
    } else {
      SplitJoin(toks, ' ');
    }
  }

  /** Reading a listed network's line gives back the network. */
  lemma NmcliLineRoundTrip(n: Network)
    requires Listable(n)
    ensures NmcliNetworkOf(NmcliLine(n)) == n
  {
    var b := if n.bssid.Some? then n.bssid.value else "";
    var t := Join(n.security, " ");
    var g := if n.signal.Some? then NatToString(n.signal.value) else "";
    JoinAvoids(n.security, " ", {'|'});
    if n.signal.Some? {
      DecimalOfNatToString(n.signal.value);
      assert IsDigits(g);
    }
    NmcliFields(b, n.ssid, t, g);
    SecurityField(n.security);
  }

  lemma {:induction false} NmcliLinesBreakFree(n: Network)
    requires Listable(n)
    ensures Avoids(NmcliLine(n), LineBreaks) && Trim(NmcliLine(n)) != []
  {
    var b := if n.bssid.Some? then n.bssid.value else "";
    JoinAvoids(n.security, " ", LineBreaks);
    if n.signal.Some? {
      assert IsDigits(NatToString(n.signal.value));
    }
    TrimNonEmpty(NmcliLine(n), |b|);
  }

  function NmcliLines(nets: seq<Network>): (ls: seq<string>)
    requires forall k :: 0 <= k < |nets| ==> Listable(nets[k])
    ensures |ls| == |nets|
    ensures forall k :: 0 <= k < |nets| ==> ls[k] == NmcliLine(nets[k])
  {
    if nets == [] then [] else NmcliLines(nets[..|nets| - 1]) + [NmcliLine(nets[|nets| - 1])]
  }

  /** The listing of well-formed networks, one line each, reads back as those networks. */
  lemma {:induction false} NmcliScanRoundTrip(nets: seq<Network>)
    requires forall k :: 0 <= k < |nets| ==> Listable(nets[k])
    ensures NmcliNetworksOf(NmcliLines(nets)) == nets
  {
    if nets != [] {
      var k := |nets| - 1;
      var init := nets[..k];
      var last := nets[k];
      assert Listable(last);
      var ls := NmcliLines(nets);
      assert ls[..k] == NmcliLines(init);
      assert ls[k] == NmcliLine(last);
      NmcliScanRoundTrip(init);
      NmcliLinesBreakFree(last);
      NmcliLineRoundTrip(last);
      assert NmcliNetworksOf(ls) == init + [last];
      InitLast(nets);
    }
  }

  /** A successful nmcli listing of well-formed networks parses back to them. */
  lemma NmcliScanOutput(res: CommandResult, nets: seq<Network>)
    requires forall k :: 0 <= k < |nets| ==> Listable(nets[k])
    requires res.stdout == JoinLines(NmcliLines(nets))
    ensures NmcliScanOf(res) == if res.returncode != 0 then [] else nets
  {
    forall k | 0 <= k < |nets| ensures Avoids(NmcliLines(nets)[k], LineBreaks) {
      NmcliLinesBreakFree(nets[k]);
    }
    SplitJoinLines(NmcliLines(nets));
    NmcliScanRoundTrip(nets);
  }

  /** The nmcli connect command: the key goes as "wep-key0" for WEP and as "password" otherwise. */
  function NmcliConnectCmd(iface: string, ssid: string, password: Option<string>, sec: Security): seq<string>
  {
    ["nmcli", "device", "wifi", "connect", ssid, "ifname", iface]
      + (if !HasPassword(password) then []
         else if sec == Wep then ["wep-key0", password.value]
         else ["password", password.value])
  }

  function NmcliConnectResult(res: CommandResult): ConnectionResult
  {
    if res.returncode != 0 then ConnectionResult(NmcliName, false, OrDefault(Trim(res.stderr), NmcliConnectFailed))
    else ConnectionResult(NmcliName, true, OrDefault(Trim(res.stdout), Connected))
  }

  /** `NmcliBackend.connect`. */
  function NmcliConnectStep(env: Env, w: seq<Event>, iface: string, ssid: string, password: Option<string>,
                            sec: Security): Step<ConnectionResult>
  {
    var cmd := NmcliConnectCmd(iface, ssid, password, sec);
    Step(NmcliConnectResult(Answer(env, w, cmd, NmcliConnectTimeout)), [Exec(cmd, NmcliConnectTimeout)])
  }

  method NmcliConnect(h: Host, iface: string, ssid: string, password: Option<string>, sec: Security)
    returns (r: ConnectionResult)
    modifies h
    ensures var s := NmcliConnectStep(h.env, old(h.trace), iface, ssid, password, sec);
      r == s.value && h.trace == old(h.trace) + s.trace
  {
    var cmd := NmcliConnectCmd(iface, ssid, password, sec);
    var res := h.Run(cmd, NmcliConnectTimeout);
    if res.returncode != 0 {
      var msg := OrDefault(Trim(res.stderr), NmcliConnectFailed);
      h.Log(NmcliWarnPrefix + msg);
      return ConnectionResult(NmcliName, false, msg);
    }
    return ConnectionResult(NmcliName, true, OrDefault(Trim(res.stdout), Connected));
  }

  /**
   * nmcli connects with one command; it carries no key without a password,
   * "wep-key0" for WEP and "password" for every other type, and the attempt
   * succeeds exactly when that command exits with 0.
   */
  lemma NmcliConnectProps(env: Env, w: seq<Event>, iface: string, ssid: string, password: Option<string>, sec: Security)
    ensures var s := NmcliConnectStep(env, w, iface, ssid, password, sec);
      var cmd := s.trace[0].argv;
      |s.trace| == 1 && cmd[..7] == ["nmcli", "device", "wifi", "connect", ssid, "ifname", iface]
      && (!HasPassword(password) ==> |cmd| == 7)
      && (HasPassword(password) ==>
            cmd[7..] == [if sec == Wep then "wep-key0" else "password", password.value])
      && (s.value.success <==> Answer(env, w, cmd, NmcliConnectTimeout).returncode == 0)
      && s.value.message != []
  {
  }
}
