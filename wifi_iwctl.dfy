/**
 * The iwd backend: `iwctl station <interface> ...`. Scanning asks for a scan
 * and then for the network table; connecting is one command with an
 * optional passphrase.
 */
module Iwctl {
  import opened Types
  import opened Text
  import opened Shell
  import opened Wifi

  const IwctlName := "iwctl"
  const IwctlScanTimeout: nat := 15
  const IwctlConnectTimeout: nat := 30
  const IwctlConnectFailed := "iwctl connection failed"
  /** The signal column of a network iwd shows without a number. */
  const Stars := "****"

  function StationCmd(iface: string, verb: string): seq<string>
  {
    ["iwctl", "station", iface, verb]
  }

  // ---------------------------------------------------------------------
  // Scanning
  // ---------------------------------------------------------------------

  /** The signal column: a number once the '*' around it are stripped, read with every '*' removed. */
  function IwctlSignal(col: string): Option<int>
  {
    if IsDigits(Strip(col, {'*'})) then Some(DecimalValue(RemoveChar(col, '*'))) else None
  }

  /** A row of the table: at least three columns, and not the "Network name" heading. */
  predicate IwctlRow(parts: seq<string>)
  {
    |parts| >= 3 && Lower(parts[0]) != "network"
  }

  /** The network of a row's columns: name, security, signal. */
  function IwctlNetworkOf(parts: seq<string>): (n: Network)
    requires |parts| >= 3
    ensures n.bssid.None? && n.ssid == parts[0] && n.security == [parts[1]]
  {
    Network(parts[0], None, IwctlSignal(parts[2]), [parts[1]])
  }

  /** What one line of the listing contributes: its network if it is a row. */
  function IwctlLineNets(line: string): (r: seq<Network>)
    ensures |r| <= 1
  {
    var parts := SplitWs(line);
    if IwctlRow(parts) then [IwctlNetworkOf(parts)] else []
  }

  /** The networks of the listing: one per row, in line order. */
  function IwctlNetworksOf(lines: seq<string>): (nets: seq<Network>)
    ensures |nets| <= |lines|
  {
    if lines == [] then [] else IwctlNetworksOf(lines[..|lines| - 1]) + IwctlLineNets(lines[|lines| - 1])
  }

  function IwctlListOf(res: CommandResult): seq<Network>
  {
    if res.returncode != 0 then [] else IwctlNetworksOf(SplitLines(res.stdout))
  }

  /** `IwctlBackend.scan`: no listing is asked for when the scan request fails. */
  function IwctlScanStep(env: Env, w: seq<Event>, iface: string): Step<seq<Network>>
  {
    var sc := StationCmd(iface, "scan");
    var ls := StationCmd(iface, "get-networks");
    var e := Exec(sc, IwctlScanTimeout);
    if Answer(env, w, sc, IwctlScanTimeout).returncode != 0 then Step([], [e])
    else Step(IwctlListOf(Answer(env, w + [e], ls, IwctlScanTimeout)), [e, Exec(ls, IwctlScanTimeout)])
  }

  /** The parsing half of `IwctlBackend.scan`. */
  method ParseIwctl(stdout: string) returns (nets: seq<Network>)
    ensures nets == IwctlNetworksOf(SplitLines(stdout))
  {
    var lines := SplitLines(stdout);
    nets := [];
    for i := 0 to |lines|
      invariant nets == IwctlNetworksOf(lines[..i])
    {
      assert lines[..i + 1][..i] == lines[..i];
      var parts := SplitWs(lines[i]);
      if |parts| < 3 || Lower(parts[0]) == "network" {
        continue;
      }
      nets := nets + [Network(parts[0], None, IwctlSignal(parts[2]), [parts[1]])];
    }
    assert lines[..|lines|] == lines;
  }

  method IwctlScan(h: Host, iface: string) returns (nets: seq<Network>)
    modifies h
    ensures var s := IwctlScanStep(h.env, old(h.trace), iface); nets == s.value && h.trace == old(h.trace) + s.trace
  {
    var scanRes := h.Run(StationCmd(iface, "scan"), IwctlScanTimeout);
    if scanRes.returncode != 0 {
      return [];
    }
    var listRes := h.Run(StationCmd(iface, "get-networks"), IwctlScanTimeout);
    if listRes.returncode != 0 {
      return [];
    }
    nets := ParseIwctl(listRes.stdout);
  }

  /** A network iwd can list and the parser can read back. */
  predicate IwctlListable(n: Network)
  {
    n.ssid != [] && Avoids(n.ssid, Whitespace) && Lower(n.ssid) != "network"
    && n.bssid.None? && (n.signal.Some? ==> n.signal.value >= 0)
    && |n.security| == 1 && n.security[0] != [] && Avoids(n.security[0], Whitespace)
  }

  /** The signal column for a network: its number, or stars when it has none. */
  function SignalColumn(signal: Option<int>): string
    requires signal.Some? ==> signal.value >= 0
  {
    if signal.Some? then NatToString(signal.value) else Stars
  }

  /** The row iwd prints for a network, indented. */
  function IwctlLine(n: Network): string
    requires IwctlListable(n)
  {
    "  " + (n.ssid + (" " + (n.security[0] + (" " + SignalColumn(n.signal)))))
  }

  lemma DigitsNoSpace(d: string)
    requires IsDigits(d)
    ensures Avoids(d, Whitespace)
  {
  }

  /** A number column reads back as the number. */
  lemma NumberColumn(v: nat)
    ensures IwctlSignal(NatToString(v)) == Some(v)
  {
    var c := NatToString(v);
    assert c[0] != '*' && c[|c| - 1] != '*';
    assert LStrip(c, {'*'}) == c;
    assert RStrip(c, {'*'}) == c;
    RemoveCharAbsent(c, '*');
    DecimalOfNatToString(v);
  }

  /** A column of stars has no number. */
  lemma StarsColumn()
    ensures Avoids(Stars, Whitespace) && IwctlSignal(Stars).None?
  {
    assert LStrip(Stars, {'*'}) == [] by {
      assert Stars[1..] == "***" && Stars[1..][1..] == "**" && Stars[1..][1..][1..] == "*";
    }
  }

  lemma SignalColumnProps(signal: Option<int>)
    requires signal.Some? ==> signal.value >= 0
    ensures var c := SignalColumn(signal);
      c != [] && Avoids(c, Whitespace) && IwctlSignal(c) == signal
  {
    if signal.Some? {
      DigitsNoSpace(NatToString(signal.value));
      NumberColumn(signal.value);
    } else {
      StarsColumn();
    }
  }

  /** Three whitespace-free columns after a two-space indent, one space apart, split back into the columns. */
  lemma SplitThreeColumns(a: string, b: string, c: string)
    requires a != [] && b != [] && c != []
    requires Avoids(a, Whitespace) && Avoids(b, Whitespace) && Avoids(c, Whitespace)
    ensures SplitWs("  " + (a + (" " + (b + (" " + c))))) == [a, b, c]
  {
    var s3 := [' '] + c;
    var s2 := b + s3;
    var s1 := [' '] + s2;
    var s0 := a + s1;
    assert "  " + s0 == [' '] + ([' '] + s0);
    SplitWsSpace(' ', [' '] + s0);
    SplitWsSpace(' ', s0);
    SplitWsToken(a, s1);
    SplitWsSpace(' ', s2);
    SplitWsToken(b, s3);
    SplitWsSpace(' ', c);
    SplitWsToken(c, []);
    assert c + [] == c;
    assert SplitWs(c) == [c];
    assert SplitWs(s2) == [b, c];
    assert SplitWs(s0) == [a, b, c];
  }

  /** A listed network's row splits into its three columns. */
  lemma IwctlLineColumns(n: Network)
    requires IwctlListable(n)
    ensures SplitWs(IwctlLine(n)) == [n.ssid, n.security[0], SignalColumn(n.signal)]
  {
    SignalColumnProps(n.signal);
    SplitThreeColumns(n.ssid, n.security[0], SignalColumn(n.signal));
  }

  /** A listed network's row reads back as the network. */
  lemma IwctlLineRoundTrip(n: Network)
    requires IwctlListable(n)
    ensures IwctlLineNets(IwctlLine(n)) == [n]
  {
    IwctlLineColumns(n);
    SignalColumnProps(n.signal);
    assert n.security == [n.security[0]];
  }

  lemma IwctlSingle(line: string)
    ensures IwctlNetworksOf([line]) == IwctlLineNets(line)
  {
    assert [line][..0] == [];
  }

  lemma IwctlLineBreakFree(n: Network)
    requires IwctlListable(n)
    ensures Avoids(IwctlLine(n), LineBreaks)
  {
    LineBreaksAreWhitespace();
    SignalColumnProps(n.signal);
  }

  function IwctlLines(nets: seq<Network>): (ls: seq<string>)
    requires forall k :: 0 <= k < |nets| ==> IwctlListable(nets[k])
    ensures |ls| == |nets|
    ensures forall k :: 0 <= k < |nets| ==> ls[k] == IwctlLine(nets[k])
  {
    if nets == [] then [] else IwctlLines(nets[..|nets| - 1]) + [IwctlLine(nets[|nets| - 1])]
  }

  /** The networks are what each line contributes, in line order. */
  lemma {:induction false} IwctlNetworksMap(lines: seq<string>)
    ensures IwctlNetworksOf(lines) == ConcatMap(IwctlLineNets, lines)
    decreases |lines|
  {
    if lines != [] {
      IwctlNetworksMap(lines[..|lines| - 1]);
    }
  }

  /** The networks of consecutive chunks of the listing are concatenated in order. */
  lemma IwctlNetworksAppend(a: seq<string>, b: seq<string>)
    ensures IwctlNetworksOf(a + b) == IwctlNetworksOf(a) + IwctlNetworksOf(b)
  {
    IwctlNetworksMap(a + b);
    IwctlNetworksMap(a);
    IwctlNetworksMap(b);
    ConcatMapAppend(IwctlLineNets, a, b);
  }

  lemma {:induction false} IwctlRowsRoundTrip(nets: seq<Network>)
    requires forall k :: 0 <= k < |nets| ==> IwctlListable(nets[k])
    ensures IwctlNetworksOf(IwctlLines(nets)) == nets
  {
    if nets != [] {
      var init := nets[..|nets| - 1];
      var last := nets[|nets| - 1];
      assert IwctlListable(last);
      var ls := IwctlLines(init);
      var x := IwctlLine(last);
      assert IwctlLines(nets) == ls + [x];
      IwctlRowsRoundTrip(init);
      IwctlNetworksAppend(ls, [x]);
      IwctlSingle(x);
      IwctlLineRoundTrip(last);
      assert IwctlNetworksOf(ls) == init;
      assert IwctlNetworksOf([x]) == [last];
      InitLast(nets);
    } else {
      assert IwctlLines(nets) == [];
    }
  }

  lemma {:induction false} IwctlHeadingsSkipped(hs: seq<string>)
    requires forall k :: 0 <= k < |hs| ==> !IwctlRow(SplitWs(hs[k]))
    ensures IwctlNetworksOf(hs) == []
  {
    if hs != [] {
      IwctlHeadingsSkipped(hs[..|hs| - 1]);
    }
  }

  /** No row of a listing holds a line break. */
  lemma IwctlLinesBreakFree(nets: seq<Network>)
    requires forall k :: 0 <= k < |nets| ==> IwctlListable(nets[k])
    ensures forall k :: 0 <= k < |nets| ==> Avoids(IwctlLines(nets)[k], LineBreaks)
  {
    forall k | 0 <= k < |nets| ensures Avoids(IwctlLines(nets)[k], LineBreaks) {
      IwctlLineBreakFree(nets[k]);
    }
  }

  /**
   * A listing of headings that are not rows (the title, the rules, the
   * "Network name" line) followed by the rows of listed networks parses
   * back to those networks.
   */
  lemma IwctlListOutput(res: CommandResult, hs: seq<string>, nets: seq<Network>)
    requires forall k :: 0 <= k < |hs| ==> !IwctlRow(SplitWs(hs[k])) && Avoids(hs[k], LineBreaks)
    requires forall k :: 0 <= k < |nets| ==> IwctlListable(nets[k])
    requires res.returncode == 0 && res.stdout == JoinLines(hs + IwctlLines(nets))
    ensures IwctlListOf(res) == nets
  {
    var rows := IwctlLines(nets);
    var ls := hs + rows;
    IwctlLinesBreakFree(nets);
    assert forall k :: 0 <= k < |ls| ==> Avoids(ls[k], LineBreaks) by {
      forall k | 0 <= k < |ls| ensures Avoids(ls[k], LineBreaks) {
        if k >= |hs| {
          assert ls[k] == rows[k - |hs|];
        }
      }
    }
    SplitJoinLines(ls);
    assert SplitLines(res.stdout) == ls;
    IwctlNetworksAppend(hs, rows);
    IwctlHeadingsSkipped(hs);
    IwctlRowsRoundTrip(nets);
    assert IwctlNetworksOf(ls) == [] + nets;
  }

  // ---------------------------------------------------------------------
  // Connecting
  // ---------------------------------------------------------------------

  function IwctlConnectCmd(iface: string, ssid: string, password: Option<string>): seq<string>
  {
    StationCmd(iface, "connect") + [ssid] + (if HasPassword(password) then ["-P", password.value] else [])
  }

  function IwctlConnectResult(res: CommandResult): ConnectionResult
  {
    if res.returncode != 0 then ConnectionResult(IwctlName, false, OrDefault(Trim(res.stderr), IwctlConnectFailed))
    else ConnectionResult(IwctlName, true, Connected)
  }

  /** `IwctlBackend.connect`: the security type plays no part. */
  function IwctlConnectStep(env: Env, w: seq<Event>, iface: string, ssid: string, password: Option<string>): Step<ConnectionResult>
  {
    var cmd := IwctlConnectCmd(iface, ssid, password);
    Step(IwctlConnectResult(Answer(env, w, cmd, IwctlConnectTimeout)), [Exec(cmd, IwctlConnectTimeout)])
  }

  method IwctlConnect(h: Host, iface: string, ssid: string, password: Option<string>, sec: Security)
    returns (r: ConnectionResult)
    modifies h
    ensures var s := IwctlConnectStep(h.env, old(h.trace), iface, ssid, password);
      r == s.value && h.trace == old(h.trace) + s.trace
  {
    var res := h.Run(IwctlConnectCmd(iface, ssid, password), IwctlConnectTimeout);
    if res.returncode != 0 {
      return ConnectionResult(IwctlName, false, OrDefault(Trim(res.stderr), IwctlConnectFailed));
    }
    return ConnectionResult(IwctlName, true, Connected);
  }

  /**
   * One command; the passphrase goes after "-P" exactly when there is a
   * non-empty one; the attempt succeeds exactly when the command exits with 0.
   */
  lemma IwctlConnectProps(env: Env, w: seq<Event>, iface: string, ssid: string, password: Option<string>)
    ensures var s := IwctlConnectStep(env, w, iface, ssid, password);
      var cmd := s.trace[0].argv;
      |s.trace| == 1 && cmd[..5] == ["iwctl", "station", iface, "connect", ssid]
      && (HasPassword(password) <==> |cmd| == 7)
      && (HasPassword(password) ==> cmd[5..] == ["-P", password.value])
      && (!HasPassword(password) ==> |cmd| == 5)
      && (s.value.success <==> Answer(env, w, cmd, IwctlConnectTimeout).returncode == 0)
      && s.value.message != []
  {
  }
}
