/**
 * Probes of interface and connectivity state (`eth_repair/probes.py`).
 *
 * Each probe runs one command through the `Host`. The parsing of its result
 * is a separate member over the `CommandResult`, so that it can be stated and
 * proved on its own.
 */
module Probes {
  import opened Types
  import opened Text
  import opened Shell

  /** The default timeout of `run_cmd`, in seconds. */
  const DefaultTimeout: nat := 5

  function LinkShowCmd(iface: string): seq<string>
  {
    ["ip", "link", "show", "dev", iface]
  }

  function AddrShowCmd(iface: string, family: int): seq<string>
  {
    if family == 4 then ["ip", "-4", "addr", "show", "dev", iface]
    else ["ip", "-6", "addr", "show", "dev", iface]
  }

  const RouteShowCmd: seq<string> := ["ip", "route", "show", "default"]
  const ListLinksCmd: seq<string> := ["ip", "-o", "link", "show"]
  const ListRunningServicesCmd: seq<string> :=
    ["systemctl", "list-units", "--type=service", "--state=running"]

  function IsActiveCmd(unit: string): seq<string>
  {
    ["systemctl", "is-active", unit]
  }

  function PingCmd(host: string, count: int, timeout: int): seq<string>
  {
    ["ping", "-c", IntToString(count), "-w", IntToString(timeout), host]
  }

  function GetentCmd(name: string): seq<string>
  {
    ["getent", "hosts", name]
  }

  // ---------------------------------------------------------------------
  // Parsers
  // ---------------------------------------------------------------------

  /** Some output line of a successful `ip link show` mentions "state UP". */
  predicate LinkUpOf(res: CommandResult)
  {
    var lines := SplitLines(res.stdout);
    res.returncode == 0 && exists k :: 0 <= k < |lines| && Contains(lines[k], "state UP")
  }

  /** The parsing half of `interface_link_up`. */
  method ParseLinkUp(res: CommandResult) returns (up: bool)
    ensures up == LinkUpOf(res)
    ensures res.returncode != 0 ==> !up
  {
    if res.returncode != 0 {
      return false;
    }
    var lines := SplitLines(res.stdout);
    var i := 0;
    while i < |lines|
      invariant 0 <= i <= |lines|
      invariant forall k :: 0 <= k < i ==> !Contains(lines[k], "state UP")
    {
      if Contains(lines[i], "state UP") {
        return true;
      }
      i := i + 1;
    }
    return false;
  }

  /** The address a line of `ip addr show` contributes: the token after "inet"/"inet6". */
  function AddrOfLine(line: string): seq<string>
  {
    var t := Trim(line);
    var parts := SplitWs(t);
    if (StartsWith(t, "inet ") || StartsWith(t, "inet6 ")) && |parts| >= 2 then [parts[1]] else []
  }

  /** The addresses the lines contribute, in line order. */
  function AddrsOf(lines: seq<string>): seq<string>
  {
    if lines == [] then []
    else AddrsOf(lines[..|lines| - 1]) + AddrOfLine(lines[|lines| - 1])
  }

  /** The addresses of `interface_ip_addrs` for a command result. */
  function IpAddrsOf(res: CommandResult): seq<string>
  {
    if res.returncode != 0 then [] else AddrsOf(SplitLines(res.stdout))
  }

  /** The parsing half of `interface_ip_addrs`. */
  method ParseIpAddrs(res: CommandResult) returns (addrs: seq<string>)
    ensures addrs == IpAddrsOf(res)
  {
    if res.returncode != 0 {
      return [];
    }
    addrs := [];
    var lines := SplitLines(res.stdout);
    var i := 0;
    while i < |lines|
      invariant 0 <= i <= |lines|
      invariant addrs == AddrsOf(lines[..i])
    {
      var line := Trim(lines[i]);
      if StartsWith(line, "inet ") || StartsWith(line, "inet6 ") {
        var parts := SplitWs(line);
        if |parts| >= 2 {
          addrs := addrs + [parts[1]];
        }
      }
      assert lines[..i + 1][..i] == lines[..i];
      i := i + 1;
    }
    assert lines[..i] == lines;
  }

  /**
   * Every address comes from a line that, stripped, starts with "inet " or
   * "inet6 ", and it is that line's second whitespace token; it is non-empty
   * and holds no whitespace.
   */
  lemma {:induction false} AddrsOfSound(lines: seq<string>, a: string)
    requires a in AddrsOf(lines)
    ensures a != [] && Avoids(a, Whitespace)
    ensures exists k :: 0 <= k < |lines| && AddrOfLine(lines[k]) == [a]
    decreases |lines|
  {
    var init := lines[..|lines| - 1];
    var last := lines[|lines| - 1];
    if a in AddrsOf(init) {
      AddrsOfSound(init, a);
      var k :| 0 <= k < |init| && AddrOfLine(init[k]) == [a];
      assert lines[k] == init[k];
    } else {
      assert a in AddrOfLine(last);
      assert AddrOfLine(last) == [a];
      SplitWsTokens(Trim(last));
    }
  }

  /** The addresses are what each line contributes, in line order. */
  lemma {:induction false} AddrsOfMap(lines: seq<string>)
    ensures AddrsOf(lines) == ConcatMap(AddrOfLine, lines)
    decreases |lines|
  {
    if lines != [] {
      AddrsOfMap(lines[..|lines| - 1]);
    }
  }

  /** The addresses of consecutive chunks of output are concatenated in order. */
  lemma AddrsOfAppend(a: seq<string>, b: seq<string>)
    ensures AddrsOf(a + b) == AddrsOf(a) + AddrsOf(b)
  {
    AddrsOfMap(a + b);
    AddrsOfMap(a);
    AddrsOfMap(b);
    ConcatMapAppend(AddrOfLine, a, b);
  }

  /** Each line contributes its address in place: the lines before it, then it, then the rest. */
  lemma {:induction false} AddrsOfSplit(lines: seq<string>, k: nat)
    requires k < |lines|
    ensures AddrsOf(lines) == AddrsOf(lines[..k]) + AddrOfLine(lines[k]) + AddrsOf(lines[k + 1..])
  {
    assert lines == lines[..k] + [lines[k]] + lines[k + 1..];
    AddrsOfAppend(lines[..k] + [lines[k]], lines[k + 1..]);
    AddrsOfAppend(lines[..k], [lines[k]]);
    assert AddrsOf([lines[k]]) == AddrOfLine(lines[k]) by {
      assert [lines[k]][..0] == [];
    }
  }

  /** `interface_has_ipv4`: the IPv4 address list is non-empty. */
  predicate HasIpv4Of(res: CommandResult)
  {
    IpAddrsOf(res) != []
  }

  /** Some line carries an address. */
  predicate SomeLineCarriesAddr(lines: seq<string>)
  {
    exists k :: 0 <= k < |lines| && AddrOfLine(lines[k]) != []
  }

  lemma {:induction false} AddrsOfNonEmptyIff(lines: seq<string>)
    ensures AddrsOf(lines) != [] <==> SomeLineCarriesAddr(lines)
  {
    if AddrsOf(lines) != [] {
      AddrsOfSound(lines, AddrsOf(lines)[0]);
    }
    if SomeLineCarriesAddr(lines) {
      var k :| 0 <= k < |lines| && AddrOfLine(lines[k]) != [];
      AddrsOfSplit(lines, k);
    }
  }

  /** IPv4 is present exactly when the command succeeded and some line carries an address. */
  lemma {:induction false} HasIpv4Iff(res: CommandResult)
    ensures HasIpv4Of(res) <==> res.returncode == 0 && SomeLineCarriesAddr(SplitLines(res.stdout))
  {
    AddrsOfNonEmptyIff(SplitLines(res.stdout));
  }

  /** Some unstripped output line of a successful `ip route show default` starts with "default ". */
  predicate DefaultRouteOf(res: CommandResult)
  {
    var lines := SplitLines(res.stdout);
    res.returncode == 0 && exists k :: 0 <= k < |lines| && StartsWith(lines[k], "default ")
  }

  /** The parsing half of `has_default_route`. */
  method ParseDefaultRoute(res: CommandResult) returns (found: bool)
    ensures found == DefaultRouteOf(res)
  {
    if res.returncode != 0 {
      return false;
    }
    var lines := SplitLines(res.stdout);
    var i := 0;
    while i < |lines|
      invariant 0 <= i <= |lines|
      invariant forall k :: 0 <= k < i ==> !StartsWith(lines[k], "default ")
    {
      if StartsWith(lines[i], "default ") {
        return true;
      }
      i := i + 1;
    }
    return false;
  }

  /** The parsing half of `dns_resolves`: success and a non-blank answer. */
  function ResolvesOf(res: CommandResult): (ok: bool)
    ensures ok <==> res.returncode == 0 && exists i :: 0 <= i < |res.stdout| && res.stdout[i] !in Whitespace
  {
    StripEmptyIff(res.stdout, Whitespace);
    res.returncode == 0 && Trim(res.stdout) != []
  }

  /** A running unit `detect_active_vpn_services` reports. */
  predicate IsVpnUnit(unit: string)
  {
    var lower := Lower(unit);
    EndsWith(unit, ".service")
    && (Contains(lower, "vpn") || Contains(lower, "wireguard")
        || Contains(lower, "wg-quick") || Contains(lower, "zerotier"))
  }

  /** The first whitespace-separated column of `line` is `u`. */
  predicate NamesFirst(line: string, u: string)
  {
    var parts := SplitWs(line);
    parts != [] && parts[0] == u
  }

  /** The unit named in the first column of a line, if the line has one and it is a VPN unit. */
  function VpnUnitOfLine(line: string): set<string>
  {
    var parts := SplitWs(line);
    if parts != [] && IsVpnUnit(parts[0]) then {parts[0]} else {}
  }

  function VpnUnitsOf(lines: seq<string>): set<string>
  {
    if lines == [] then {}
    else VpnUnitsOf(lines[..|lines| - 1]) + VpnUnitOfLine(lines[|lines| - 1])
  }

  /** A unit is collected exactly when some line names it first and it is a VPN unit. */
  lemma {:induction false} VpnUnitsOfIff(lines: seq<string>, u: string)
    ensures u in VpnUnitsOf(lines) <==>
      IsVpnUnit(u) && exists k :: 0 <= k < |lines| && NamesFirst(lines[k], u)
    decreases |lines|
  {
    if lines != [] {
      var init := lines[..|lines| - 1];
      var last := lines[|lines| - 1];
      VpnUnitsOfIff(init, u);
      assert u in VpnUnitOfLine(last) <==> IsVpnUnit(u) && NamesFirst(last, u);
      if exists k :: 0 <= k < |lines| && NamesFirst(lines[k], u) {
        var k :| 0 <= k < |lines| && NamesFirst(lines[k], u);
        if k < |init| {
          assert init[k] == lines[k];
        }
      }
      if exists k :: 0 <= k < |init| && NamesFirst(init[k], u) {
        var k :| 0 <= k < |init| && NamesFirst(init[k], u);
        assert init[k] == lines[k];
      }
    }
  }

  /** The list `detect_active_vpn_services` reports for a command result. */
  ghost function VpnServicesOf(res: CommandResult): seq<string>
  {
    if res.returncode != 0 || res.stdout == [] then [] else SortedOf(VpnUnitsOf(SplitLines(res.stdout)))
  }

  /** The parsing half of `detect_active_vpn_services`. */
  method ParseVpnServices(res: CommandResult) returns (detected: seq<string>)
    ensures detected == VpnServicesOf(res)
  {
    if res.returncode != 0 || res.stdout == [] {
      return [];
    }
    var matches: set<string> := {};
    var lines := SplitLines(res.stdout);
    var i := 0;
    while i < |lines|
      invariant 0 <= i <= |lines|
      invariant matches == VpnUnitsOf(lines[..i])
    {
      var parts := SplitWs(lines[i]);
      assert lines[..i + 1][..i] == lines[..i];
      if parts == [] {
        i := i + 1;
        continue;
      }
      var unit := parts[0];
      if !EndsWith(unit, ".service") {
        i := i + 1;
        continue;
      }
      var lowerUnit := Lower(unit);
      if Contains(lowerUnit, "vpn") || Contains(lowerUnit, "wireguard")
         || Contains(lowerUnit, "wg-quick") || Contains(lowerUnit, "zerotier") {
        matches := matches + {unit};
      }
      i := i + 1;
    }
    assert lines[..i] == lines;
    detected := SortSet(matches);
  }

  /**
   * The reported services are sorted, duplicate-free, and exactly the VPN
   * units named first on some output line; failure or empty output gives none.
   */
  lemma {:induction false} VpnServicesSpec(res: CommandResult, u: string)
    ensures res.returncode != 0 || res.stdout == [] ==> VpnServicesOf(res) == []
    ensures StrictlySorted(VpnServicesOf(res))
    ensures res.returncode == 0 && res.stdout != [] ==>
      (u in VpnServicesOf(res) <==>
         IsVpnUnit(u) && exists k :: 0 <= k < |SplitLines(res.stdout)| && NamesFirst(SplitLines(res.stdout)[k], u))
  {
    var lines := SplitLines(res.stdout);
    SortedOfProps(VpnUnitsOf(lines));
    VpnUnitsOfIff(lines, u);
  }

  const SkippedPrefixes: seq<string> := ["veth", "docker", "br-", "virbr", "wg", "tun", "tap"]

  predicate HasSkippedPrefix(name: string)
  {
    exists q :: 0 <= q < |SkippedPrefixes| && StartsWith(name, SkippedPrefixes[q])
  }

  /** An interface name `list_candidate_interfaces` keeps. */
  predicate IsCandidateName(name: string)
  {
    name != "lo" && !HasSkippedPrefix(name)
  }

  /** The interface name on one line of `ip -o link show`: the second ':' field, stripped, cut at '@'. */
  function LinkNameOfLine(line: string): Option<string>
  {
    var parts := Split(line, ':');
    if |parts| < 2 then None else Some(Split(Trim(parts[1]), '@')[0])
  }

  function CandidateOfLine(line: string): seq<string>
  {
    match LinkNameOfLine(line)
    case None => []
    case Some(name) => if IsCandidateName(name) then [name] else []
  }

  function CandidatesOf(lines: seq<string>): seq<string>
  {
    if lines == [] then []
    else CandidatesOf(lines[..|lines| - 1]) + CandidateOfLine(lines[|lines| - 1])
  }

  function CandidateInterfacesOf(res: CommandResult): seq<string>
  {
    if res.returncode != 0 then [] else CandidatesOf(SplitLines(res.stdout))
  }

  lemma CandidatesOfNext(lines: seq<string>, i: nat)
    requires i < |lines|
    ensures CandidatesOf(lines[..i + 1]) == CandidatesOf(lines[..i]) + CandidateOfLine(lines[i])
  {
    assert lines[..i + 1][..i] == lines[..i];
  }

  /** The parsing half of `list_candidate_interfaces`. */
  method ParseCandidateInterfaces(res: CommandResult) returns (names: seq<string>)
    ensures names == CandidateInterfacesOf(res)
  {
    if res.returncode != 0 {
      return [];
    }
    names := [];
    var lines := SplitLines(res.stdout);
    var i := 0;
    while i < |lines|
      invariant 0 <= i <= |lines|
      invariant names == CandidatesOf(lines[..i])
    {
      CandidatesOfNext(lines, i);
      var parts := Split(lines[i], ':');
      if |parts| < 2 {
        i := i + 1;
        continue;
      }
      var raw := Trim(parts[1]);
      var name := Split(raw, '@')[0];
      if name == "lo" {
        i := i + 1;
        continue;
      }
      if HasSkippedPrefix(name) {
        i := i + 1;
        continue;
      }
      names := names + [name];
      i := i + 1;
    }
    assert lines[..i] == lines;
  }

  /**
   * Every candidate name is kept by the filter, holds no '@', and comes from a
   * line with at least two ':' fields; the names keep line order.
   */
  lemma {:induction false} CandidatesOfSound(lines: seq<string>, n: string)
    requires n in CandidatesOf(lines)
    ensures IsCandidateName(n) && '@' !in n
    ensures exists k :: 0 <= k < |lines| && LinkNameOfLine(lines[k]) == Some(n)
    decreases |lines|
  {
    var init := lines[..|lines| - 1];
    if n in CandidatesOf(init) {
      CandidatesOfSound(init, n);
      var k :| 0 <= k < |init| && LinkNameOfLine(init[k]) == Some(n);
      assert lines[k] == init[k];
    } else {
      var line := lines[|lines| - 1];
      assert n in CandidateOfLine(line);
      var parts := Split(line, ':');
      var pieces := Split(Trim(parts[1]), '@');
      assert n == pieces[0];
      SplitPieces(Trim(parts[1]), '@');
    }
  }

  /** A line whose name passes the filter contributes that name. */
  lemma {:induction false} CandidatesOfComplete(lines: seq<string>, k: nat)
    requires k < |lines|
    requires LinkNameOfLine(lines[k]).Some? && IsCandidateName(LinkNameOfLine(lines[k]).value)
    ensures LinkNameOfLine(lines[k]).value in CandidatesOf(lines)
    decreases |lines|
  {
    if k < |lines| - 1 {
      CandidatesOfComplete(lines[..|lines| - 1], k);
    }
  }

  // ---------------------------------------------------------------------
  // Probe results as functions of the trace
  // ---------------------------------------------------------------------

  /** `interface_exists`. */
  function ExistsStep(env: Env, w: seq<Event>, iface: string): Step<bool>
  {
    Step(Answer(env, w, LinkShowCmd(iface), DefaultTimeout).returncode == 0,
         [Exec(LinkShowCmd(iface), DefaultTimeout)])
  }

  /** `interface_link_up`. */
  function LinkUpStep(env: Env, w: seq<Event>, iface: string): Step<bool>
  {
    Step(LinkUpOf(Answer(env, w, LinkShowCmd(iface), DefaultTimeout)),
         [Exec(LinkShowCmd(iface), DefaultTimeout)])
  }

  /** `interface_has_ipv4`. */
  function HasIpv4Step(env: Env, w: seq<Event>, iface: string): Step<bool>
  {
    Step(HasIpv4Of(Answer(env, w, AddrShowCmd(iface, 4), DefaultTimeout)),
         [Exec(AddrShowCmd(iface, 4), DefaultTimeout)])
  }

  /** `has_default_route`. */
  function DefaultRouteStep(env: Env, w: seq<Event>): Step<bool>
  {
    Step(DefaultRouteOf(Answer(env, w, RouteShowCmd, DefaultTimeout)),
         [Exec(RouteShowCmd, DefaultTimeout)])
  }

  /** `ping_host(host)` with the default count 1 and deadline 3 seconds (timeout 4). */
  function PingStep(env: Env, w: seq<Event>, host: string): Step<bool>
  {
    Step(Answer(env, w, PingCmd(host, 1, 3), 4).returncode == 0, [Exec(PingCmd(host, 1, 3), 4)])
  }

  /** The name `dns_resolves` looks up when given none. */
  const DefaultDnsName := "deb.debian.org"
  const DnsLookupCmd: seq<string> := GetentCmd(DefaultDnsName)

  /** `dns_resolves()` for the default name. */
  function DnsStep(env: Env, w: seq<Event>): Step<bool>
  {
    Step(ResolvesOf(Answer(env, w, DnsLookupCmd, DefaultTimeout)), [Exec(DnsLookupCmd, DefaultTimeout)])
  }

  lemma DnsStepProps(env: Env, w: seq<Event>)
    ensures Announced(DnsStep(env, w).trace) == []
    ensures Commands(DnsStep(env, w).trace) == [DnsLookupCmd]
  {
    assert DnsStep(env, w).trace[1..] == [];
  }

  /** Which network managers are active (the dictionary `detect_network_managers` returns). */
  datatype Managers = Managers(networkManager: bool, networkd: bool, ifupdown: bool)

  /** `detect_network_managers`. */
  function ManagersStep(env: Env, w: seq<Event>): Step<Managers>
  {
    var e1 := Exec(IsActiveCmd("NetworkManager"), DefaultTimeout);
    var e2 := Exec(IsActiveCmd("systemd-networkd"), DefaultTimeout);
    var nm := Answer(env, w, IsActiveCmd("NetworkManager"), DefaultTimeout).returncode == 0;
    var sn := Answer(env, w + [e1], IsActiveCmd("systemd-networkd"), DefaultTimeout).returncode == 0;
    var up := env.installed(w + [e1, e2], "ifup");
    Step(Managers(nm, sn, up), [e1, e2, Event.Which("ifup")])
  }

  /** Manager detection runs the two `is-active` queries, then looks for `ifup`, and announces nothing. */
  lemma ManagersStepProps(env: Env, w: seq<Event>)
    ensures var ms := ManagersStep(env, w);
      Commands(ms.trace) == [IsActiveCmd("NetworkManager"), IsActiveCmd("systemd-networkd")]
      && Announced(ms.trace) == []
      && ms.value.networkManager == (Answer(env, w, IsActiveCmd("NetworkManager"), DefaultTimeout).returncode == 0)
  {
    var t := ManagersStep(env, w).trace;
    assert t[2..][1..] == [];
    assert Commands(t[2..]) == [];
    assert Announced(t[2..]) == [];
    assert t[1..][1..] == t[2..];
  }

  // ---------------------------------------------------------------------
  // Probes
  // ---------------------------------------------------------------------

  method InterfaceExists(h: Host, iface: string) returns (present: bool)
    modifies h
    ensures var s := ExistsStep(h.env, old(h.trace), iface); present == s.value && h.trace == old(h.trace) + s.trace
  {
    var res := h.Run(LinkShowCmd(iface), DefaultTimeout);
    present := res.returncode == 0;
  }

  method InterfaceLinkUp(h: Host, iface: string) returns (up: bool)
    modifies h
    ensures var s := LinkUpStep(h.env, old(h.trace), iface); up == s.value && h.trace == old(h.trace) + s.trace
  {
    var res := h.Run(LinkShowCmd(iface), DefaultTimeout);
    up := ParseLinkUp(res);
  }

  /** `interface_ip_addrs(iface, family)`. */
  method InterfaceIpAddrs(h: Host, iface: string, family: int) returns (addrs: seq<string>)
    modifies h
    ensures h.trace == old(h.trace) + [Exec(AddrShowCmd(iface, family), DefaultTimeout)]
    ensures addrs == IpAddrsOf(Answer(h.env, old(h.trace), AddrShowCmd(iface, family), DefaultTimeout))
  {
    var res := h.Run(AddrShowCmd(iface, family), DefaultTimeout);
    addrs := ParseIpAddrs(res);
  }

  method InterfaceHasIpv4(h: Host, iface: string) returns (has: bool)
    modifies h
    ensures var s := HasIpv4Step(h.env, old(h.trace), iface); has == s.value && h.trace == old(h.trace) + s.trace
  {
    var addrs := InterfaceIpAddrs(h, iface, 4);
    has := |addrs| > 0;
  }

  method HasDefaultRoute(h: Host) returns (found: bool)
    modifies h
    ensures var s := DefaultRouteStep(h.env, old(h.trace)); found == s.value && h.trace == old(h.trace) + s.trace
  {
    var res := h.Run(RouteShowCmd, DefaultTimeout);
    found := ParseDefaultRoute(res);
  }

  /** `ping_host(host, count, timeout)`: the command gets one second more than the ping deadline. */
  method PingHost(h: Host, host: string, count: int, timeout: nat) returns (ok: bool)
    modifies h
    ensures h.trace == old(h.trace) + [Exec(PingCmd(host, count, timeout), timeout + 1)]
    ensures ok <==> Answer(h.env, old(h.trace), PingCmd(host, count, timeout), timeout + 1).returncode == 0
    ensures count == 1 && timeout == 3 ==>
      var s := PingStep(h.env, old(h.trace), host); ok == s.value && h.trace == old(h.trace) + s.trace
  {
    var res := h.Run(PingCmd(host, count, timeout), timeout + 1);
    ok := res.returncode == 0;
  }

  /** `dns_resolves(name)`. */
  method DnsResolves(h: Host, name: string) returns (ok: bool)
    modifies h
    ensures h.trace == old(h.trace) + [Exec(GetentCmd(name), DefaultTimeout)]
    ensures ok == ResolvesOf(Answer(h.env, old(h.trace), GetentCmd(name), DefaultTimeout))
    ensures name == DefaultDnsName ==>
      var s := DnsStep(h.env, old(h.trace)); ok == s.value && h.trace == old(h.trace) + s.trace
  {
    var res := h.Run(GetentCmd(name), DefaultTimeout);
    ok := ResolvesOf(res);
  }

  method DetectNetworkManagers(h: Host) returns (m: Managers)
    modifies h
    ensures var s := ManagersStep(h.env, old(h.trace)); m == s.value && h.trace == old(h.trace) + s.trace
  {
    ghost var w := h.trace;
    var managers := Managers(false, false, false);
    var nm := h.Run(IsActiveCmd("NetworkManager"), DefaultTimeout);
    managers := managers.(networkManager := nm.returncode == 0);
    var sn := h.Run(IsActiveCmd("systemd-networkd"), DefaultTimeout);
    managers := managers.(networkd := sn.returncode == 0);
    assert h.trace == w + [Exec(IsActiveCmd("NetworkManager"), DefaultTimeout), Exec(IsActiveCmd("systemd-networkd"), DefaultTimeout)];
    var ifup := h.Which("ifup");
    managers := managers.(ifupdown := ifup);
    m := managers;
  }

  /** `tailscale_status`: installed when the binary is found; active only when installed and tailscaled runs. */
  method TailscaleStatus(h: Host) returns (installed: bool, active: bool)
    modifies h
    ensures installed == h.env.installed(old(h.trace), "tailscale")
    ensures !installed ==> !active && h.trace == old(h.trace) + [Event.Which("tailscale")]
    ensures installed ==>
      var w := old(h.trace) + [Event.Which("tailscale")];
      h.trace == w + [Exec(IsActiveCmd("tailscaled"), DefaultTimeout)]
      && active == (Answer(h.env, w, IsActiveCmd("tailscaled"), DefaultTimeout).returncode == 0)
  {
    installed := h.Which("tailscale");
    active := false;
    if installed {
      var ts := h.Run(IsActiveCmd("tailscaled"), DefaultTimeout);
      active := ts.returncode == 0;
    }
  }

  method DetectActiveVpnServices(h: Host) returns (detected: seq<string>)
    modifies h
    ensures h.trace == old(h.trace) + [Exec(ListRunningServicesCmd, DefaultTimeout)]
    ensures detected == VpnServicesOf(Answer(h.env, old(h.trace), ListRunningServicesCmd, DefaultTimeout))
  {
    var res := h.Run(ListRunningServicesCmd, DefaultTimeout);
    detected := ParseVpnServices(res);
  }

  /** `list_candidate_interfaces`. */
  function CandidatesStep(env: Env, w: seq<Event>): Step<seq<string>>
  {
    Step(CandidateInterfacesOf(Answer(env, w, ListLinksCmd, DefaultTimeout)),
         [Exec(ListLinksCmd, DefaultTimeout)])
  }

  method ListCandidateInterfaces(h: Host) returns (names: seq<string>)
    modifies h
    ensures var s := CandidatesStep(h.env, old(h.trace)); names == s.value && h.trace == old(h.trace) + s.trace
  {
    var res := h.Run(ListLinksCmd, DefaultTimeout);
    names := ParseCandidateInterfaces(res);
  }
}
