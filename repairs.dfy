/**
 * The repair playbook (`eth_repair/repairs.py`; `eth_repair_menu.py` carries
 * identical copies of the same routines).
 *
 * Each repair is a method on the `Host`, proved to append exactly the events
 * of a trace function. The trace functions are evaluated against the trace
 * so far, so a re-probe after an action sees the environment's answer at
 * that point. The lemmas state what the events are: which commands are
 * announced, which are executed, and when a repair stops.
 */
module Repairs {
  import opened Types
  import opened Text
  import opened Shell
  import opened Actions
  import opened Probes
  import opened DnsConfig

  function LinkUpAction(iface: string): Action
  {
    Action("Bring " + iface + " link UP via ip", ["ip", "link", "set", iface, "up"])
  }

  const RestartNetworkd := Action("Restart systemd-networkd", ["systemctl", "restart", "systemd-networkd"])
  const RestartNetworkManager := Action("Restart NetworkManager", ["systemctl", "restart", "NetworkManager"])
  const RestartNetworking := Action("Restart networking (ifupdown)", ["systemctl", "restart", "networking"])
  const RestartResolved := Action("Restart systemd-resolved", ["systemctl", "restart", "systemd-resolved"])

  function IfDown(iface: string): Action { Action("ifdown " + iface, ["ifdown", iface]) }
  function IfUp(iface: string): Action { Action("ifup " + iface, ["ifup", iface]) }
  function Dhclient(iface: string): Action { Action("Run dhclient on " + iface, ["dhclient", "-v", iface]) }

  lemma ActionsEventsOne(a: Action, dryRun: bool)
    ensures ActionsEvents([a], dryRun) == ActionEvents(a, dryRun)
  {
    assert ActionsEvents([a], dryRun) == ActionEvents(a, dryRun) + ActionsEvents([], dryRun);
  }

  lemma ActionsEventsTwo(a: Action, b: Action, dryRun: bool)
    ensures ActionsEvents([a, b], dryRun) == ActionEvents(a, dryRun) + ActionEvents(b, dryRun)
  {
    assert [a, b][1..] == [b];
    ActionsEventsOne(b, dryRun);
  }

  // ---------------------------------------------------------------------
  // Interface missing, link down
  // ---------------------------------------------------------------------

  const MissingInfo := "[INFO] Interface does not exist. This is usually a driver, hardware or VM configuration issue."
  const MissingHint := "[HINT] Check dmesg, lspci/lsusb, or hypervisor NIC settings."

  /** `repair_interface_missing`: two hints and no interaction with the machine. */
  method RepairInterfaceMissing(h: Host, iface: string)
    modifies h
    ensures h.trace == old(h.trace)
    ensures h.log == old(h.log) + [Info(MissingInfo, |h.trace|), Info(MissingHint, |h.trace|)]
  {
    h.Log(MissingInfo);
    h.Log(MissingHint);
  }

  /** `repair_link_down`. */
  method RepairLinkDown(h: Host, iface: string, dryRun: bool)
    modifies h
    ensures h.trace == old(h.trace) + ActionEvents(LinkUpAction(iface), dryRun)
  {
    var _ := ApplyAction(h, "Bring " + iface + " link UP via ip", ["ip", "link", "set", iface, "up"], dryRun);
  }

  /** Bringing the link up announces exactly `ip link set <iface> up`, and runs it outside dry run. */
  lemma LinkDownProps(env: Env, w: seq<Event>, iface: string, dryRun: bool)
    ensures Announced(ActionEvents(LinkUpAction(iface), dryRun)) == [["ip", "link", "set", iface, "up"]]
    ensures Commands(ActionEvents(LinkUpAction(iface), dryRun))
         == if dryRun then [] else [["ip", "link", "set", iface, "up"]]
  {
    ActionEventsProps(env, w, LinkUpAction(iface), dryRun);
  }

  // ---------------------------------------------------------------------
  // No IPv4: escalating tiers
  // ---------------------------------------------------------------------

  /**
   * The tiers of `repair_no_ipv4`, in the order tried: a restart of
   * systemd-networkd when it is active, `ifdown`/`ifup` when ifupdown is
   * installed, and `dhclient` always last.
   */
  function Tiers(iface: string, m: Managers): (tiers: seq<seq<Action>>)
    ensures tiers != [] && tiers[|tiers| - 1] == [Dhclient(iface)]
  {
    (if m.networkd then [[RestartNetworkd]] else []) + LaterTiers(iface, m)
  }

  /** The tiers after the restart of systemd-networkd. */
  function LaterTiers(iface: string, m: Managers): seq<seq<Action>>
  {
    (if m.ifupdown then [[IfDown(iface), IfUp(iface)]] else []) + [[Dhclient(iface)]]
  }

  lemma TiersShape(iface: string, m: Managers)
    ensures m.networkd ==> Tiers(iface, m)[0] == [RestartNetworkd] && Tiers(iface, m)[1..] == LaterTiers(iface, m)
    ensures !m.networkd ==> Tiers(iface, m) == LaterTiers(iface, m)
    ensures m.ifupdown ==>
      LaterTiers(iface, m)[0] == [IfDown(iface), IfUp(iface)] && LaterTiers(iface, m)[1..] == [[Dhclient(iface)]]
    ensures !m.ifupdown ==> LaterTiers(iface, m) == [[Dhclient(iface)]]
  {
  }

  /**
   * One tier: its actions and, outside dry run, one IPv4 probe. The value is
   * whether that probe found an address (never, in dry run).
   */
  function TierRound(env: Env, w: seq<Event>, iface: string, acts: seq<Action>, dryRun: bool): Step<bool>
  {
    var a := ActionsEvents(acts, dryRun);
    if dryRun then Step(false, a)
    else
      var p := HasIpv4Step(env, w + a, iface);
      Step(p.value, a + p.trace)
  }

  /**
   * Running tiers one after another, stopping after the first round whose
   * probe finds an address. In dry run nothing is probed, so every tier runs.
   */
  function TiersEvents(env: Env, w: seq<Event>, iface: string, tiers: seq<seq<Action>>, dryRun: bool): seq<Event>
    decreases |tiers|
  {
    if tiers == [] then []
    else
      var r := TierRound(env, w, iface, tiers[0], dryRun);
      r.trace + (if r.value then [] else TiersEvents(env, w + r.trace, iface, tiers[1..], dryRun))
  }

  lemma TiersUnfold(env: Env, w: seq<Event>, iface: string, tiers: seq<seq<Action>>, dryRun: bool)
    requires tiers != []
    ensures var r := TierRound(env, w, iface, tiers[0], dryRun);
      w + TiersEvents(env, w, iface, tiers, dryRun)
      == w + r.trace + (if r.value then [] else TiersEvents(env, w + r.trace, iface, tiers[1..], dryRun))
  {
    var r := TierRound(env, w, iface, tiers[0], dryRun);
    AppendAssoc(w, r.trace, if r.value then [] else TiersEvents(env, w + r.trace, iface, tiers[1..], dryRun));
  }

  /** Runs one tier's actions and, outside dry run, probes for IPv4 once. */
  method ApplyTier(h: Host, iface: string, acts: seq<Action>, dryRun: bool) returns (found: bool)
    modifies h
    ensures var r := TierRound(h.env, old(h.trace), iface, acts, dryRun);
      found == r.value && h.trace == old(h.trace) + r.trace
  {
    ghost var w := h.trace;
    var i := 0;
    while i < |acts|
      invariant 0 <= i <= |acts|
      invariant h.trace == w + ActionsEvents(acts[..i], dryRun)
    {
      assert acts[..i + 1] == acts[..i] + [acts[i]];
      ActionsEventsAppend(acts[..i], [acts[i]], dryRun);
      ActionsEventsOne(acts[i], dryRun);
      AppendAssoc(w, ActionsEvents(acts[..i], dryRun), ActionEvents(acts[i], dryRun));
      var _ := ApplyAction(h, acts[i].desc, acts[i].cmd, dryRun);
      i := i + 1;
    }
    assert acts[..i] == acts;
    found := false;
    if !dryRun {
      ghost var a := ActionsEvents(acts, dryRun);
      found := InterfaceHasIpv4(h, iface);
      AppendAssoc(w, a, HasIpv4Step(h.env, w + a, iface).trace);
    }
  }

  const Ipv4AfterNetworkd := "[OK] IPv4 obtained after systemd-networkd restart."
  const NoIpv4AfterNetworkd := "[INFO] No IPv4 after systemd-networkd restart; falling back to ifup / dhclient."
  const Ipv4AfterIfup := "[OK] IPv4 obtained after ifup."
  const Ipv4AfterDhclient := "[OK] IPv4 obtained after dhclient."
  const StillNoIpv4 := "[WARN] Still no IPv4 after systemd-networkd/ifup/dhclient. Check your DHCP server or static config."

  /** `repair_no_ipv4(iface, managers, dry_run)`. */
  method RepairNoIpv4(h: Host, iface: string, m: Managers, dryRun: bool)
    modifies h
    ensures h.trace == old(h.trace) + TiersEvents(h.env, old(h.trace), iface, Tiers(iface, m), dryRun)
  {
    TiersShape(iface, m);
    ghost var goal := h.trace + TiersEvents(h.env, h.trace, iface, Tiers(iface, m), dryRun);
    if m.networkd {
      TiersUnfold(h.env, h.trace, iface, Tiers(iface, m), dryRun);
      var found := ApplyTier(h, iface, [RestartNetworkd], dryRun);
      if found {
        h.Log(Ipv4AfterNetworkd);
        return;
      }
      if !dryRun {
        h.Log(NoIpv4AfterNetworkd);
      }
    }
    assert goal == h.trace + TiersEvents(h.env, h.trace, iface, LaterTiers(iface, m), dryRun);

    if m.ifupdown {
      TiersUnfold(h.env, h.trace, iface, LaterTiers(iface, m), dryRun);
      var found := ApplyTier(h, iface, [IfDown(iface), IfUp(iface)], dryRun);
      if found {
        h.Log(Ipv4AfterIfup);
        return;
      }
    }
    assert goal == h.trace + TiersEvents(h.env, h.trace, iface, [[Dhclient(iface)]], dryRun);

    TiersUnfold(h.env, h.trace, iface, [[Dhclient(iface)]], dryRun);
    assert [[Dhclient(iface)]][1..] == [];
    var found := ApplyTier(h, iface, [Dhclient(iface)], dryRun);
    if found {
      h.Log(Ipv4AfterDhclient);
    } else if !dryRun {
      h.Log(StillNoIpv4);
    }
  }

  /** The commands of tiers, in order. */
  function FlatCmds(tiers: seq<seq<Action>>): seq<seq<string>>
  {
    if tiers == [] then [] else Cmds(tiers[0]) + FlatCmds(tiers[1..])
  }

  /** The commands of tiers each followed by the IPv4 probe. */
  function ProbedCmds(tiers: seq<seq<Action>>, iface: string): seq<seq<string>>
  {
    if tiers == [] then [] else Cmds(tiers[0]) + [AddrShowCmd(iface, 4)] + ProbedCmds(tiers[1..], iface)
  }

  /** The applicable tiers announce networkd's restart, then ifdown/ifup, then dhclient. */
  lemma TiersOrder(iface: string, m: Managers)
    ensures FlatCmds(Tiers(iface, m))
         == (if m.networkd then [["systemctl", "restart", "systemd-networkd"]] else [])
            + (if m.ifupdown then [["ifdown", iface], ["ifup", iface]] else [])
            + [["dhclient", "-v", iface]]
  {
    TiersShape(iface, m);
    var d := [[Dhclient(iface)]];
    assert FlatCmds(d) == [["dhclient", "-v", iface]] by {
      assert d[1..] == [];
    }
    var later := LaterTiers(iface, m);
    if m.ifupdown {
      assert FlatCmds(later) == Cmds([IfDown(iface), IfUp(iface)]) + FlatCmds(d);
      assert Cmds([IfDown(iface), IfUp(iface)]) == [["ifdown", iface], ["ifup", iface]];
    }
    if m.networkd {
      assert FlatCmds(Tiers(iface, m)) == Cmds([RestartNetworkd]) + FlatCmds(later);
    }
  }

  /** In dry run the tiers execute nothing and announce every applicable command. */
  lemma {:induction false} TiersDryRun(env: Env, w: seq<Event>, iface: string, tiers: seq<seq<Action>>)
    ensures Commands(TiersEvents(env, w, iface, tiers, true)) == []
    ensures Announced(TiersEvents(env, w, iface, tiers, true)) == FlatCmds(tiers)
    decreases |tiers|
  {
    if tiers != [] {
      var a := ActionsEvents(tiers[0], true);
      TiersDryRun(env, w + a, iface, tiers[1..]);
      ActionsEventsProps(tiers[0], true);
      CommandsAppend(a, TiersEvents(env, w + a, iface, tiers[1..], true));
      AnnouncedAppend(a, TiersEvents(env, w + a, iface, tiers[1..], true));
    }
  }

  /** `repair_no_ipv4` in dry run probes nothing, runs nothing, and announces every applicable tier, dhclient last. */
  lemma NoIpv4DryRun(env: Env, w: seq<Event>, iface: string, m: Managers)
    ensures var tr := TiersEvents(env, w, iface, Tiers(iface, m), true);
      Commands(tr) == []
      && Announced(tr) == FlatCmds(Tiers(iface, m))
      && Announced(tr)[|Announced(tr)| - 1] == ["dhclient", "-v", iface]
  {
    TiersDryRun(env, w, iface, Tiers(iface, m));
    TiersOrder(iface, m);
  }

  /** The IPv4 probe event of `repair_no_ipv4`. */
  function Ipv4Probe(iface: string): Event
  {
    Exec(AddrShowCmd(iface, 4), DefaultTimeout)
  }

  lemma ActionsEventsNoProbe(acts: seq<Action>, dryRun: bool, iface: string, j: int)
    requires 0 <= j < |ActionsEvents(acts, dryRun)|
    ensures ActionsEvents(acts, dryRun)[j] != Ipv4Probe(iface)
  {
    ActionsEventsOnly(acts, dryRun);
  }

  /** The IPv4 probes that precede position `n` of `tr` all found no address. */
  predicate EarlierProbesFailed(env: Env, w: seq<Event>, iface: string, tr: seq<Event>, n: int)
  {
    forall j :: 0 <= j < n && j < |tr| && tr[j] == Ipv4Probe(iface) ==> !HasIpv4Step(env, w + tr[..j], iface).value
  }

  /** How many tiers run outside dry run: up to and including the first whose probe finds an address. */
  function TiersRun(env: Env, w: seq<Event>, iface: string, tiers: seq<seq<Action>>): (n: nat)
    ensures n <= |tiers| && (tiers != [] ==> 1 <= n)
    decreases |tiers|
  {
    if tiers == [] then 0
    else
      var r := TierRound(env, w, iface, tiers[0], false);
      if r.value then 1 else 1 + TiersRun(env, w + r.trace, iface, tiers[1..])
  }

  /** Stopping after the first `k` tiers: what the run announces, runs and last observes. */
  ghost predicate StoppedAfter(env: Env, w: seq<Event>, iface: string, tiers: seq<seq<Action>>, tr: seq<Event>, k: int)
  {
    1 <= k <= |tiers|
    && Announced(tr) == FlatCmds(tiers[..k])
    && Commands(tr) == ProbedCmds(tiers[..k], iface)
    && EndsWithProbe(env, w, iface, tr, k < |tiers|)
  }

  lemma TierRoundLive(env: Env, w: seq<Event>, iface: string, acts: seq<Action>)
    ensures var r := TierRound(env, w, iface, acts, false);
      var a := ActionsEvents(acts, false);
      r.trace == a + [Ipv4Probe(iface)]
      && r.value == HasIpv4Step(env, w + a, iface).value
      && Announced(r.trace) == Cmds(acts)
      && Commands(r.trace) == Cmds(acts) + [AddrShowCmd(iface, 4)]
  {
    var a := ActionsEvents(acts, false);
    ActionsEventsProps(acts, false);
    AnnouncedAppend(a, [Ipv4Probe(iface)]);
    CommandsAppend(a, [Ipv4Probe(iface)]);
  }

  lemma TiersPrefix(tiers: seq<seq<Action>>, k: nat, iface: string)
    requires 1 <= k <= |tiers|
    ensures FlatCmds(tiers[..k]) == Cmds(tiers[0]) + FlatCmds(tiers[1..][..k - 1])
    ensures ProbedCmds(tiers[..k], iface) == Cmds(tiers[0]) + [AddrShowCmd(iface, 4)] + ProbedCmds(tiers[1..][..k - 1], iface)
  {
    assert tiers[..k][0] == tiers[0];
    assert tiers[..k][1..] == tiers[1..][..k - 1];
  }

  /** Outside dry run exactly the tiers that run are announced, and each is followed by one IPv4 probe. */
  lemma {:induction false} TiersRunCommands(env: Env, w: seq<Event>, iface: string, tiers: seq<seq<Action>>)
    ensures var tr := TiersEvents(env, w, iface, tiers, false);
      var n := TiersRun(env, w, iface, tiers);
      Announced(tr) == FlatCmds(tiers[..n]) && Commands(tr) == ProbedCmds(tiers[..n], iface)
    decreases |tiers|
  {
    if tiers != [] {
      var n := TiersRun(env, w, iface, tiers);
      var r := TierRound(env, w, iface, tiers[0], false);
      var rt := if r.value then [] else TiersEvents(env, w + r.trace, iface, tiers[1..], false);
      TierRoundLive(env, w, iface, tiers[0]);
      TiersPrefix(tiers, n, iface);
      AnnouncedAppend(r.trace, rt);
      CommandsAppend(r.trace, rt);
      if r.value {
        assert tiers[1..][..0] == [];
      } else {
        TiersRunCommands(env, w + r.trace, iface, tiers[1..]);
      }
    }
  }

  /** `tr` ends with an IPv4 probe, and when `found` is required that probe saw an address. */
  ghost predicate EndsWithProbe(env: Env, w: seq<Event>, iface: string, tr: seq<Event>, found: bool)
  {
    exists pre :: tr == pre + [Ipv4Probe(iface)] && (found ==> HasIpv4Step(env, w + pre, iface).value)
  }

  /**
   * Outside dry run the last event is an IPv4 probe, and when not every tier
   * ran, that probe found an address.
   */
  lemma {:induction false} TiersRunLast(env: Env, w: seq<Event>, iface: string, tiers: seq<seq<Action>>)
    requires tiers != []
    ensures EndsWithProbe(env, w, iface, TiersEvents(env, w, iface, tiers, false),
                          TiersRun(env, w, iface, tiers) < |tiers|)
    decreases |tiers|
  {
    var tr := TiersEvents(env, w, iface, tiers, false);
    var r := TierRound(env, w, iface, tiers[0], false);
    var a := ActionsEvents(tiers[0], false);
    TierRoundLive(env, w, iface, tiers[0]);
    if r.value {
      assert tr == a + [Ipv4Probe(iface)];
      assert HasIpv4Step(env, w + a, iface).value;
    } else if |tiers| == 1 {
      assert TiersEvents(env, w + r.trace, iface, tiers[1..], false) == [];
      assert tr == a + [Ipv4Probe(iface)];
      assert TiersRun(env, w, iface, tiers) == |tiers|;
    } else {
      var w1 := w + r.trace;
      var rt := TiersEvents(env, w1, iface, tiers[1..], false);
      assert tr == r.trace + rt;
      TiersRunLast(env, w1, iface, tiers[1..]);
      var found := TiersRun(env, w1, iface, tiers[1..]) < |tiers| - 1;
      var pre :| rt == pre + [Ipv4Probe(iface)] && (found ==> HasIpv4Step(env, w1 + pre, iface).value);
      AppendAssoc(r.trace, pre, [Ipv4Probe(iface)]);
      AppendAssoc(w, r.trace, pre);
      assert tr == (r.trace + pre) + [Ipv4Probe(iface)];
      assert TiersRun(env, w, iface, tiers) == 1 + TiersRun(env, w1, iface, tiers[1..]);
    }
  }

  /**
   * Outside dry run the tiers stop after the first `k` of them: every tier
   * up to `k` is announced and run, each followed by one IPv4 probe, and the
   * run ends with a probe, which found an address when `k` is not the last
   * tier.
   */
  lemma TiersStopOnSuccess(env: Env, w: seq<Event>, iface: string, tiers: seq<seq<Action>>)
    requires tiers != []
    ensures exists k :: StoppedAfter(env, w, iface, tiers, TiersEvents(env, w, iface, tiers, false), k)
  {
    TiersRunCommands(env, w, iface, tiers);
    TiersRunLast(env, w, iface, tiers);
    assert StoppedAfter(env, w, iface, tiers, TiersEvents(env, w, iface, tiers, false), TiersRun(env, w, iface, tiers));
  }

  /** Within one live round only the closing probe is an IPv4 probe; when it finds nothing, every probe of the round failed. */
  lemma RoundProbesFailed(env: Env, w: seq<Event>, iface: string, acts: seq<Action>)
    ensures var r := TierRound(env, w, iface, acts, false);
      EarlierProbesFailed(env, w, iface, r.trace, |r.trace| - 1)
      && (!r.value ==> EarlierProbesFailed(env, w, iface, r.trace, |r.trace|))
  {
    var r := TierRound(env, w, iface, acts, false);
    var a := ActionsEvents(acts, false);
    TierRoundLive(env, w, iface, acts);
    forall j | 0 <= j < |a|
      ensures r.trace[j] != Ipv4Probe(iface)
    {
      assert r.trace[j] == a[j];
      ActionsEventsNoProbe(acts, false, iface, j);
    }
    if !r.value {
      forall j | 0 <= j < |r.trace| && r.trace[j] == Ipv4Probe(iface)
        ensures !HasIpv4Step(env, w + r.trace[..j], iface).value
      {
        if j == |a| {
          assert r.trace[..j] == a;
        }
      }
    }
  }

  /** Failed earlier probes of two consecutive traces combine, when every probe of the first failed. */
  lemma EarlierProbesConcat(env: Env, w: seq<Event>, iface: string, p: seq<Event>, q: seq<Event>)
    requires EarlierProbesFailed(env, w, iface, p, |p|)
    requires EarlierProbesFailed(env, w + p, iface, q, |q| - 1)
    ensures EarlierProbesFailed(env, w, iface, p + q, |p + q| - 1)
  {
    forall j | 0 <= j < |p + q| - 1 && (p + q)[j] == Ipv4Probe(iface)
      ensures !HasIpv4Step(env, w + (p + q)[..j], iface).value
    {
      if j < |p| {
        assert (p + q)[j] == p[j];
        assert (p + q)[..j] == p[..j];
      } else {
        var i := j - |p|;
        assert (p + q)[j] == q[i];
        assert (p + q)[..j] == p + q[..i];
        AppendAssoc(w, p, q[..i]);
      }
    }
  }

  /** Outside dry run, every IPv4 probe before the last one found no address. */
  lemma {:induction false} TiersEarlierProbesFail(env: Env, w: seq<Event>, iface: string, tiers: seq<seq<Action>>)
    ensures var tr := TiersEvents(env, w, iface, tiers, false);
      EarlierProbesFailed(env, w, iface, tr, |tr| - 1)
    decreases |tiers|
  {
    if tiers != [] {
      var r := TierRound(env, w, iface, tiers[0], false);
      RoundProbesFailed(env, w, iface, tiers[0]);
      if r.value {
        assert TiersEvents(env, w, iface, tiers, false) == r.trace + [];
        assert r.trace + [] == r.trace;
      } else {
        var rt := TiersEvents(env, w + r.trace, iface, tiers[1..], false);
        assert TiersEvents(env, w, iface, tiers, false) == r.trace + rt;
        TiersEarlierProbesFail(env, w + r.trace, iface, tiers[1..]);
        EarlierProbesConcat(env, w, iface, r.trace, rt);
      }
    }
  }

  // ---------------------------------------------------------------------
  // No route (and the menu's no-internet repair): one manager restart
  // ---------------------------------------------------------------------

  /** The restart the route repair performs: the first active manager's, or none. */
  function ManagerRestart(m: Managers): (acts: seq<Action>)
    ensures |acts| <= 1
  {
    if m.networkManager then [RestartNetworkManager]
    else if m.networkd then [RestartNetworkd]
    else if m.ifupdown then [RestartNetworking]
    else []
  }

  /** NetworkManager has priority over systemd-networkd, which has priority over ifupdown. */
  lemma ManagerPriority(m: Managers)
    ensures Cmds(ManagerRestart(m)) == [] <==> !m.networkManager && !m.networkd && !m.ifupdown
    ensures m.networkManager ==> Cmds(ManagerRestart(m)) == [["systemctl", "restart", "NetworkManager"]]
    ensures !m.networkManager && m.networkd ==> Cmds(ManagerRestart(m)) == [["systemctl", "restart", "systemd-networkd"]]
    ensures !m.networkManager && !m.networkd && m.ifupdown ==>
      Cmds(ManagerRestart(m)) == [["systemctl", "restart", "networking"]]
  {
  }

  /** Detect the managers, then restart the first active one. */
  function RouteEvents(env: Env, w: seq<Event>, dryRun: bool): seq<Event>
  {
    var ms := ManagersStep(env, w);
    ms.trace + ActionsEvents(ManagerRestart(ms.value), dryRun)
  }

  const NoRouteInfo := "[INFO] No known network manager to fix default route; you may need to add it manually."
  const NoInternetInfo := "[INFO] No manager to restart for internet reachability; check router / ISP / cabling."

  /** The body shared by `repair_no_route` and the menu's `repair_no_internet`; only the final hint differs. */
  method RestartFirstManager(h: Host, dryRun: bool, hint: string)
    modifies h
    ensures h.trace == old(h.trace) + RouteEvents(h.env, old(h.trace), dryRun)
  {
    ghost var w := h.trace;
    var m := DetectNetworkManagers(h);
    ghost var ms := ManagersStep(h.env, w);
    if m.networkManager {
      ActionsEventsOne(RestartNetworkManager, dryRun);
      AppendAssoc(w, ms.trace, ActionEvents(RestartNetworkManager, dryRun));
      var _ := ApplyAction(h, RestartNetworkManager.desc, RestartNetworkManager.cmd, dryRun);
      return;
    }
    if m.networkd {
      ActionsEventsOne(RestartNetworkd, dryRun);
      AppendAssoc(w, ms.trace, ActionEvents(RestartNetworkd, dryRun));
      var _ := ApplyAction(h, RestartNetworkd.desc, RestartNetworkd.cmd, dryRun);
      return;
    }
    if m.ifupdown {
      ActionsEventsOne(RestartNetworking, dryRun);
      AppendAssoc(w, ms.trace, ActionEvents(RestartNetworking, dryRun));
      var _ := ApplyAction(h, RestartNetworking.desc, RestartNetworking.cmd, dryRun);
      return;
    }
    assert h.trace == w + ms.trace + ActionsEvents([], dryRun);
    h.Log(hint);
  }

  /** `repair_no_route`. */
  method RepairNoRoute(h: Host, dryRun: bool)
    modifies h
    ensures h.trace == old(h.trace) + RouteEvents(h.env, old(h.trace), dryRun)
  {
    RestartFirstManager(h, dryRun, NoRouteInfo);
  }

  /**
   * The route repair queries the managers and then announces at most one
   * restart: the first active manager's; none when no manager is active.
   */
  lemma RouteProps(env: Env, w: seq<Event>, dryRun: bool)
    ensures var m := ManagersStep(env, w).value;
      Announced(RouteEvents(env, w, dryRun)) == Cmds(ManagerRestart(m))
      && Commands(RouteEvents(env, w, dryRun))
         == [IsActiveCmd("NetworkManager"), IsActiveCmd("systemd-networkd")]
            + (if dryRun then [] else Cmds(ManagerRestart(m)))
  {
    var ms := ManagersStep(env, w);
    ActionsEventsProps(ManagerRestart(ms.value), dryRun);
    AnnouncedAppend(ms.trace, ActionsEvents(ManagerRestart(ms.value), dryRun));
    CommandsAppend(ms.trace, ActionsEvents(ManagerRestart(ms.value), dryRun));
    ManagersStepProps(env, w);
  }

  // ---------------------------------------------------------------------
  // DNS
  // ---------------------------------------------------------------------

  const DnsFixedAfterRestart := "[OK] DNS fixed after systemd-resolved restart."
  const EditDisabled :=
    "[INFO] DNS appears broken; resolv.conf editing is disabled in this mode. Use menu option 6 or the advanced systemd/DNS menu."
  const DnsAfterRewrite := "[OK] DNS working after resolv.conf rewrite."
  const DnsStillFailing := "[WARN] DNS still failing after resolv.conf rewrite. Check firewall / router."

  /**
   * The first phase of `repair_dns_core`: the status query, then a restart of
   * systemd-resolved if it is active, checked by a lookup outside dry run.
   * The value is whether that lookup succeeded.
   */
  function RestartPhase(env: Env, w: seq<Event>, dryRun: bool): Step<bool>
  {
    var st := StatusStep(env, w);
    if !st.value.active then Step(false, st.trace)
    else
      var sa := st.trace + ActionEvents(RestartResolved, dryRun);
      if dryRun then Step(false, sa)
      else
        var p := DnsStep(env, w + sa);
        Step(p.value, sa + p.trace)
  }

  /** `set_resolv_conf_manual_public`, then (outside dry run) a lookup whose outcome is logged. */
  function WriteCheckEvents(env: Env, w: seq<Event>, dryRun: bool): seq<Event>
  {
    var s := BackupThen(env, w, ManualPublic, dryRun);
    s + (if dryRun then [] else DnsStep(env, w + s).trace)
  }

  /**
   * The rewrite phase: a backup, then the manual public resolv.conf (whose
   * setter backs up once more) and its check.
   */
  function RewriteEvents(env: Env, w: seq<Event>, dryRun: bool): seq<Event>
  {
    var b := BackupEvents(env, w, dryRun);
    b + WriteCheckEvents(env, w + b, dryRun)
  }

  /** `repair_dns_core(allow_resolv_conf_edit, dry_run)`. */
  function DnsCoreEvents(env: Env, w: seq<Event>, allowEdit: bool, dryRun: bool): seq<Event>
  {
    var r := RestartPhase(env, w, dryRun);
    r.trace + (if r.value || !allowEdit then [] else RewriteEvents(env, w + r.trace, dryRun))
  }

  method RestartResolvedIfActive(h: Host, dryRun: bool) returns (fixed: bool)
    modifies h
    ensures var r := RestartPhase(h.env, old(h.trace), dryRun); fixed == r.value && h.trace == old(h.trace) + r.trace
  {
    ghost var w := h.trace;
    var status := SystemdResolvedStatus(h);
    ghost var st := StatusStep(h.env, w);
    fixed := false;
    if status.active {
      var _ := ApplyAction(h, RestartResolved.desc, RestartResolved.cmd, dryRun);
      AppendAssoc(w, st.trace, ActionEvents(RestartResolved, dryRun));
      if !dryRun {
        ghost var sa := st.trace + ActionEvents(RestartResolved, dryRun);
        fixed := DnsResolves(h, DefaultDnsName);
        AppendAssoc(w, sa, DnsStep(h.env, w + sa).trace);
      }
    }
  }

  method WriteManualAndCheck(h: Host, dryRun: bool)
    modifies h
    ensures h.trace == old(h.trace) + WriteCheckEvents(h.env, old(h.trace), dryRun)
  {
    ghost var w := h.trace;
    SetResolvConfManualPublic(h, dryRun);
    ghost var s := BackupThen(h.env, w, ManualPublic, dryRun);
    if !dryRun {
      var ok := DnsResolves(h, DefaultDnsName);
      AppendAssoc(w, s, DnsStep(h.env, w + s).trace);
      if ok {
        h.Log(DnsAfterRewrite);
      } else {
        h.Log(DnsStillFailing);
      }
    }
  }

  method RewriteResolvConf(h: Host, dryRun: bool)
    modifies h
    ensures h.trace == old(h.trace) + RewriteEvents(h.env, old(h.trace), dryRun)
  {
    ghost var w := h.trace;
    BackupResolvConf(h, dryRun);
    ghost var b := BackupEvents(h.env, w, dryRun);
    WriteManualAndCheck(h, dryRun);
    AppendAssoc(w, b, WriteCheckEvents(h.env, w + b, dryRun));
  }

  /** `repair_dns_core(allow_resolv_conf_edit, dry_run)`. */
  method RepairDnsCore(h: Host, allowEdit: bool, dryRun: bool)
    modifies h
    ensures h.trace == old(h.trace) + DnsCoreEvents(h.env, old(h.trace), allowEdit, dryRun)
  {
    ghost var w := h.trace;
    var fixed := RestartResolvedIfActive(h, dryRun);
    ghost var r := RestartPhase(h.env, w, dryRun);
    if fixed {
      h.Log(DnsFixedAfterRestart);
      return;
    }
    if !allowEdit {
      h.Log(EditDisabled);
      return;
    }
    RewriteResolvConf(h, dryRun);
    AppendAssoc(w, r.trace, RewriteEvents(h.env, w + r.trace, dryRun));
  }

  /**
   * The first phase restarts systemd-resolved exactly when it is active (and
   * runs the restart outside dry run), and it can only report DNS fixed
   * after a real restart.
   */
  lemma RestartPhaseProps(env: Env, w: seq<Event>, dryRun: bool)
    ensures var active := StatusStep(env, w).value.active;
      var r := RestartPhase(env, w, dryRun);
      Announced(r.trace) == (if active then [RestartResolved.cmd] else [])
      && Commands(r.trace)
         == [IsActiveCmd("systemd-resolved"), IsEnabledCmd("systemd-resolved")]
            + (if active && !dryRun then [RestartResolved.cmd, DnsLookupCmd] else [])
      && (r.value ==> active && !dryRun)
  {
    var st := StatusStep(env, w);
    StatusStepProps(env, w);
    var a := ActionEvents(RestartResolved, dryRun);
    ActionEventsProps(env, w, RestartResolved, dryRun);
    AnnouncedAppend(st.trace, a);
    CommandsAppend(st.trace, a);
    if st.value.active && !dryRun {
      var p := DnsStep(env, w + st.trace + a);
      AnnouncedAppend(st.trace + a, p.trace);
      CommandsAppend(st.trace + a, p.trace);
    }
  }

  /**
   * Writing the manual resolv.conf backs it up first (if the file is there);
   * outside dry run the same commands run, followed by one lookup.
   */
  lemma WriteCheckProps(env: Env, w: seq<Event>, dryRun: bool)
    ensures var backup := if env.inspect(w, ResolvConfPath).present then [BackupCmd] else [];
      Announced(WriteCheckEvents(env, w, dryRun)) == backup + [ManualPublic.cmd]
      && Commands(WriteCheckEvents(env, w, dryRun))
         == if dryRun then [] else backup + [ManualPublic.cmd] + [DnsLookupCmd]
  {
    var s := BackupThen(env, w, ManualPublic, dryRun);
    BackupThenProps(env, w, ManualPublic, dryRun);
    if !dryRun {
      var l := DnsStep(env, w + s).trace;
      DnsStepProps(env, w + s);
      AnnouncedAppend(s, l);
      CommandsAppend(s, l);
    } else {
      assert s + [] == s;
      assert WriteCheckEvents(env, w, dryRun) == s;
    }
  }

  /**
   * The rewrite backs up (if the file is there), backs up again inside the
   * setter, then writes the manual public resolv.conf; outside dry run the
   * same commands run, followed by one lookup.
   */
  lemma RewriteProps(env: Env, w: seq<Event>, dryRun: bool)
    ensures var b := BackupEvents(env, w, dryRun);
      var first := if env.inspect(w, ResolvConfPath).present then [BackupCmd] else [];
      var second := if env.inspect(w + b, ResolvConfPath).present then [BackupCmd] else [];
      Announced(RewriteEvents(env, w, dryRun)) == first + (second + [ManualPublic.cmd])
      && Commands(RewriteEvents(env, w, dryRun))
         == if dryRun then [] else first + (second + [ManualPublic.cmd] + [DnsLookupCmd])
  {
    var b := BackupEvents(env, w, dryRun);
    var c := WriteCheckEvents(env, w + b, dryRun);
    BackupEventsProps(env, w, dryRun);
    WriteCheckProps(env, w + b, dryRun);
    AnnouncedAppend(b, c);
    CommandsAppend(b, c);
  }

  /**
   * `repair_dns_core` issues no resolv.conf command when edits are not
   * allowed, and none after a restart that fixed DNS; otherwise it follows
   * the first phase with the rewrite. In dry run it runs only the two status
   * queries.
   */
  lemma DnsCoreProps(env: Env, w: seq<Event>, allowEdit: bool, dryRun: bool)
    ensures var r := RestartPhase(env, w, dryRun);
      var tr := DnsCoreEvents(env, w, allowEdit, dryRun);
      (!allowEdit || r.value ==> Announced(tr) == Announced(r.trace))
      && (allowEdit && !r.value ==>
            Announced(tr) == Announced(r.trace) + Announced(RewriteEvents(env, w + r.trace, dryRun)))
      && (dryRun ==> Commands(tr) == [IsActiveCmd("systemd-resolved"), IsEnabledCmd("systemd-resolved")])
  {
    var r := RestartPhase(env, w, dryRun);
    var rest := if r.value || !allowEdit then [] else RewriteEvents(env, w + r.trace, dryRun);
    AnnouncedAppend(r.trace, rest);
    CommandsAppend(r.trace, rest);
    RestartPhaseProps(env, w, dryRun);
    RewriteProps(env, w + r.trace, dryRun);
  }

  // ---------------------------------------------------------------------
  // Fuzzy DNS repair with confirmation
  // ---------------------------------------------------------------------

  const ConfirmPrompt :=
    "\nI can overwrite /etc/resolv.conf with public DNS servers\n(1.1.1.1 and 8.8.8.8). This will back up the existing file to\n/etc/resolv.conf.bak first.\n\nProceed with resolv.conf rewrite? [y/N]: "

  /** The reply, stripped and lowercased, is "y". */
  predicate IsYes(reply: string)
  {
    Lower(Trim(reply)) == "y"
  }

  /** The trace of `repair_dns_fuzzy_with_confirm` up to and including the mode and status queries. */
  function FuzzyLookEvents(env: Env, w: seq<Event>, dryRun: bool): Step<bool>
  {
    var c := DnsCoreEvents(env, w, false, dryRun);
    var p := DnsStep(env, w + c);
    if p.value then Step(true, c + p.trace)
    else
      var m := ModeStep(env, w + c + p.trace);
      var st := StatusStep(env, w + c + p.trace + m.trace);
      Step(false, c + p.trace + m.trace + st.trace)
  }

  /** `repair_dns_fuzzy_with_confirm(dry_run)`. */
  function FuzzyDnsEvents(env: Env, w: seq<Event>, dryRun: bool): seq<Event>
  {
    var look := FuzzyLookEvents(env, w, dryRun);
    if look.value || !env.stdinIsTty then look.trace
    else
      var q := look.trace + [Event.Ask(ConfirmPrompt)];
      if IsYes(env.answer(w + look.trace, ConfirmPrompt)) then q + DnsCoreEvents(env, w + q, true, dryRun) else q
  }

  const FuzzyStart := "[INFO] Fuzzy DNS repair..."
  const FuzzyOk := "[INFO] DNS OK after limited DNS repair."
  const StillBroken := "DNS still appears broken after limited repair."
  const NotTty := "[INFO] Not running on a TTY; skipping interactive resolv.conf rewrite."
  const FuzzyDeclined := "[INFO] User declined fuzzy DNS resolv.conf rewrite."

  function OptionText(b: Option<bool>): string
  {
    match b
    case None => "None"
    case Some(v) => if v then "True" else "False"
  }

  function ModeText(m: ResolvConfMode): string
  {
    match m
    case SystemdStub => "systemd_stub"
    case SystemdFull => "systemd_full"
    case Manual => "manual"
    case Other => "other"
  }

  const ActivePrefix := "systemd-resolved active : "
  const EnabledPrefix := "systemd-resolved enabled: "
  const ModePrefix := "/etc/resolv.conf mode   : "

  /** The state report printed when the limited repair left DNS broken; it only logs. */
  method ReportDnsState(h: Host, status: ResolvedStatus, mode: ResolvConfMode, detail: string)
    modifies h
    ensures h.trace == old(h.trace)
  {
    h.Log("");
    h.Log(StillBroken);
    h.Log(ActivePrefix + (if status.active then "True" else "False"));
    h.Log(EnabledPrefix + OptionText(status.enabled));
    h.Log(ModePrefix + ModeText(mode) + " (" + detail + ")");
  }

  method FuzzyLook(h: Host, dryRun: bool) returns (ok: bool)
    modifies h
    ensures var look := FuzzyLookEvents(h.env, old(h.trace), dryRun); ok == look.value && h.trace == old(h.trace) + look.trace
  {
    ghost var w := h.trace;
    h.Log(FuzzyStart);
    RepairDnsCore(h, false, dryRun);
    ghost var c := DnsCoreEvents(h.env, w, false, dryRun);
    ok := DnsResolves(h, DefaultDnsName);
    ghost var p := DnsStep(h.env, w + c);
    if ok {
      h.Log(FuzzyOk);
      return;
    }
    var mode, detail := DetectResolvConfMode(h);
    ghost var m := ModeStep(h.env, w + c + p.trace);
    var status := SystemdResolvedStatus(h);
    ReportDnsState(h, status, mode, detail);
  }

  /** `repair_dns_fuzzy_with_confirm(dry_run)`. */
  method RepairDnsFuzzyWithConfirm(h: Host, dryRun: bool)
    modifies h
    ensures h.trace == old(h.trace) + FuzzyDnsEvents(h.env, old(h.trace), dryRun)
  {
    ghost var w := h.trace;
    var ok := FuzzyLook(h, dryRun);
    ghost var look := FuzzyLookEvents(h.env, w, dryRun);
    if ok {
      return;
    }
    if !h.env.stdinIsTty {
      h.Log(NotTty);
      return;
    }
    var reply := h.Ask(ConfirmPrompt);
    ghost var q := look.trace + [Event.Ask(ConfirmPrompt)];
    AppendAssoc(w, look.trace, [Event.Ask(ConfirmPrompt)]);
    assert reply == h.env.answer(w + look.trace, ConfirmPrompt);
    if IsYes(reply) {
      RepairDnsCore(h, true, dryRun);
      AppendAssoc(w, q, DnsCoreEvents(h.env, w + q, true, dryRun));
      assert FuzzyDnsEvents(h.env, w, dryRun) == q + DnsCoreEvents(h.env, w + q, true, dryRun);
    } else {
      h.Log(FuzzyDeclined);
    }
  }

  /**
   * The look phase runs the limited repair first, its announcements are
   * exactly the limited repair's, and it reports success exactly when the
   * lookup that follows resolves.
   */
  lemma FuzzyLookProps(env: Env, w: seq<Event>, dryRun: bool)
    ensures var c := DnsCoreEvents(env, w, false, dryRun);
      var look := FuzzyLookEvents(env, w, dryRun);
      (look.value <==> DnsStep(env, w + c).value)
      && |c| <= |look.trace| && look.trace[..|c|] == c
      && Announced(look.trace) == Announced(c)
  {
    var c := DnsCoreEvents(env, w, false, dryRun);
    var p := DnsStep(env, w + c);
    DnsStepProps(env, w + c);
    AnnouncedAppend(c, p.trace);
    if !p.value {
      var m := ModeStep(env, w + c + p.trace);
      var st := StatusStep(env, w + c + p.trace + m.trace);
      StatusStepProps(env, w + c + p.trace + m.trace);
      assert Announced(m.trace) == [];
      AnnouncedAppend(c + p.trace, m.trace);
      AnnouncedAppend(c + p.trace + m.trace, st.trace);
      assert (c + p.trace + m.trace + st.trace)[..|c|] == c;
    } else {
      assert (c + p.trace)[..|c|] == c;
    }
  }

  /**
   * The fuzzy repair announces the limited repair's commands, and then a
   * second, editing repair only when DNS still fails, standard input is a
   * terminal and the reply is "y"; otherwise nothing more.
   */
  lemma FuzzyDnsProps(env: Env, w: seq<Event>, dryRun: bool)
    ensures var look := FuzzyLookEvents(env, w, dryRun);
      var q := look.trace + [Event.Ask(ConfirmPrompt)];
      var edit := !look.value && env.stdinIsTty && IsYes(env.answer(w + look.trace, ConfirmPrompt));
      Announced(FuzzyDnsEvents(env, w, dryRun))
      == Announced(DnsCoreEvents(env, w, false, dryRun))
         + (if edit then Announced(DnsCoreEvents(env, w + q, true, dryRun)) else [])
  {
    var look := FuzzyLookEvents(env, w, dryRun);
    var c := DnsCoreEvents(env, w, false, dryRun);
    FuzzyLookProps(env, w, dryRun);
    assert Announced(look.trace) == Announced(c);
    if look.value || !env.stdinIsTty {
      assert FuzzyDnsEvents(env, w, dryRun) == look.trace;
    } else {
      var q := look.trace + [Event.Ask(ConfirmPrompt)];
      AnnouncedAppend(look.trace, [Event.Ask(ConfirmPrompt)]);
      assert Announced([Event.Ask(ConfirmPrompt)]) == [];
      assert Announced(q) == Announced(c);
      if IsYes(env.answer(w + look.trace, ConfirmPrompt)) {
        var e := DnsCoreEvents(env, w + q, true, dryRun);
        AnnouncedAppend(q, e);
        assert FuzzyDnsEvents(env, w, dryRun) == q + e;
      } else {
        assert FuzzyDnsEvents(env, w, dryRun) == q;
      }
    }
  }

  // ---------------------------------------------------------------------
  // Menu-driven DNS repair
  // ---------------------------------------------------------------------

  const ManualPrompt := "Overwrite /etc/resolv.conf with public DNS (1.1.1.1 / 8.8.8.8)? [y/N]: "
  const MenuStart := "[INFO] DNS repair menu..."
  const ShortModePrefix := "/etc/resolv.conf mode: "
  const ManualNotTty := "[INFO] Not running on a TTY; skipping manual resolv.conf rewrite."
  const ManualDeclined := "[INFO] User declined manual resolv.conf rewrite."

  /**
   * `repair_dns_interactive` up to the question: the status, an
   * unconditional restart of systemd-resolved, a lookup outside dry run and,
   * unless it resolved, the resolv.conf mode. The value is whether the
   * lookup resolved.
   */
  function InteractiveLookEvents(env: Env, w: seq<Event>, dryRun: bool): Step<bool>
  {
    var sa := StatusStep(env, w).trace + ActionEvents(RestartResolved, dryRun);
    if dryRun then Step(false, sa + ModeStep(env, w + sa).trace)
    else
      var p := DnsStep(env, w + sa);
      if p.value then Step(true, sa + p.trace)
      else Step(false, sa + p.trace + ModeStep(env, w + sa + p.trace).trace)
  }

  /** `repair_dns_interactive(dry_run)`. */
  function DnsInteractiveEvents(env: Env, w: seq<Event>, dryRun: bool): seq<Event>
  {
    var look := InteractiveLookEvents(env, w, dryRun);
    if look.value || !env.stdinIsTty then look.trace
    else
      var q := look.trace + [Event.Ask(ManualPrompt)];
      if IsYes(env.answer(w + look.trace, ManualPrompt)) then q + WriteCheckEvents(env, w + q, dryRun) else q
  }

  method InteractiveLook(h: Host, dryRun: bool) returns (fixed: bool)
    modifies h
    ensures var look := InteractiveLookEvents(h.env, old(h.trace), dryRun);
      fixed == look.value && h.trace == old(h.trace) + look.trace
  {
    ghost var w := h.trace;
    h.Log(MenuStart);
    var status := SystemdResolvedStatus(h);
    h.Log(ActivePrefix + (if status.active then "True" else "False"));
    h.Log(EnabledPrefix + OptionText(status.enabled));
    var _ := ApplyAction(h, RestartResolved.desc, RestartResolved.cmd, dryRun);
    ghost var sa := StatusStep(h.env, w).trace + ActionEvents(RestartResolved, dryRun);
    AppendAssoc(w, StatusStep(h.env, w).trace, ActionEvents(RestartResolved, dryRun));
    fixed := false;
    if !dryRun {
      fixed := DnsResolves(h, DefaultDnsName);
      AppendAssoc(w, sa, DnsStep(h.env, w + sa).trace);
      if fixed {
        h.Log(DnsFixedAfterRestart);
        return;
      }
    }
    ghost var pre := h.trace;
    var mode, detail := DetectResolvConfMode(h);
    h.Log(ShortModePrefix + ModeText(mode) + " (" + detail + ")");
    if !dryRun {
      AppendAssoc(w, sa + DnsStep(h.env, w + sa).trace, ModeStep(h.env, pre).trace);
    } else {
      AppendAssoc(w, sa, ModeStep(h.env, pre).trace);
    }
  }

  /** `repair_dns_interactive(dry_run)`. */
  method RepairDnsInteractive(h: Host, dryRun: bool)
    modifies h
    ensures h.trace == old(h.trace) + DnsInteractiveEvents(h.env, old(h.trace), dryRun)
  {
    ghost var w := h.trace;
    var fixed := InteractiveLook(h, dryRun);
    ghost var look := InteractiveLookEvents(h.env, w, dryRun);
    if fixed {
      return;
    }
    if !h.env.stdinIsTty {
      h.Log(ManualNotTty);
      return;
    }
    var reply := h.Ask(ManualPrompt);
    ghost var q := look.trace + [Event.Ask(ManualPrompt)];
    AppendAssoc(w, look.trace, [Event.Ask(ManualPrompt)]);
    assert reply == h.env.answer(w + look.trace, ManualPrompt);
    if !IsYes(reply) {
      h.Log(ManualDeclined);
      return;
    }
    WriteManualAndCheck(h, dryRun);
    AppendAssoc(w, q, WriteCheckEvents(h.env, w + q, dryRun));
    assert DnsInteractiveEvents(h.env, w, dryRun) == q + WriteCheckEvents(h.env, w + q, dryRun);
  }

  /**
   * Unlike the core repair, the menu repair restarts systemd-resolved
   * whatever its status, and reports DNS fixed only after a real lookup.
   */
  lemma InteractiveLookProps(env: Env, w: seq<Event>, dryRun: bool)
    ensures var look := InteractiveLookEvents(env, w, dryRun);
      Announced(look.trace) == [RestartResolved.cmd] && (look.value ==> !dryRun)
  {
    var st := StatusStep(env, w);
    var a := ActionEvents(RestartResolved, dryRun);
    var sa := st.trace + a;
    StatusStepProps(env, w);
    ActionEventsProps(env, w, RestartResolved, dryRun);
    AnnouncedAppend(st.trace, a);
    if dryRun {
      ModeLooked(env, w, sa);
    } else {
      var p := DnsStep(env, w + sa);
      DnsStepProps(env, w + sa);
      AnnouncedAppend(sa, p.trace);
      if !p.value {
        ModeLooked(env, w, sa + p.trace);
      }
    }
  }

  /** Looking at the resolv.conf mode after `pre` announces nothing more than `pre` did. */
  lemma ModeLooked(env: Env, w: seq<Event>, pre: seq<Event>)
    ensures Announced(pre + ModeStep(env, w + pre).trace) == Announced(pre)
  {
    var m := ModeStep(env, w + pre).trace;
    assert Announced(m) == [];
    AnnouncedAppend(pre, m);
  }

  /**
   * After the restart, the menu repair writes the manual resolv.conf (with
   * its backup) only when DNS still fails, standard input is a terminal and
   * the reply is "y".
   */
  lemma DnsInteractiveProps(env: Env, w: seq<Event>, dryRun: bool)
    ensures var look := InteractiveLookEvents(env, w, dryRun);
      var q := look.trace + [Event.Ask(ManualPrompt)];
      var edit := !look.value && env.stdinIsTty && IsYes(env.answer(w + look.trace, ManualPrompt));
      var backup := if env.inspect(w + q, ResolvConfPath).present then [BackupCmd] else [];
      Announced(DnsInteractiveEvents(env, w, dryRun))
      == [RestartResolved.cmd] + (if edit then backup + [ManualPublic.cmd] else [])
  {
    var look := InteractiveLookEvents(env, w, dryRun);
    InteractiveLookProps(env, w, dryRun);
    if look.value || !env.stdinIsTty {
      assert DnsInteractiveEvents(env, w, dryRun) == look.trace;
    } else {
      var q := look.trace + [Event.Ask(ManualPrompt)];
      AnnouncedAppend(look.trace, [Event.Ask(ManualPrompt)]);
      assert Announced([Event.Ask(ManualPrompt)]) == [];
      if IsYes(env.answer(w + look.trace, ManualPrompt)) {
        var e := WriteCheckEvents(env, w + q, dryRun);
        WriteCheckProps(env, w + q, dryRun);
        AnnouncedAppend(q, e);
        assert DnsInteractiveEvents(env, w, dryRun) == q + e;
      } else {
        assert DnsInteractiveEvents(env, w, dryRun) == q;
      }
    }
  }

  // ---------------------------------------------------------------------
  // Full repair
  // ---------------------------------------------------------------------

  /** The events of the repair chosen for suspicion `s` on interface `iface`. */
  function RepairEvents(env: Env, w: seq<Event>, s: Suspicion, iface: string, dryRun: bool): seq<Event>
  {
    match s
    case InterfaceMissing => []
    case LinkDown => ActionEvents(LinkUpAction(iface), dryRun)
    case NoIpv4 =>
      var ms := ManagersStep(env, w);
      ms.trace + TiersEvents(env, w + ms.trace, iface, Tiers(iface, ms.value), dryRun)
    case NoRoute => RouteEvents(env, w, dryRun)
    case NoInternet => []
    case DnsBroken => FuzzyDnsEvents(env, w, dryRun)
  }

  /** `{score:.2f}` for a score kept in hundredths. */
  function ScoreText(score: Score): string
  {
    NatToString(score / 100) + "." + (if score % 100 < 10 then "0" else "") + NatToString(score % 100)
  }

  function ScoreLine(e: Entry, at: nat): LogLine
  {
    LabelsTotal(e.0);
    Info("  " + SuspicionLabels[e.0] + ": " + ScoreText(e.1), at)
  }

  /** The score lines `repair_full` logs, one per entry and in the given order. */
  function ScoreLines(ordered: seq<Entry>, at: nat): (lines: seq<LogLine>)
    ensures |lines| == |ordered|
    ensures forall k :: 0 <= k < |ordered| ==> lines[k] == ScoreLine(ordered[k], at)
  {
    if ordered == [] then [] else ScoreLines(ordered[..|ordered| - 1], at) + [ScoreLine(ordered[|ordered| - 1], at)]
  }

  const FullStart := "[INFO] Performing full auto-repair..."
  const ScoresHeader := "Suspicion scores:"
  const NoInternetHint := "[INFO] Unable to ping internet; if DHCP is OK, check upstream gateway / firewall."
  const FullDone := "[INFO] Full auto-repair complete."

  /** Logs each ranked suspicion with its score; nothing runs. */
  method LogScores(h: Host, ordered: seq<Entry>)
    modifies h
    ensures h.trace == old(h.trace) && h.log == old(h.log) + ScoreLines(ordered, |h.trace|)
  {
    for i := 0 to |ordered|
      invariant h.trace == old(h.trace) && h.log == old(h.log) + ScoreLines(ordered[..i], |h.trace|)
    {
      var (suspicion, score) := ordered[i];
      LabelsTotal(suspicion);
      h.Log("  " + SuspicionLabels[suspicion] + ": " + ScoreText(score));
      assert ordered[..i + 1][..i] == ordered[..i];
    }
    assert ordered[..|ordered|] == ordered;
  }

  /** `repair_full(diagnosis, dry_run)`: log the ranking, then run the repair for the top suspicion. */
  method RepairFull(h: Host, d: Diagnosis, dryRun: bool)
    modifies h
    ensures h.trace == old(h.trace) + RepairEvents(h.env, old(h.trace), TopSuspicion(d), d.iface, dryRun)
  {
    h.Log(FullStart);
    var ordered := SortedScores(d);
    h.Log(ScoresHeader);
    LogScores(h, ordered);
    var iface := d.iface;
    var top := TopSuspicion(d);
    match top {
      case InterfaceMissing =>
        RepairInterfaceMissing(h, iface);
      case LinkDown =>
        RepairLinkDown(h, iface, dryRun);
      case NoIpv4 =>
        ghost var w := h.trace;
        var managers := DetectNetworkManagers(h);
        RepairNoIpv4(h, iface, managers, dryRun);
        ghost var ms := ManagersStep(h.env, w);
        AppendAssoc(w, ms.trace, TiersEvents(h.env, w + ms.trace, iface, Tiers(iface, ms.value), dryRun));
      case NoRoute =>
        RepairNoRoute(h, dryRun);
      case NoInternet =>
        h.Log(NoInternetHint);
      case DnsBroken =>
        RepairDnsFuzzyWithConfirm(h, dryRun);
    }
    h.Log(FullDone);
  }

  /**
   * The full repair handles the top suspicion: the earliest entry with the
   * largest score, or no internet (which only logs) when there are no scores.
   */
  lemma RepairFullChoosesTop(env: Env, w: seq<Event>, d: Diagnosis, dryRun: bool)
    ensures d.scores == [] ==> RepairEvents(env, w, TopSuspicion(d), d.iface, dryRun) == []
    ensures d.scores != [] ==>
      exists k :: FirstMax(d.scores, k)
        && RepairEvents(env, w, TopSuspicion(d), d.iface, dryRun)
           == RepairEvents(env, w, d.scores[k].0, d.iface, dryRun)
  {
    if d.scores != [] {
      TopSuspicionIsMax(d);
    }
  }

  /** Exactly the missing-interface and no-internet repairs touch nothing; every other repair acts or probes. */
  lemma RepairEventsEmptyIff(env: Env, w: seq<Event>, s: Suspicion, iface: string, dryRun: bool)
    ensures RepairEvents(env, w, s, iface, dryRun) == [] <==> s == InterfaceMissing || s == NoInternet
  {
    match s
    case InterfaceMissing =>
    case LinkDown =>
      assert |ActionEvents(LinkUpAction(iface), dryRun)| > 0;
    case NoIpv4 =>
      assert |ManagersStep(env, w).trace| > 0;
    case NoRoute =>
      assert |ManagersStep(env, w).trace| > 0;
    case NoInternet =>
    case DnsBroken =>
      var c := DnsCoreEvents(env, w, false, dryRun);
      assert |StatusStep(env, w).trace| > 0;
      assert |RestartPhase(env, w, dryRun).trace| > 0;
      FuzzyLookProps(env, w, dryRun);
      assert |FuzzyLookEvents(env, w, dryRun).trace| > 0;
  }
}
