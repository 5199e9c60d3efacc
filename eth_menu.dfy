/**
 * The single-file menu tool: its threshold-driven repair pass over a
 * diagnosis, its own DNS and internet repairs, and its entry flow. Its
 * probes, diagnosis and the remaining repairs are the same as the
 * package's and are shared with those modules.
 */
module Menu {
  import opened Types
  import opened Text
  import opened Shell
  import opened Actions
  import opened Probes
  import opened DnsConfig
  import opened Diagnostics
  import opened Repairs
  import opened Cli

  // ---------------------------------------------------------------------
  // Scores and the repair plan
  // ---------------------------------------------------------------------

  /** `suspicion_scores.get(s, 0.0)`: the score of the first entry for `s`, or 0 when there is none. */
  function ScoreAt(scores: seq<Entry>, s: Suspicion): (r: Score)
    ensures (forall k :: 0 <= k < |scores| ==> scores[k].0 != s) ==> r == 0
    ensures forall k :: 0 <= k < |scores| && scores[k].0 == s && (forall j :: 0 <= j < k ==> scores[j].0 != s)
                        ==> r == scores[k].1
  {
    if scores == [] then 0
    else if scores[0].0 == s then scores[0].1
    else
      var r := ScoreAt(scores[1..], s);
      assert forall k :: 1 <= k < |scores| ==> scores[1..][k - 1] == scores[k];
      r
  }

  /** A missing interface is handled alone above this score (0.5). */
  const MissingThreshold: Score := 50
  /** Every other suspicion is repaired above this score (0.4). */
  const RepairThreshold: Score := 40

  /** The repairs `perform_repairs` can run after detecting the managers. */
  datatype MenuRepair = FixLink | FixIpv4 | FixRoute | FixInternet | FixDnsConfirm | FixDnsLimited

  /** The fixed position of each repair in the pass. */
  function Rank(r: MenuRepair): nat
  {
    match r
    case FixLink => 0
    case FixIpv4 => 1
    case FixRoute => 2
    case FixInternet => 3
    case FixDnsConfirm => 4
    case FixDnsLimited => 4
  }

  function Opt(c: bool, r: MenuRepair): seq<MenuRepair>
  {
    if c then [r] else []
  }

  /** The DNS repair of the pass: the confirming one when resolv.conf edits are allowed, else the limited one. */
  function DnsRepair(allowEdit: bool): MenuRepair
  {
    if allowEdit then FixDnsConfirm else FixDnsLimited
  }

  /** The repairs `perform_repairs` runs for these scores once the interface is known to exist. */
  function PlanOf(scores: seq<Entry>, allowEdit: bool): seq<MenuRepair>
  {
    Opt(ScoreAt(scores, LinkDown) > RepairThreshold, FixLink)
      + Opt(ScoreAt(scores, NoIpv4) > RepairThreshold, FixIpv4)
      + Opt(ScoreAt(scores, NoRoute) > RepairThreshold, FixRoute)
      + Opt(ScoreAt(scores, NoInternet) > RepairThreshold, FixInternet)
      + Opt(ScoreAt(scores, DnsBroken) > RepairThreshold, DnsRepair(allowEdit))
  }

  predicate RankedBelow(p: seq<MenuRepair>, n: nat)
  {
    (forall i, j :: 0 <= i < j < |p| ==> Rank(p[i]) < Rank(p[j]))
    && (forall i :: 0 <= i < |p| ==> Rank(p[i]) < n)
  }

  lemma RankedAppend(p: seq<MenuRepair>, c: bool, r: MenuRepair)
    requires RankedBelow(p, Rank(r))
    ensures RankedBelow(p + Opt(c, r), Rank(r) + 1)
  {
    var q := p + Opt(c, r);
    forall i, j | 0 <= i < j < |q| ensures Rank(q[i]) < Rank(q[j]) {
      if j >= |p| {
        assert q[j] == r;
        assert q[i] == p[i];
      } else {
        assert q[i] == p[i] && q[j] == p[j];
      }
    }
    forall i | 0 <= i < |q| ensures Rank(q[i]) < Rank(r) + 1 {
      if i < |p| {
        assert q[i] == p[i];
      }
    }
  }

  /** Whether the pass runs repair `r` for these scores: a score above 0.4, and for DNS the edit permission. */
  predicate Selected(scores: seq<Entry>, allowEdit: bool, r: MenuRepair)
  {
    match r
    case FixLink => ScoreAt(scores, LinkDown) > RepairThreshold
    case FixIpv4 => ScoreAt(scores, NoIpv4) > RepairThreshold
    case FixRoute => ScoreAt(scores, NoRoute) > RepairThreshold
    case FixInternet => ScoreAt(scores, NoInternet) > RepairThreshold
    case FixDnsConfirm => ScoreAt(scores, DnsBroken) > RepairThreshold && allowEdit
    case FixDnsLimited => ScoreAt(scores, DnsBroken) > RepairThreshold && !allowEdit
  }

  /** The pass runs in the fixed order link, IPv4, route, internet, DNS, each repair at most once. */
  lemma PlanOrdered(scores: seq<Entry>, allowEdit: bool)
    ensures var p := PlanOf(scores, allowEdit);
      forall i, j :: 0 <= i < j < |p| ==> Rank(p[i]) < Rank(p[j])
  {
    var c1 := ScoreAt(scores, LinkDown) > RepairThreshold;
    var c2 := ScoreAt(scores, NoIpv4) > RepairThreshold;
    var c3 := ScoreAt(scores, NoRoute) > RepairThreshold;
    var c4 := ScoreAt(scores, NoInternet) > RepairThreshold;
    var c5 := ScoreAt(scores, DnsBroken) > RepairThreshold;
    var p1 := Opt(c1, FixLink);
    var p2 := p1 + Opt(c2, FixIpv4);
    var p3 := p2 + Opt(c3, FixRoute);
    var p4 := p3 + Opt(c4, FixInternet);
    assert PlanOf(scores, allowEdit) == p4 + Opt(c5, DnsRepair(allowEdit));
    RankedAppend([], c1, FixLink);
    assert [] + p1 == p1;
    RankedAppend(p1, c2, FixIpv4);
    RankedAppend(p2, c3, FixRoute);
    RankedAppend(p3, c4, FixInternet);
    RankedAppend(p4, c5, DnsRepair(allowEdit));
  }

  lemma OptMember(p: seq<MenuRepair>, c: bool, r: MenuRepair, x: MenuRepair)
    ensures x in p + Opt(c, r) <==> x in p || (c && x == r)
  {
  }

  /**
   * A repair is in the pass exactly when it is selected: its suspicion
   * scores above 0.4, and DNS goes through the confirming repair exactly
   * when resolv.conf edits are allowed.
   */
  lemma PlanMembers(scores: seq<Entry>, allowEdit: bool, x: MenuRepair)
    ensures x in PlanOf(scores, allowEdit) <==> Selected(scores, allowEdit, x)
  {
    var c1 := ScoreAt(scores, LinkDown) > RepairThreshold;
    var c2 := ScoreAt(scores, NoIpv4) > RepairThreshold;
    var c3 := ScoreAt(scores, NoRoute) > RepairThreshold;
    var c4 := ScoreAt(scores, NoInternet) > RepairThreshold;
    var c5 := ScoreAt(scores, DnsBroken) > RepairThreshold;
    var p1 := Opt(c1, FixLink);
    var p2 := p1 + Opt(c2, FixIpv4);
    var p3 := p2 + Opt(c3, FixRoute);
    var p4 := p3 + Opt(c4, FixInternet);
    assert PlanOf(scores, allowEdit) == p4 + Opt(c5, DnsRepair(allowEdit));
    OptMember([], c1, FixLink, x);
    assert [] + p1 == p1;
    OptMember(p1, c2, FixIpv4, x);
    OptMember(p2, c3, FixRoute, x);
    OptMember(p3, c4, FixInternet, x);
    OptMember(p4, c5, DnsRepair(allowEdit), x);
  }

  /** An unescalated DNS score of exactly 0.4 triggers no DNS repair. */
  lemma BaseDnsScoreSkipped(scores: seq<Entry>, allowEdit: bool)
    requires ScoreAt(scores, DnsBroken) == 40
    ensures FixDnsConfirm !in PlanOf(scores, allowEdit) && FixDnsLimited !in PlanOf(scores, allowEdit)
  {
    PlanMembers(scores, allowEdit, FixDnsConfirm);
    PlanMembers(scores, allowEdit, FixDnsLimited);
  }

  // ---------------------------------------------------------------------
  // The repair pass as events
  // ---------------------------------------------------------------------

  /** The events of one repair of the pass, with the managers detected at its start. */
  function RepairStepEvents(env: Env, w: seq<Event>, r: MenuRepair, iface: string, m: Managers, dryRun: bool)
    : seq<Event>
  {
    match r
    case FixLink => ActionEvents(LinkUpAction(iface), dryRun)
    case FixIpv4 => TiersEvents(env, w, iface, Tiers(iface, m), dryRun)
    case FixRoute => RouteEvents(env, w, dryRun)
    case FixInternet => RouteEvents(env, w, dryRun)
    case FixDnsConfirm => FuzzyDnsEvents(env, w, dryRun)
    case FixDnsLimited => DnsCoreEvents(env, w, false, dryRun)
  }

  /** The events of running the repairs of `plan` one after another. */
  function PlanEvents(env: Env, w: seq<Event>, plan: seq<MenuRepair>, iface: string, m: Managers, dryRun: bool)
    : seq<Event>
    decreases |plan|
  {
    if plan == [] then []
    else
      var r := PlanEvents(env, w, plan[..|plan| - 1], iface, m, dryRun);
      r + RepairStepEvents(env, w + r, plan[|plan| - 1], iface, m, dryRun)
  }

  /**
   * `perform_repairs`: nothing but the hint for a missing interface above
   * 0.5; otherwise the managers are detected once and the plan runs with
   * that snapshot.
   */
  function PerformEvents(env: Env, w: seq<Event>, iface: string, scores: seq<Entry>, dryRun: bool, allowEdit: bool)
    : seq<Event>
  {
    if ScoreAt(scores, InterfaceMissing) > MissingThreshold then []
    else
      var ms := ManagersStep(env, w);
      ms.trace + PlanEvents(env, w + ms.trace, PlanOf(scores, allowEdit), iface, ms.value, dryRun)
  }

  lemma PlanAdvance(env: Env, w: seq<Event>, done: seq<MenuRepair>, c: bool, r: MenuRepair,
                    iface: string, m: Managers, dryRun: bool)
    ensures var before := PlanEvents(env, w, done, iface, m, dryRun);
      w + PlanEvents(env, w, done + Opt(c, r), iface, m, dryRun)
      == if c then w + before + RepairStepEvents(env, w + before, r, iface, m, dryRun) else w + before
  {
    var before := PlanEvents(env, w, done, iface, m, dryRun);
    if c {
      assert (done + [r])[..|done|] == done;
      AppendAssoc(w, before, RepairStepEvents(env, w + before, r, iface, m, dryRun));
    } else {
      assert done + [] == done;
    }
  }

  // ---------------------------------------------------------------------
  // The menu's own repairs
  // ---------------------------------------------------------------------

  /** The menu's `repair_no_internet`: the route repair's body with its own final hint. */
  method RepairNoInternet(h: Host, dryRun: bool)
    modifies h
    ensures h.trace == old(h.trace) + RouteEvents(h.env, old(h.trace), dryRun)
  {
    RestartFirstManager(h, dryRun, NoInternetInfo);
  }

  const MenuDnsPrompt := "DNS still appears broken. Overwrite /etc/resolv.conf with public DNS (1.1.1.1 / 8.8.8.8)? [y/N]: "
  const MenuDnsStart := "[INFO] Attempting DNS repair..."
  const MenuDnsOk := "[INFO] DNS looks OK after service restart."
  const MenuDnsSkipped := "[INFO] Skipping resolv.conf rewrite at user request."

  /**
   * The menu's `repair_dns_interactive`: the limited repair, a lookup and,
   * if DNS still fails, the question, asked whether or not standard input
   * is a terminal, and on "y" the repair with edits allowed.
   */
  function MenuDnsEvents(env: Env, w: seq<Event>, dryRun: bool): seq<Event>
  {
    var c := DnsCoreEvents(env, w, false, dryRun);
    var p := DnsStep(env, w + c);
    if p.value then c + p.trace
    else
      var q := c + p.trace + [Event.Ask(MenuDnsPrompt)];
      if IsYes(env.answer(w + c + p.trace, MenuDnsPrompt)) then q + DnsCoreEvents(env, w + q, true, dryRun) else q
  }

  method MenuRepairDns(h: Host, dryRun: bool)
    modifies h
    ensures h.trace == old(h.trace) + MenuDnsEvents(h.env, old(h.trace), dryRun)
  {
    ghost var w := h.trace;
    h.Log(MenuDnsStart);
    RepairDnsCore(h, false, dryRun);
    ghost var c := DnsCoreEvents(h.env, w, false, dryRun);
    var ok := DnsResolves(h, DefaultDnsName);
    ghost var p := DnsStep(h.env, w + c);
    AppendAssoc(w, c, p.trace);
    if ok {
      h.Log(MenuDnsOk);
      return;
    }
    var reply := h.Ask(MenuDnsPrompt);
    ghost var q := c + p.trace + [Event.Ask(MenuDnsPrompt)];
    AppendAssoc(w, c + p.trace, [Event.Ask(MenuDnsPrompt)]);
    if IsYes(reply) {
      RepairDnsCore(h, true, dryRun);
      AppendAssoc(w, q, DnsCoreEvents(h.env, w + q, true, dryRun));
      assert MenuDnsEvents(h.env, w, dryRun) == q + DnsCoreEvents(h.env, w + q, true, dryRun);
    } else {
      h.Log(MenuDnsSkipped);
    }
  }

  /**
   * The menu's DNS repair asks as soon as the lookup after the limited
   * repair fails, terminal or not.
   */
  lemma MenuDnsAsks(env: Env, w: seq<Event>, dryRun: bool)
    ensures var c := DnsCoreEvents(env, w, false, dryRun);
      var p := DnsStep(env, w + c);
      !p.value ==>
        |MenuDnsEvents(env, w, dryRun)| > |c| + 1
        && MenuDnsEvents(env, w, dryRun)[..|c| + 2] == c + p.trace + [Event.Ask(MenuDnsPrompt)]
  {
    var c := DnsCoreEvents(env, w, false, dryRun);
    var p := DnsStep(env, w + c);
    if !p.value {
      var q := c + p.trace + [Event.Ask(MenuDnsPrompt)];
      assert |q| == |c| + 2;
      if IsYes(env.answer(w + c + p.trace, MenuDnsPrompt)) {
        var e := DnsCoreEvents(env, w + q, true, dryRun);
        assert MenuDnsEvents(env, w, dryRun) == q + e;
        assert (q + e)[..|q|] == q;
      } else {
        assert MenuDnsEvents(env, w, dryRun) == q;
      }
    }
  }

  /** The menu's DNS repair edits resolv.conf only after a failing lookup and a "y". */
  lemma MenuDnsAnnounced(env: Env, w: seq<Event>, dryRun: bool)
    ensures var c := DnsCoreEvents(env, w, false, dryRun);
      var p := DnsStep(env, w + c);
      var q := c + p.trace + [Event.Ask(MenuDnsPrompt)];
      var edit := !p.value && IsYes(env.answer(w + c + p.trace, MenuDnsPrompt));
      Announced(MenuDnsEvents(env, w, dryRun))
      == Announced(c) + (if edit then Announced(DnsCoreEvents(env, w + q, true, dryRun)) else [])
  {
    var c := DnsCoreEvents(env, w, false, dryRun);
    var p := DnsStep(env, w + c);
    DnsStepProps(env, w + c);
    AnnouncedAppend(c, p.trace);
    assert Announced(c + p.trace) == Announced(c);
    if !p.value {
      var q := c + p.trace + [Event.Ask(MenuDnsPrompt)];
      AnnouncedAppend(c + p.trace, [Event.Ask(MenuDnsPrompt)]);
      assert Announced([Event.Ask(MenuDnsPrompt)]) == [];
      assert Announced(q) == Announced(c);
      if IsYes(env.answer(w + c + p.trace, MenuDnsPrompt)) {
        var e := DnsCoreEvents(env, w + q, true, dryRun);
        AnnouncedAppend(q, e);
        assert MenuDnsEvents(env, w, dryRun) == q + e;
        assert Announced(q + e) == Announced(c) + Announced(e);
      } else {
        assert MenuDnsEvents(env, w, dryRun) == q;
      }
    } else {
      assert MenuDnsEvents(env, w, dryRun) == c + p.trace;
    }
  }

  // ---------------------------------------------------------------------
  // perform_repairs
  // ---------------------------------------------------------------------

  const DiagnosisHeader := "=== Fuzzy diagnosis ==="
  const RepairHeader := "=== Repair phase ==="

  /** `f"{s:20s}"`: the string padded with spaces on the right to at least 20 characters. */
  function PadRight(s: string, width: nat): (r: string)
    ensures |r| == if |s| < width then width else |s|
    ensures r[..|s|] == s
  {
    if |s| < width then s + seq(width - |s|, _ => ' ') else s
  }

  function RankedLine(e: Entry, at: nat): LogLine
  {
    LabelsTotal(e.0);
    Info(PadRight(SuspicionLabels[e.0], 20) + ": " + ScoreText(e.1), at)
  }

  /** The lines of the diagnosis summary: one per entry with a positive score, in ranked order. */
  function RankedLines(ordered: seq<Entry>, at: nat): seq<LogLine>
  {
    if ordered == [] then []
    else
      RankedLines(ordered[..|ordered| - 1], at)
        + (if ordered[|ordered| - 1].1 > 0 then [RankedLine(ordered[|ordered| - 1], at)] else [])
  }

  /** Logs each positive score with its label; nothing runs. */
  method LogRanked(h: Host, ordered: seq<Entry>)
    modifies h
    ensures h.trace == old(h.trace) && h.log == old(h.log) + RankedLines(ordered, |h.trace|)
  {
    for i := 0 to |ordered|
      invariant h.trace == old(h.trace) && h.log == old(h.log) + RankedLines(ordered[..i], |h.trace|)
    {
      assert ordered[..i + 1][..i] == ordered[..i];
      var (susp, score) := ordered[i];
      if score <= 0 {
        continue;
      }
      LabelsTotal(susp);
      h.Log(PadRight(SuspicionLabels[susp], 20) + ": " + ScoreText(score));
    }
    assert ordered[..|ordered|] == ordered;
  }

  /** One repair of the pass. */
  method RunRepair(h: Host, r: MenuRepair, iface: string, m: Managers, dryRun: bool)
    modifies h
    ensures h.trace == old(h.trace) + RepairStepEvents(h.env, old(h.trace), r, iface, m, dryRun)
  {
    match r
    case FixLink => RepairLinkDown(h, iface, dryRun);
    case FixIpv4 => RepairNoIpv4(h, iface, m, dryRun);
    case FixRoute => RepairNoRoute(h, dryRun);
    case FixInternet => RepairNoInternet(h, dryRun);
    case FixDnsConfirm => RepairDnsFuzzyWithConfirm(h, dryRun);
    case FixDnsLimited => RepairDnsCore(h, false, dryRun);
  }

  /** One guarded step of the pass: repair `r` runs when `c` holds, after the repairs in `done`. */
  method RunIf(h: Host, ghost w: seq<Event>, ghost done: seq<MenuRepair>, c: bool, r: MenuRepair,
               iface: string, m: Managers, dryRun: bool)
    modifies h
    requires h.trace == w + PlanEvents(h.env, w, done, iface, m, dryRun)
    ensures h.trace == w + PlanEvents(h.env, w, done + Opt(c, r), iface, m, dryRun)
  {
    PlanAdvance(h.env, w, done, c, r, iface, m, dryRun);
    if c {
      RunRepair(h, r, iface, m, dryRun);
    }
  }

  /** The repairs after manager detection, run in the fixed order with the detected snapshot. */
  method RunPlan(h: Host, iface: string, scores: seq<Entry>, m: Managers, dryRun: bool, allowEdit: bool)
    modifies h
    ensures h.trace == old(h.trace) + PlanEvents(h.env, old(h.trace), PlanOf(scores, allowEdit), iface, m, dryRun)
  {
    ghost var w := h.trace;
    ghost var done: seq<MenuRepair> := [];
    assert h.trace == w + PlanEvents(h.env, w, done, iface, m, dryRun);
    var c := ScoreAt(scores, LinkDown) > RepairThreshold;
    RunIf(h, w, done, c, FixLink, iface, m, dryRun);
    done := done + Opt(c, FixLink);
    c := ScoreAt(scores, NoIpv4) > RepairThreshold;
    RunIf(h, w, done, c, FixIpv4, iface, m, dryRun);
    done := done + Opt(c, FixIpv4);
    c := ScoreAt(scores, NoRoute) > RepairThreshold;
    RunIf(h, w, done, c, FixRoute, iface, m, dryRun);
    done := done + Opt(c, FixRoute);
    c := ScoreAt(scores, NoInternet) > RepairThreshold;
    RunIf(h, w, done, c, FixInternet, iface, m, dryRun);
    done := done + Opt(c, FixInternet);
    c := ScoreAt(scores, DnsBroken) > RepairThreshold;
    RunIf(h, w, done, c, if allowEdit then FixDnsConfirm else FixDnsLimited, iface, m, dryRun);
    done := done + Opt(c, DnsRepair(allowEdit));
    assert done == PlanOf(scores, allowEdit);
  }

  /** `perform_repairs(iface, diagnosis, dry_run, allow_resolv_conf_edit)`. */
  method PerformRepairs(h: Host, iface: string, d: Diagnosis, dryRun: bool, allowEdit: bool)
    modifies h
    ensures h.trace == old(h.trace) + PerformEvents(h.env, old(h.trace), iface, d.scores, dryRun, allowEdit)
  {
    ghost var w := h.trace;
    h.Log("");
    h.Log(DiagnosisHeader);
    LogRanked(h, SortedScores(d));
    h.Log("");
    h.Log(RepairHeader);
    if ScoreAt(d.scores, InterfaceMissing) > MissingThreshold {
      RepairInterfaceMissing(h, iface);
      return;
    }
    var managers := DetectNetworkManagers(h);
    ghost var ms := ManagersStep(h.env, w);
    RunPlan(h, iface, d.scores, managers, dryRun, allowEdit);
    AppendAssoc(w, ms.trace, PlanEvents(h.env, w + ms.trace, PlanOf(d.scores, allowEdit), iface, managers, dryRun));
  }

  /**
   * Above 0.5 for a missing interface the pass only prints the hint: no
   * manager detection and no repair. Otherwise the managers are detected
   * first, once, before any repair.
   */
  lemma PerformProps(env: Env, w: seq<Event>, iface: string, scores: seq<Entry>, dryRun: bool, allowEdit: bool)
    ensures ScoreAt(scores, InterfaceMissing) > MissingThreshold ==> PerformEvents(env, w, iface, scores, dryRun, allowEdit) == []
    ensures ScoreAt(scores, InterfaceMissing) <= MissingThreshold ==>
      var t := PerformEvents(env, w, iface, scores, dryRun, allowEdit);
      |t| >= 3 && t[..3] == ManagersStep(env, w).trace
      && Commands(t[..3]) == [IsActiveCmd("NetworkManager"), IsActiveCmd("systemd-networkd")]
  {
    if ScoreAt(scores, InterfaceMissing) <= MissingThreshold {
      var ms := ManagersStep(env, w);
      var t := PerformEvents(env, w, iface, scores, dryRun, allowEdit);
      var rest := PlanEvents(env, w + ms.trace, PlanOf(scores, allowEdit), iface, ms.value, dryRun);
      assert t == ms.trace + rest;
      assert t[..3] == ms.trace;
      ManagersStepProps(env, w);
    }
  }

  /** The score a diagnosis from probe facts gives each suspicion is the rule table's. */
  lemma ScoreAtDiagnosis(f: Facts, s: Suspicion)
    ensures ScoreAt(ExpectedScores(f), s) == ScoreOf(f, s)
  {
    var r := ExpectedScores(f);
    SuspicionsClosed(s);
    var k :| 0 <= k < |AllSuspicions| && AllSuspicions[k] == s;
    assert r[k] == (s, ScoreOf(f, s));
    forall j | 0 <= j < k ensures r[j].0 != s {
      assert r[j].0 == AllSuspicions[j];
    }
  }

  /**
   * When ping and resolution both fail and resolv.conf is in no systemd or
   * manual arrangement, the DNS score stays at its base 0.4 and the pass
   * runs no DNS repair.
   */
  lemma BaseDnsScoreNotRepaired(f: Facts, allowEdit: bool)
    requires f.present && !f.canPing && !f.canResolve && f.mode == Other
    ensures ScoreAt(ExpectedScores(f), DnsBroken) == 40
    ensures FixDnsConfirm !in PlanOf(ExpectedScores(f), allowEdit)
    ensures FixDnsLimited !in PlanOf(ExpectedScores(f), allowEdit)
  {
    ScoreAtDiagnosis(f, DnsBroken);
    BaseDnsScoreSkipped(ExpectedScores(f), allowEdit);
  }

  // ---------------------------------------------------------------------
  // main and the full-repair menu option
  // ---------------------------------------------------------------------

  /** The events of diagnosing, running the repair pass and showing the status. */
  function PassEvents(env: Env, w: seq<Event>, iface: string, dryRun: bool, allowEdit: bool): seq<Event>
  {
    var f := FactsStep(env, w, iface);
    f.trace + PerformEvents(env, w + f.trace, iface, ExpectedScores(f.value), dryRun, allowEdit)
      + [Event.Delegate(ShowStatus(iface))]
  }

  /**
   * `fuzzy_diagnose`, `perform_repairs` and `show_status` in a row: the
   * automatic path of `main` (edits disallowed) and menu option 2 (edits
   * allowed).
   */
  method DiagnoseAndRepair(h: Host, iface: string, dryRun: bool, allowEdit: bool)
    modifies h
    ensures h.trace == old(h.trace) + PassEvents(h.env, old(h.trace), iface, dryRun, allowEdit)
  {
    ghost var w := h.trace;
    var diag := Diagnose(h, iface);
    ghost var f := FactsStep(h.env, w, iface);
    PerformRepairs(h, iface, diag, dryRun, allowEdit);
    h.Delegate(ShowStatus(iface));
    ghost var p := PerformEvents(h.env, w + f.trace, iface, ExpectedScores(f.value), dryRun, allowEdit);
    AppendAssoc(w, f.trace, p);
    AppendAssoc(w, f.trace + p, [Event.Delegate(ShowStatus(iface))]);
  }

  /** Menu option 2: the pass with resolv.conf edits allowed. */
  method MenuFullRepair(h: Host, iface: string, dryRun: bool)
    modifies h
    ensures h.trace == old(h.trace) + PassEvents(h.env, old(h.trace), iface, dryRun, true)
  {
    DiagnoseAndRepair(h, iface, dryRun, true);
  }

  /** `main`: the exit code and the events, for the interface named on the command line. */
  function MainStep(env: Env, w: seq<Event>, iface: string, dryRun: bool, auto: bool): Step<int>
  {
    if !IsRoot(env) then Step(1, [])
    else
      var s := ChooseStep(env, w, iface);
      if s.value.None? then Step(1, s.trace)
      else if auto || !env.stdinIsTty then Step(0, s.trace + PassEvents(env, w + s.trace, s.value.value, dryRun, false))
      else Step(0, s.trace + [Event.Delegate(InteractiveMenu(s.value.value, dryRun))])
  }

  /** `main(argv)` once the arguments are parsed. */
  method MenuMain(h: Host, iface: string, dryRun: bool, auto: bool) returns (code: int)
    modifies h
    ensures var r := MainStep(h.env, old(h.trace), iface, dryRun, auto); code == r.value && h.trace == old(h.trace) + r.trace
  {
    if h.env.euid.Some? && h.env.euid.value != 0 {
      h.PrintError(RootError);
      h.Log(RootLog);
      return 1;
    }
    ghost var w := h.trace;
    var selected := SelectInterface(h, iface);
    if selected.None? {
      return 1;
    }
    var name := selected.value;
    LogStart(h, name, dryRun);
    if auto || !h.env.stdinIsTty {
      ghost var s := ChooseStep(h.env, w, iface);
      DiagnoseAndRepair(h, name, dryRun, false);
      AppendAssoc(w, s.trace, PassEvents(h.env, w + s.trace, name, dryRun, false));
      return 0;
    }
    h.Delegate(InteractiveMenu(name, dryRun));
    return 0;
  }

  /**
   * The menu flow exits with 1 for a non-root user (before any probe) and
   * for a refused interface, and with 0 otherwise; the automatic path runs
   * the pass with resolv.conf edits disallowed, so its DNS repair, if any,
   * is the limited one, while option 2's DNS repair, if any, asks first.
   */
  lemma MainProps(env: Env, w: seq<Event>, iface: string, dryRun: bool, auto: bool, scores: seq<Entry>)
    ensures !IsRoot(env) ==> MainStep(env, w, iface, dryRun, auto) == Step(1, [])
    ensures MainStep(env, w, iface, dryRun, auto).value == 1
            <==> !IsRoot(env) || ChooseStep(env, w, iface).value.None?
    ensures FixDnsConfirm !in PlanOf(scores, false) && FixDnsLimited !in PlanOf(scores, true)
  {
    PlanMembers(scores, false, FixDnsConfirm);
    PlanMembers(scores, true, FixDnsLimited);
  }
}
