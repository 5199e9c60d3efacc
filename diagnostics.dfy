/**
 * The fuzzy diagnosis: probe facts are turned into a score (in hundredths)
 * for each suspicion by a fixed rule table, with DNS suspicion sharpened by
 * how systemd-resolved and `/etc/resolv.conf` are set up.
 */
module Diagnostics {
  import opened Types
  import opened Text
  import opened Shell
  import opened Probes
  import opened DnsConfig

  /** What the probes found out, in the order `fuzzy_diagnose` asks. */
  datatype Facts = Facts(
    present: bool,
    linkUp: bool,
    hasIpv4: bool,
    defaultRoute: bool,
    canPing: bool,
    canResolve: bool,
    resolvedActive: bool,
    mode: ResolvConfMode)

  // Rule weights, in hundredths.
  const MissingWeight: Score := 100
  const LinkDownWeight: Score := 80
  const NoIpv4Weight: Score := 70
  const NoRouteWeight: Score := 60
  const NoInternetWeight: Score := 60
  const DnsOnlyWeight: Score := 90
  const DnsAndPingWeight: Score := 40
  const StubInactiveFloor: Score := 100
  const ManualActiveFloor: Score := 95
  const SystemdModeFloor: Score := 80

  function Max(a: Score, b: Score): Score
  {
    if a >= b then a else b
  }

  // ---------------------------------------------------------------------
  // The rule table, suspicion by suspicion
  // ---------------------------------------------------------------------

  /** The DNS score before escalation: resolution failing while ping works weighs most. */
  function DnsBase(f: Facts): Score
  {
    if f.canPing && !f.canResolve then DnsOnlyWeight
    else if !f.canResolve then DnsAndPingWeight
    else 0
  }

  /** Raises a positive DNS score by the first rule that matches the resolver setup. */
  function Escalate(base: Score, f: Facts): Score
  {
    if base == 0 then base
    else if f.mode == SystemdStub && !f.resolvedActive then Max(base, StubInactiveFloor)
    else if f.mode == Manual && f.resolvedActive then Max(base, ManualActiveFloor)
    else if f.mode == SystemdStub || f.mode == SystemdFull then Max(base, SystemdModeFloor)
    else base
  }

  /** The score the rule table gives suspicion `s`. */
  function ScoreOf(f: Facts, s: Suspicion): Score
  {
    if !f.present then (if s == InterfaceMissing then MissingWeight else 0)
    else match s
      case InterfaceMissing => 0
      case LinkDown => if f.linkUp then 0 else LinkDownWeight
      case NoIpv4 => if f.hasIpv4 then 0 else NoIpv4Weight
      case NoRoute => if f.defaultRoute then 0 else NoRouteWeight
      case NoInternet => if f.canPing then 0 else NoInternetWeight
      case DnsBroken => Escalate(DnsBase(f), f)
  }

  /** One entry per suspicion, in declaration order, scored by the rule table. */
  function ExpectedScores(f: Facts): (r: seq<Entry>)
    ensures |r| == |AllSuspicions|
    ensures forall k :: 0 <= k < |r| ==> r[k] == (AllSuspicions[k], ScoreOf(f, AllSuspicions[k]))
  {
    seq(|AllSuspicions|, k requires 0 <= k < |AllSuspicions| => (AllSuspicions[k], ScoreOf(f, AllSuspicions[k])))
  }

  // ---------------------------------------------------------------------
  // The dictionary `fuzzy_diagnose` updates
  // ---------------------------------------------------------------------

  /**
   * The dictionary's entries in insertion order. Every key is inserted by the
   * initial literal, in declaration order, and later assignments only replace
   * values, so the order is `AllSuspicions`.
   */
  function Items(m: map<Suspicion, Score>): (r: seq<Entry>)
    requires forall s :: s in m
    ensures |r| == |AllSuspicions|
    ensures forall k :: 0 <= k < |r| ==> r[k] == (AllSuspicions[k], m[AllSuspicions[k]])
  {
    seq(|AllSuspicions|, k requires 0 <= k < |AllSuspicions| => (AllSuspicions[k], m[AllSuspicions[k]]))
  }

  /** A dictionary holding the rule table's score for every suspicion lists the expected scores. */
  lemma ItemsOfTable(m: map<Suspicion, Score>, f: Facts)
    requires forall s :: s in m && m[s] == ScoreOf(f, s)
    ensures Items(m) == ExpectedScores(f)
  {
  }

  /** `fuzzy_diagnose` once the probes have answered. */
  method FuzzyDiagnose(iface: string, f: Facts) returns (d: Diagnosis)
    ensures d == Diagnosis(iface, ExpectedScores(f))
  {
    var scores: map<Suspicion, Score> := map[
      InterfaceMissing := 0, LinkDown := 0, NoIpv4 := 0, NoRoute := 0, NoInternet := 0, DnsBroken := 0];
    if !f.present {
      scores := scores[InterfaceMissing := MissingWeight];
      forall s ensures s in scores && scores[s] == ScoreOf(f, s) {
        match s
        case InterfaceMissing =>
        case LinkDown =>
        case NoIpv4 =>
        case NoRoute =>
        case NoInternet =>
        case DnsBroken =>
      }
      ItemsOfTable(scores, f);
      return Diagnosis(iface, Items(scores));
    }
    if !f.linkUp {
      scores := scores[LinkDown := LinkDownWeight];
    }
    if !f.hasIpv4 {
      scores := scores[NoIpv4 := NoIpv4Weight];
    }
    if !f.defaultRoute {
      scores := scores[NoRoute := NoRouteWeight];
    }
    if !f.canPing {
      scores := scores[NoInternet := NoInternetWeight];
    }
    if f.canPing && !f.canResolve {
      scores := scores[DnsBroken := DnsOnlyWeight];
    } else if !f.canResolve {
      scores := scores[DnsBroken := DnsAndPingWeight];
    }
    var dnsScore := scores[DnsBroken];
    if dnsScore > 0 {
      if f.mode == SystemdStub && !f.resolvedActive {
        dnsScore := Max(dnsScore, StubInactiveFloor);
      } else if f.mode == Manual && f.resolvedActive {
        dnsScore := Max(dnsScore, ManualActiveFloor);
      } else if f.mode == SystemdStub || f.mode == SystemdFull {
        dnsScore := Max(dnsScore, SystemdModeFloor);
      }
      scores := scores[DnsBroken := dnsScore];
    }
    forall s ensures s in scores && scores[s] == ScoreOf(f, s) {
      match s
      case InterfaceMissing =>
      case LinkDown =>
      case NoIpv4 =>
      case NoRoute =>
      case NoInternet =>
      case DnsBroken =>
    }
    ItemsOfTable(scores, f);
    d := Diagnosis(iface, Items(scores));
  }

  // ---------------------------------------------------------------------
  // Properties of the rule table
  // ---------------------------------------------------------------------

  /** The diagnosis holds one entry per suspicion, in declaration order, each between 0 and 1.0. */
  lemma ScoresComplete(f: Facts)
    ensures DistinctKeys(ExpectedScores(f))
    ensures forall s :: s in AllSuspicions <==> exists k :: 0 <= k < |ExpectedScores(f)| && ExpectedScores(f)[k].0 == s
    ensures forall k :: 0 <= k < |ExpectedScores(f)| ==> ExpectedScores(f)[k].1 <= 100
  {
    var e := ExpectedScores(f);
    forall s ensures s in AllSuspicions <==> exists k :: 0 <= k < |e| && e[k].0 == s {
      if s in AllSuspicions {
        var k :| 0 <= k < |AllSuspicions| && AllSuspicions[k] == s;
        assert e[k].0 == s;
      }
    }
  }

  /** A missing interface scores INTERFACE_MISSING at 1.0 and everything else at 0. */
  lemma MissingInterface(f: Facts)
    requires !f.present
    ensures ExpectedScores(f) == [(InterfaceMissing, 100), (LinkDown, 0), (NoIpv4, 0),
                                  (NoRoute, 0), (NoInternet, 0), (DnsBroken, 0)]
  {
  }

  /**
   * For an existing interface each failed connectivity probe sets its fixed
   * weight and a passing one leaves 0; INTERFACE_MISSING stays 0.
   */
  lemma ConnectivityWeights(f: Facts)
    requires f.present
    ensures ScoreOf(f, InterfaceMissing) == 0
    ensures ScoreOf(f, LinkDown) == (if f.linkUp then 0 else 80)
    ensures ScoreOf(f, NoIpv4) == (if f.hasIpv4 then 0 else 70)
    ensures ScoreOf(f, NoRoute) == (if f.defaultRoute then 0 else 60)
    ensures ScoreOf(f, NoInternet) == (if f.canPing then 0 else 60)
  {
  }

  /**
   * DNS suspicion: 0 when names resolve, whatever the resolver setup; otherwise
   * never below the base score (0.9 with ping working, 0.4 without), escalated
   * by the first matching rule.
   */
  lemma DnsRules(f: Facts)
    requires f.present
    ensures f.canResolve ==> ScoreOf(f, DnsBroken) == 0
    ensures !f.canResolve ==> ScoreOf(f, DnsBroken) >= if f.canPing then 90 else 40
    ensures !f.canResolve ==>
      ScoreOf(f, DnsBroken) ==
        if f.mode == SystemdStub && !f.resolvedActive then 100
        else if f.mode == Manual && f.resolvedActive then 95
        else if f.mode == SystemdStub || f.mode == SystemdFull then (if f.canPing then 90 else 80)
        else (if f.canPing then 90 else 40)
  {
  }

  /** Escalation never lowers a score and leaves 0 alone. */
  lemma EscalateMonotone(base: Score, f: Facts)
    ensures Escalate(base, f) >= base
    ensures base == 0 <==> Escalate(base, f) == 0
    ensures base <= 100 ==> Escalate(base, f) <= 100
  {
  }

  /**
   * The top suspicion of a fresh diagnosis is the first suspicion in
   * declaration order with the largest score: the dictionary starts in
   * declaration order and the ranking is stable.
   */
  lemma TopIsFirstDeclaredMax(iface: string, f: Facts)
    ensures exists k :: (FirstMax(ExpectedScores(f), k)
                         && TopSuspicion(Diagnosis(iface, ExpectedScores(f))) == AllSuspicions[k])
  {
    var d := Diagnosis(iface, ExpectedScores(f));
    TopSuspicionIsMax(d);
    var k :| FirstMax(d.scores, k) && d.scores[k].0 == TopSuspicion(d);
    assert d.scores[k].0 == AllSuspicions[k];
  }

  /**
   * Everything reachable but names fail, and `/etc/resolv.conf` points at the
   * stub resolver while systemd-resolved is down: DNS_BROKEN is 1.0, every
   * other score 0, and DNS is the top suspicion.
   */
  lemma StubWithoutResolved(iface: string, f: Facts)
    requires f.present && f.linkUp && f.hasIpv4 && f.defaultRoute && f.canPing
    requires !f.canResolve && f.mode == SystemdStub && !f.resolvedActive
    ensures ExpectedScores(f) == [(InterfaceMissing, 0), (LinkDown, 0), (NoIpv4, 0),
                                  (NoRoute, 0), (NoInternet, 0), (DnsBroken, 100)]
    ensures TopSuspicion(Diagnosis(iface, ExpectedScores(f))) == DnsBroken
  {
    var e := ExpectedScores(f);
    assert e == [(InterfaceMissing, 0), (LinkDown, 0), (NoIpv4, 0), (NoRoute, 0), (NoInternet, 0), (DnsBroken, 100)];
    TopIsFirstDeclaredMax(iface, f);
    var k :| FirstMax(e, k) && TopSuspicion(Diagnosis(iface, e)) == AllSuspicions[k];
    assert e[5].1 <= e[k].1;
  }

  // ---------------------------------------------------------------------
  // Probing
  // ---------------------------------------------------------------------

  /** A probe that is skipped reads as false and asks nothing. */
  function Skipped(): Step<bool>
  {
    Step(false, [])
  }

  /**
   * The probes `fuzzy_diagnose` runs, in order: existence; link and address
   * only for an existing interface; route; ping of 8.8.8.8; name resolution;
   * the systemd-resolved status; the resolv.conf mode.
   */
  function FactsStep(env: Env, w: seq<Event>, iface: string): Step<Facts>
  {
    var e := ExistsStep(env, w, iface);
    var w1 := w + e.trace;
    var l := if e.value then LinkUpStep(env, w1, iface) else Skipped();
    var w2 := w1 + l.trace;
    var a := if e.value then HasIpv4Step(env, w2, iface) else Skipped();
    var w3 := w2 + a.trace;
    var r := DefaultRouteStep(env, w3);
    var w4 := w3 + r.trace;
    var p := PingStep(env, w4, "8.8.8.8");
    var w5 := w4 + p.trace;
    var n := DnsStep(env, w5);
    var w6 := w5 + n.trace;
    var st := StatusStep(env, w6);
    var w7 := w6 + st.trace;
    var m := ModeStep(env, w7);
    Step(Facts(e.value, l.value, a.value, r.value, p.value, n.value, st.value.active, m.value.0),
         e.trace + l.trace + a.trace + r.trace + p.trace + n.trace + st.trace + m.trace)
  }

  /** `fuzzy_diagnose(iface)`: probe, then score. */
  method Diagnose(h: Host, iface: string) returns (d: Diagnosis)
    modifies h
    ensures var s := FactsStep(h.env, old(h.trace), iface);
      d == Diagnosis(iface, ExpectedScores(s.value)) && h.trace == old(h.trace) + s.trace
  {
    ghost var w := h.trace;
    var present := InterfaceExists(h, iface);
    ghost var acc := ExistsStep(h.env, w, iface).trace;
    ghost var x: seq<Event>;

    ghost var w1 := h.trace;
    var linkUp := false;
    if present {
      linkUp := InterfaceLinkUp(h, iface);
    }
    ghost var l := if present then LinkUpStep(h.env, w1, iface) else Skipped();
    assert linkUp == l.value && h.trace == w1 + l.trace;
    AppendAssoc(w, acc, l.trace);
    acc := acc + l.trace;

    ghost var w2 := h.trace;
    var hasIp := false;
    if present {
      hasIp := InterfaceHasIpv4(h, iface);
    }
    ghost var a := if present then HasIpv4Step(h.env, w2, iface) else Skipped();
    assert hasIp == a.value && h.trace == w2 + a.trace;
    AppendAssoc(w, acc, a.trace);
    acc := acc + a.trace;

    ghost var w3 := h.trace;
    var defaultRoute := HasDefaultRoute(h);
    x := DefaultRouteStep(h.env, w3).trace;
    AppendAssoc(w, acc, x);
    acc := acc + x;

    ghost var w4 := h.trace;
    var canPing := PingHost(h, "8.8.8.8", 1, 3);
    x := PingStep(h.env, w4, "8.8.8.8").trace;
    AppendAssoc(w, acc, x);
    acc := acc + x;

    ghost var w5 := h.trace;
    var canResolve := DnsResolves(h, DefaultDnsName);
    x := DnsStep(h.env, w5).trace;
    AppendAssoc(w, acc, x);
    acc := acc + x;

    ghost var w6 := h.trace;
    var status := SystemdResolvedStatus(h);
    x := StatusStep(h.env, w6).trace;
    AppendAssoc(w, acc, x);
    acc := acc + x;

    ghost var w7 := h.trace;
    var mode, detail := DetectResolvConfMode(h);
    x := ModeStep(h.env, w7).trace;
    AppendAssoc(w, acc, x);
    acc := acc + x;

    ghost var s := FactsStep(h.env, w, iface);
    var facts := Facts(present, linkUp, hasIp, defaultRoute, canPing, canResolve, status.active, mode);
    assert facts == s.value;
    assert acc == s.trace;
    d := FuzzyDiagnose(iface, facts);
  }
}
