/**
 * Checking a systemd configuration tree: linting `resolved.conf`, finding the
 * unit files, and running `systemd-analyze verify` on each of them.
 *
 * Reading and parsing `resolved.conf` (configparser), the address syntax check
 * (`ipaddress.ip_address`) and the directory walk are parameters; the file's
 * existence, the name lookup, the binary lookups and the verify commands go
 * through the `Host`.
 */
module SystemdValidation {
  import opened Types
  import opened Text
  import opened Shell

  // ---------------------------------------------------------------------------
  // Issues and their log lines

  /** The prefix of a logged configuration issue. */
  const FailPrefix := "[FAIL] "

  /** The log lines of the given issues, all at trace length `at`, when a logger is given. */
  function FailLines(logging: bool, issues: seq<string>, at: nat): (r: seq<LogLine>)
    ensures |r| == if logging then |issues| else 0
  {
    if !logging || issues == [] then []
    else [Info(FailPrefix + issues[0], at)] + FailLines(logging, issues[1..], at)
  }

  lemma {:induction false} FailLinesAppend(logging: bool, a: seq<string>, b: seq<string>, at: nat)
    ensures FailLines(logging, a + b, at) == FailLines(logging, a, at) + FailLines(logging, b, at)
    decreases |a|
  {
    if a == [] {
      assert a + b == b;
    } else if logging {
      assert (a + b)[1..] == a[1..] + b;
      FailLinesAppend(logging, a[1..], b, at);
    }
  }

  /** The messages of the informational lines, in order. */
  function Messages(ls: seq<LogLine>): (r: seq<string>)
    ensures |r| <= |ls|
  {
    if ls == [] then [] else (if ls[0].Info? then [ls[0].message] else []) + Messages(ls[1..])
  }

  lemma {:induction false} MessagesAppend(a: seq<LogLine>, b: seq<LogLine>)
    ensures Messages(a + b) == Messages(a) + Messages(b)
    decreases |a|
  {
    if a == [] {
      assert a + b == b;
    } else {
      var head := if a[0].Info? then [a[0].message] else [];
      assert (a + b)[0] == a[0];
      assert (a + b)[1..] == a[1..] + b;
      assert Messages(a + b) == head + Messages(a[1..] + b);
      MessagesAppend(a[1..], b);
    }
  }

  /** Each issue logged once, in order, as "[FAIL] issue". */
  lemma {:induction false} FailMessages(issues: seq<string>, at: nat)
    ensures var ms := Messages(FailLines(true, issues, at));
      |ms| == |issues| && forall i :: 0 <= i < |issues| ==> ms[i] == FailPrefix + issues[i]
    decreases |issues|
  {
    if issues != [] {
      FailMessages(issues[1..], at);
      var ms := Messages(FailLines(true, issues, at));
      var rest := Messages(FailLines(true, issues[1..], at));
      assert ms == [FailPrefix + issues[0]] + rest;
      forall i | 0 <= i < |issues| ensures ms[i] == FailPrefix + issues[i] {
        if i > 0 {
          assert ms[i] == rest[i - 1];
        }
      }
    }
  }

  /** `_log_issue`: logs the issue when a logger is given. */
  method LogFail(h: Host, issue: string, logging: bool)
    modifies h
    ensures h.trace == old(h.trace) && h.log == old(h.log) + FailLines(logging, [issue], |h.trace|)
  {
    if logging {
      h.Log(FailPrefix + issue);
    }
  }

  // ---------------------------------------------------------------------------
  // Addresses

  /** The issue for a token that is not an IP address. */
  function AddressIssue(path: string, key: string, token: string): string
  {
    path + ": " + key + " has invalid address '" + token + "'"
  }

  /** One issue per token that `valid` (standing for `ipaddress.ip_address`) rejects, in order. */
  function AddressIssues(tokens: seq<string>, path: string, key: string, valid: string -> bool): (r: seq<string>)
    ensures |r| <= |tokens|
  {
    if tokens == [] then []
    else
      (if valid(tokens[0]) then [] else [AddressIssue(path, key, tokens[0])])
        + AddressIssues(tokens[1..], path, key, valid)
  }

  /** Every issue names a rejected token, and every rejected token has an issue. */
  lemma {:induction false} AddressIssuesExact(tokens: seq<string>, path: string, key: string, valid: string -> bool)
    ensures var r := AddressIssues(tokens, path, key, valid);
      (forall i :: 0 <= i < |r| ==>
        exists k :: 0 <= k < |tokens| && !valid(tokens[k]) && r[i] == AddressIssue(path, key, tokens[k]))
      && (forall k :: 0 <= k < |tokens| && !valid(tokens[k]) ==> AddressIssue(path, key, tokens[k]) in r)
    decreases |tokens|
  {
    if tokens != [] {
      var t := tokens[0];
      var rest := AddressIssues(tokens[1..], path, key, valid);
      var head := if valid(t) then [] else [AddressIssue(path, key, t)];
      AddressIssuesExact(tokens[1..], path, key, valid);
      var r := AddressIssues(tokens, path, key, valid);
      assert r == head + rest;
      forall i | 0 <= i < |r|
        ensures exists k :: 0 <= k < |tokens| && !valid(tokens[k]) && r[i] == AddressIssue(path, key, tokens[k])
      {
        if i < |head| {
          assert tokens[0] == t;
        } else {
          assert r[i] == rest[i - |head|];
          var k :| 0 <= k < |tokens[1..]| && !valid(tokens[1..][k]) && rest[i - |head|] == AddressIssue(path, key, tokens[1..][k]);
          assert tokens[k + 1] == tokens[1..][k];
        }
      }
      forall k | 0 <= k < |tokens| && !valid(tokens[k]) ensures AddressIssue(path, key, tokens[k]) in r {
        if k > 0 {
          assert tokens[k] == tokens[1..][k - 1];
          assert AddressIssue(path, key, tokens[k]) in rest;
        } else {
          assert r[0] == AddressIssue(path, key, t);
        }
      }
    }
  }

  lemma AddressIssuesAt(tokens: seq<string>, path: string, key: string, valid: string -> bool, i: nat)
    requires i < |tokens|
    ensures AddressIssues(tokens[i..], path, key, valid)
      == (if valid(tokens[i]) then [] else [AddressIssue(path, key, tokens[i])])
        + AddressIssues(tokens[i + 1..], path, key, valid)
  {
    assert tokens[i..][1..] == tokens[i + 1..];
  }

  /** `_validate_ip_list`: one issue per whitespace-separated token that is not an address, each logged. */
  method ValidateIpList(h: Host, values: string, path: string, key: string, valid: string -> bool, logging: bool)
    returns (issues: seq<string>)
    modifies h
    ensures issues == AddressIssues(SplitWs(values), path, key, valid)
    ensures h.trace == old(h.trace) && h.log == old(h.log) + FailLines(logging, issues, |h.trace|)
  {
    var tokens := SplitWs(values);
    ghost var full := AddressIssues(tokens, path, key, valid);
    issues := [];
    for i := 0 to |tokens|
      invariant full == issues + AddressIssues(tokens[i..], path, key, valid)
      invariant h.trace == old(h.trace) && h.log == old(h.log) + FailLines(logging, issues, |h.trace|)
    {
      AddressIssuesAt(tokens, path, key, valid, i);
      ghost var rest := AddressIssues(tokens[i + 1..], path, key, valid);
      if !valid(tokens[i]) {
        var issue := AddressIssue(path, key, tokens[i]);
        AppendAssoc(issues, [issue], rest);
        FailLinesAppend(logging, issues, [issue], |h.trace|);
        issues := issues + [issue];
        LogFail(h, issue, logging);
      } else {
        assert AddressIssues(tokens[i..], path, key, valid) == rest;
      }
      assert full == issues + rest;
    }
    assert tokens[|tokens|..] == [];
  }

  // ---------------------------------------------------------------------------
  // Enumerated settings

  /** A string as Python's `repr` writes it, for strings without quotes or backslashes. */
  function Quoted(s: string): string
  {
    "'" + s + "'"
  }

  /** The quoted strings, separated by ", ". */
  function QuotedItems(xs: seq<string>): string
  {
    if xs == [] then ""
    else if |xs| == 1 then Quoted(xs[0])
    else Quoted(xs[0]) + ", " + QuotedItems(xs[1..])
  }

  /** Python's `repr` of a list of such strings: `['a', 'b']`. */
  function ListRepr(xs: seq<string>): string
  {
    "[" + QuotedItems(xs) + "]"
  }

  /**
   * `_validate_choice`: nothing for an allowed value, otherwise one issue naming the path and
   * key, the allowed values listed as `order` (their sorted `repr`) and the value found.
   */
  function ChoiceIssues(value: string, path: string, key: string, allowed: set<string>, order: seq<string>)
    : (r: seq<string>)
    ensures value in allowed <==> r == []
    ensures r != [] ==>
      (|r| == 1 && StartsWith(r[0], path + ": " + key + " should be one of " + ListRepr(order))
       && EndsWith(r[0], ", got '" + value + "'"))
  {
    if value in allowed then []
    else
      var head := path + ": " + key + " should be one of " + ListRepr(order);
      var tail := ", got '" + value + "'";
      var issue := head + tail;
      assert issue[..|head|] == head;
      assert issue[|issue| - |tail|..] == tail;
      [issue]
  }

  /** An enumerated key: its name, its allowed values, and those values in sorted order. */
  datatype Choice = Choice(key: string, allowed: set<string>, order: seq<string>)

  const Dnssec := Choice("DNSSEC", {"yes", "no", "allow-downgrade"}, ["allow-downgrade", "no", "yes"])
  const DnsOverTls := Choice("DNSOverTLS", {"yes", "no", "opportunistic"}, ["no", "opportunistic", "yes"])
  const Llmnr := Choice("LLMNR", {"yes", "no", "resolve"}, ["no", "resolve", "yes"])
  const MulticastDns := Choice("MulticastDNS", {"yes", "no"}, ["no", "yes"])
  const StubListener := Choice("DNSStubListener", {"yes", "no", "udp", "tcp", "both"}, ["both", "no", "tcp", "udp", "yes"])
  const ReadEtcHosts := Choice("ReadEtcHosts", {"yes", "no"}, ["no", "yes"])

  /** The listed order is `sorted(allowed)`, so the issue shows `repr(sorted(allowed))`. */
  ghost predicate OrderSorted(c: Choice)
  {
    SortedOf(c.allowed) == c.order
  }

  /** A strictly increasing listing of a set is its sorted order. */
  lemma SortedListing(c: Choice)
    requires StrictlySorted(c.order) && forall x :: x in c.order <==> x in c.allowed
    ensures OrderSorted(c)
  {
    SortedOfProps(c.allowed);
    StrictlySortedUnique(SortedOf(c.allowed), c.order);
  }

  lemma DnssecSorted()
    ensures OrderSorted(Dnssec)
  {
    SortedListing(Dnssec);
  }

  lemma DnsOverTlsSorted()
    ensures OrderSorted(DnsOverTls)
  {
    SortedListing(DnsOverTls);
  }

  lemma LlmnrSorted()
    ensures OrderSorted(Llmnr)
  {
    SortedListing(Llmnr);
  }

  lemma MulticastDnsSorted()
    ensures OrderSorted(MulticastDns)
  {
    SortedListing(MulticastDns);
  }

  lemma StubListenerSorted()
    ensures OrderSorted(StubListener)
  {
    SortedListing(StubListener);
  }

  lemma ReadEtcHostsSorted()
    ensures OrderSorted(ReadEtcHosts)
  {
    SortedListing(ReadEtcHosts);
  }

  /** `parser.get("Resolve", key, fallback="")`. */
  function Get(resolve: map<string, string>, key: string): string
  {
    if key in resolve then resolve[key] else ""
  }

  /** One enumerated key: checked only when its value is not empty. */
  function KeyIssues(resolve: map<string, string>, path: string, c: Choice): (r: seq<string>)
    ensures r == [] <==> Get(resolve, c.key) == [] || Get(resolve, c.key) in c.allowed
    ensures |r| <= 1
  {
    var value := Get(resolve, c.key);
    if value == [] then [] else ChoiceIssues(value, path, c.key, c.allowed, c.order)
  }

  /** The six enumerated keys, in the order the source checks them. */
  function ChoicesIssues(resolve: map<string, string>, path: string): seq<string>
  {
    KeyIssues(resolve, path, Dnssec) + KeyIssues(resolve, path, DnsOverTls) + KeyIssues(resolve, path, Llmnr)
      + KeyIssues(resolve, path, MulticastDns) + KeyIssues(resolve, path, StubListener)
      + KeyIssues(resolve, path, ReadEtcHosts)
  }

  /** Whether an enumerated key holds nothing or an allowed value. */
  predicate KeyOk(resolve: map<string, string>, c: Choice)
  {
    Get(resolve, c.key) == [] || Get(resolve, c.key) in c.allowed
  }

  /** No enumerated-key issue exactly when every enumerated key is empty or allowed. */
  lemma ChoicesClean(resolve: map<string, string>, path: string)
    ensures ChoicesIssues(resolve, path) == [] <==>
      KeyOk(resolve, Dnssec) && KeyOk(resolve, DnsOverTls) && KeyOk(resolve, Llmnr)
      && KeyOk(resolve, MulticastDns) && KeyOk(resolve, StubListener) && KeyOk(resolve, ReadEtcHosts)
  {
  }

  /** The check of one enumerated key, logged. */
  method CheckKey(h: Host, resolve: map<string, string>, path: string, c: Choice, logging: bool)
    returns (issues: seq<string>)
    modifies h
    ensures issues == KeyIssues(resolve, path, c)
    ensures h.trace == old(h.trace) && h.log == old(h.log) + FailLines(logging, issues, |h.trace|)
  {
    var value := Get(resolve, c.key);
    issues := [];
    if value != [] {
      issues := ChoiceIssues(value, path, c.key, c.allowed, c.order);
      if issues != [] {
        LogFail(h, issues[0], logging);
        assert issues == [issues[0]];
      }
    }
  }

  // ---------------------------------------------------------------------------
  // resolved.conf

  const ResolvedName := "resolved.conf"
  const DnsKey := "DNS"
  const FallbackKey := "FallbackDNS"
  /** The host looked up when no DNS server is configured. */
  const ProbeHost := "example.com"
  const ParseFailText := ": failed to parse ("
  const MissingSectionText := ": missing [Resolve] section"
  const EmptyDnsText := ": " + "DNS and FallbackDNS are empty and failed to resolve " + ProbeHost

  /**
   * What configparser made of the file: it could not be read or parsed (with the
   * error's text), or it was, with the `[Resolve]` section's options if there is one.
   * The map answers `parser.get("Resolve", key, fallback="")` for the keys the
   * validator asks about, so configparser's case-insensitive option names and its
   * DEFAULT-section fallback are already resolved inside it.
   */
  datatype ConfRead = Unreadable(reason: string) | Parsed(resolve: Option<map<string, string>>)

  /** `os.path.join(base_dir, "resolved.conf")`. */
  function ConfPath(baseDir: string): string
  {
    PathJoin(baseDir, ResolvedName)
  }

  /** The address issues of DNS, then of FallbackDNS. */
  function ServerIssues(resolve: map<string, string>, path: string, valid: string -> bool): seq<string>
  {
    AddressIssues(SplitWs(Get(resolve, DnsKey)), path, DnsKey, valid)
      + AddressIssues(SplitWs(Get(resolve, FallbackKey)), path, FallbackKey, valid)
  }

  /** Neither DNS nor FallbackDNS names a server: the resolver is consulted. */
  predicate NoServers(resolve: map<string, string>)
  {
    SplitWs(Get(resolve, DnsKey)) == [] && SplitWs(Get(resolve, FallbackKey)) == []
  }

  /** The issues after the address checks: a failed lookup, when one was made, then the enumerated keys. */
  function LaterIssues(resolve: map<string, string>, path: string, resolved: bool): seq<string>
  {
    (if NoServers(resolve) && !resolved then [path + EmptyDnsText] else []) + ChoicesIssues(resolve, path)
  }

  /** The name lookup made when no server is configured. */
  function LookupEvents(resolve: map<string, string>): seq<Event>
  {
    if NoServers(resolve) then [Event.Lookup(ProbeHost)] else []
  }

  /** Whether the lookup, if one is made after trace `w`, succeeds. */
  function Resolved(env: Env, w: seq<Event>, resolve: map<string, string>): bool
  {
    !NoServers(resolve) || env.resolves(w, ProbeHost)
  }

  /** The checks of a parsed `[Resolve]` section, after trace `w` (which ends with the file inspection). */
  function SectionStep(env: Env, w: seq<Event>, resolve: map<string, string>, path: string, valid: string -> bool)
    : Step<seq<string>>
  {
    Step(ServerIssues(resolve, path, valid) + LaterIssues(resolve, path, Resolved(env, w, resolve)),
         LookupEvents(resolve))
  }

  /** `validate_resolved_conf` after trace `w`: the issues and the interactions. */
  function ResolvedStep(env: Env, w: seq<Event>, baseDir: string, read: ConfRead, valid: string -> bool)
    : Step<seq<string>>
  {
    var path := ConfPath(baseDir);
    var seen := [Event.Inspect(path)];
    if !env.inspect(w, path).present then Step([], seen)
    else match read
      case Unreadable(reason) => Step([path + ParseFailText + reason + ")"], seen)
      case Parsed(None) => Step([path + MissingSectionText], seen)
      case Parsed(Some(resolve)) => After(seen, SectionStep(env, w + seen, resolve, path, valid))
  }

  /**
   * The log of a parsed section's checks after trace `w`: the address issues, stamped
   * there, then the later issues, stamped after the lookup if one was made.
   */
  function SectionLog(env: Env, w: seq<Event>, resolve: map<string, string>, path: string, valid: string -> bool,
                      logging: bool): seq<LogLine>
  {
    FailLines(logging, ServerIssues(resolve, path, valid), |w|)
      + FailLines(logging, LaterIssues(resolve, path, Resolved(env, w, resolve)), |w + LookupEvents(resolve)|)
  }

  /** The log of `validate_resolved_conf` after trace `w`. */
  function ResolvedLog(env: Env, w: seq<Event>, baseDir: string, read: ConfRead, valid: string -> bool, logging: bool)
    : seq<LogLine>
  {
    var path := ConfPath(baseDir);
    var seen := [Event.Inspect(path)];
    if !env.inspect(w, path).present then []
    else match read
      case Unreadable(_) => FailLines(logging, ResolvedStep(env, w, baseDir, read, valid).value, |w| + 1)
      case Parsed(None) => FailLines(logging, ResolvedStep(env, w, baseDir, read, valid).value, |w| + 1)
      case Parsed(Some(resolve)) => SectionLog(env, w + seen, resolve, path, valid, logging)
  }

  /** `validate_resolved_conf`. */
  method ValidateResolvedConf(h: Host, baseDir: string, read: ConfRead, valid: string -> bool, logging: bool)
    returns (issues: seq<string>)
    modifies h
    ensures var s := ResolvedStep(h.env, old(h.trace), baseDir, read, valid);
      issues == s.value && h.trace == old(h.trace) + s.trace
    ensures h.log == old(h.log) + ResolvedLog(h.env, old(h.trace), baseDir, read, valid, logging)
  {
    ghost var w := h.trace;
    var path := PathJoin(baseDir, ResolvedName);
    var info := h.Inspect(path);
    if !info.present {
      return [];
    }
    match read
    case Unreadable(reason) =>
      var issue := path + ParseFailText + reason + ")";
      LogFail(h, issue, logging);
      issues := [issue];
    case Parsed(None) =>
      var issue := path + MissingSectionText;
      LogFail(h, issue, logging);
      issues := [issue];
    case Parsed(Some(resolve)) =>
      issues := CheckSection(h, resolve, path, valid, logging);
      AppendAssoc(w, [Event.Inspect(path)], SectionStep(h.env, w + [Event.Inspect(path)], resolve, path, valid).trace);
  }

  /** The checks of a parsed `[Resolve]` section. */
  method CheckSection(h: Host, resolve: map<string, string>, path: string, valid: string -> bool, logging: bool)
    returns (issues: seq<string>)
    modifies h
    ensures var s := SectionStep(h.env, old(h.trace), resolve, path, valid);
      issues == s.value && h.trace == old(h.trace) + s.trace
    ensures h.log == old(h.log) + SectionLog(h.env, old(h.trace), resolve, path, valid, logging)
  {
    ghost var log0 := h.log;
    var servers := CheckServers(h, resolve, path, valid, logging);
    ghost var log1 := h.log;
    var later := CheckLater(h, resolve, path, logging);
    assert h.log == log1 + FailLines(logging, later, |h.trace|);
    AppendAssoc(log0, FailLines(logging, servers, |old(h.trace)|), FailLines(logging, later, |h.trace|));
    issues := servers + later;
  }

  /** The address checks of DNS and then FallbackDNS, each logged. */
  method CheckServers(h: Host, resolve: map<string, string>, path: string, valid: string -> bool, logging: bool)
    returns (issues: seq<string>)
    modifies h
    ensures issues == ServerIssues(resolve, path, valid)
    ensures h.trace == old(h.trace) && h.log == old(h.log) + FailLines(logging, issues, |h.trace|)
  {
    ghost var log0 := h.log;
    var dnsIssues := ValidateIpList(h, Get(resolve, DnsKey), path, DnsKey, valid, logging);
    ghost var log1 := h.log;
    var fallbackIssues := ValidateIpList(h, Get(resolve, FallbackKey), path, FallbackKey, valid, logging);
    LogExtend(log0, log1, h.log, logging, dnsIssues, fallbackIssues, |h.trace|);
    issues := dnsIssues + fallbackIssues;
  }

  /** The lookup when no server is configured, then the enumerated keys, each issue logged. */
  method CheckLater(h: Host, resolve: map<string, string>, path: string, logging: bool)
    returns (issues: seq<string>)
    modifies h
    ensures issues == LaterIssues(resolve, path, Resolved(h.env, old(h.trace), resolve))
    ensures h.trace == old(h.trace) + LookupEvents(resolve)
    ensures h.log == old(h.log) + FailLines(logging, issues, |h.trace|)
  {
    ghost var log0 := h.log;
    var lookup: seq<string> := [];
    if SplitWs(Get(resolve, DnsKey)) == [] && SplitWs(Get(resolve, FallbackKey)) == [] {
      var resolved := h.Lookup(ProbeHost);
      if !resolved {
        var issue := path + EmptyDnsText;
        LogFail(h, issue, logging);
        lookup := [issue];
      }
    }
    assert h.log == log0 + FailLines(logging, lookup, |h.trace|);
    ghost var log1 := h.log;
    var choices := CheckChoices(h, resolve, path, logging);
    LogExtend(log0, log1, h.log, logging, lookup, choices, |h.trace|);
    issues := lookup + choices;
  }

  /** Two logged runs of issues at the same stamp make one. */
  lemma LogExtend(l0: seq<LogLine>, l1: seq<LogLine>, l2: seq<LogLine>, logging: bool, a: seq<string>,
                  b: seq<string>, at: nat)
    requires l1 == l0 + FailLines(logging, a, at)
    requires l2 == l1 + FailLines(logging, b, at)
    ensures l2 == l0 + FailLines(logging, a + b, at)
  {
    FailLinesAppend(logging, a, b, at);
    AppendAssoc(l0, FailLines(logging, a, at), FailLines(logging, b, at));
  }

  /** The six enumerated-key checks of `validate_resolved_conf`, in order, each logged. */
  method CheckChoices(h: Host, resolve: map<string, string>, path: string, logging: bool) returns (issues: seq<string>)
    modifies h
    ensures issues == ChoicesIssues(resolve, path)
    ensures h.trace == old(h.trace) && h.log == old(h.log) + FailLines(logging, issues, |h.trace|)
  {
    ghost var l0 := h.log;
    var at := |h.trace|;
    issues := CheckKey(h, resolve, path, Dnssec, logging);
    ghost var l1 := h.log;
    var b := CheckKey(h, resolve, path, DnsOverTls, logging);
    LogExtend(l0, l1, h.log, logging, issues, b, at);
    issues := issues + b;
    l1 := h.log;
    var c := CheckKey(h, resolve, path, Llmnr, logging);
    LogExtend(l0, l1, h.log, logging, issues, c, at);
    issues := issues + c;
    l1 := h.log;
    var d := CheckKey(h, resolve, path, MulticastDns, logging);
    LogExtend(l0, l1, h.log, logging, issues, d, at);
    issues := issues + d;
    l1 := h.log;
    var e := CheckKey(h, resolve, path, StubListener, logging);
    LogExtend(l0, l1, h.log, logging, issues, e, at);
    issues := issues + e;
    l1 := h.log;
    var f := CheckKey(h, resolve, path, ReadEtcHosts, logging);
    LogExtend(l0, l1, h.log, logging, issues, f, at);
    issues := issues + f;
  }

  // ---------------------------------------------------------------------------
  // What the resolved.conf lint promises

  /** Every issue begins with the file's path and a colon. */
  predicate NamesPath(issues: seq<string>, path: string)
  {
    forall i :: 0 <= i < |issues| ==> StartsWith(issues[i], path + ": ")
  }

  lemma StartsWithShorter(s: string, p: string, q: string)
    requires StartsWith(s, p + q)
    ensures StartsWith(s, p)
  {
    assert s[..|p|] == s[..|p + q|][..|p|];
  }

  lemma StartsWithConcat(p: string, q: string)
    ensures StartsWith(p + q, p)
  {
    assert (p + q)[..|p|] == p;
  }

  lemma ConcatAfterPath(path: string, text: string, rest: string)
    requires StartsWith(text, ": ")
    ensures StartsWith(path + text + rest, path + ": ")
  {
    var p := path + ": ";
    assert text == ": " + text[2..];
    assert path + text + rest == p + (text[2..] + rest);
    StartsWithConcat(p, text[2..] + rest);
  }

  lemma EmptyDnsTextStart()
    ensures StartsWith(EmptyDnsText, ": ")
  {
    StartsWithConcat(": ", "DNS and FallbackDNS are empty and failed to resolve " + ProbeHost);
  }

  lemma NamesPathAppend(a: seq<string>, b: seq<string>, path: string)
    requires NamesPath(a, path) && NamesPath(b, path)
    ensures NamesPath(a + b, path)
  {
    forall i | 0 <= i < |a + b| ensures StartsWith((a + b)[i], path + ": ") {
      if i >= |a| {
        assert (a + b)[i] == b[i - |a|];
      }
    }
  }

  lemma {:induction false} AddressIssuesNamePath(tokens: seq<string>, path: string, key: string, valid: string -> bool)
    ensures NamesPath(AddressIssues(tokens, path, key, valid), path)
    decreases |tokens|
  {
    if tokens != [] {
      var t := tokens[0];
      var issue := AddressIssue(path, key, t);
      ConcatAfterPath(path, ": " + key + " has invalid address '" + t, "'");
      assert issue == path + (": " + key + " has invalid address '" + t) + "'";
      AddressIssuesNamePath(tokens[1..], path, key, valid);
      NamesPathAppend(if valid(t) then [] else [issue], AddressIssues(tokens[1..], path, key, valid), path);
    }
  }

  lemma KeyIssuesNamePath(resolve: map<string, string>, path: string, c: Choice)
    ensures NamesPath(KeyIssues(resolve, path, c), path)
  {
    var r := KeyIssues(resolve, path, c);
    if r != [] {
      var p := path + ": ";
      StartsWithShorter(r[0], p + c.key + " should be one of ", ListRepr(c.order));
      StartsWithShorter(r[0], p + c.key, " should be one of ");
      StartsWithShorter(r[0], p, c.key);
    }
  }

  lemma ChoicesNamePath(resolve: map<string, string>, path: string)
    ensures NamesPath(ChoicesIssues(resolve, path), path)
  {
    var a := KeyIssues(resolve, path, Dnssec);
    var b := KeyIssues(resolve, path, DnsOverTls);
    var c := KeyIssues(resolve, path, Llmnr);
    var d := KeyIssues(resolve, path, MulticastDns);
    var e := KeyIssues(resolve, path, StubListener);
    var f := KeyIssues(resolve, path, ReadEtcHosts);
    KeyIssuesNamePath(resolve, path, Dnssec);
    KeyIssuesNamePath(resolve, path, DnsOverTls);
    KeyIssuesNamePath(resolve, path, Llmnr);
    KeyIssuesNamePath(resolve, path, MulticastDns);
    KeyIssuesNamePath(resolve, path, StubListener);
    KeyIssuesNamePath(resolve, path, ReadEtcHosts);
    NamesPathAppend(a, b, path);
    NamesPathAppend(a + b, c, path);
    NamesPathAppend(a + b + c, d, path);
    NamesPathAppend(a + b + c + d, e, path);
    NamesPathAppend(a + b + c + d + e, f, path);
  }

  lemma SectionNamesPath(env: Env, w: seq<Event>, resolve: map<string, string>, path: string, valid: string -> bool)
    ensures NamesPath(SectionStep(env, w, resolve, path, valid).value, path)
  {
    AddressIssuesNamePath(SplitWs(Get(resolve, DnsKey)), path, DnsKey, valid);
    AddressIssuesNamePath(SplitWs(Get(resolve, FallbackKey)), path, FallbackKey, valid);
    NamesPathAppend(AddressIssues(SplitWs(Get(resolve, DnsKey)), path, DnsKey, valid),
                    AddressIssues(SplitWs(Get(resolve, FallbackKey)), path, FallbackKey, valid), path);
    var lookup := if NoServers(resolve) && !Resolved(env, w, resolve) then [path + EmptyDnsText] else [];
    if lookup != [] {
      EmptyDnsTextStart();
      ConcatAfterPath(path, EmptyDnsText, "");
      assert path + EmptyDnsText + "" == path + EmptyDnsText;
    }
    ChoicesNamePath(resolve, path);
    NamesPathAppend(lookup, ChoicesIssues(resolve, path), path);
    NamesPathAppend(ServerIssues(resolve, path, valid), LaterIssues(resolve, path, Resolved(env, w, resolve)), path);
  }

  /**
   * Every issue names the file; a file that is missing gives none, and one that cannot be
   * parsed or has no `[Resolve]` section gives exactly one, with no name lookup.
   */
  lemma ResolvedIssuesNamePath(env: Env, w: seq<Event>, baseDir: string, read: ConfRead, valid: string -> bool)
    ensures var s := ResolvedStep(env, w, baseDir, read, valid);
      NamesPath(s.value, ConfPath(baseDir))
      && (!env.inspect(w, ConfPath(baseDir)).present ==> s.value == [])
      && (env.inspect(w, ConfPath(baseDir)).present && !(read.Parsed? && read.resolve.Some?) ==>
            |s.value| == 1 && s.trace == [Event.Inspect(ConfPath(baseDir))])
  {
    var path := ConfPath(baseDir);
    if env.inspect(w, path).present {
      match read
      case Unreadable(reason) =>
        assert ParseFailText[..2] == ": ";
        ConcatAfterPath(path, ParseFailText, reason + ")");
        assert path + ParseFailText + (reason + ")") == path + ParseFailText + reason + ")";
      case Parsed(None) =>
        assert MissingSectionText[..2] == ": ";
        ConcatAfterPath(path, MissingSectionText, "");
        assert path + MissingSectionText + "" == path + MissingSectionText;
      case Parsed(Some(resolve)) =>
        SectionNamesPath(env, w + [Event.Inspect(path)], resolve, path, valid);
    }
  }

  /** A rejected-address list is empty exactly when every token is an address. */
  lemma AddressIssuesEmpty(tokens: seq<string>, path: string, key: string, valid: string -> bool)
    ensures AddressIssues(tokens, path, key, valid) == [] <==> forall k :: 0 <= k < |tokens| ==> valid(tokens[k])
  {
    AddressIssuesExact(tokens, path, key, valid);
    var r := AddressIssues(tokens, path, key, valid);
    if r != [] {
      var k :| 0 <= k < |tokens| && !valid(tokens[k]) && r[0] == AddressIssue(path, key, tokens[k]);
    }
  }

  /** Every token of a list is an address. */
  predicate AllValid(values: string, valid: string -> bool)
  {
    forall k :: 0 <= k < |SplitWs(values)| ==> valid(SplitWs(values)[k])
  }

  /**
   * A present, parsed `[Resolve]` section gives no issue exactly when both server lists hold
   * only addresses, the resolver answers when it is consulted, and every enumerated key is
   * empty or allowed.
   */
  lemma SectionCleanIff(env: Env, w: seq<Event>, resolve: map<string, string>, path: string, valid: string -> bool)
    ensures SectionStep(env, w, resolve, path, valid).value == [] <==>
      AllValid(Get(resolve, DnsKey), valid) && AllValid(Get(resolve, FallbackKey), valid)
      && Resolved(env, w, resolve)
      && KeyOk(resolve, Dnssec) && KeyOk(resolve, DnsOverTls) && KeyOk(resolve, Llmnr)
      && KeyOk(resolve, MulticastDns) && KeyOk(resolve, StubListener) && KeyOk(resolve, ReadEtcHosts)
  {
    AddressIssuesEmpty(SplitWs(Get(resolve, DnsKey)), path, DnsKey, valid);
    AddressIssuesEmpty(SplitWs(Get(resolve, FallbackKey)), path, FallbackKey, valid);
    ChoicesClean(resolve, path);
  }

  /**
   * A name lookup happens exactly when the file is present, parsed, with a `[Resolve]` section
   * naming no server; then a failed lookup is reported first, before the enumerated keys.
   */
  lemma ResolvedLookup(env: Env, w: seq<Event>, baseDir: string, read: ConfRead, valid: string -> bool)
    ensures var s := ResolvedStep(env, w, baseDir, read, valid);
      var path := ConfPath(baseDir);
      (Event.Lookup(ProbeHost) in s.trace <==>
        env.inspect(w, path).present && read.Parsed? && read.resolve.Some? && NoServers(read.resolve.value))
      && (env.inspect(w, path).present && read.Parsed? && read.resolve.Some? && NoServers(read.resolve.value) ==>
        s.value == (if env.resolves(w + [Event.Inspect(path)], ProbeHost) then [] else [path + EmptyDnsText])
          + ChoicesIssues(read.resolve.value, path))
  {
    var path := ConfPath(baseDir);
    var s := ResolvedStep(env, w, baseDir, read, valid);
    if env.inspect(w, path).present && read.Parsed? && read.resolve.Some? {
      var resolve := read.resolve.value;
      assert s.trace == [Event.Inspect(path)] + LookupEvents(resolve);
      if NoServers(resolve) {
        assert ServerIssues(resolve, path, valid) == [];
        assert s.trace[1] == Event.Lookup(ProbeHost);
      }
    }
  }

  /** With a logger, each issue is logged once, in order, as "[FAIL] issue"; without one, nothing is. */
  lemma ResolvedLogMessages(env: Env, w: seq<Event>, baseDir: string, read: ConfRead, valid: string -> bool)
    ensures ResolvedLog(env, w, baseDir, read, valid, false) == []
    ensures var issues := ResolvedStep(env, w, baseDir, read, valid).value;
      var ms := Messages(ResolvedLog(env, w, baseDir, read, valid, true));
      |ms| == |issues| && forall i :: 0 <= i < |issues| ==> ms[i] == FailPrefix + issues[i]
  {
    var path := ConfPath(baseDir);
    if env.inspect(w, path).present {
      match read
      case Unreadable(_) =>
        FailMessages(ResolvedStep(env, w, baseDir, read, valid).value, |w| + 1);
      case Parsed(None) =>
        FailMessages(ResolvedStep(env, w, baseDir, read, valid).value, |w| + 1);
      case Parsed(Some(resolve)) =>
        var w1 := w + [Event.Inspect(path)];
        var a := ServerIssues(resolve, path, valid);
        var b := LaterIssues(resolve, path, Resolved(env, w1, resolve));
        TwoRunsMessages(a, b, |w1|, |w1 + LookupEvents(resolve)|);
    }
  }

  /** Two logged runs read as one: their messages are those of the issues, in order. */
  lemma TwoRunsMessages(a: seq<string>, b: seq<string>, at1: nat, at2: nat)
    ensures var ms := Messages(FailLines(true, a, at1) + FailLines(true, b, at2));
      |ms| == |a + b| && forall i :: 0 <= i < |a + b| ==> ms[i] == FailPrefix + (a + b)[i]
  {
    MessagesAppend(FailLines(true, a, at1), FailLines(true, b, at2));
    FailMessages(a, at1);
    FailMessages(b, at2);
    var ms := Messages(FailLines(true, a, at1) + FailLines(true, b, at2));
    var ma := Messages(FailLines(true, a, at1));
    var mb := Messages(FailLines(true, b, at2));
    assert ms == ma + mb;
    forall i | 0 <= i < |a + b| ensures ms[i] == FailPrefix + (a + b)[i] {
      if i < |a| {
        assert ms[i] == ma[i];
      } else {
        assert ms[i] == mb[i - |a|];
        assert (a + b)[i] == b[i - |a|];
      }
    }
  }

  /** Each enumerated key's issue shows `repr(sorted(allowed))`. */
  lemma AllOrdersSorted()
    ensures OrderSorted(Dnssec) && OrderSorted(DnsOverTls) && OrderSorted(Llmnr)
    ensures OrderSorted(MulticastDns) && OrderSorted(StubListener) && OrderSorted(ReadEtcHosts)
  {
    DnssecSorted();
    DnsOverTlsSorted();
    LlmnrSorted();
    MulticastDnsSorted();
    StubListenerSorted();
    ReadEtcHostsSorted();
  }

  // ---------------------------------------------------------------------------
  // Tools and unit files

  const SystemctlBin := "systemctl"
  const AnalyzeBin := "systemd-analyze"

  /** `systemd_tools_available` after trace `w`: `systemd-analyze` is looked up only when `systemctl` was found. */
  function ToolsStep(env: Env, w: seq<Event>): Step<bool>
  {
    var first := [Event.Which(SystemctlBin)];
    if !env.installed(w, SystemctlBin) then Step(false, first)
    else Step(env.installed(w + first, AnalyzeBin), first + [Event.Which(AnalyzeBin)])
  }

  /** The tools are available exactly when both lookups succeed; `systemd-analyze` is looked up only after `systemctl` is found. */
  lemma ToolsStepMeans(env: Env, w: seq<Event>)
    ensures var s := ToolsStep(env, w);
      (s.value <==> env.installed(w, SystemctlBin) && env.installed(w + [Event.Which(SystemctlBin)], AnalyzeBin))
      && (Event.Which(AnalyzeBin) in s.trace <==> env.installed(w, SystemctlBin))
      && Commands(s.trace) == []
  {
    var s := ToolsStep(env, w);
    if env.installed(w, SystemctlBin) {
      assert s.trace[1] == Event.Which(AnalyzeBin);
      assert Commands(s.trace) == Commands(s.trace[1..]);
    } else {
      assert SystemctlBin != AnalyzeBin by { assert |SystemctlBin| != |AnalyzeBin|; }
    }
  }

  /** `systemd_tools_available`. */
  method ToolsAvailable(h: Host) returns (available: bool)
    modifies h
    ensures var s := ToolsStep(h.env, old(h.trace));
      available == s.value && h.trace == old(h.trace) + s.trace && h.log == old(h.log)
  {
    available := h.Which(SystemctlBin);
    if available {
      available := h.Which(AnalyzeBin);
    }
  }

  /** The file-name endings of unit-like files. */
  const UnitExtensions: seq<string> :=
    [".service", ".socket", ".target", ".path", ".timer", ".mount", ".automount", ".slice", ".scope",
     ".link", ".network"]

  /** `name.endswith(suffixes)` for a tuple of suffixes. */
  predicate EndsWithAny(name: string, suffixes: seq<string>)
  {
    suffixes != [] && (EndsWith(name, suffixes[0]) || EndsWithAny(name, suffixes[1..]))
  }

  lemma {:induction false} EndsWithAnyMeans(name: string, suffixes: seq<string>)
    ensures EndsWithAny(name, suffixes) <==> exists i :: 0 <= i < |suffixes| && EndsWith(name, suffixes[i])
  {
    if suffixes != [] {
      EndsWithAnyMeans(name, suffixes[1..]);
      if exists i :: 0 <= i < |suffixes| && EndsWith(name, suffixes[i]) {
        var i :| 0 <= i < |suffixes| && EndsWith(name, suffixes[i]);
        if i > 0 {
          assert suffixes[1..][i - 1] == suffixes[i];
        }
      }
      if EndsWithAny(name, suffixes[1..]) {
        var i :| 0 <= i < |suffixes[1..]| && EndsWith(name, suffixes[1..][i]);
        assert suffixes[i + 1] == suffixes[1..][i];
      }
    }
  }

  /** One directory `os.walk` visits: its path and the names of the files in it. */
  datatype WalkDir = WalkDir(root: string, files: seq<string>)

  /** The files of one directory whose names end with one of `exts`, joined to its path, in listing order. */
  function DirMatches(root: string, names: seq<string>, exts: seq<string>): (r: seq<string>)
    ensures |r| <= |names|
  {
    if names == [] then []
    else
      DirMatches(root, names[..|names| - 1], exts)
        + (if EndsWithAny(names[|names| - 1], exts) then [PathJoin(root, names[|names| - 1])] else [])
  }

  /** The files of a walk whose names end with one of `exts`, in walk order. */
  function WalkMatches(dirs: seq<WalkDir>, exts: seq<string>): seq<string>
  {
    if dirs == [] then []
    else WalkMatches(dirs[..|dirs| - 1], exts) + DirMatches(dirs[|dirs| - 1].root, dirs[|dirs| - 1].files, exts)
  }

  /**
   * `find_systemd_unit_files`: `walk` is what `os.walk(base_dir)` yields, or `None` when
   * `base_dir` is not a directory; the matches come back sorted.
   */
  function UnitFiles(walk: Option<seq<WalkDir>>): seq<string>
  {
    if walk.None? then [] else SortStrings(WalkMatches(walk.value, UnitExtensions))
  }

  /** The `j`-th of `names` has one of the endings `exts` and joins `root` to path `p`. */
  predicate JoinsAt(root: string, names: seq<string>, exts: seq<string>, j: int, p: string)
  {
    0 <= j < |names| && EndsWithAny(names[j], exts) && p == PathJoin(root, names[j])
  }

  /** A path is matched exactly when some visited file with a unit extension joins to it. */
  ghost predicate Matched(dirs: seq<WalkDir>, exts: seq<string>, p: string)
  {
    exists i, j :: 0 <= i < |dirs| && JoinsAt(dirs[i].root, dirs[i].files, exts, j, p)
  }

  /** A path is matched in one directory exactly when some file there with a unit extension joins to it. */
  ghost predicate DirMatched(root: string, names: seq<string>, exts: seq<string>, p: string)
  {
    exists j :: JoinsAt(root, names, exts, j, p)
  }

  lemma {:induction false} DirMatchesMembers(root: string, names: seq<string>, exts: seq<string>, p: string)
    ensures p in DirMatches(root, names, exts) <==> DirMatched(root, names, exts, p)
  {
    if p in DirMatches(root, names, exts) {
      DirMatchesSound(root, names, exts, p);
    }
    if DirMatched(root, names, exts, p) {
      var j :| JoinsAt(root, names, exts, j, p);
      DirMatchesComplete(root, names, exts, j);
    }
  }

  /** Every path a directory yields joins a unit-like name of it to the directory. */
  lemma {:induction false} DirMatchesSound(root: string, names: seq<string>, exts: seq<string>, p: string)
    requires p in DirMatches(root, names, exts)
    ensures DirMatched(root, names, exts, p)
    decreases |names|
  {
    var k := |names| - 1;
    var init := names[..k];
    if p in DirMatches(root, init, exts) {
      DirMatchesSound(root, init, exts, p);
      var j :| JoinsAt(root, init, exts, j, p);
      assert names[j] == init[j];
      assert JoinsAt(root, names, exts, j, p);
    } else {
      assert JoinsAt(root, names, exts, k, p);
    }
  }

  /** Every unit-like name of a directory, joined to it, is yielded. */
  lemma {:induction false} DirMatchesComplete(root: string, names: seq<string>, exts: seq<string>, j: nat)
    requires j < |names| && EndsWithAny(names[j], exts)
    ensures PathJoin(root, names[j]) in DirMatches(root, names, exts)
    decreases |names|
  {
    var k := |names| - 1;
    var init := names[..k];
    if j < k {
      assert init[j] == names[j];
      DirMatchesComplete(root, init, exts, j);
    }
  }

  lemma {:induction false} WalkMatchesMembers(dirs: seq<WalkDir>, exts: seq<string>, p: string)
    ensures p in WalkMatches(dirs, exts) <==> Matched(dirs, exts, p)
  {
    if p in WalkMatches(dirs, exts) {
      WalkMatchesSound(dirs, exts, p);
    }
    if Matched(dirs, exts, p) {
      var i, j :| 0 <= i < |dirs| && JoinsAt(dirs[i].root, dirs[i].files, exts, j, p);
      DirMatchesComplete(dirs[i].root, dirs[i].files, exts, j);
      WalkMatchesComplete(dirs, exts, i, p);
    }
  }

  /** Every path a walk yields is yielded by one of its directories. */
  lemma {:induction false} WalkMatchesSound(dirs: seq<WalkDir>, exts: seq<string>, p: string)
    requires p in WalkMatches(dirs, exts)
    ensures Matched(dirs, exts, p)
    decreases |dirs|
  {
    var k := |dirs| - 1;
    var init := dirs[..k];
    var here := DirMatches(dirs[k].root, dirs[k].files, exts);
    assert WalkMatches(dirs, exts) == WalkMatches(init, exts) + here;
    if p in WalkMatches(init, exts) {
      WalkMatchesSound(init, exts, p);
      var i, j :| 0 <= i < |init| && JoinsAt(init[i].root, init[i].files, exts, j, p);
      assert init[i] == dirs[i];
      assert JoinsAt(dirs[i].root, dirs[i].files, exts, j, p);
    } else {
      assert p in here;
      DirMatchesSound(dirs[k].root, dirs[k].files, exts, p);
      var j :| JoinsAt(dirs[k].root, dirs[k].files, exts, j, p);
    }
  }

  /** Every path some directory of a walk yields is yielded by the walk. */
  lemma {:induction false} WalkMatchesComplete(dirs: seq<WalkDir>, exts: seq<string>, i: nat, p: string)
    requires i < |dirs| && p in DirMatches(dirs[i].root, dirs[i].files, exts)
    ensures p in WalkMatches(dirs, exts)
    decreases |dirs|
  {
    var k := |dirs| - 1;
    var init := dirs[..k];
    if i < k {
      assert init[i] == dirs[i];
      WalkMatchesComplete(init, exts, i, p);
    }
  }

  /**
   * The unit files are sorted, a permutation of the matches, and hold exactly the joined
   * paths of the visited files with a unit extension; a path that is not a directory has none.
   */
  lemma UnitFilesProps(walk: Option<seq<WalkDir>>)
    ensures walk.None? ==> UnitFiles(walk) == []
    ensures walk.Some? ==>
      SortedStrings(UnitFiles(walk)) && multiset(UnitFiles(walk)) == multiset(WalkMatches(walk.value, UnitExtensions))
      && forall p :: p in UnitFiles(walk) <==> Matched(walk.value, UnitExtensions, p)
  {
    if walk.Some? {
      var r := UnitFiles(walk);
      SortStringsProps(WalkMatches(walk.value, UnitExtensions));
      forall p ensures p in r <==> Matched(walk.value, UnitExtensions, p) {
        WalkMatchesMembers(walk.value, UnitExtensions, p);
        assert p in r <==> p in multiset(r);
        assert p in WalkMatches(walk.value, UnitExtensions) <==> p in multiset(WalkMatches(walk.value, UnitExtensions));
      }
    }
  }

  /** `find_systemd_unit_files`: the two nested loops of `os.walk`, then `sorted`. */
  method FindUnitFiles(walk: Option<seq<WalkDir>>) returns (files: seq<string>)
    ensures files == UnitFiles(walk)
  {
    if walk.None? {
      return [];
    }
    var matches := CollectMatches(walk.value, UnitExtensions);
    files := SortStrings(matches);
  }

  /** The walk loop of `find_systemd_unit_files`: every visited file ending with one of `exts`, in walk order. */
  method CollectMatches(dirs: seq<WalkDir>, exts: seq<string>) returns (matches: seq<string>)
    ensures matches == WalkMatches(dirs, exts)
  {
    matches := [];
    for i := 0 to |dirs|
      invariant matches == WalkMatches(dirs[..i], exts)
    {
      var d := dirs[i];
      ghost var before := matches;
      for j := 0 to |d.files|
        invariant matches == before + DirMatches(d.root, d.files[..j], exts)
      {
        var name := d.files[j];
        assert d.files[..j + 1][..j] == d.files[..j];
        if EndsWithAny(name, exts) {
          matches := matches + [PathJoin(d.root, name)];
        }
      }
      assert d.files[..|d.files|] == d.files;
      assert dirs[..i + 1][..i] == dirs[..i];
    }
    assert dirs[..|dirs|] == dirs;
  }

  // ---------------------------------------------------------------------------
  // Verifying the unit files

  /** The seconds each `systemd-analyze verify` may take. */
  const VerifyTimeout: nat := 15
  const OkPrefix := "[OK] "

  /** The command verifying one file. */
  function VerifyCmd(path: string): seq<string>
  {
    [AnalyzeBin, "verify", path]
  }

  /** One file and what verifying it produced. */
  datatype FileValidation = FileValidation(path: string, result: CommandResult)

  /** The verifications of `files`, one command each, in order, after trace `w`. */
  function VerifyStep(env: Env, w: seq<Event>, files: seq<string>): (s: Step<seq<FileValidation>>)
    ensures |s.value| == |files| && |s.trace| == |files|
    decreases |files|
  {
    if files == [] then Step([], [])
    else
      var e := Event.Exec(VerifyCmd(files[0]), VerifyTimeout);
      var rest := VerifyStep(env, w + [e], files[1..]);
      Step([FileValidation(files[0], Answer(env, w, VerifyCmd(files[0]), VerifyTimeout))] + rest.value,
           [e] + rest.trace)
  }

  /** Why a verification failed: its stripped error output, else its stripped output, else its exit status. */
  function FailDetail(r: CommandResult): (d: string)
    ensures d != []
  {
    if Trim(r.stderr) != [] then Trim(r.stderr)
    else if Trim(r.stdout) != [] then Trim(r.stdout)
    else "rc=" + IntToString(r.returncode)
  }

  /** The log message for one verified file. */
  function VerifyMessage(path: string, r: CommandResult): string
  {
    if r.returncode == 0 then OkPrefix + path else FailPrefix + path + ": " + FailDetail(r)
  }

  /** The log of the verifications after trace `w`: one line per file, written after its command. */
  function VerifyLog(env: Env, w: seq<Event>, files: seq<string>, logging: bool): (r: seq<LogLine>)
    ensures |r| == if logging then |files| else 0
    decreases |files|
  {
    if files == [] || !logging then []
    else
      var e := Event.Exec(VerifyCmd(files[0]), VerifyTimeout);
      [Info(VerifyMessage(files[0], Answer(env, w, VerifyCmd(files[0]), VerifyTimeout)), |w| + 1)]
        + VerifyLog(env, w + [e], files[1..], logging)
  }

  /**
   * Each file is verified once, in order, with `systemd-analyze verify` and a 15-second
   * limit, and its validation holds that file and that command's result.
   */
  lemma {:induction false} VerifyStepMeans(env: Env, w: seq<Event>, files: seq<string>)
    ensures var s := VerifyStep(env, w, files);
      (forall i :: 0 <= i < |files| ==>
        s.trace[i] == Event.Exec(VerifyCmd(files[i]), VerifyTimeout)
        && s.value[i] == FileValidation(files[i], Answer(env, w + s.trace[..i], VerifyCmd(files[i]), VerifyTimeout)))
    decreases |files|
  {
    if files != [] {
      var s := VerifyStep(env, w, files);
      var e := Event.Exec(VerifyCmd(files[0]), VerifyTimeout);
      var rest := VerifyStep(env, w + [e], files[1..]);
      VerifyStepMeans(env, w + [e], files[1..]);
      assert s.trace[..0] == [] && w + [] == w;
      forall i | 0 < i < |files|
        ensures s.trace[i] == Event.Exec(VerifyCmd(files[i]), VerifyTimeout)
          && s.value[i] == FileValidation(files[i], Answer(env, w + s.trace[..i], VerifyCmd(files[i]), VerifyTimeout))
      {
        VerifyStepShift(env, w, files, i);
      }
    }
  }

  /** Past the first file, the verifications are those of the rest after the first command. */
  lemma VerifyStepShift(env: Env, w: seq<Event>, files: seq<string>, i: nat)
    requires 0 < i < |files|
    ensures var s := VerifyStep(env, w, files);
      var e := Event.Exec(VerifyCmd(files[0]), VerifyTimeout);
      var rest := VerifyStep(env, w + [e], files[1..]);
      s.trace[i] == rest.trace[i - 1] && s.value[i] == rest.value[i - 1] && files[i] == files[1..][i - 1]
      && w + s.trace[..i] == (w + [e]) + rest.trace[..i - 1]
  {
    var s := VerifyStep(env, w, files);
    var e := Event.Exec(VerifyCmd(files[0]), VerifyTimeout);
    var rest := VerifyStep(env, w + [e], files[1..]);
    assert s.trace[..i] == [e] + rest.trace[..i - 1];
  }

  lemma VerifyStepAt(env: Env, w: seq<Event>, files: seq<string>, i: nat)
    requires i < |files|
    ensures var e := Event.Exec(VerifyCmd(files[i]), VerifyTimeout);
      var rest := VerifyStep(env, w + [e], files[i + 1..]);
      VerifyStep(env, w, files[i..])
        == Step([FileValidation(files[i], Answer(env, w, VerifyCmd(files[i]), VerifyTimeout))] + rest.value, [e] + rest.trace)
      && VerifyLog(env, w, files[i..], true)
        == [Info(VerifyMessage(files[i], Answer(env, w, VerifyCmd(files[i]), VerifyTimeout)), |w| + 1)]
          + VerifyLog(env, w + [e], files[i + 1..], true)
  {
    assert files[i..][1..] == files[i + 1..];
  }

  /** The loop of `validate_systemd_tree` over the unit files, logging each result. */
  method VerifyFiles(h: Host, files: seq<string>, logging: bool) returns (results: seq<FileValidation>)
    modifies h
    ensures var s := VerifyStep(h.env, old(h.trace), files);
      results == s.value && h.trace == old(h.trace) + s.trace
    ensures h.log == old(h.log) + VerifyLog(h.env, old(h.trace), files, logging)
  {
    ghost var w := h.trace;
    ghost var full := VerifyStep(h.env, w, files);
    ghost var fullLog := VerifyLog(h.env, w, files, logging);
    ghost var done: seq<Event> := [];
    ghost var logged: seq<LogLine> := [];
    results := [];
    for i := 0 to |files|
      invariant h.trace == w + done && h.log == old(h.log) + logged
      invariant full.value == results + VerifyStep(h.env, h.trace, files[i..]).value
      invariant full.trace == done + VerifyStep(h.env, h.trace, files[i..]).trace
      invariant fullLog == logged + VerifyLog(h.env, h.trace, files[i..], logging)
    {
      ghost var w1 := h.trace;
      ghost var e := Event.Exec(VerifyCmd(files[i]), VerifyTimeout);
      VerifyStepAt(h.env, w1, files, i);
      ghost var rest := VerifyStep(h.env, w1 + [e], files[i + 1..]);
      ghost var restLog := VerifyLog(h.env, w1 + [e], files[i + 1..], logging);
      var result := h.Run(VerifyCmd(files[i]), VerifyTimeout);
      var v := FileValidation(files[i], result);
      AppendAssoc(results, [v], rest.value);
      AppendAssoc(done, [e], rest.trace);
      results := results + [v];
      done := done + [e];
      if logging {
        var line := Info(VerifyMessage(files[i], result), |w1| + 1);
        AppendAssoc(logged, [line], restLog);
        h.Log(VerifyMessage(files[i], result));
        logged := logged + [line];
      }
    }
    assert files[|files|..] == [];
  }

  // ---------------------------------------------------------------------------
  // The whole tree

  /** The tree `validate_systemd_tree` checks by default. */
  const DefaultBaseDir := "/etc/systemd"
  const NoToolsText := "systemctl/systemd-analyze not available; skipping systemd validation."

  function NoUnitsText(baseDir: string): string
  {
    "No systemd unit files found under " + baseDir + "; nothing to validate."
  }

  function ValidatingText(n: nat, baseDir: string): string
  {
    "Validating " + NatToString(n) + " systemd files under " + baseDir + "..."
  }

  /** What checking a tree found. */
  datatype Report = Report(available: bool, unitFiles: seq<string>, validations: seq<FileValidation>,
                           configIssues: seq<string>)

  /** One log line at trace length `at`, when a logger is given. */
  function Notice(logging: bool, message: string, at: nat): seq<LogLine>
  {
    if logging then [Info(message, at)] else []
  }

  /** The part of `validate_systemd_tree` after the lint and the tool lookups, after trace `w`. */
  function ReportStep(env: Env, w: seq<Event>, available: bool, files: seq<string>, issues: seq<string>)
    : Step<Report>
  {
    if !available then Step(Report(false, files, [], issues), [])
    else if files == [] then Step(Report(true, [], [], issues), [])
    else
      var v := VerifyStep(env, w, files);
      Step(Report(true, files, v.value, issues), v.trace)
  }

  /** The log of that part. */
  function ReportLog(env: Env, w: seq<Event>, baseDir: string, available: bool, files: seq<string>, logging: bool)
    : seq<LogLine>
  {
    if !available then Notice(logging, NoToolsText, |w|)
    else if files == [] then Notice(logging, NoUnitsText(baseDir), |w|)
    else Notice(logging, ValidatingText(|files|, baseDir), |w|) + VerifyLog(env, w, files, logging)
  }

  /** `validate_systemd_tree` after trace `w`: `walk` is what walking `base_dir` finds. */
  function TreeStep(env: Env, w: seq<Event>, baseDir: string, read: ConfRead, valid: string -> bool,
                    walk: Option<seq<WalkDir>>): Step<Report>
  {
    var c := ResolvedStep(env, w, baseDir, read, valid);
    var t := ToolsStep(env, w + c.trace);
    After(c.trace + t.trace, ReportStep(env, w + c.trace + t.trace, t.value, UnitFiles(walk), c.value))
  }

  /** The log of `validate_systemd_tree` after trace `w`. */
  function TreeLog(env: Env, w: seq<Event>, baseDir: string, read: ConfRead, valid: string -> bool,
                   walk: Option<seq<WalkDir>>, logging: bool): seq<LogLine>
  {
    var c := ResolvedStep(env, w, baseDir, read, valid);
    var t := ToolsStep(env, w + c.trace);
    ResolvedLog(env, w, baseDir, read, valid, logging)
      + ReportLog(env, w + c.trace + t.trace, baseDir, t.value, UnitFiles(walk), logging)
  }

  /** The part of `validate_systemd_tree` after the lint and the tool lookups. */
  method ReportTree(h: Host, baseDir: string, available: bool, files: seq<string>, issues: seq<string>, logging: bool)
    returns (report: Report)
    modifies h
    ensures var s := ReportStep(h.env, old(h.trace), available, files, issues);
      report == s.value && h.trace == old(h.trace) + s.trace
    ensures h.log == old(h.log) + ReportLog(h.env, old(h.trace), baseDir, available, files, logging)
  {
    if !available {
      if logging {
        h.Log(NoToolsText);
      }
      return Report(false, files, [], issues);
    }
    if files == [] {
      if logging {
        h.Log(NoUnitsText(baseDir));
      }
      return Report(true, [], [], issues);
    }
    if logging {
      h.Log(ValidatingText(|files|, baseDir));
    }
    ghost var log1 := h.log;
    var results := VerifyFiles(h, files, logging);
    AppendAssoc(old(h.log), Notice(logging, ValidatingText(|files|, baseDir), |old(h.trace)|),
          VerifyLog(h.env, old(h.trace), files, logging));
    report := Report(true, files, results, issues);
  }

  /** `validate_systemd_tree`. */
  method ValidateSystemdTree(h: Host, baseDir: string, read: ConfRead, valid: string -> bool,
                             walk: Option<seq<WalkDir>>, logging: bool) returns (report: Report)
    modifies h
    ensures var s := TreeStep(h.env, old(h.trace), baseDir, read, valid, walk);
      report == s.value && h.trace == old(h.trace) + s.trace
    ensures h.log == old(h.log) + TreeLog(h.env, old(h.trace), baseDir, read, valid, walk, logging)
  {
    ghost var w := h.trace;
    ghost var c := ResolvedStep(h.env, w, baseDir, read, valid);
    var issues := ValidateResolvedConf(h, baseDir, read, valid, logging);
    ghost var t := ToolsStep(h.env, w + c.trace);
    ghost var log1 := h.log;
    var available := ToolsAvailable(h);
    var files := FindUnitFiles(walk);
    ghost var log2 := h.log;
    report := ReportTree(h, baseDir, available, files, issues, logging);
    ghost var r := ReportStep(h.env, w + c.trace + t.trace, available, files, issues);
    AppendAssoc(w, c.trace, t.trace);
    AppendAssoc(w, c.trace + t.trace, r.trace);
    AppendAssoc(old(h.log), ResolvedLog(h.env, w, baseDir, read, valid, logging),
          ReportLog(h.env, w + c.trace + t.trace, baseDir, available, files, logging));
  }

  /** The commands the verifications run: one `systemd-analyze verify` per file, in order. */
  function VerifyCmds(files: seq<string>): (cmds: seq<seq<string>>)
    ensures |cmds| == |files| && forall i :: 0 <= i < |files| ==> cmds[i] == VerifyCmd(files[i])
  {
    seq(|files|, i requires 0 <= i < |files| => VerifyCmd(files[i]))
  }

  lemma {:induction false} VerifyCommands(env: Env, w: seq<Event>, files: seq<string>)
    ensures Commands(VerifyStep(env, w, files).trace) == VerifyCmds(files)
    decreases |files|
  {
    if files != [] {
      var e := Event.Exec(VerifyCmd(files[0]), VerifyTimeout);
      var rest := VerifyStep(env, w + [e], files[1..]);
      VerifyCommands(env, w + [e], files[1..]);
      CommandsAppend([e], rest.trace);
      assert Commands([e]) == [VerifyCmd(files[0])];
      assert VerifyCmds(files) == [VerifyCmd(files[0])] + VerifyCmds(files[1..]);
    }
  }

  /** The lint runs no command: it inspects the file and at most looks a name up. */
  lemma ResolvedNoCommands(env: Env, w: seq<Event>, baseDir: string, read: ConfRead, valid: string -> bool)
    ensures Commands(ResolvedStep(env, w, baseDir, read, valid).trace) == []
  {
    var path := ConfPath(baseDir);
    var s := ResolvedStep(env, w, baseDir, read, valid);
    assert s.trace == [Event.Inspect(path)] || s.trace == [Event.Inspect(path), Event.Lookup(ProbeHost)];
    assert Commands(s.trace) == Commands(s.trace[1..]);
  }

  /**
   * `validate_systemd_tree`: the lint's issues are always reported. Without the tools no
   * command runs and nothing is validated; with them but no unit file, the same; otherwise
   * every unit file, sorted, is verified once, in order, and its validation holds its result.
   */
  lemma TreeStepMeans(env: Env, w: seq<Event>, baseDir: string, read: ConfRead, valid: string -> bool,
                      walk: Option<seq<WalkDir>>)
    ensures var s := TreeStep(env, w, baseDir, read, valid, walk);
      var c := ResolvedStep(env, w, baseDir, read, valid);
      var t := ToolsStep(env, w + c.trace);
      var files := UnitFiles(walk);
      s.value.configIssues == c.value && s.value.available == t.value
      && (!t.value ==> s.value.validations == [] && s.value.unitFiles == files && Commands(s.trace) == [])
      && (t.value ==>
            (s.value.unitFiles == files && Commands(s.trace) == VerifyCmds(files)
             && |s.value.validations| == |files|
             && forall i :: 0 <= i < |files| ==>
                  s.value.validations[i].path == files[i] && s.value.validations[i].result.cmd == VerifyCmd(files[i])))
  {
    var s := TreeStep(env, w, baseDir, read, valid, walk);
    var c := ResolvedStep(env, w, baseDir, read, valid);
    var t := ToolsStep(env, w + c.trace);
    var files := UnitFiles(walk);
    var w2 := w + c.trace + t.trace;
    var r := ReportStep(env, w2, t.value, files, c.value);
    ResolvedNoCommands(env, w, baseDir, read, valid);
    ToolsStepMeans(env, w + c.trace);
    CommandsAppend(c.trace, t.trace);
    CommandsAppend(c.trace + t.trace, r.trace);
    if t.value && files != [] {
      VerifyCommands(env, w2, files);
      VerifyStepMeans(env, w2, files);
    }
  }

  /** Each file's log line reports its own verification: "[OK] path", or "[FAIL] path: detail". */
  lemma {:induction false} VerifyLogMessages(env: Env, w: seq<Event>, files: seq<string>)
    ensures var v := VerifyStep(env, w, files).value;
      var ms := Messages(VerifyLog(env, w, files, true));
      |ms| == |files| && forall i :: 0 <= i < |files| ==> ms[i] == VerifyMessage(files[i], v[i].result)
    decreases |files|
  {
    if files != [] {
      var e := Event.Exec(VerifyCmd(files[0]), VerifyTimeout);
      var v := VerifyStep(env, w, files).value;
      var rest := VerifyLog(env, w + [e], files[1..], true);
      var line := Info(VerifyMessage(files[0], Answer(env, w, VerifyCmd(files[0]), VerifyTimeout)), |w| + 1);
      VerifyLogMessages(env, w + [e], files[1..]);
      MessagesAppend([line], rest);
      var ms := Messages(VerifyLog(env, w, files, true));
      var mr := Messages(rest);
      assert ms == [line.message] + mr;
      var vr := VerifyStep(env, w + [e], files[1..]).value;
      forall i | 0 <= i < |files| ensures ms[i] == VerifyMessage(files[i], v[i].result) {
        if i > 0 {
          assert ms[i] == mr[i - 1];
          assert v[i] == vr[i - 1];
          assert files[i] == files[1..][i - 1];
        }
      }
    }
  }

  /** "[OK]" exactly for a zero exit status; a failure names the file and a non-empty reason. */
  lemma VerifyMessageMeans(path: string, r: CommandResult)
    ensures r.returncode == 0 ==> VerifyMessage(path, r) == OkPrefix + path
    ensures r.returncode != 0 ==>
      StartsWith(VerifyMessage(path, r), FailPrefix + path + ": ") && |VerifyMessage(path, r)| > |FailPrefix + path + ": "|
  {
    if r.returncode != 0 {
      StartsWithConcat(FailPrefix + path + ": ", FailDetail(r));
    }
  }
}
