// The wireless facade: which backends are installed, which one is tried
// first, scanning and connecting with fallback, and finding the wireless
// interface.
module WifiManager {
  import opened Types
  import opened Text
  import opened Shell
  import opened Wifi
  import WpaCli
  import Iwctl
  import Iwlist
  import Probes

  // ---------------------------------------------------------------------
  // Backends

  /** The four backend classes. */
  datatype Backend = NmcliBackend | IwctlBackend | WpaCliBackend | IwlistBackend

  /** The `name` each backend reports; it is also the binary detection looks for. */
  function BackendName(b: Backend): string
  {
    match b
    case NmcliBackend => NmcliName
    case IwctlBackend => Iwctl.IwctlName
    case WpaCliBackend => WpaCli.WpaName
    case IwlistBackend => Iwlist.IwlistName
  }

  /** The name of the result when every backend failed. */
  const NoneName := "none"

  /** Backends are told apart by name, and none is called "none". */
  lemma BackendNameInjective(a: Backend, b: Backend)
    ensures BackendName(a) == BackendName(b) <==> a == b
    ensures BackendName(a) != NoneName
  {
    assert NmcliName[0] == 'n' && Iwctl.IwctlName[0] == 'i' && WpaCli.WpaName[0] == 'w';
    assert Iwctl.IwctlName[2] == 'c' && Iwlist.IwlistName[2] == 'l' && Iwlist.IwlistName[0] == 'i';
    assert NmcliName[1] == 'm' && NoneName[1] == 'o';
  }

  /** Position in the detection order. */
  function Rank(b: Backend): nat
  {
    match b
    case NmcliBackend => 0
    case IwctlBackend => 1
    case WpaCliBackend => 2
    case IwlistBackend => 3
  }

  /** `_detect_backends`'s probing order. */
  const AllBackends: seq<Backend> := [NmcliBackend, IwctlBackend, WpaCliBackend, IwlistBackend]

  /** Backends listed in detection order, each at most once. */
  predicate Ascending(bs: seq<Backend>)
  {
    forall i, j :: 0 <= i < j < |bs| ==> Rank(bs[i]) < Rank(bs[j])
  }

  lemma AllBackendsAscending()
    ensures Ascending(AllBackends) && |AllBackends| == 4
    ensures forall b: Backend :: b in AllBackends
  {
    forall b: Backend
      ensures b in AllBackends
    {
      assert AllBackends[Rank(b)] == b;
    }
  }

  // ---------------------------------------------------------------------
  // Detection

  /** One `shutil.which` per backend in `order`; the installed ones are kept, in order. */
  function DetectFrom(env: Env, w: seq<Event>, order: seq<Backend>): (r: Step<seq<Backend>>)
    ensures |r.trace| == |order| && |r.value| <= |order|
    decreases |order|
  {
    if order == [] then Step([], [])
    else
      var b := order[0];
      var e := Event.Which(BackendName(b));
      var rest := DetectFrom(env, w + [e], order[1..]);
      Step(Found(env, w, b) + rest.value, [e] + rest.trace)
  }

  /** `[b]` when the binary of `b` is installed, else nothing. */
  function Found(env: Env, w: seq<Event>, b: Backend): seq<Backend>
  {
    if env.installed(w, BackendName(b)) then [b] else []
  }

  /** One more backend probed. */
  lemma DetectFromUnfold(env: Env, t: seq<Event>, order: seq<Backend>, i: nat)
    requires i < |order|
    ensures var e := Event.Which(BackendName(order[i]));
      var rest := DetectFrom(env, t + [e], order[i + 1..]);
      DetectFrom(env, t, order[i..]) == Step(Found(env, t, order[i]) + rest.value, [e] + rest.trace)
  {
    assert order[i..][1..] == order[i + 1..];
  }

  /** The loop of `_detect_backends`, over any order. */
  method DetectIn(h: Host, order: seq<Backend>) returns (available: seq<Backend>)
    modifies h
    ensures var s := DetectFrom(h.env, old(h.trace), order);
      available == s.value && h.trace == old(h.trace) + s.trace
  {
    ghost var w := h.trace;
    ghost var full := DetectFrom(h.env, w, order);
    ghost var done: seq<Event> := [];
    available := [];
    var i := 0;
    while i < |order|
      invariant 0 <= i <= |order|
      invariant h.trace == w + done
      invariant full.value == available + DetectFrom(h.env, h.trace, order[i..]).value
      invariant full.trace == done + DetectFrom(h.env, h.trace, order[i..]).trace
    {
      var b := order[i];
      var e := Event.Which(BackendName(b));
      DetectFromUnfold(h.env, h.trace, order, i);
      ghost var rest := DetectFrom(h.env, h.trace + [e], order[i + 1..]);
      ghost var f := Found(h.env, h.trace, b);
      ghost var prev := available;
      var found := h.Which(BackendName(b));
      if found {
        available := available + [b];
      }
      assert available == prev + f;
      AppendAssoc(prev, f, rest.value);
      AppendAssoc(done, [e], rest.trace);
      AppendAssoc(w, done, [e]);
      done := done + [e];
      i := i + 1;
    }
  }

  /** `_detect_backends`. */
  method DetectBackends(h: Host) returns (available: seq<Backend>)
    modifies h
    ensures var s := DetectFrom(h.env, old(h.trace), AllBackends);
      available == s.value && h.trace == old(h.trace) + s.trace
  {
    available := DetectIn(h, AllBackends);
  }

  /** Detection asks about every backend of `order` once, in order, and nothing else. */
  lemma {:induction false} DetectTrace(env: Env, w: seq<Event>, order: seq<Backend>)
    ensures var s := DetectFrom(env, w, order);
      |s.trace| == |order| && forall k :: 0 <= k < |order| ==> s.trace[k] == Event.Which(BackendName(order[k]))
    decreases |order|
  {
    if order != [] {
      DetectTrace(env, w + [Event.Which(BackendName(order[0]))], order[1..]);
    }
  }

  /** Only backends of `order` are detected. */
  lemma {:induction false} DetectSubset(env: Env, w: seq<Event>, order: seq<Backend>, b: Backend)
    requires b in DetectFrom(env, w, order).value
    ensures b in order
    decreases |order|
  {
    var e := Event.Which(BackendName(order[0]));
    if b != order[0] {
      DetectSubset(env, w + [e], order[1..], b);
    }
  }

  /** Detection keeps the order it probes in, so it lists no backend twice. */
  lemma {:induction false} DetectAscending(env: Env, w: seq<Event>, order: seq<Backend>)
    requires Ascending(order)
    ensures Ascending(DetectFrom(env, w, order).value)
    decreases |order|
  {
    if order != [] {
      var e := Event.Which(BackendName(order[0]));
      var rest := DetectFrom(env, w + [e], order[1..]);
      DetectAscending(env, w + [e], order[1..]);
      forall b | b in rest.value
        ensures Rank(order[0]) < Rank(b)
      {
        DetectSubset(env, w + [e], order[1..], b);
      }
    }
  }

  /**
   * A backend of the order is detected exactly when its binary is installed at
   * the moment it is looked up (after the lookups before it).
   */
  lemma {:induction false} DetectMembership(env: Env, w: seq<Event>, order: seq<Backend>, k: nat)
    requires Ascending(order) && k < |order|
    ensures var s := DetectFrom(env, w, order);
      order[k] in s.value <==> env.installed(w + s.trace[..k], BackendName(order[k]))
    decreases |order|
  {
    if k == 0 {
      DetectHeadMember(env, w, order);
    } else {
      var e := Event.Which(BackendName(order[0]));
      DetectTailMember(env, w, order, k);
      DetectMembership(env, w + [e], order[1..], k - 1);
    }
  }

  /** The first backend of the order is detected exactly when it is installed at the start. */
  lemma DetectHeadMember(env: Env, w: seq<Event>, order: seq<Backend>)
    requires Ascending(order) && order != []
    ensures var s := DetectFrom(env, w, order);
      order[0] in s.value <==> env.installed(w + s.trace[..0], BackendName(order[0]))
  {
    var s := DetectFrom(env, w, order);
    var e := Event.Which(BackendName(order[0]));
    var rest := DetectFrom(env, w + [e], order[1..]);
    if order[0] in rest.value {
      DetectSubset(env, w + [e], order[1..], order[0]);
    }
    assert w + s.trace[..0] == w;
  }

  /** A later backend is detected exactly when the rest of the detection finds it. */
  lemma DetectTailMember(env: Env, w: seq<Event>, order: seq<Backend>, k: nat)
    requires Ascending(order) && 0 < k < |order|
    ensures var s := DetectFrom(env, w, order);
      var e := Event.Which(BackendName(order[0]));
      var rest := DetectFrom(env, w + [e], order[1..]);
      && Ascending(order[1..]) && order[1..][k - 1] == order[k]
      && (order[k] in s.value <==> order[k] in rest.value)
      && w + s.trace[..k] == (w + [e]) + rest.trace[..k - 1]
  {
    var s := DetectFrom(env, w, order);
    var e := Event.Which(BackendName(order[0]));
    var rest := DetectFrom(env, w + [e], order[1..]);
    assert Rank(order[0]) < Rank(order[k]);
    assert s.trace[..k] == [e] + rest.trace[..k - 1];
    AppendAssoc(w, [e], rest.trace[..k - 1]);
  }

  /** What `_detect_backends` promises: four lookups, the installed backends, in order. */
  lemma DetectProps(env: Env, w: seq<Event>)
    ensures var s := DetectFrom(env, w, AllBackends);
      && |s.trace| == 4
      && (forall k :: 0 <= k < 4 ==> s.trace[k] == Event.Which(BackendName(AllBackends[k])))
      && Ascending(s.value)
      && (forall k :: 0 <= k < 4 ==>
            (AllBackends[k] in s.value <==> env.installed(w + s.trace[..k], BackendName(AllBackends[k]))))
  {
    AllBackendsAscending();
    DetectTrace(env, w, AllBackends);
    DetectAscending(env, w, AllBackends);
    forall k | 0 <= k < 4
      ensures var s := DetectFrom(env, w, AllBackends);
        AllBackends[k] in s.value <==> env.installed(w + s.trace[..k], BackendName(AllBackends[k]))
    {
      DetectMembership(env, w, AllBackends, k);
    }
  }

  // ---------------------------------------------------------------------
  // Choosing a backend

  /** The manager: the backends it was given or found, in order. */
  datatype WirelessManager = WirelessManager(backends: seq<Backend>)

  /** `WirelessManager()` with no backends given: detect them. */
  method Detect(h: Host) returns (m: WirelessManager)
    modifies h
    ensures var s := DetectFrom(h.env, old(h.trace), AllBackends);
      m.backends == s.value && h.trace == old(h.trace) + s.trace
  {
    var bs := DetectBackends(h);
    m := WirelessManager(bs);
  }

  /** The first backend with the given name, if any. */
  function FirstNamed(bs: seq<Backend>, name: string): (r: seq<Backend>)
    ensures |r| <= 1
    ensures r != [] ==> r[0] in bs && BackendName(r[0]) == name
    ensures r == [] <==> forall k :: 0 <= k < |bs| ==> BackendName(bs[k]) != name
  {
    if bs == [] then []
    else if BackendName(bs[0]) == name then [bs[0]]
    else FirstNamed(bs[1..], name)
  }

  /** The backends without the given name, in order. */
  function Without(bs: seq<Backend>, name: string): (r: seq<Backend>)
    ensures forall x :: x in r <==> x in bs && BackendName(x) != name
  {
    if bs == [] then []
    else (if BackendName(bs[0]) == name then [] else [bs[0]]) + Without(bs[1..], name)
  }

  /** Nothing is removed when no backend has the name. */
  lemma {:induction false} WithoutNone(bs: seq<Backend>, name: string)
    requires forall k :: 0 <= k < |bs| ==> BackendName(bs[k]) != name
    ensures Without(bs, name) == bs
  {
    if bs != [] {
      WithoutNone(bs[1..], name);
    }
  }

  /** `_candidate_backends`: the first backend of the preferred name, then all the others. */
  function Candidates(bs: seq<Backend>, preferred: Option<string>): seq<Backend>
  {
    if preferred.Some? && preferred.value != [] then FirstNamed(bs, preferred.value) + Without(bs, preferred.value)
    else bs
  }

  /** Every backend is a candidate and every candidate is a backend. */
  lemma CandidatesMembers(bs: seq<Backend>, preferred: Option<string>, x: Backend)
    ensures x in Candidates(bs, preferred) <==> x in bs
  {
    if preferred.Some? && preferred.value != [] && x in bs && BackendName(x) == preferred.value {
      var f := FirstNamed(bs, preferred.value);
      assert f != [];
      BackendNameInjective(f[0], x);
    }
  }

  /** With a preferred name that some backend has, that backend comes first and no other of that name follows. */
  lemma CandidatesPreferredFirst(bs: seq<Backend>, name: string)
    requires name != [] && exists k :: 0 <= k < |bs| && BackendName(bs[k]) == name
    ensures var c := Candidates(bs, Some(name));
      c != [] && c[0] in bs && BackendName(c[0]) == name
      && forall k :: 0 < k < |c| ==> BackendName(c[k]) != name
  {
    var c := Candidates(bs, Some(name));
    var f := FirstNamed(bs, name);
    var w := Without(bs, name);
    assert f != [] && |f| == 1;
    assert c == f + w;
    assert c[0] == f[0];
    forall k | 0 < k < |c|
      ensures BackendName(c[k]) != name
    {
      assert c[k] == w[k - 1];
      assert w[k - 1] in w;
    }
  }

  /** Without a usable preference, or when no backend has the preferred name, the order is kept. */
  lemma CandidatesUnpreferred(bs: seq<Backend>, preferred: Option<string>)
    requires preferred.None? || preferred.value == []
             || forall k :: 0 <= k < |bs| ==> BackendName(bs[k]) != preferred.value
    ensures Candidates(bs, preferred) == bs
  {
    if preferred.Some? && preferred.value != [] {
      WithoutNone(bs, preferred.value);
    }
  }

  predicate NoDuplicates(bs: seq<Backend>)
  {
    forall i, j :: 0 <= i < j < |bs| ==> bs[i] != bs[j]
  }

  /** Over backends listed once each, the candidates are a reordering of them. */
  lemma {:induction false} CandidatesPermutation(bs: seq<Backend>, name: string)
    requires NoDuplicates(bs)
    ensures multiset(FirstNamed(bs, name) + Without(bs, name)) == multiset(bs)
  {
    if bs != [] {
      var b := bs[0];
      var t := bs[1..];
      assert bs == [b] + t;
      assert NoDuplicates(t) by {
        forall i, j | 0 <= i < j < |t|
          ensures t[i] != t[j]
        {
          assert t[i] == bs[i + 1] && t[j] == bs[j + 1];
        }
      }
      if BackendName(b) == name {
        forall k | 0 <= k < |t|
          ensures BackendName(t[k]) != name
        {
          assert t[k] == bs[k + 1];
          BackendNameInjective(b, t[k]);
        }
        WithoutNone(t, name);
        assert Without(bs, name) == [] + Without(t, name);
      } else {
        CandidatesPermutation(t, name);
        assert Without(bs, name) == [b] + Without(t, name);
      }
    }
  }

  /** `_choose_backend`: the first candidate. */
  function ChooseBackend(bs: seq<Backend>, preferred: Option<string>): (r: Option<Backend>)
    ensures r.None? <==> bs == []
    ensures r.Some? ==> r.value in bs
  {
    var c := Candidates(bs, preferred);
    if c == [] then
      assert forall x :: x in bs ==> x in c by {
        forall x | x in bs
          ensures x in c
        {
          CandidatesMembers(bs, preferred, x);
        }
      }
      None
    else
      CandidatesMembers(bs, preferred, c[0]);
      Some(c[0])
  }

  /** The chosen backend has the preferred name when one does, and is the first backend otherwise. */
  lemma ChooseBackendProps(bs: seq<Backend>, preferred: Option<string>)
    requires bs != []
    ensures preferred.Some? && preferred.value != [] && (exists k :: 0 <= k < |bs| && BackendName(bs[k]) == preferred.value)
            ==> BackendName(ChooseBackend(bs, preferred).value) == preferred.value
    ensures preferred.None? || preferred.value == [] || (forall k :: 0 <= k < |bs| ==> BackendName(bs[k]) != preferred.value)
            ==> ChooseBackend(bs, preferred) == Some(bs[0])
  {
    if preferred.Some? && preferred.value != [] && exists k :: 0 <= k < |bs| && BackendName(bs[k]) == preferred.value {
      CandidatesPreferredFirst(bs, preferred.value);
    }
    if preferred.None? || preferred.value == [] || forall k :: 0 <= k < |bs| ==> BackendName(bs[k]) != preferred.value {
      CandidatesUnpreferred(bs, preferred);
    }
  }

  // ---------------------------------------------------------------------
  // Scanning

  /** Each backend's `scan`. */
  function BackendScanStep(b: Backend, env: Env, w: seq<Event>, iface: string): Step<seq<Network>>
  {
    match b
    case NmcliBackend =>
      Step(NmcliScanOf(Answer(env, w, NmcliScanCmd(iface), NmcliScanTimeout)), [Exec(NmcliScanCmd(iface), NmcliScanTimeout)])
    case IwctlBackend => Iwctl.IwctlScanStep(env, w, iface)
    case WpaCliBackend =>
      var scan := Exec(WpaCli.WpaCmd(iface, ["scan"]), WpaCli.WpaSlowTimeout);
      var results := WpaCli.WpaCmd(iface, ["scan_results"]);
      Step(WpaCli.WpaScanOf(Answer(env, w + [scan], results, WpaCli.WpaSlowTimeout)),
           [scan, Exec(results, WpaCli.WpaSlowTimeout)])
    case IwlistBackend => Iwlist.IwlistScanStep(env, w, iface)
  }

  method BackendScan(h: Host, b: Backend, iface: string) returns (nets: seq<Network>)
    modifies h
    ensures var s := BackendScanStep(b, h.env, old(h.trace), iface); nets == s.value && h.trace == old(h.trace) + s.trace
  {
    match b
    case NmcliBackend => nets := NmcliScan(h, iface);
    case IwctlBackend => nets := Iwctl.IwctlScan(h, iface);
    case WpaCliBackend => nets := WpaCli.WpaCliScan(h, iface);
    case IwlistBackend => nets := Iwlist.IwlistScan(h, iface);
  }

  const NoScanBackend := "[ERROR] No wireless backend available for scanning."

  /** `WirelessManager.scan`: the chosen backend's scan, or nothing. */
  function ScanStep(m: WirelessManager, env: Env, w: seq<Event>, iface: string, preferred: Option<string>)
    : Step<seq<Network>>
  {
    match ChooseBackend(m.backends, preferred)
    case None => Step([], [])
    case Some(b) => BackendScanStep(b, env, w, iface)
  }

  method Scan(m: WirelessManager, h: Host, iface: string, preferred: Option<string>) returns (nets: seq<Network>)
    modifies h
    ensures var s := ScanStep(m, h.env, old(h.trace), iface, preferred); nets == s.value && h.trace == old(h.trace) + s.trace
    ensures m.backends == [] ==> h.log == old(h.log) + [Info(NoScanBackend, |old(h.trace)|)]
  {
    var b := ChooseBackend(m.backends, preferred);
    if b.None? {
      h.Log(NoScanBackend);
      return [];
    }
    nets := BackendScan(h, b.value, iface);
  }

  /** With no backend a scan finds nothing and runs nothing; otherwise it is the chosen backend's scan. */
  lemma ScanProps(m: WirelessManager, env: Env, w: seq<Event>, iface: string, preferred: Option<string>)
    ensures m.backends == [] ==> ScanStep(m, env, w, iface, preferred) == Step([], [])
    ensures m.backends != [] ==> exists b :: b in m.backends && ScanStep(m, env, w, iface, preferred) == BackendScanStep(b, env, w, iface)
  {
    if m.backends != [] {
      var b := ChooseBackend(m.backends, preferred).value;
      assert ScanStep(m, env, w, iface, preferred) == BackendScanStep(b, env, w, iface);
    }
  }

  // ---------------------------------------------------------------------
  // Connecting

  /** `connect`'s `security` argument: an enum member, or a label (or nothing) for `from_label`. */
  datatype SecurityArg = Typed(sec: Security) | Label(text: Option<string>)

  function SecurityOf(a: SecurityArg): Security
  {
    match a
    case Typed(s) => s
    case Label(l) => FromLabel(l)
  }

  /** Each backend's `connect`. */
  function BackendConnectStep(b: Backend, env: Env, w: seq<Event>, iface: string, ssid: string,
                              password: Option<string>, sec: Security): Step<ConnectionResult>
  {
    match b
    case NmcliBackend => NmcliConnectStep(env, w, iface, ssid, password, sec)
    case IwctlBackend => Iwctl.IwctlConnectStep(env, w, iface, ssid, password)
    case WpaCliBackend => WpaCli.WpaConnectStep(env, w, iface, ssid, password, sec)
    case IwlistBackend => Iwlist.IwlistConnectStep(env, w, iface, ssid, password, sec)
  }

  method BackendConnect(h: Host, b: Backend, iface: string, ssid: string, password: Option<string>, sec: Security)
    returns (r: ConnectionResult)
    modifies h
    ensures var s := BackendConnectStep(b, h.env, old(h.trace), iface, ssid, password, sec);
      r == s.value && h.trace == old(h.trace) + s.trace
  {
    match b
    case NmcliBackend => r := NmcliConnect(h, iface, ssid, password, sec);
    case IwctlBackend => r := Iwctl.IwctlConnect(h, iface, ssid, password, sec);
    case WpaCliBackend => r := WpaCli.WpaCliConnect(h, iface, ssid, password, sec);
    case IwlistBackend => r := Iwlist.IwlistConnect(h, iface, ssid, password, sec);
  }

  lemma WpaConnectNamed(env: Env, w: seq<Event>, iface: string, ssid: string, password: Option<string>, sec: Security)
    ensures WpaCli.WpaConnectStep(env, w, iface, ssid, password, sec).value.backend == WpaCli.WpaName
  {
  }

  lemma IwlistConnectNamed(env: Env, w: seq<Event>, iface: string, ssid: string, password: Option<string>, sec: Security)
    ensures Iwlist.IwlistConnectStep(env, w, iface, ssid, password, sec).value.backend == Iwlist.IwlistName
  {
  }

  /** Every backend's result carries that backend's name. */
  lemma BackendConnectNamed(b: Backend, env: Env, w: seq<Event>, iface: string, ssid: string,
                            password: Option<string>, sec: Security)
    ensures BackendConnectStep(b, env, w, iface, ssid, password, sec).value.backend == BackendName(b)
  {
    match b
    case NmcliBackend =>
    case IwctlBackend =>
    case WpaCliBackend => WpaConnectNamed(env, w, iface, ssid, password, sec);
    case IwlistBackend => IwlistConnectNamed(env, w, iface, ssid, password, sec);
  }

  const NoBackendConnected := "No wireless backend could establish the connection"
  const NoneResult := ConnectionResult(NoneName, false, NoBackendConnected)

  /** The candidates tried in order until one succeeds. */
  function ConnectFrom(env: Env, w: seq<Event>, cands: seq<Backend>, iface: string, ssid: string,
                       password: Option<string>, sec: Security): Step<ConnectionResult>
    decreases |cands|
  {
    if cands == [] then Step(NoneResult, [])
    else
      var s := BackendConnectStep(cands[0], env, w, iface, ssid, password, sec);
      if s.value.success then s
      else After(s.trace, ConnectFrom(env, w + s.trace, cands[1..], iface, ssid, password, sec))
  }

  /** `WirelessManager.connect`. */
  function ConnectStep(m: WirelessManager, env: Env, w: seq<Event>, iface: string, ssid: string,
                       password: Option<string>, security: SecurityArg, preferred: Option<string>): Step<ConnectionResult>
  {
    ConnectFrom(env, w, Candidates(m.backends, preferred), iface, ssid, password, SecurityOf(security))
  }

  /** One more candidate tried: its own step, then, when it failed, the candidates after it. */
  lemma ConnectFromUnfold(env: Env, t: seq<Event>, cands: seq<Backend>, i: nat, iface: string, ssid: string,
                          password: Option<string>, sec: Security)
    requires i < |cands|
    ensures var s := BackendConnectStep(cands[i], env, t, iface, ssid, password, sec);
      ConnectFrom(env, t, cands[i..], iface, ssid, password, sec)
        == if s.value.success then s
           else After(s.trace, ConnectFrom(env, t + s.trace, cands[i + 1..], iface, ssid, password, sec))
  {
    assert cands[i..][1..] == cands[i + 1..];
  }

  method Connect(m: WirelessManager, h: Host, iface: string, ssid: string, password: Option<string>,
                 security: SecurityArg, preferred: Option<string>) returns (r: ConnectionResult)
    modifies h
    ensures var s := ConnectStep(m, h.env, old(h.trace), iface, ssid, password, security, preferred);
      r == s.value && h.trace == old(h.trace) + s.trace
  {
    var sec := SecurityOf(security);
    var cands := Candidates(m.backends, preferred);
    ghost var w := h.trace;
    ghost var done: seq<Event> := [];
    var i := 0;
    while i < |cands|
      invariant 0 <= i <= |cands|
      invariant h.trace == w + done
      invariant ConnectFrom(h.env, w, cands, iface, ssid, password, sec)
                == After(done, ConnectFrom(h.env, h.trace, cands[i..], iface, ssid, password, sec))
    {
      ghost var t := h.trace;
      ghost var s := BackendConnectStep(cands[i], h.env, t, iface, ssid, password, sec);
      ConnectFromUnfold(h.env, t, cands, i, iface, ssid, password, sec);
      r := BackendConnect(h, cands[i], iface, ssid, password, sec);
      AppendAssoc(w, done, s.trace);
      if r.success {
        return;
      }
      ghost var rest := ConnectFrom(h.env, h.trace, cands[i + 1..], iface, ssid, password, sec);
      AfterAfter(done, s.trace, rest);
      done := done + s.trace;
      i := i + 1;
    }
    r := NoneResult;
  }

  /**
   * The connection fails exactly when the result is the fallback one; a success
   * comes from one of the candidates and carries its name.
   */
  lemma {:induction false} ConnectFromOutcome(env: Env, w: seq<Event>, cands: seq<Backend>, iface: string, ssid: string,
                                              password: Option<string>, sec: Security)
    ensures var r := ConnectFrom(env, w, cands, iface, ssid, password, sec).value;
      (!r.success <==> r == NoneResult)
      && (r.success ==> exists k :: 0 <= k < |cands| && r.backend == BackendName(cands[k]))
    decreases |cands|
  {
    if cands != [] {
      var s := BackendConnectStep(cands[0], env, w, iface, ssid, password, sec);
      BackendConnectNamed(cands[0], env, w, iface, ssid, password, sec);
      if !s.value.success {
        ConnectFromOutcome(env, w + s.trace, cands[1..], iface, ssid, password, sec);
        var r := ConnectFrom(env, w + s.trace, cands[1..], iface, ssid, password, sec).value;
        if r.success {
          var k :| 0 <= k < |cands[1..]| && r.backend == BackendName(cands[1..][k]);
          assert cands[k + 1] == cands[1..][k];
        }
      }
    }
  }

  /** The preferred backend, when one has that name, is the first one asked to connect. */
  lemma ConnectPreferredFirst(m: WirelessManager, env: Env, w: seq<Event>, iface: string, ssid: string,
                              password: Option<string>, security: SecurityArg, name: string)
    requires name != [] && exists k :: 0 <= k < |m.backends| && BackendName(m.backends[k]) == name
    ensures var c := Candidates(m.backends, Some(name));
      var first := BackendConnectStep(c[0], env, w, iface, ssid, password, SecurityOf(security));
      var s := ConnectStep(m, env, w, iface, ssid, password, security, Some(name));
      BackendName(c[0]) == name && |first.trace| <= |s.trace| && s.trace[..|first.trace|] == first.trace
  {
    CandidatesPreferredFirst(m.backends, name);
  }

  // ---------------------------------------------------------------------
  // Finding the wireless interface

  /** The first line `f` accepts, as `f` reads it. */
  function FirstMatch(lines: seq<string>, f: string -> Option<string>): (r: Option<string>)
    ensures r.None? <==> forall k :: 0 <= k < |lines| ==> f(lines[k]).None?
    ensures r.Some? ==> exists k :: 0 <= k < |lines| && f(lines[k]) == r && forall j :: 0 <= j < k ==> f(lines[j]).None?
  {
    if lines == [] then None
    else if f(lines[0]).Some? then f(lines[0])
    else
      var r := FirstMatch(lines[1..], f);
      if r.Some? then
        var k :| 0 <= k < |lines[1..]| && f(lines[1..][k]) == r && forall j :: 0 <= j < k ==> f(lines[1..][j]).None?;
        assert f(lines[k + 1]) == r;
        assert forall j :: 0 <= j < k + 1 ==> f(lines[j]).None? by {
          forall j | 0 <= j < k + 1
            ensures f(lines[j]).None?
          {
            if j > 0 {
              assert lines[j] == lines[1..][j - 1];
            }
          }
        }
        r
      else
        r
  }

  /** The `for line in ...: ... return` loops of the `_detect_with_*` helpers. */
  method FindFirst(lines: seq<string>, f: string -> Option<string>) returns (r: Option<string>)
    ensures r == FirstMatch(lines, f)
  {
    var i := 0;
    while i < |lines|
      invariant 0 <= i <= |lines|
      invariant FirstMatch(lines[i..], f) == FirstMatch(lines, f)
    {
      assert lines[i..][1..] == lines[i + 1..];
      var found := f(lines[i]);
      if found.Some? {
        return found;
      }
      i := i + 1;
    }
    return None;
  }

  const DetectTimeout: nat := 8

  // iw dev

  const IwBinary := "iw"
  const IwDevCmd: seq<string> := ["iw", "dev"]
  const InterfaceWord := "Interface"
  const InterfacePrefix := InterfaceWord + " "

  lemma InterfaceWordToken()
    ensures |InterfaceWord| == 9 && |InterfacePrefix| == 10 && InterfacePrefix[9] == ' '
    ensures Avoids(InterfaceWord, Whitespace) && InterfaceWord[0] !in Whitespace && ' ' in Whitespace
  {
  }

  /** A stripped line starting with "Interface " has a second whitespace token. */
  lemma IwTokens(line: string)
    requires StartsWith(Trim(line), InterfacePrefix)
    ensures |SplitWs(Trim(line))| >= 2
  {
    var t := Trim(line);
    RStripProps(LStrip(line, Whitespace), Whitespace);
    InterfaceWordToken();
    assert t[9] == InterfacePrefix[9];
    var rest := t[9..];
    var tail := t[10..];
    assert t[..9] == InterfaceWord by {
      assert t[..10][..9] == InterfacePrefix[..9];
    }
    assert t == InterfaceWord + rest by {
      assert t == t[..9] + t[9..];
    }
    SplitWsToken(InterfaceWord, rest);
    HeadTail(rest);
    assert rest[1..] == tail;
    SplitWsSpace(' ', tail);
    assert tail != [] && tail[|tail| - 1] == t[|t| - 1];
    StripEmptyIff(tail, Whitespace);
    SplitWsEmptyIff(tail);
  }

  /** The name on an `iw dev` line of the form "Interface <name>" (after stripping). */
  function IwLineName(line: string): (r: Option<string>)
    ensures r.Some? ==> r.value != [] && Avoids(r.value, Whitespace)
  {
    var t := Trim(line);
    if StartsWith(t, InterfacePrefix) then
      IwTokens(line);
      SplitWsTokens(t);
      Some(SplitWs(t)[1])
    else None
  }

  /** An indented "Interface <name>" line gives back the name. */
  lemma IwLineNameOf(pad: string, name: string)
    requires Within(pad, Whitespace) && name != [] && Avoids(name, Whitespace)
    ensures IwLineName(pad + InterfacePrefix + name) == Some(name)
  {
    InterfaceWordToken();
    var s := InterfacePrefix + name;
    assert pad + InterfacePrefix + name == pad + s;
    LStripPrefix(pad, s, Whitespace);
    assert s[0] == InterfaceWord[0];
    assert s[|s| - 1] == name[|name| - 1];
    StripUntouched(s, Whitespace);
    assert StartsWith(s, InterfacePrefix) by {
      assert s[..|InterfacePrefix|] == InterfacePrefix;
    }
    assert s == InterfaceWord + ([' '] + name);
    SplitWsToken(InterfaceWord, [' '] + name);
    SplitWsSpace(' ', name);
    assert name + [] == name;
    SplitWsToken(name, []);
  }

  /** `_detect_with_iw`. */
  function IwDetectStep(env: Env, w: seq<Event>): Step<Option<string>>
  {
    var e := Event.Which(IwBinary);
    if !env.installed(w, IwBinary) then Step(None, [e])
    else
      var res := Answer(env, w + [e], IwDevCmd, DetectTimeout);
      Step(if res.returncode != 0 then None else FirstMatch(SplitLines(res.stdout), IwLineName),
           [e, Exec(IwDevCmd, DetectTimeout)])
  }

  method DetectWithIw(h: Host) returns (name: Option<string>)
    modifies h
    ensures var s := IwDetectStep(h.env, old(h.trace)); name == s.value && h.trace == old(h.trace) + s.trace
  {
    var found := h.Which(IwBinary);
    if !found {
      return None;
    }
    var res := h.Run(IwDevCmd, DetectTimeout);
    if res.returncode != 0 {
      return None;
    }
    name := FindFirst(SplitLines(res.stdout), IwLineName);
  }

  // nmcli device status

  const NmcliDeviceCmd: seq<string> := ["nmcli", "-t", "-f", "DEVICE,TYPE", "device", "status"]
  const WifiType := "wifi"

  /** The device on an `nmcli -t` line whose type field is "wifi". */
  function NmcliLineName(line: string): (r: Option<string>)
    ensures r.Some? ==> r.value != [] && r.value == Trim(r.value)
  {
    var parts := Split(line, ':');
    if |parts| >= 2 && Trim(parts[1]) == WifiType && Trim(parts[0]) != [] then
      StripIdempotent(parts[0], Whitespace);
      Some(Trim(parts[0]))
    else None
  }

  /** A "<device>:<type>" line names the device exactly when its type is wifi. */
  lemma NmcliLineNameOf(dev: string, ty: string)
    requires dev != [] && Avoids(dev, {':'}) && dev[0] !in Whitespace && dev[|dev| - 1] !in Whitespace
    requires Avoids(ty, {':'})
    ensures NmcliLineName(dev + ":" + ty) == if Trim(ty) == WifiType then Some(dev) else None
  {
    assert dev + ":" + ty == dev + [':'] + ty;
    SplitAt(dev, ':', ty);
    SplitWhole(ty, ':');
    StripUntouched(dev, Whitespace);
  }

  /** `_detect_with_nmcli`. */
  function NmcliDetectStep(env: Env, w: seq<Event>): Step<Option<string>>
  {
    var e := Event.Which(NmcliName);
    if !env.installed(w, NmcliName) then Step(None, [e])
    else
      var res := Answer(env, w + [e], NmcliDeviceCmd, DetectTimeout);
      Step(if res.returncode != 0 then None else FirstMatch(SplitLines(res.stdout), NmcliLineName),
           [e, Exec(NmcliDeviceCmd, DetectTimeout)])
  }

  method DetectWithNmcli(h: Host) returns (name: Option<string>)
    modifies h
    ensures var s := NmcliDetectStep(h.env, old(h.trace)); name == s.value && h.trace == old(h.trace) + s.trace
  {
    var found := h.Which(NmcliName);
    if !found {
      return None;
    }
    var res := h.Run(NmcliDeviceCmd, DetectTimeout);
    if res.returncode != 0 {
      return None;
    }
    name := FindFirst(SplitLines(res.stdout), NmcliLineName);
  }

  // ip -o link show

  const IpLinkCmd: seq<string> := ["ip", "-o", "link", "show"]
  const WirelessPrefixes: seq<string> := ["wlan", "wlp", "wlx", "wifi", "wwan"]

  /** A name that, lower-cased, starts with one of the usual wireless prefixes. */
  predicate WirelessName(name: string)
  {
    exists q :: 0 <= q < |WirelessPrefixes| && StartsWith(Lower(name), WirelessPrefixes[q])
  }

  /** The prefix test ignores case. */
  lemma WirelessNameCaseless(name: string)
    ensures WirelessName(Lower(name)) <==> WirelessName(name)
  {
    LowerIdempotent(name);
  }

  /** The interface on an `ip -o link show` line, when its name looks wireless. */
  function IpLineName(line: string): Option<string>
  {
    match Probes.LinkNameOfLine(line)
    case None => None
    case Some(name) => if WirelessName(name) then Some(name) else None
  }

  /** What `ip link` detection returns is a non-empty, wireless-looking name with no '@' suffix. */
  lemma IpLineNameSound(line: string)
    requires IpLineName(line).Some?
    ensures var n := IpLineName(line).value; n != [] && WirelessName(n) && '@' !in n
  {
    var parts := Split(line, ':');
    var pieces := Split(Trim(parts[1]), '@');
    SplitPieces(Trim(parts[1]), '@');
    var n := IpLineName(line).value;
    assert n == pieces[0];
    var q :| 0 <= q < |WirelessPrefixes| && StartsWith(Lower(n), WirelessPrefixes[q]);
    assert |WirelessPrefixes[q]| >= 3;
  }

  /** `_detect_with_ip_link`: no `which` check here. */
  function IpDetectStep(env: Env, w: seq<Event>): Step<Option<string>>
  {
    var res := Answer(env, w, IpLinkCmd, DetectTimeout);
    Step(if res.returncode != 0 then None else FirstMatch(SplitLines(res.stdout), IpLineName),
         [Exec(IpLinkCmd, DetectTimeout)])
  }

  method DetectWithIpLink(h: Host) returns (name: Option<string>)
    modifies h
    ensures var s := IpDetectStep(h.env, old(h.trace)); name == s.value && h.trace == old(h.trace) + s.trace
  {
    var res := h.Run(IpLinkCmd, DetectTimeout);
    if res.returncode != 0 {
      return None;
    }
    name := FindFirst(SplitLines(res.stdout), IpLineName);
  }

  // detect_interface

  /** Python truthiness of `str | None`. */
  predicate Truthy(o: Option<string>)
  {
    o.Some? && o.value != []
  }

  /** `detect_interface`: iw, then nmcli, then ip link; the first non-empty answer wins. */
  function DetectInterfaceStep(env: Env, w: seq<Event>): Step<Option<string>>
  {
    var a := IwDetectStep(env, w);
    if Truthy(a.value) then a
    else
      var b := NmcliDetectStep(env, w + a.trace);
      if Truthy(b.value) then After(a.trace, b)
      else After(a.trace + b.trace, IpDetectStep(env, w + a.trace + b.trace))
  }

  method DetectInterface(h: Host) returns (name: Option<string>)
    modifies h
    ensures var s := DetectInterfaceStep(h.env, old(h.trace)); name == s.value && h.trace == old(h.trace) + s.trace
  {
    ghost var w := h.trace;
    name := DetectWithIw(h);
    if Truthy(name) {
      return;
    }
    ghost var t := h.trace;
    name := DetectWithNmcli(h);
    if Truthy(name) {
      AppendAssoc(w, t[|w|..], h.trace[|t|..]);
      return;
    }
    ghost var u := h.trace;
    name := DetectWithIpLink(h);
    AppendAssoc(w, t[|w|..], u[|t|..]);
    AppendAssoc(w + t[|w|..] + u[|t|..], h.trace[|u|..], []);
  }

  /**
   * Detection asks iw first and keeps its name when there is one; nmcli is
   * asked, and its name kept, only when iw found none; `ip link` runs exactly
   * when neither found a name.
   */
  lemma DetectInterfaceOrder(env: Env, w: seq<Event>)
    ensures var a := IwDetectStep(env, w);
      var b := NmcliDetectStep(env, w + a.trace);
      var s := DetectInterfaceStep(env, w);
      |a.trace| <= |s.trace| && s.trace[..|a.trace|] == a.trace
      && (Truthy(a.value) ==> s == a)
      && (!Truthy(a.value) ==> s.trace[|a.trace|..][..|b.trace|] == b.trace)
      && (!Truthy(a.value) && Truthy(b.value) ==> s.value == b.value)
      && (Exec(IpLinkCmd, DetectTimeout) in s.trace <==> !Truthy(a.value) && !Truthy(b.value))
  {
    var a := IwDetectStep(env, w);
    var b := NmcliDetectStep(env, w + a.trace);
    assert Exec(IpLinkCmd, DetectTimeout) !in a.trace;
    assert Exec(IpLinkCmd, DetectTimeout) !in b.trace;
    if !Truthy(a.value) && !Truthy(b.value) {
      var s := DetectInterfaceStep(env, w);
      assert s.trace == a.trace + b.trace + [Exec(IpLinkCmd, DetectTimeout)];
      assert s.trace[|s.trace| - 1] == Exec(IpLinkCmd, DetectTimeout);
    }
  }

  /** iw and nmcli never answer with an empty name, so "found" means `Some`. */
  lemma DetectorsNonEmpty(env: Env, w: seq<Event>)
    ensures IwDetectStep(env, w).value.Some? ==> Truthy(IwDetectStep(env, w).value)
    ensures NmcliDetectStep(env, w).value.Some? ==> Truthy(NmcliDetectStep(env, w).value)
  {
  }

  /** What a line search found was read off one of its lines. */
  lemma FirstMatchFrom(lines: seq<string>, f: string -> Option<string>)
    requires FirstMatch(lines, f).Some?
    ensures exists line :: f(line) == FirstMatch(lines, f)
  {
    var k :| 0 <= k < |lines| && f(lines[k]) == FirstMatch(lines, f) && forall j :: 0 <= j < k ==> f(lines[j]).None?;
    assert f(lines[k]) == FirstMatch(lines, f);
  }

  lemma IwDetectFrom(env: Env, w: seq<Event>)
    requires IwDetectStep(env, w).value.Some?
    ensures exists line :: IwLineName(line) == IwDetectStep(env, w).value
  {
    var res := Answer(env, w + [Event.Which(IwBinary)], IwDevCmd, DetectTimeout);
    FirstMatchFrom(SplitLines(res.stdout), IwLineName);
  }

  lemma NmcliDetectFrom(env: Env, w: seq<Event>)
    requires NmcliDetectStep(env, w).value.Some?
    ensures exists line :: NmcliLineName(line) == NmcliDetectStep(env, w).value
  {
    var res := Answer(env, w + [Event.Which(NmcliName)], NmcliDeviceCmd, DetectTimeout);
    FirstMatchFrom(SplitLines(res.stdout), NmcliLineName);
  }

  lemma IpDetectFrom(env: Env, w: seq<Event>)
    requires IpDetectStep(env, w).value.Some?
    ensures exists line :: IpLineName(line) == IpDetectStep(env, w).value
  {
    var res := Answer(env, w, IpLinkCmd, DetectTimeout);
    FirstMatchFrom(SplitLines(res.stdout), IpLineName);
  }

  /** A detected interface is the name one of the three line readers took from some output line. */
  lemma DetectInterfaceSound(env: Env, w: seq<Event>)
    requires DetectInterfaceStep(env, w).value.Some?
    ensures var n := DetectInterfaceStep(env, w).value;
      exists line :: IwLineName(line) == n || NmcliLineName(line) == n || IpLineName(line) == n
  {
    var a := IwDetectStep(env, w);
    if Truthy(a.value) {
      IwDetectFrom(env, w);
    } else {
      var b := NmcliDetectStep(env, w + a.trace);
      if Truthy(b.value) {
        NmcliDetectFrom(env, w + a.trace);
      } else {
        IpDetectFrom(env, w + a.trace + b.trace);
      }
    }
  }
}
