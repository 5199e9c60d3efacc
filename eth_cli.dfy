/**
 * The command-line entry flow of the Ethernet repair helper: the root gate,
 * the choice of interface (with the automatic substitution of a missing
 * "eth0"), and the choice between the automatic repair and the menu.
 */
module Cli {
  import opened Types
  import opened Text
  import opened Shell
  import opened Probes
  import opened Diagnostics

  /** The interface the tool is pointed at when none is named. */
  const DefaultInterface := "eth0"

  const RootError := "ERROR: This script must be run as root.\n       Try: sudo python3 eth_repair_menu.py"
  const RootLog := "[ERROR] Not running as root. Re-run with: sudo python3 eth_repair_menu.py"
  const StartPrefix := "[INFO] Ethernet repair helper starting for interface: "
  const DryRunNote := "[INFO] Dry-run mode enabled (no changes will be made)."
  const LogFileNote := "[INFO] Log file (if writable): /tmp/eth_repair.log"

  /** The process may go on: the platform has no `geteuid`, or the effective user is root. */
  predicate IsRoot(env: Env)
  {
    env.euid.None? || env.euid.value == 0
  }

  /** Python's `repr` of a list of names without quotes inside them. */
  function NamesRepr(names: seq<string>): string
  {
    "[" + Join(seq(|names|, i requires 0 <= i < |names| => "'" + names[i] + "'"), ", ") + "]"
  }

  /**
   * `_choose_interface`: a missing "eth0" is replaced by the first candidate
   * interface; any other missing name is refused. An existing "eth0" is
   * probed twice: once by the substitution test and again by the existence
   * test that follows it.
   */
  function ChooseStep(env: Env, w: seq<Event>, iface: string): Step<Option<string>>
  {
    var e := ExistsStep(env, w, iface);
    if iface == DefaultInterface && !e.value then
      var c := CandidatesStep(env, w + e.trace);
      Step(if c.value != [] then Some(c.value[0]) else None, e.trace + c.trace)
    else
      var pre := if iface == DefaultInterface then e.trace else [];
      var e2 := ExistsStep(env, w + pre, iface);
      if e2.value then Step(Some(iface), pre + e2.trace)
      else Step(None, pre + e2.trace + CandidatesStep(env, w + pre + e2.trace).trace)
  }

  /** The events of `_run_auto_repair`: the diagnosis, the coordinator with edits disallowed, the status. */
  function AutoEvents(env: Env, w: seq<Event>, iface: string, dryRun: bool): seq<Event>
  {
    var f := FactsStep(env, w, iface);
    f.trace
      + [Event.Delegate(RepairCoordinator(iface, dryRun, false, Diagnosis(iface, ExpectedScores(f.value)))),
         Event.Delegate(ShowStatus(iface))]
  }

  /** `EthernetRepairApp.run`: the exit code and the events. */
  function RunStep(env: Env, w: seq<Event>, iface: string, dryRun: bool, auto: bool): Step<int>
  {
    if !IsRoot(env) then Step(1, [])
    else
      var s := ChooseStep(env, w, iface);
      if s.value.None? then Step(1, s.trace)
      else if auto || !env.stdinIsTty then Step(0, s.trace + AutoEvents(env, w + s.trace, s.value.value, dryRun))
      else Step(0, s.trace + [Event.Delegate(InteractiveMenu(s.value.value, dryRun))])
  }

  /**
   * The interface choice shared by `_choose_interface` and the menu tool's
   * `main`, with their common log messages.
   */
  method SelectInterface(h: Host, iface: string) returns (name: Option<string>)
    modifies h
    ensures var s := ChooseStep(h.env, old(h.trace), iface); name == s.value && h.trace == old(h.trace) + s.trace
  {
    ghost var w := h.trace;
    if iface == DefaultInterface {
      var present := InterfaceExists(h, iface);
      if !present {
        var candidates := ListCandidateInterfaces(h);
        if candidates != [] {
          h.Log("[INFO] Interface '" + iface + "' not found; auto-selected '" + candidates[0] + "'.");
          return Some(candidates[0]);
        }
        h.Log("[ERROR] Interface '" + iface + "' not found and no usable interfaces detected.");
        return None;
      }
    }
    ghost var first := if iface == DefaultInterface then ExistsStep(h.env, w, iface).trace else [];
    assert h.trace == w + first;
    var present := InterfaceExists(h, iface);
    ghost var e2 := ExistsStep(h.env, w + first, iface);
    AppendAssoc(w, first, e2.trace);
    if !present {
      var candidates := ListCandidateInterfaces(h);
      h.Log("[ERROR] Interface '" + iface + "' does not exist. Detected interfaces: " + NamesRepr(candidates));
      AppendAssoc(w, first + e2.trace, CandidatesStep(h.env, w + first + e2.trace).trace);
      return None;
    }
    return Some(iface);
  }

  /** The start-up lines logged once the interface is settled; nothing runs. */
  method LogStart(h: Host, iface: string, dryRun: bool)
    modifies h
    ensures h.trace == old(h.trace)
    ensures h.log == old(h.log) + [Info(StartPrefix + iface, |h.trace|)]
                     + (if dryRun then [Info(DryRunNote, |h.trace|)] else []) + [Info(LogFileNote, |h.trace|)]
  {
    h.Log(StartPrefix + iface);
    if dryRun {
      h.Log(DryRunNote);
    }
    h.Log(LogFileNote);
  }

  class EthernetRepairApp {
    var interface: string
    const dryRun: bool
    const verbose: bool
    const auto: bool

    constructor (interface: string, dryRun: bool, verbose: bool, auto: bool)
      ensures this.interface == interface && this.dryRun == dryRun
      ensures this.verbose == verbose && this.auto == auto
    {
      this.interface := interface;
      this.dryRun := dryRun;
      this.verbose := verbose;
      this.auto := auto;
    }

    /** `_ensure_root`: refuses a non-root user with a message on standard error and in the log. */
    method EnsureRoot(h: Host) returns (ok: bool)
      modifies h
      ensures ok == IsRoot(h.env) && h.trace == old(h.trace)
      ensures h.log == old(h.log) + (if ok then [] else [Stderr(RootError, |h.trace|), Info(RootLog, |h.trace|)])
    {
      if h.env.euid.Some? && h.env.euid.value != 0 {
        h.PrintError(RootError);
        h.Log(RootLog);
        return false;
      }
      return true;
    }

    /** `_choose_interface`. */
    method ChooseInterface(h: Host) returns (name: Option<string>)
      modifies h
      ensures var s := ChooseStep(h.env, old(h.trace), interface); name == s.value && h.trace == old(h.trace) + s.trace
    {
      name := SelectInterface(h, interface);
    }

    /** `_run_auto_repair`: diagnose, hand the diagnosis to the repair coordinator, show the status. */
    method RunAutoRepair(h: Host)
      modifies h
      ensures h.trace == old(h.trace) + AutoEvents(h.env, old(h.trace), interface, dryRun)
    {
      var diag := Diagnose(h, interface);
      h.Delegate(RepairCoordinator(interface, dryRun, false, diag));
      h.Delegate(ShowStatus(interface));
    }

    /** `run`: the root gate, the interface choice (stored in `interface`), then the automatic repair or the menu. */
    method Run(h: Host) returns (code: int)
      modifies this, h
      ensures var r := RunStep(h.env, old(h.trace), old(interface), dryRun, auto);
        code == r.value && h.trace == old(h.trace) + r.trace
      ensures var s := ChooseStep(h.env, old(h.trace), old(interface));
        interface == (if IsRoot(h.env) && s.value.Some? then s.value.value else old(interface))
    {
      var ok := EnsureRoot(h);
      if !ok {
        return 1;
      }
      ghost var w := h.trace;
      var iface := ChooseInterface(h);
      if iface.None? {
        return 1;
      }
      interface := iface.value;
      LogStart(h, interface, dryRun);
      if auto || !h.env.stdinIsTty {
        ghost var s := ChooseStep(h.env, w, old(interface));
        RunAutoRepair(h);
        AppendAssoc(w, s.trace, AutoEvents(h.env, w + s.trace, interface, dryRun));
        return 0;
      }
      h.Delegate(InteractiveMenu(interface, dryRun));
      return 0;
    }
  }

  /**
   * A non-root run exits with 1 before any probe, and a refused interface
   * makes the run exit with 1; otherwise the run exits with 0.
   */
  lemma RunExitCodes(env: Env, w: seq<Event>, iface: string, dryRun: bool, auto: bool)
    ensures !IsRoot(env) ==> RunStep(env, w, iface, dryRun, auto) == Step(1, [])
    ensures RunStep(env, w, iface, dryRun, auto).value == 1
            <==> !IsRoot(env) || ChooseStep(env, w, iface).value.None?
    ensures RunStep(env, w, iface, dryRun, auto).value in {0, 1}
  {
  }

  /**
   * The automatic path (or any run without a terminal) hands one repair to
   * the coordinator, with resolv.conf edits disallowed; the interactive
   * path hands the interface to the menu.
   */
  lemma RunDispatch(env: Env, w: seq<Event>, iface: string, dryRun: bool, auto: bool)
    requires IsRoot(env) && ChooseStep(env, w, iface).value.Some?
    ensures var s := ChooseStep(env, w, iface);
      var t := RunStep(env, w, iface, dryRun, auto).trace;
      var name := s.value.value;
      (auto || !env.stdinIsTty ==>
         |t| == |s.trace| + |FactsStep(env, w + s.trace, name).trace| + 2
         && t[|t| - 2].task.RepairCoordinator? && !t[|t| - 2].task.allowEdit
         && t[|t| - 2].task.iface == name && t[|t| - 1] == Event.Delegate(ShowStatus(name)))
      && (!auto && env.stdinIsTty ==> t == s.trace + [Event.Delegate(InteractiveMenu(name, dryRun))])
  {
  }

  /**
   * The choice of interface: a missing "eth0" becomes the first candidate
   * if there is one, and nothing otherwise; any other missing name is
   * refused even when candidates exist; a name found present is kept.
   */
  lemma ChooseRules(env: Env, w: seq<Event>, iface: string)
    ensures var e := ExistsStep(env, w, iface);
      var c := CandidatesStep(env, w + e.trace).value;
      var r := ChooseStep(env, w, iface).value;
      (iface == DefaultInterface && !e.value ==> r == (if c != [] then Some(c[0]) else None))
      && (iface != DefaultInterface ==> r == (if e.value then Some(iface) else None))
      && (iface == DefaultInterface && e.value ==>
            r == (if ExistsStep(env, w + e.trace, iface).value then Some(iface) else None))
  {
    if iface != DefaultInterface {
      assert w + [] == w;
    }
  }
}
