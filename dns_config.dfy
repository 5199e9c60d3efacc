/** systemd-resolved status, the wiring of `/etc/resolv.conf`, and the commands that change them. */
module DnsConfig {
  import opened Types
  import opened Text
  import opened Shell
  import opened Actions
  import opened Probes

  const ResolvConfPath := "/etc/resolv.conf"
  const StubTarget := "/run/systemd/resolve/stub-resolv.conf"
  const FullTarget := "/run/systemd/resolve/resolv.conf"

  // ---------------------------------------------------------------------
  // systemd-resolved status
  // ---------------------------------------------------------------------

  /** The result of `systemd_resolved_status`: `enabled` is None when systemctl could not tell. */
  datatype ResolvedStatus = ResolvedStatus(active: bool, enabled: Option<bool>)

  /** `systemctl is-enabled` exit code 0 means enabled, 1 disabled, anything else unknown. */
  function EnabledOf(rc: int): (r: Option<bool>)
    ensures r == Some(true) <==> rc == 0
    ensures r == Some(false) <==> rc == 1
    ensures r == None <==> rc != 0 && rc != 1
  {
    if rc == 0 then Some(true) else if rc == 1 then Some(false) else None
  }

  function IsEnabledCmd(unit: string): seq<string>
  {
    ["systemctl", "is-enabled", unit]
  }

  /** `systemd_resolved_status`: `is-active`, then `is-enabled`, both with the default timeout. */
  function StatusStep(env: Env, w: seq<Event>): Step<ResolvedStatus>
  {
    var e1 := Exec(IsActiveCmd("systemd-resolved"), DefaultTimeout);
    var active := Answer(env, w, IsActiveCmd("systemd-resolved"), DefaultTimeout).returncode == 0;
    var enabled := Answer(env, w + [e1], IsEnabledCmd("systemd-resolved"), DefaultTimeout).returncode;
    Step(ResolvedStatus(active, EnabledOf(enabled)), [e1, Exec(IsEnabledCmd("systemd-resolved"), DefaultTimeout)])
  }

  method SystemdResolvedStatus(h: Host) returns (status: ResolvedStatus)
    modifies h
    ensures var s := StatusStep(h.env, old(h.trace)); status == s.value && h.trace == old(h.trace) + s.trace
  {
    ghost var w := h.trace;
    var activeRes := h.Run(IsActiveCmd("systemd-resolved"), DefaultTimeout);
    var enabledRes := h.Run(IsEnabledCmd("systemd-resolved"), DefaultTimeout);
    var active := activeRes.returncode == 0;
    var enabled: Option<bool>;
    if enabledRes.returncode == 0 {
      enabled := Some(true);
    } else if enabledRes.returncode == 1 {
      enabled := Some(false);
    } else {
      enabled := None;
    }
    status := ResolvedStatus(active, enabled);
    assert h.trace == w + StatusStep(h.env, w).trace;
  }

  /** The status reports active exactly when `is-active` exits 0, and issues the two queries in order. */
  lemma StatusStepProps(env: Env, w: seq<Event>)
    ensures var s := StatusStep(env, w);
      (s.value.active <==> Answer(env, w, IsActiveCmd("systemd-resolved"), DefaultTimeout).returncode == 0)
      && Commands(s.trace) == [IsActiveCmd("systemd-resolved"), IsEnabledCmd("systemd-resolved")]
      && Announced(s.trace) == []
  {
    var s := StatusStep(env, w);
    assert s.trace[1..][1..] == [];
  }

  // ---------------------------------------------------------------------
  // resolv.conf mode
  // ---------------------------------------------------------------------

  /** `detect_resolv_conf_mode` for what the file system says about `/etc/resolv.conf`. */
  function ModeOf(info: FileInfo): (ResolvConfMode, string)
  {
    if !info.present then (Other, "[missing]")
    else if info.isLink then
      if info.realPath == StubTarget then (SystemdStub, info.realPath)
      else if info.realPath == FullTarget then (SystemdFull, info.realPath)
      else (Other, "[symlink → " + info.realPath + "]")
    else (Manual, "[regular file]")
  }

  /**
   * A missing file or a symbolic link elsewhere is OTHER, a link to the stub
   * or the full resolver file is SYSTEMD_STUB or SYSTEMD_FULL, and a regular
   * file is MANUAL.
   */
  lemma ModeOfCases(info: FileInfo)
    ensures ModeOf(info).0 == SystemdStub <==> info.present && info.isLink && info.realPath == StubTarget
    ensures ModeOf(info).0 == SystemdFull <==> info.present && info.isLink && info.realPath == FullTarget
    ensures ModeOf(info).0 == Manual <==> info.present && !info.isLink
    ensures ModeOf(info).0 == Other <==>
      !info.present || (info.isLink && info.realPath != StubTarget && info.realPath != FullTarget)
  {
  }

  function ModeStep(env: Env, w: seq<Event>): Step<(ResolvConfMode, string)>
  {
    Step(ModeOf(env.inspect(w, ResolvConfPath)), [Event.Inspect(ResolvConfPath)])
  }

  method DetectResolvConfMode(h: Host) returns (mode: ResolvConfMode, detail: string)
    modifies h
    ensures var s := ModeStep(h.env, old(h.trace)); (mode, detail) == s.value && h.trace == old(h.trace) + s.trace
  {
    var info := h.Inspect(ResolvConfPath);
    if !info.present {
      return Other, "[missing]";
    }
    if info.isLink {
      var target := info.realPath;
      if target == StubTarget {
        return SystemdStub, target;
      }
      if target == FullTarget {
        return SystemdFull, target;
      }
      return Other, "[symlink → " + target + "]";
    }
    return Manual, "[regular file]";
  }

  // ---------------------------------------------------------------------
  // Changing the configuration
  // ---------------------------------------------------------------------

  const BackupCmd: seq<string> := ["cp", "/etc/resolv.conf", "/etc/resolv.conf.bak"]
  const Backup := Action("Backup /etc/resolv.conf to /etc/resolv.conf.bak", BackupCmd)

  /** `backup_resolv_conf`: look for the file, and copy it aside only if it is there. */
  function BackupEvents(env: Env, w: seq<Event>, dryRun: bool): seq<Event>
  {
    [Event.Inspect(ResolvConfPath)]
      + (if env.inspect(w, ResolvConfPath).present then ActionEvents(Backup, dryRun) else [])
  }

  method BackupResolvConf(h: Host, dryRun: bool)
    modifies h
    ensures h.trace == old(h.trace) + BackupEvents(h.env, old(h.trace), dryRun)
  {
    var info := h.Inspect(ResolvConfPath);
    if !info.present {
      return;
    }
    var _ := ApplyAction(h, Backup.desc, Backup.cmd, dryRun);
  }

  /** No command is issued when the file is absent; otherwise exactly the copy, announced and (outside dry run) run. */
  lemma BackupEventsProps(env: Env, w: seq<Event>, dryRun: bool)
    ensures var present := env.inspect(w, ResolvConfPath).present;
      Announced(BackupEvents(env, w, dryRun)) == (if present then [BackupCmd] else [])
      && Commands(BackupEvents(env, w, dryRun)) == (if present && !dryRun then [BackupCmd] else [])
  {
    var present := env.inspect(w, ResolvConfPath).present;
    var tail := if present then ActionEvents(Backup, dryRun) else [];
    ActionEventsProps(env, w, Backup, dryRun);
    AnnouncedAppend([Event.Inspect(ResolvConfPath)], tail);
    CommandsAppend([Event.Inspect(ResolvConfPath)], tail);
  }

  function SymlinkAction(target: string): Action
  {
    Action("Point /etc/resolv.conf symlink to " + target, ["ln", "-sf", target, "/etc/resolv.conf"])
  }

  const ManualScript := "printf '%s\n' 'nameserver 1.1.1.1' 'nameserver 8.8.8.8' > /etc/resolv.conf"
  const ManualPublic := Action("Write manual resolv.conf (1.1.1.1 / 8.8.8.8)", ["bash", "-c", ManualScript])

  /** A backup followed by one write action. */
  function BackupThen(env: Env, w: seq<Event>, write: Action, dryRun: bool): seq<Event>
  {
    var b := BackupEvents(env, w, dryRun);
    b + ActionEvents(write, dryRun)
  }

  method SetResolvConfSymlink(h: Host, target: string, dryRun: bool)
    modifies h
    ensures h.trace == old(h.trace) + BackupThen(h.env, old(h.trace), SymlinkAction(target), dryRun)
  {
    BackupResolvConf(h, dryRun);
    var a := SymlinkAction(target);
    var _ := ApplyAction(h, a.desc, a.cmd, dryRun);
  }

  method SetResolvConfManualPublic(h: Host, dryRun: bool)
    modifies h
    ensures h.trace == old(h.trace) + BackupThen(h.env, old(h.trace), ManualPublic, dryRun)
  {
    BackupResolvConf(h, dryRun);
    var _ := ApplyAction(h, ManualPublic.desc, ManualPublic.cmd, dryRun);
  }

  /**
   * A write is always announced after the backup (when the file exists), and
   * in the same order it is executed outside dry run.
   */
  lemma BackupThenProps(env: Env, w: seq<Event>, write: Action, dryRun: bool)
    ensures var present := env.inspect(w, ResolvConfPath).present;
      Announced(BackupThen(env, w, write, dryRun)) == (if present then [BackupCmd] else []) + [write.cmd]
      && Commands(BackupThen(env, w, write, dryRun))
         == (if dryRun then [] else (if present then [BackupCmd] else []) + [write.cmd])
  {
    BackupEventsProps(env, w, dryRun);
    ActionEventsProps(env, w, write, dryRun);
    AnnouncedAppend(BackupEvents(env, w, dryRun), ActionEvents(write, dryRun));
    CommandsAppend(BackupEvents(env, w, dryRun), ActionEvents(write, dryRun));
  }

  function EnableAction(enabled: bool): Action
  {
    if enabled then Action("Enable and start systemd-resolved", ["systemctl", "enable", "--now", "systemd-resolved"])
    else Action("Disable and stop systemd-resolved", ["systemctl", "disable", "--now", "systemd-resolved"])
  }

  method SetSystemdResolvedEnabled(h: Host, enabled: bool, dryRun: bool)
    modifies h
    ensures h.trace == old(h.trace) + ActionEvents(EnableAction(enabled), dryRun)
  {
    if enabled {
      var _ := ApplyAction(h, "Enable and start systemd-resolved",
                           ["systemctl", "enable", "--now", "systemd-resolved"], dryRun);
    } else {
      var _ := ApplyAction(h, "Disable and stop systemd-resolved",
                           ["systemctl", "disable", "--now", "systemd-resolved"], dryRun);
    }
  }

  /** Exactly one command is announced: `enable --now` or `disable --now` of systemd-resolved. */
  lemma EnableActionProps(env: Env, w: seq<Event>, enabled: bool, dryRun: bool)
    ensures Announced(ActionEvents(EnableAction(enabled), dryRun))
         == [["systemctl", if enabled then "enable" else "disable", "--now", "systemd-resolved"]]
    ensures Commands(ActionEvents(EnableAction(enabled), dryRun))
         == if dryRun then [] else Announced(ActionEvents(EnableAction(enabled), dryRun))
  {
    ActionEventsProps(env, w, EnableAction(enabled), dryRun);
  }
}
