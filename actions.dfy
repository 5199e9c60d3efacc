/**
 * Running one repair action: describe it, show the command, then either
 * pretend (dry run) or execute it and report failure.
 */
module Actions {
  import opened Types
  import opened Text
  import opened Shell

  /** A repair action: what it is for and the command that performs it. */
  datatype Action = Action(desc: string, cmd: seq<string>)

  /** Seconds an action's command may run. */
  const ActionTimeout: nat := 20

  /** The events `apply_action` appends: the announcement, then the command unless in dry run. */
  function ActionEvents(a: Action, dryRun: bool): seq<Event>
  {
    [Announce(a.desc, a.cmd)] + (if dryRun then [] else [Exec(a.cmd, ActionTimeout)])
  }

  /** What `apply_action` returns after trace `w`: true in dry run, otherwise whether the command exited 0. */
  function ActionSucceeds(env: Env, w: seq<Event>, a: Action, dryRun: bool): bool
  {
    dryRun || Answer(env, w + [Announce(a.desc, a.cmd)], a.cmd, ActionTimeout).returncode == 0
  }

  /** The warning `apply_action` logs for a failed command. */
  function FailureMessage(cmd: seq<string>, res: CommandResult): string
  {
    "[WARN] Action failed (rc=" + IntToString(res.returncode) + "): " + CmdStr(cmd)
      + " stderr=" + Trim(res.stderr)
  }

  /** `apply_action(desc, cmd, dry_run)`. */
  method ApplyAction(h: Host, desc: string, cmd: seq<string>, dryRun: bool) returns (ok: bool)
    modifies h
    ensures h.trace == old(h.trace) + ActionEvents(Action(desc, cmd), dryRun)
    ensures ok == ActionSucceeds(h.env, old(h.trace), Action(desc, cmd), dryRun)
    ensures var res := Answer(h.env, old(h.trace) + [Announce(desc, cmd)], cmd, ActionTimeout);
      h.log == old(h.log)
               + [Info("[ACTION] " + desc, |old(h.trace)|), Info("         " + CmdStr(cmd), |old(h.trace)|)]
               + (if ok then [] else [Info(FailureMessage(cmd, res), |old(h.trace)| + 2)])
  {
    h.Announce(desc, cmd);
    if dryRun {
      return true;
    }
    var res := h.Run(cmd, ActionTimeout);
    if res.returncode != 0 {
      h.Log(FailureMessage(cmd, res));
      return false;
    }
    return true;
  }

  /** The commands a sequence of actions announces, in order. */
  function Cmds(acts: seq<Action>): (r: seq<seq<string>>)
    ensures |r| == |acts|
    ensures forall k :: 0 <= k < |acts| ==> r[k] == acts[k].cmd
  {
    if acts == [] then [] else [acts[0].cmd] + Cmds(acts[1..])
  }

  /** The events of running actions one after another, ignoring their results. */
  function ActionsEvents(acts: seq<Action>, dryRun: bool): seq<Event>
  {
    if acts == [] then [] else ActionEvents(acts[0], dryRun) + ActionsEvents(acts[1..], dryRun)
  }

  /**
   * Actions run one after another announce their commands in order; in dry run
   * nothing is executed, otherwise each announced command is executed once.
   */
  lemma {:induction false} ActionsEventsProps(acts: seq<Action>, dryRun: bool)
    ensures Announced(ActionsEvents(acts, dryRun)) == Cmds(acts)
    ensures Commands(ActionsEvents(acts, dryRun)) == if dryRun then [] else Cmds(acts)
  {
    if acts != [] {
      var a := ActionEvents(acts[0], dryRun);
      ActionsEventsProps(acts[1..], dryRun);
      AnnouncedAppend(a, ActionsEvents(acts[1..], dryRun));
      CommandsAppend(a, ActionsEvents(acts[1..], dryRun));
      assert a == [Announce(acts[0].desc, acts[0].cmd)] + (if dryRun then [] else [Exec(acts[0].cmd, ActionTimeout)]);
      AnnouncedAppend([Announce(acts[0].desc, acts[0].cmd)], if dryRun then [] else [Exec(acts[0].cmd, ActionTimeout)]);
      CommandsAppend([Announce(acts[0].desc, acts[0].cmd)], if dryRun then [] else [Exec(acts[0].cmd, ActionTimeout)]);
    }
  }

  /**
   * In dry run an action is announced and nothing runs; otherwise it is
   * announced and then run exactly once, and it succeeds iff its exit code is 0.
   */
  lemma ActionEventsProps(env: Env, w: seq<Event>, a: Action, dryRun: bool)
    ensures Announced(ActionEvents(a, dryRun)) == [a.cmd]
    ensures Commands(ActionEvents(a, dryRun)) == if dryRun then [] else [a.cmd]
    ensures ActionEvents(a, dryRun)[0] == Announce(a.desc, a.cmd)
    ensures dryRun ==> ActionSucceeds(env, w, a, dryRun)
    ensures !dryRun ==>
      (ActionSucceeds(env, w, a, dryRun)
       <==> Answer(env, w + [Announce(a.desc, a.cmd)], a.cmd, ActionTimeout).returncode == 0)
  {
    ActionsEventsProps([a], dryRun);
    assert ActionsEvents([a], dryRun) == ActionEvents(a, dryRun) + [];
    assert ActionEvents(a, dryRun) + [] == ActionEvents(a, dryRun);
  }

  /** A sequence of actions in dry run issues no command at all. */
  lemma DryRunIssuesNothing(acts: seq<Action>)
    ensures Commands(ActionsEvents(acts, true)) == []
  {
    ActionsEventsProps(acts, true);
  }

  /** Running actions one group after another gives the events of the joined group. */
  lemma {:induction false} ActionsEventsAppend(a: seq<Action>, b: seq<Action>, dryRun: bool)
    ensures ActionsEvents(a + b, dryRun) == ActionsEvents(a, dryRun) + ActionsEvents(b, dryRun)
  {
    if a != [] {
      assert (a + b)[0] == a[0];
      assert (a + b)[1..] == a[1..] + b;
      ActionsEventsAppend(a[1..], b, dryRun);
    } else {
      assert a + b == b;
    }
  }

  /** Events an action can append: announcements and commands run with the action timeout. */
  predicate OnlyActionEvents(es: seq<Event>)
  {
    forall j :: 0 <= j < |es| ==> es[j].Announce? || (es[j].Exec? && es[j].timeout == ActionTimeout)
  }

  /** Running actions appends nothing but announcements and action commands. */
  lemma {:induction false} ActionsEventsOnly(acts: seq<Action>, dryRun: bool)
    ensures OnlyActionEvents(ActionsEvents(acts, dryRun))
  {
    if acts != [] {
      ActionsEventsOnly(acts[1..], dryRun);
      var a: seq<Event> := ActionEvents(acts[0], dryRun);
      var r: seq<Event> := ActionsEvents(acts[1..], dryRun);
      forall j | 0 <= j < |a + r|
        ensures (a + r)[j].Announce? || ((a + r)[j].Exec? && (a + r)[j].timeout == ActionTimeout)
      {
        if j >= |a| {
          assert (a + r)[j] == r[j - |a|];
        }
      }
    }
  }
}
