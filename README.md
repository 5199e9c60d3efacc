# automatic_linux_network_repair, modelled in Dafny

A model of the decision logic of `automatic_linux_network_repair`, a tool that diagnoses and repairs a Linux host's network connection. It covers these parts:

- The Ethernet diagnosis. It turns probe facts into scores for six suspicions, escalates the DNS score by the resolv.conf mode, and ranks the scores.
- The parsers that read `ip`, `systemctl`, `getent` and `tailscale` output.
- The resolv.conf and systemd-resolved helpers.
- The repair playbook. This includes the dry-run gate of `apply_action`, the DHCP tiers with stop-on-success, manager priority, backup-before-write, and the confirmation step of the DNS repair.
- The entry flow of the `EthernetRepairApp` CLI and of the single-file menu tool.
- The Wi-Fi helpers: security labels, the `nmcli`, `wpa_cli`, `iwctl` and `iwlist` backends, and backend and interface detection.
- The systemd tooling: the `cat-config` dump parser and writer, the commented-settings extractor, drop-in paths, the resolved.conf lint, and the validation of a unit-file tree.

## How the machine is modelled

Everything the tool does to or learns from the machine is an event on the trace of one `Shell.Host` object:

- `Exec(argv, timeout)`: a command run;
- `Which`: a binary looked up;
- `Inspect`: a path looked at;
- `Ask`: a prompt answered;
- `Lookup`: a host name resolved;
- `Announce`: the two "[ACTION]" lines of `apply_action`;
- `Delegate`: work handed to a component that is not modelled.

Log lines are kept apart from the trace. Each log line is stamped with the trace length at the moment it was written, so "logged before it ran" can be stated.

The machine's answers come from an `Env` value. Each answer is a function of the trace so far, so a probe repeated after a repair may give a different answer. `Env` holds:

- the command result;
- whether a binary is installed;
- what a path is;
- what the user types;
- whether a name resolves;
- whether stdin is a TTY;
- the effective user id.

Each operation has two parts:

- A specification function returns `Step(value, trace)`: the result, and the events the operation appends after a given trace.
- A method on the `Host` does the source's steps one by one. Its contract says that its result and its new trace are exactly that `Step`.

Lemmas then state what the source promises about the specification functions: the order of commands, which commands are never issued, when the tool stops, and round trips. The main proofs are Repairs.TiersStopOnSuccess (the IPv4 escalation stops at the first tier whose probe succeeds), SystemdPanel.SchemaRoundTrip (a written dump parses back), WifiManager.ConnectFromOutcome (the connect fallback over the backends) and SystemdValidation.TreeStepMeans (the systemd tree validation).

Scores are integer hundredths: 100 stands for 1.0 and 95 for 0.95. Python's string helpers are written out over explicit character sets. These include `splitlines`, `strip`, `split`, `lower`, `isdigit`, `isidentifier` and `shlex.quote`. Sorting of strings is Python's order on code points.

Where the code and its tests disagree, the model follows the code:

- `repair_no_ipv4` has no NetworkManager tier, although the tests expect one.
- tests/test_systemd_panel.py:200-228 expect a final confirmation step in the interactive dump editor. That step does not exist in the code, and the editor itself is not modelled (see below).

Further points about what the code does:

- `_extract_commented_settings` strips every leading `#` and `;` from a comment line (src/automatic_linux_network_repair/systemd_panel.py:126-128). So a `##Key=value` line is captured. Only text that starts with `#` again after that strip, as in `# #`, is skipped.
- src/automatic_linux_network_repair/eth_repair/repairs.py defines no `EthernetRepairCoordinator`, although src/automatic_linux_network_repair/eth_repair/cli.py:15 imports it from there. The CLI's call to it is a `Delegate` event that records the interface, the dry-run flag and `allow_resolv_conf_edit=False`.
- The systemd dump tooling is modelled.

## Model

| member | source | states |
|---|---|---|
| Shell.Answer | src/automatic_linux_network_repair/eth_repair/shell.py:25-57 | the result carries the command it answers, and a command that fails to start gives return code 255 with empty stdout |
| Shell.Host.Run | src/automatic_linux_network_repair/eth_repair/shell.py:25-57 | running a command records it with its timeout in the trace and returns the oracle's answer for it |
| Types.SuspicionsClosed | src/automatic_linux_network_repair/eth_repair/types.py:17-23 | every suspicion is one of the six tags, each listed once |
| Types.LabelsTotal | src/automatic_linux_network_repair/eth_repair/types.py:26-33 | every suspicion has a non-empty label, and the labelled keys are exactly the six suspicions |
| Types.SortDescPerm | src/automatic_linux_network_repair/eth_repair/types.py:43-49 | the ranked scores hold exactly the diagnosis's entries (a permutation) |
| Types.SortDescOrdered | src/automatic_linux_network_repair/eth_repair/types.py:43-49 | the ranked scores are non-increasing |
| Types.SortDescStable | src/automatic_linux_network_repair/eth_repair/types.py:43-49 | entries of equal score keep their insertion order (Python's sort is stable) |
| Types.SortDescHead | src/automatic_linux_network_repair/eth_repair/types.py:43-49 | the first ranked entry is the earliest entry with the largest score |
| Types.TopSuspicionIsMax | src/automatic_linux_network_repair/eth_repair/types.py:51-55 | the top suspicion is the earliest suspicion with the highest score |
| Types.TopSuspicionEmpty | src/automatic_linux_network_repair/eth_repair/types.py:51-55 | a diagnosis without scores points at NO_INTERNET |
| Actions.ApplyAction | src/automatic_linux_network_repair/eth_repair/actions.py:9-20 | logs "[ACTION] desc" and the quoted command before anything runs; in dry run runs nothing and returns true; otherwise runs the command once with a 20-second limit and returns whether it exited 0, logging the warning with rc, command and stripped stderr on failure |
| Actions.ActionEventsProps | src/automatic_linux_network_repair/eth_repair/actions.py:9-20 | one action is announced first and then run exactly once unless in dry run; it succeeds iff the exit code is 0 |
| Actions.ActionsEventsProps | src/automatic_linux_network_repair/eth_repair/actions.py:9-20 | actions run one after another announce their commands in order, and execute exactly those commands unless in dry run |
| Actions.DryRunIssuesNothing | src/automatic_linux_network_repair/eth_repair/actions.py:12-13 | in dry run a sequence of actions executes no command at all |
| Actions.ActionsEventsOnly | src/automatic_linux_network_repair/eth_repair/actions.py:9-20 | actions append only announcements and commands with the 20-second action timeout |
| Diagnostics.FuzzyDiagnose | src/automatic_linux_network_repair/eth_repair/diagnostics.py:22-88 | updating the score dictionary in place gives one entry per suspicion, in declaration order, each scored by the rule table |
| Diagnostics.Diagnose | src/automatic_linux_network_repair/eth_repair/diagnostics.py:21-39 | probes in the source's order (link and address only for an existing interface, then route, ping of 8.8.8.8, DNS, systemd-resolved status, resolv.conf mode), then scores those facts |
| Diagnostics.ScoresComplete | src/automatic_linux_network_repair/eth_repair/diagnostics.py:22-29 | the diagnosis has each suspicion exactly once and every score is between 0 and 1.0 |
| Diagnostics.MissingInterface | src/automatic_linux_network_repair/eth_repair/diagnostics.py:56-58 | a missing interface scores INTERFACE_MISSING 1.0 and every other suspicion 0 |
| Diagnostics.ConnectivityWeights | src/automatic_linux_network_repair/eth_repair/diagnostics.py:60-70 | each failed connectivity probe sets its fixed weight (0.8, 0.7, 0.6, 0.6) and a passing one leaves 0 |
| Diagnostics.DnsRules | src/automatic_linux_network_repair/eth_repair/diagnostics.py:72-86 | DNS is 0 when names resolve; otherwise 0.9 with ping or 0.4 without, raised to 1.0, 0.95 or 0.8 by the first matching resolver rule |
| Diagnostics.EscalateMonotone | src/automatic_linux_network_repair/eth_repair/diagnostics.py:77-86 | escalation never lowers a score, leaves 0 alone and stays within 1.0 |
| Diagnostics.TopIsFirstDeclaredMax | src/automatic_linux_network_repair/eth_repair/diagnostics.py:22-29 | the top suspicion is the first suspicion in declaration order with the largest score |
| Diagnostics.StubWithoutResolved | src/automatic_linux_network_repair/eth_repair/diagnostics.py:72-86 | with everything up but names failing and the stub resolver configured while systemd-resolved is down, DNS_BROKEN is 1.0 and the top suspicion |
| Diagnostics.ItemsOfTable | src/automatic_linux_network_repair/eth_repair/diagnostics.py:22-88 | the dictionary the diagnoser fills, listed in insertion order, is the rule table entry for each suspicion in declaration order |
| DnsConfig.EnabledOf | src/automatic_linux_network_repair/eth_repair/dns_config.py:21-26 | `is-enabled` exit code 0 means enabled, 1 disabled, any other code unknown (each as an if-and-only-if) |
| DnsConfig.SystemdResolvedStatus | src/automatic_linux_network_repair/eth_repair/dns_config.py:14-28 | runs `is-active` then `is-enabled` and returns the status the two exit codes determine |
| DnsConfig.StatusStepProps | src/automatic_linux_network_repair/eth_repair/dns_config.py:14-28 | active holds iff `is-active` exits 0; exactly the two queries run, in order, and nothing is announced |
| DnsConfig.ModeOfCases | src/automatic_linux_network_repair/eth_repair/dns_config.py:31-49 | absent or a link elsewhere is OTHER, a link to the stub or full resolver file is SYSTEMD_STUB or SYSTEMD_FULL, a regular file is MANUAL (each as an if-and-only-if) |
| DnsConfig.DetectResolvConfMode | src/automatic_linux_network_repair/eth_repair/dns_config.py:31-49 | inspects /etc/resolv.conf once and returns the mode and detail of those facts |
| DnsConfig.BackupResolvConf | src/automatic_linux_network_repair/eth_repair/dns_config.py:52-59 | looks for the file and applies the copy action only when it is there |
| DnsConfig.BackupEventsProps | src/automatic_linux_network_repair/eth_repair/dns_config.py:52-59 | no command when the file is absent; otherwise exactly `cp /etc/resolv.conf /etc/resolv.conf.bak` (run unless in dry run) |
| DnsConfig.SetResolvConfSymlink | src/automatic_linux_network_repair/eth_repair/dns_config.py:62-68 | the backup, then the `ln -sf target /etc/resolv.conf` action |
| DnsConfig.SetResolvConfManualPublic | src/automatic_linux_network_repair/eth_repair/dns_config.py:71-86 | the backup, then the action writing the two public name servers |
| DnsConfig.BackupThenProps | src/automatic_linux_network_repair/eth_repair/dns_config.py:62-86 | the backup (when the file exists) is announced and run before the write command |
| DnsConfig.SetSystemdResolvedEnabled | src/automatic_linux_network_repair/eth_repair/dns_config.py:89-101 | applies the enable or the disable action |
| DnsConfig.EnableActionProps | src/automatic_linux_network_repair/eth_repair/dns_config.py:89-101 | exactly one command, `systemctl enable --now` or `disable --now systemd-resolved` |
| Probes.ParseLinkUp | src/automatic_linux_network_repair/eth_repair/probes.py:16-23 | the link is up iff the command succeeded and some stdout line contains "state UP"; a non-zero return code gives false |
| Probes.ParseIpAddrs | src/automatic_linux_network_repair/eth_repair/probes.py:26-43 | the addresses of the `ip addr` answer: [] on a non-zero return code, otherwise the second token of each stripped "inet "/"inet6 " line with two tokens, in line order |
| Probes.AddrsOfSound | src/automatic_linux_network_repair/eth_repair/probes.py:36-43 | every returned address is a non-empty token without whitespace, taken from one of the output lines |
| Probes.AddrsOfAppend | src/automatic_linux_network_repair/eth_repair/probes.py:37-43 | the lines are read independently and in order: the addresses of two blocks of lines are the addresses of the first block followed by those of the second |
| Probes.AddrsOfNonEmptyIff | src/automatic_linux_network_repair/eth_repair/probes.py:37-43 | some address is returned iff some line carries one |
| Probes.HasIpv4Iff | src/automatic_linux_network_repair/eth_repair/probes.py:46-47 | `interface_has_ipv4` holds iff the `ip -4` command succeeded and some output line carries an address |
| Probes.ParseDefaultRoute | src/automatic_linux_network_repair/eth_repair/probes.py:50-57 | a default route exists iff the command succeeded and some unstripped line starts with "default " |
| Probes.ResolvesOf | src/automatic_linux_network_repair/eth_repair/probes.py:68-72 | the name resolves iff `getent` succeeded and its output has a non-whitespace character |
| Probes.DnsStepProps | src/automatic_linux_network_repair/eth_repair/probes.py:68-72 | the default lookup issues exactly `getent hosts deb.debian.org` and announces nothing |
| Probes.ManagersStepProps | src/automatic_linux_network_repair/eth_repair/probes.py:75-91 | manager detection runs the two `is-active` queries, NetworkManager first, and nothing else; NetworkManager counts as active iff its query exits 0 |
| Probes.VpnUnitsOfIff | src/automatic_linux_network_repair/eth_repair/probes.py:121-137 | a unit is collected iff it ends in ".service", its lowercased name contains one of the four keywords, and it is the first column of some line |
| Probes.ParseVpnServices | src/automatic_linux_network_repair/eth_repair/probes.py:109-139 | computes the VPN-services listing of the answer to `systemctl list-units` |
| Probes.VpnServicesSpec | src/automatic_linux_network_repair/eth_repair/probes.py:109-139 | [] on failure or empty output; otherwise a strictly sorted (so duplicate-free) list holding exactly the qualifying first-column units |
| Probes.ParseCandidateInterfaces | src/automatic_linux_network_repair/eth_repair/probes.py:142-177 | computes the candidate listing of the `ip -o link show` answer: [] on a non-zero return code, else one entry per qualifying line in line order |
| Probes.CandidatesOfSound | src/automatic_linux_network_repair/eth_repair/probes.py:152-175 | every name returned is not "lo", has none of the seven skipped prefixes, contains no '@', and is the second ':' field, cut at '@', of some line |
| Probes.CandidatesOfComplete | src/automatic_linux_network_repair/eth_repair/probes.py:152-175 | every line with two ':' fields whose name qualifies contributes that name |
| Probes.InterfaceExists | src/automatic_linux_network_repair/eth_repair/probes.py:11-13 | one `ip link show dev` command; the interface exists iff it exits 0 |
| Probes.InterfaceLinkUp | src/automatic_linux_network_repair/eth_repair/probes.py:16-23 | one `ip link show dev` command, then the link-up reading of its answer |
| Probes.InterfaceIpAddrs | src/automatic_linux_network_repair/eth_repair/probes.py:26-43 | one `ip -4` or `ip -6 addr show dev` command (family 4 picks -4), then the addresses of its answer |
| Probes.InterfaceHasIpv4 | src/automatic_linux_network_repair/eth_repair/probes.py:46-47 | one `ip -4 addr show` command, then whether its answer carries an address |
| Probes.HasDefaultRoute | src/automatic_linux_network_repair/eth_repair/probes.py:50-57 | one `ip route show default` command, then the default-route reading of its answer |
| Probes.PingHost | src/automatic_linux_network_repair/eth_repair/probes.py:60-65 | one `ping -c count -w timeout host` command with timeout+1; success iff it exits 0 |
| Probes.DnsResolves | src/automatic_linux_network_repair/eth_repair/probes.py:68-72 | one `getent hosts name` command, then whether the answer resolves |
| Probes.DetectNetworkManagers | src/automatic_linux_network_repair/eth_repair/probes.py:75-91 | the trace and result of manager detection: two `is-active` queries and a lookup of `ifup` |
| Probes.TailscaleStatus | src/automatic_linux_network_repair/eth_repair/probes.py:94-106 | installed iff `tailscale` is found; not installed means inactive and no command; otherwise one `is-active tailscaled` query decides active |
| Probes.DetectActiveVpnServices | src/automatic_linux_network_repair/eth_repair/probes.py:109-139 | one `systemctl list-units` command, then the VPN listing of its answer |
| Probes.ListCandidateInterfaces | src/automatic_linux_network_repair/eth_repair/probes.py:142-177 | one `ip -o link show` command, then the candidate listing of its answer |
| Repairs.RepairInterfaceMissing | src/automatic_linux_network_repair/eth_repair/repairs.py:25-30 | issues no command and only logs the two hint lines |
| Repairs.RepairLinkDown | src/automatic_linux_network_repair/eth_repair/repairs.py:33-38 | applies the single `ip link set iface up` action |
| Repairs.LinkDownProps | src/automatic_linux_network_repair/eth_repair/repairs.py:33-38 | the link repair announces exactly `ip link set iface up` and runs exactly that unless in dry run |
| Repairs.Tiers | src/automatic_linux_network_repair/eth_repair/repairs.py:41-93 | the tier list always ends with the dhclient tier |
| Repairs.TiersShape | src/automatic_linux_network_repair/eth_repair/repairs.py:41-93 | the networkd tier is present iff systemd-networkd is active, the ifdown/ifup tier iff ifupdown is, and dhclient comes last |
| Repairs.TiersOrder | src/automatic_linux_network_repair/eth_repair/repairs.py:41-93 | the commands of the tiers, flattened, are the networkd restart, then ifdown and ifup, then `dhclient -v`, each only when its manager is active |
| Repairs.ApplyTier | src/automatic_linux_network_repair/eth_repair/repairs.py:58-87 | one tier: its actions, then (outside dry run) one IPv4 probe whose answer decides whether to stop |
| Repairs.RepairNoIpv4 | src/automatic_linux_network_repair/eth_repair/repairs.py:41-93 | the trace is exactly the tier escalation over the managers' tiers |
| Repairs.TiersDryRun | src/automatic_linux_network_repair/eth_repair/repairs.py:58-87 | in dry run no command runs and every applicable tier is announced in order |
| Repairs.NoIpv4DryRun | src/automatic_linux_network_repair/eth_repair/repairs.py:58-87 | in dry run `repair_no_ipv4` never probes, announces all applicable tiers, and ends with dhclient |
| Repairs.TierRoundLive | src/automatic_linux_network_repair/eth_repair/repairs.py:58-87 | outside dry run a tier runs its commands and then exactly one IPv4 probe, whose answer is the tier's outcome |
| Repairs.TiersRun | src/automatic_linux_network_repair/eth_repair/repairs.py:41-93 | outside dry run at least one and at most all tiers run |
| Repairs.TiersRunCommands | src/automatic_linux_network_repair/eth_repair/repairs.py:41-93 | outside dry run the tiers that run are exactly the first n, each followed by its probe, where n ends at the first tier whose probe finds an address |
| Repairs.TiersRunLast | src/automatic_linux_network_repair/eth_repair/repairs.py:41-93 | outside dry run the run ends with an IPv4 probe, and when not every tier ran that probe found an address |
| Repairs.TiersStopOnSuccess | src/automatic_linux_network_repair/eth_repair/repairs.py:41-93 | outside dry run the escalation stops after some k tiers: it announced and ran exactly those tiers, and stopped early only on a successful probe |
| Repairs.TiersEarlierProbesFail | src/automatic_linux_network_repair/eth_repair/repairs.py:41-93 | every IPv4 probe before the last one found no address |
| Repairs.ManagerRestart | src/automatic_linux_network_repair/eth_repair/repairs.py:96-126 | at most one manager is restarted |
| Repairs.ManagerPriority | src/automatic_linux_network_repair/eth_repair/repairs.py:96-126 | NetworkManager before systemd-networkd before ifupdown (the "networking" unit); nothing when none is active |
| Repairs.RestartFirstManager | src/automatic_linux_network_repair/eth_repair/repairs.py:96-126 | manager detection, then the restart of the first active manager |
| Repairs.RepairNoRoute | src/automatic_linux_network_repair/eth_repair/repairs.py:96-126 | the trace is manager detection followed by the restart of the first active manager |
| Repairs.RouteProps | src/automatic_linux_network_repair/eth_repair/repairs.py:96-126 | the two `is-active` queries run, then exactly the prioritised restart unless in dry run |
| Repairs.RestartResolvedIfActive | src/automatic_linux_network_repair/eth_repair/repairs.py:134-143 | the status query, and a restart of systemd-resolved checked by a lookup only when it is active |
| Repairs.RestartPhaseProps | src/automatic_linux_network_repair/eth_repair/repairs.py:134-143 | restarts only when systemd-resolved is active; the lookup runs only outside dry run; "fixed" implies active and not dry run |
| Repairs.WriteManualAndCheck | src/automatic_linux_network_repair/eth_repair/repairs.py:153-161 | the manual public resolv.conf (with its backup), then a lookup outside dry run |
| Repairs.WriteCheckProps | src/automatic_linux_network_repair/eth_repair/repairs.py:153-161 | a backup (when the file exists) is announced before the write, and the lookup follows outside dry run |
| Repairs.RewriteResolvConf | src/automatic_linux_network_repair/eth_repair/repairs.py:152-161 | a backup, then the write that backs up once more, then the check |
| Repairs.RewriteProps | src/automatic_linux_network_repair/eth_repair/repairs.py:152-161 | with the file present the backup command comes twice, then the write, then (outside dry run) the lookup |
| Repairs.RepairDnsCore | src/automatic_linux_network_repair/eth_repair/repairs.py:129-161 | the trace of the restart phase, then the rewrite only when edits are allowed and the restart did not fix DNS |
| Repairs.DnsCoreProps | src/automatic_linux_network_repair/eth_repair/repairs.py:129-161 | with edits disallowed (or DNS fixed by the restart) nothing touches resolv.conf; otherwise the rewrite follows; in dry run only the two status queries execute |
| Repairs.FuzzyLook | src/automatic_linux_network_repair/eth_repair/repairs.py:175-188 | the limited core repair, a lookup and, when it fails, the mode and status queries |
| Repairs.FuzzyLookProps | src/automatic_linux_network_repair/eth_repair/repairs.py:175-188 | the limited core repair comes first and announces all that is announced; the outcome is the lookup after it |
| Repairs.RepairDnsFuzzyWithConfirm | src/automatic_linux_network_repair/eth_repair/repairs.py:164-211 | the trace of the limited repair, the lookup, then the question only on a TTY when DNS is still broken, and the edit-allowed core repair only on a "y" reply |
| Repairs.FuzzyDnsProps | src/automatic_linux_network_repair/eth_repair/repairs.py:164-211 | the announced commands are the limited repair's, plus the edit-allowed repair's exactly when DNS still fails, stdin is a TTY and the stripped, lowercased reply is "y" |
| Repairs.InteractiveLook | src/automatic_linux_network_repair/eth_repair/repairs.py:221-237 | the status, an unconditional restart, a lookup outside dry run and the mode unless it resolved |
| Repairs.InteractiveLookProps | src/automatic_linux_network_repair/eth_repair/repairs.py:221-237 | the restart is always announced, and "fixed" implies not dry run |
| Repairs.RepairDnsInteractive | src/automatic_linux_network_repair/eth_repair/repairs.py:214-261 | the look, then the question on a TTY when unfixed, then the manual write and check on a "y" reply |
| Repairs.DnsInteractiveProps | src/automatic_linux_network_repair/eth_repair/repairs.py:214-261 | announces the restart, then the backup and the write only when unfixed on a TTY with a "y" reply |
| Repairs.ScoreLines | src/automatic_linux_network_repair/eth_repair/repairs.py:267-271 | one log line per ranked entry, in order |
| Repairs.LogScores | src/automatic_linux_network_repair/eth_repair/repairs.py:267-271 | logs the ranked scores and issues no command |
| Repairs.RepairFull | src/automatic_linux_network_repair/eth_repair/repairs.py:264-291 | runs exactly the repair that the top suspicion selects; the score lines it logs first are those Repairs.LogScores states |
| Repairs.RepairFullChoosesTop | src/automatic_linux_network_repair/eth_repair/repairs.py:264-291 | the repair run is the one for the earliest highest-scored suspicion, and none with no scores |
| Repairs.RepairEventsEmptyIff | src/automatic_linux_network_repair/eth_repair/repairs.py:274-289 | a repair issues no event iff the suspicion is INTERFACE_MISSING or NO_INTERNET (which only log) |
| Cli.SelectInterface | src/automatic_linux_network_repair/eth_repair/cli.py:67-93 | the probes and the choice of the interface-selection rules |
| Cli.ChooseRules | src/automatic_linux_network_repair/eth_repair/cli.py:67-93 | a missing "eth0" becomes the first candidate, or nothing when there is none; any other missing name is refused; an existing name is kept |
| Cli.LogStart | src/automatic_linux_network_repair/eth_repair/cli.py:38-41 | logs the start line, the dry-run note only in dry run, and the log-file note; runs nothing |
| Cli.EthernetRepairApp.constructor | src/automatic_linux_network_repair/eth_repair/cli.py:22-26 | stores the interface, the dry-run, verbose and auto flags |
| Cli.EthernetRepairApp.EnsureRoot | src/automatic_linux_network_repair/eth_repair/cli.py:53-65 | true iff the effective user is root (or unknown); otherwise prints the error, logs it and probes nothing |
| Cli.EthernetRepairApp.ChooseInterface | src/automatic_linux_network_repair/eth_repair/cli.py:67-93 | the interface choice for the app's configured interface |
| Cli.EthernetRepairApp.RunAutoRepair | src/automatic_linux_network_repair/eth_repair/cli.py:95-102 | diagnoses, hands the diagnosis to the repair coordinator with resolv.conf edits disallowed, then shows the status |
| Cli.EthernetRepairApp.Run | src/automatic_linux_network_repair/eth_repair/cli.py:28-51 | the exit code and trace of the entry flow, and the interface field overwritten with the chosen interface |
| Cli.RunExitCodes | src/automatic_linux_network_repair/eth_repair/cli.py:28-51 | a non-root run returns 1 with no probe at all; the code is 1 iff not root or no interface was chosen, else 0 |
| Cli.RunDispatch | src/automatic_linux_network_repair/eth_repair/cli.py:43-51 | auto or non-TTY runs the diagnosis and one coordinator pass with edits disallowed, then the status; otherwise the interactive menu |
| Menu.ScoreAt | src/automatic_linux_network_repair/eth_repair_menu.py:813-831 | the score of a suspicion is its dictionary entry, or 0 when absent |
| Menu.PlanOrdered | src/automatic_linux_network_repair/eth_repair_menu.py:819-840 | the repairs of the pass run in the fixed order link, IPv4, route, internet, DNS, each at most once |
| Menu.PlanMembers | src/automatic_linux_network_repair/eth_repair_menu.py:819-840 | a repair is in the pass iff its suspicion scores strictly above 0.4, with the confirming DNS repair iff edits are allowed and the limited one otherwise |
| Menu.BaseDnsScoreSkipped | src/automatic_linux_network_repair/eth_repair_menu.py:831 | a DNS score of exactly 0.4 triggers no DNS repair |
| Menu.RepairNoInternet | src/automatic_linux_network_repair/eth_repair_menu.py:752-785 | the same manager detection and priority restart as the route repair, nothing when no manager is active |
| Menu.MenuRepairDns | src/automatic_linux_network_repair/eth_repair_menu.py:730-749 | the limited DNS repair, a lookup, and on failure the question and on "y" the repair with edits allowed |
| Menu.MenuDnsAsks | src/automatic_linux_network_repair/eth_repair_menu.py:730-749 | after a failed lookup the question is asked, terminal or not |
| Menu.MenuDnsAnnounced | src/automatic_linux_network_repair/eth_repair_menu.py:730-749 | the announced commands are the limited repair's, plus the edit-allowed repair's exactly on a "y" reply after a failed lookup |
| Menu.PadRight | src/automatic_linux_network_repair/eth_repair_menu.py:808 | pads to at least the width and keeps the string as a prefix |
| Menu.LogRanked | src/automatic_linux_network_repair/eth_repair_menu.py:802-808 | logs each positive ranked score with its label and runs nothing |
| Menu.RunRepair | src/automatic_linux_network_repair/eth_repair_menu.py:819-840 | one repair of the pass, with the manager snapshot |
| Menu.RunIf | src/automatic_linux_network_repair/eth_repair_menu.py:819-840 | one guarded repair appended to the pass's trace |
| Menu.RunPlan | src/automatic_linux_network_repair/eth_repair_menu.py:817-840 | runs exactly the planned repairs, in order, with the detected managers |
| Menu.PerformRepairs | src/automatic_linux_network_repair/eth_repair_menu.py:788-840 | the trace of `perform_repairs` for the diagnosis |
| Menu.PerformProps | src/automatic_linux_network_repair/eth_repair_menu.py:813-817 | INTERFACE_MISSING above 0.5 gives only the hint (no event); otherwise the manager detection comes first, once, before any repair |
| Menu.ScoreAtDiagnosis | src/automatic_linux_network_repair/eth_repair_menu.py:445-522 | the menu's dictionary read of a diagnosis gives the rule table's score for every suspicion |
| Menu.BaseDnsScoreNotRepaired | src/automatic_linux_network_repair/eth_repair_menu.py:831 | with ping and names failing and resolv.conf in no systemd or manual arrangement, DNS stays at 0.4 and is not repaired |
| Menu.DiagnoseAndRepair | src/automatic_linux_network_repair/eth_repair_menu.py:1089-1097 | diagnosis, the repair pass and the status, in that order |
| Menu.MenuFullRepair | src/automatic_linux_network_repair/eth_repair_menu.py:959-967 | menu option 2 runs the pass with resolv.conf edits allowed |
| Menu.MenuMain | src/automatic_linux_network_repair/eth_repair_menu.py:1039-1104 | the exit code and trace of `main`: the root gate, the interface choice of `_choose_interface`, then the automatic pass with edits disallowed or the interactive menu |
| Menu.MainProps | src/automatic_linux_network_repair/eth_repair_menu.py:1044-1098 | non-root returns 1 before any probe; 1 iff not root or no interface; the automatic pass never runs the confirming DNS repair and option 2 never the limited one |
| Wifi.FromLabel | src/automatic_linux_network_repair/wifi.py:25-42 | no label gives WPA2, and OPEN comes only from a label normalising to "open" or "none" |
| Wifi.FromLabelTable | src/automatic_linux_network_repair/wifi.py:25-42 | after lower-casing and removing '-', each alias maps to its type and only its aliases do: open/none OPEN, wep WEP, wpa/wpa1 WPA, wpa3/sae WPA3, everything else WPA2 |
| Wifi.FromLabelValue | src/automatic_linux_network_repair/wifi.py:16-42 | every type's own value reads back as that type |
| Wifi.FromLabelInsensitive | src/automatic_linux_network_repair/wifi.py:34 | labels are compared without regard to ASCII case or hyphens |
| Wifi.ParseNmcliScan | src/automatic_linux_network_repair/wifi.py:106-124 | computes the networks of an `nmcli` listing: [] on a non-zero return code, otherwise one network per non-blank line |
| Wifi.NmcliNetworkOf | src/automatic_linux_network_repair/wifi.py:114-122 | the fields padded to four, an empty BSSID read as None, security as the non-empty space-separated tokens |
| Wifi.NmcliScan | src/automatic_linux_network_repair/wifi.py:91-124 | one `nmcli -t -f BSSID,SSID,SECURITY,SIGNAL` command with timeout 20, then the networks of its answer |
| Wifi.NmcliLineRoundTrip | src/automatic_linux_network_repair/wifi.py:114-122 | a network written as an `nmcli` line reads back as itself (fields free of '|' and line breaks, digits-only signal) |
| Wifi.NmcliScanRoundTrip | src/automatic_linux_network_repair/wifi.py:111-124 | a listing of such lines reads back as the networks, in order |
| Wifi.NmcliScanOutput | src/automatic_linux_network_repair/wifi.py:106-124 | a successful command with such a listing yields exactly those networks, a failing one [] |
| Wifi.NmcliConnect | src/automatic_linux_network_repair/wifi.py:126-144 | the trace and result of one connect attempt |
| Wifi.NmcliConnectProps | src/automatic_linux_network_repair/wifi.py:126-144 | one command; no key argument without a password, "wep-key0" for WEP and "password" otherwise; success iff exit code 0; the message is never empty |
| WpaCli.WpaSignal | src/automatic_linux_network_repair/wifi.py:174 | a signal is read only when, with leading '-' removed, it is all digits |
| WpaCli.WpaSignalRoundTrip | src/automatic_linux_network_repair/wifi.py:174 | every integer written in decimal reads back as itself |
| WpaCli.WpaSignalDoubleMinus | src/automatic_linux_network_repair/wifi.py:174 | "--45" passes the digits test but `int("--45")` raises; the intended reading gives no signal |
| WpaCli.WpaSignalAgrees | src/automatic_linux_network_repair/wifi.py:174 | wherever the code as written does not raise it agrees with the corrected reading |
| WpaCli.WpaFlagsRoundTrip | src/automatic_linux_network_repair/wifi.py:175 | bracketed flags "[A][B]" read back as the list of flags |
| WpaCli.ParseWpaScan | src/automatic_linux_network_repair/wifi.py:159-178 | computes the networks of the `scan_results` answer: [] on failure, header skipped, rows with five tab fields |
| WpaCli.WpaNetworkOf | src/automatic_linux_network_repair/wifi.py:169-176 | a row's BSSID and SSID are its first and fifth field |
| WpaCli.WpaCliScan | src/automatic_linux_network_repair/wifi.py:156-178 | the `scan` then `scan_results` commands, then the networks of the latter's answer |
| WpaCli.WpaRowRoundTrip | src/automatic_linux_network_repair/wifi.py:164-176 | a network written as a tab-separated row reads back as itself |
| WpaCli.WpaRowsRoundTrip | src/automatic_linux_network_repair/wifi.py:164-178 | rows of such networks read back as the networks, in order |
| WpaCli.WpaScanOutput | src/automatic_linux_network_repair/wifi.py:159-178 | a successful listing of a header and such rows yields exactly those networks |
| WpaCli.WpaConfigProps | src/automatic_linux_network_repair/wifi.py:193-213 | ssid and scan_ssid come first; OPEN sets key_mgmt NONE only; WEP key_mgmt NONE then wep_key0; WPA3 psk then SAE; otherwise psk then WPA-PSK |
| WpaCli.ConfigCommands | src/automatic_linux_network_repair/wifi.py:215-219 | the configuration commands run in order, as a prefix of the list, and all of them when none fails |
| WpaCli.ConfigResults | src/automatic_linux_network_repair/wifi.py:215-219 | every command before the last one run succeeded; the last one failed iff a failure is reported, and that failure is its answer |
| WpaCli.RunConfig | src/automatic_linux_network_repair/wifi.py:215-219 | the trace and outcome of running the configuration commands |
| WpaCli.NetworkId | src/automatic_linux_network_repair/wifi.py:191 | the network id is the last line of the stripped output, and there is none iff that output is blank |
| WpaCli.BlankAddRaises | src/automatic_linux_network_repair/wifi.py:191 | a successful `add_network` with blank output leaves no line to index (the IndexError) |
| WpaCli.SelectNetwork | src/automatic_linux_network_repair/wifi.py:221-227 | `enable_network`, then `select_network` with timeout 15, whose result decides success |
| WpaCli.WpaCliConnect | src/automatic_linux_network_repair/wifi.py:180-227 | the loop of commands gives the trace and result of the specification function: add, configure until the first failure, then enable and select |
| WpaCli.WpaConnectProps | src/automatic_linux_network_repair/wifi.py:180-227 | `add_network` comes first, and its failure or a reply with no network id ends the attempt with a failure result; success means every configuration command, then enable and select, ran and succeeded |
| Iwctl.IwctlNetworkOf | src/automatic_linux_network_repair/wifi.py:251-258 | a row gives its first column as SSID, no BSSID and the second column as the only security |
| Iwctl.ParseIwctl | src/automatic_linux_network_repair/wifi.py:245-260 | computes the networks of the `get-networks` listing |
| Iwctl.IwctlScan | src/automatic_linux_network_repair/wifi.py:235-260 | the scan request, then the listing only when it succeeded |
| Iwctl.NumberColumn | src/automatic_linux_network_repair/wifi.py:256 | a signal column of digits reads as its number |
| Iwctl.StarsColumn | src/automatic_linux_network_repair/wifi.py:256 | a column of stars alone gives no signal |
| Iwctl.IwctlLineRoundTrip | src/automatic_linux_network_repair/wifi.py:246-259 | a network written as an `iwctl` row reads back as itself |
| Iwctl.IwctlRowsRoundTrip | src/automatic_linux_network_repair/wifi.py:246-260 | such rows read back as the networks, in order |
| Iwctl.IwctlHeadingsSkipped | src/automatic_linux_network_repair/wifi.py:249-250 | heading lines (short rows or a "network" first column) give no network |
| Iwctl.IwctlListOutput | src/automatic_linux_network_repair/wifi.py:240-260 | a successful listing of headings and rows yields exactly the rows' networks |
| Iwctl.IwctlConnect | src/automatic_linux_network_repair/wifi.py:262-276 | the trace and result of one `iwctl` connect attempt |
| Iwctl.IwctlConnectProps | src/automatic_linux_network_repair/wifi.py:262-276 | one command; "-P password" exactly with a non-empty password; success iff exit code 0 |
| Iwlist.EssidSearch | src/automatic_linux_network_repair/wifi.py:284-299 | an ESSID match exists iff the line contains "ESSID:" |
| Iwlist.EssidGroup | src/automatic_linux_network_repair/wifi.py:284 | the captured name is the rest of the line with at most one quote removed at each end |
| Iwlist.DigitRun | src/automatic_linux_network_repair/wifi.py:285 | the longest digit prefix |
| Iwlist.QualitySearch | src/automatic_linux_network_repair/wifi.py:285-317 | a quality match is always a digit string |
| Iwlist.EncSearch | src/automatic_linux_network_repair/wifi.py:286-319 | an encryption match means the line contains "Encryption key:on" or ":off" accordingly |
| Iwlist.Pending | src/automatic_linux_network_repair/wifi.py:300-308 | the network being read carries the ESSID and quality seen so far and security defaulting to ["open"] |
| Iwlist.Flush | src/automatic_linux_network_repair/wifi.py:320-328 | the pending network is emitted iff an ESSID was seen |
| Iwlist.ParseIwlist | src/automatic_linux_network_repair/wifi.py:294-329 | the loop carrying essid, quality and enc across lines yields the line-by-line state machine's result |
| Iwlist.IwlistScan | src/automatic_linux_network_repair/wifi.py:288-329 | one `iwlist iface scanning` command, then its networks ([] on failure) |
| Iwlist.IwlistScanShaped | src/automatic_linux_network_repair/wifi.py:294-329 | every network has no BSSID and a non-empty security list |
| Iwlist.EssidStep | src/automatic_linux_network_repair/wifi.py:299-312 | an ESSID line emits the pending network and starts a fresh one |
| Iwlist.QualityStep | src/automatic_linux_network_repair/wifi.py:313-317 | a quality line sets the quality only |
| Iwlist.EncStep | src/automatic_linux_network_repair/wifi.py:318-319 | an encryption line sets the security to ["wep"] or ["open"] |
| Iwlist.RunAppend | src/automatic_linux_network_repair/wifi.py:298-319 | the lines are read in order, each from the state the previous ones left |
| Iwlist.CellRun | src/automatic_linux_network_repair/wifi.py:298-319 | a cell of ESSID, quality and encryption lines leaves that network pending |
| Iwlist.ListingRun | src/automatic_linux_network_repair/wifi.py:298-328 | a listing of cells yields its networks, after what was already pending |
| Iwlist.HeadingsRun | src/automatic_linux_network_repair/wifi.py:298-312 | lines without an ESSID emit nothing and keep the pending ESSID |
| Iwlist.IwlistScanOutput | src/automatic_linux_network_repair/wifi.py:288-329 | a successful listing of headings and cells yields exactly the cells' networks |
| Iwlist.IwconfigCommands | src/automatic_linux_network_repair/wifi.py:348-352 | the `iwconfig` commands run in order up to the first failure, and all of them run iff none fails |
| Iwlist.RunIwconfig | src/automatic_linux_network_repair/wifi.py:348-353 | the trace and outcome of running the commands |
| Iwlist.IwlistConnect | src/automatic_linux_network_repair/wifi.py:331-353 | the trace and result of an `iwconfig` connect attempt |
| Iwlist.IwlistConnectProps | src/automatic_linux_network_repair/wifi.py:331-353 | unless OPEN, or WEP with a password, it fails with the "unsupported" message and runs nothing; otherwise essid (then key for WEP), succeeding iff none fails |
| WifiManager.BackendNameInjective | src/automatic_linux_network_repair/wifi.py:89-282 | the four backends have distinct names, none of them "none" |
| WifiManager.AllBackendsAscending | src/automatic_linux_network_repair/wifi.py:388-394 | detection order is nmcli, iwctl, wpa_cli, iwlist and covers every backend |
| WifiManager.DetectFrom | src/automatic_linux_network_repair/wifi.py:388-399 | one availability lookup per backend, at most that many found |
| WifiManager.DetectIn | src/automatic_linux_network_repair/wifi.py:396-399 | the loop's trace and result are those of the detection |
| WifiManager.DetectBackends | src/automatic_linux_network_repair/wifi.py:388-399 | the backends available, in the fixed order |
| WifiManager.DetectTrace | src/automatic_linux_network_repair/wifi.py:396-397 | the lookups are exactly the binaries in order |
| WifiManager.DetectSubset | src/automatic_linux_network_repair/wifi.py:396-398 | only listed backends are found |
| WifiManager.DetectAscending | src/automatic_linux_network_repair/wifi.py:396-399 | the found backends keep the detection order |
| WifiManager.DetectMembership | src/automatic_linux_network_repair/wifi.py:397-398 | a backend is found iff its binary is installed when looked up |
| WifiManager.DetectProps | src/automatic_linux_network_repair/wifi.py:388-399 | four lookups in the fixed order; the result is in that order and holds exactly the installed backends |
| WifiManager.Detect | src/automatic_linux_network_repair/wifi.py:359-368 | a manager built without backends detects them |
| WifiManager.FirstNamed | src/automatic_linux_network_repair/wifi.py:471-475 | the first backend with the preferred name, if there is one |
| WifiManager.Without | src/automatic_linux_network_repair/wifi.py:476-479 | every backend not carrying the preferred name |
| WifiManager.CandidatesMembers | src/automatic_linux_network_repair/wifi.py:470-479 | the candidates are exactly the manager's backends |
| WifiManager.CandidatesPreferredFirst | src/automatic_linux_network_repair/wifi.py:470-479 | a present preferred backend comes first and no other candidate has its name |
| WifiManager.CandidatesUnpreferred | src/automatic_linux_network_repair/wifi.py:470-479 | without a (present) preference the candidates are the backends in order |
| WifiManager.CandidatesPermutation | src/automatic_linux_network_repair/wifi.py:470-479 | the candidates are a permutation of the backends |
| WifiManager.ChooseBackend | src/automatic_linux_network_repair/wifi.py:481-484 | no backend iff the manager has none, otherwise one of them |
| WifiManager.ChooseBackendProps | src/automatic_linux_network_repair/wifi.py:481-484 | the preferred backend when present, else the first |
| WifiManager.BackendScan | src/automatic_linux_network_repair/wifi.py:91-329 | the chosen backend's scan |
| WifiManager.Scan | src/automatic_linux_network_repair/wifi.py:447-452 | the chosen backend's scan; with no backend, the error log line and [] |
| WifiManager.ScanProps | src/automatic_linux_network_repair/wifi.py:447-452 | no backend means nothing runs; otherwise exactly one backend's scan runs |
| WifiManager.BackendConnect | src/automatic_linux_network_repair/wifi.py:126-353 | the backend's own connect attempt |
| WifiManager.BackendConnectNamed | src/automatic_linux_network_repair/wifi.py:143-353 | every backend's result carries its own name |
| WifiManager.ConnectFromUnfold | src/automatic_linux_network_repair/wifi.py:454-468 | trying the candidates from the i-th on is that candidate's attempt, followed, only when it failed, by the candidates after it |
| WifiManager.Connect | src/automatic_linux_network_repair/wifi.py:454-468 | tries the candidates in order and returns the first success, else the "none" failure |
| WifiManager.ConnectFromOutcome | src/automatic_linux_network_repair/wifi.py:463-468 | the result fails iff it is the "none" result; a success comes from one of the candidates |
| WifiManager.ConnectPreferredFirst | src/automatic_linux_network_repair/wifi.py:463-475 | a present preferred backend's attempt comes first in the trace |
| WifiManager.FirstMatch | src/automatic_linux_network_repair/wifi.py:410-414 | the first line with a match, and none iff no line matches |
| WifiManager.FindFirst | src/automatic_linux_network_repair/wifi.py:410-414 | the loop returns the first match |
| WifiManager.IwLineNameOf | src/automatic_linux_network_repair/wifi.py:410-413 | an "Interface name" line gives the name |
| WifiManager.DetectWithIw | src/automatic_linux_network_repair/wifi.py:401-414 | skipped without `iw`; otherwise `iw dev` and its first interface line |
| WifiManager.NmcliLineNameOf | src/automatic_linux_network_repair/wifi.py:425-428 | a "device:type" line gives the device iff the stripped type is "wifi" |
| WifiManager.DetectWithNmcli | src/automatic_linux_network_repair/wifi.py:416-429 | skipped without `nmcli`; otherwise the device-status listing and its first wifi device |
| WifiManager.WirelessNameCaseless | src/automatic_linux_network_repair/wifi.py:442-443 | the wireless-prefix test ignores case |
| WifiManager.IpLineNameSound | src/automatic_linux_network_repair/wifi.py:437-444 | an `ip link` match is a non-empty wireless-looking name without an '@' suffix |
| WifiManager.DetectWithIpLink | src/automatic_linux_network_repair/wifi.py:431-445 | `ip -o link show` and its first wireless-looking name |
| WifiManager.DetectInterface | src/automatic_linux_network_repair/wifi.py:370-386 | the trace and result of detection: iw, then nmcli, then `ip link` |
| WifiManager.DetectInterfaceOrder | src/automatic_linux_network_repair/wifi.py:370-386 | iw is asked first and a name from it wins; nmcli is asked only when iw found none; `ip link` runs iff neither found one |
| WifiManager.DetectInterfaceSound | src/automatic_linux_network_repair/wifi.py:370-445 | a detected name comes from an iw, nmcli or `ip link` line |
| SystemdPanel.ExtractPath | src/automatic_linux_network_repair/systemd_panel.py:33-47 | a path is found only on a line starting with '#', and it comes back already stripped |
| SystemdPanel.HeaderPath | src/automatic_linux_network_repair/systemd_panel.py:49-51 | a line opens a file exactly when `_extract_path` gives a non-empty path; an empty path does not count |
| SystemdPanel.ExtractFileMarker | src/automatic_linux_network_repair/systemd_panel.py:34-35 | "# FILE: p" names p with its whitespace stripped |
| SystemdPanel.ExtractSlash | src/automatic_linux_network_repair/systemd_panel.py:37-40 | "#/…" names the stripped rest of the line after the '#' |
| SystemdPanel.ExtractSpace | src/automatic_linux_network_repair/systemd_panel.py:42-45 | "# rest" names the stripped rest when that starts with '/', and nothing otherwise |
| SystemdPanel.ExtractOther | src/automatic_linux_network_repair/systemd_panel.py:33-47 | a line starting with neither "#/" nor "# " is not a header |
| SystemdPanel.BannerNotHeader | src/automatic_linux_network_repair/systemd_panel.py:33-47 | a banner of forty '#' is never taken for a header |
| SystemdPanel.Close | src/automatic_linux_network_repair/systemd_panel.py:52-67 | closing the open file adds exactly its path to the stored paths |
| SystemdPanel.ParseDump | src/automatic_linux_network_repair/systemd_panel.py:19-69 | the line-by-line loop computes the same files as the step-function reading of the dump |
| SystemdPanel.HeadersOfCons | src/automatic_linux_network_repair/systemd_panel.py:49-56 | the paths of a dump are the first line's path, if it is a header, plus the paths of the rest |
| SystemdPanel.DumpRunAppend | src/automatic_linux_network_repair/systemd_panel.py:49-64 | reading two blocks of lines is reading the first and then continuing with the second |
| SystemdPanel.DumpRunKeys | src/automatic_linux_network_repair/systemd_panel.py:49-67 | the files a dump yields are keyed by exactly the paths its header lines name |
| SystemdPanel.ParseKeys | src/automatic_linux_network_repair/systemd_panel.py:19-69 | the parsed dump's paths are exactly the paths of its header lines |
| SystemdPanel.ParseEmpty | src/automatic_linux_network_repair/systemd_panel.py:19-69 | an empty dump has no files |
| SystemdPanel.PreambleDropped | src/automatic_linux_network_repair/systemd_panel.py:58-59 | lines before the first header are dropped |
| SystemdPanel.PreambleRun | src/automatic_linux_network_repair/systemd_panel.py:58-59 | header-free lines leave the start state untouched |
| SystemdPanel.BannerStep | src/automatic_linux_network_repair/systemd_panel.py:61-64 | a banner line is skipped only as the open file's first line; later it is kept, and before any file it is dropped |
| SystemdPanel.PathHeader | src/automatic_linux_network_repair/systemd_panel.py:42-45 | the "# path" header of a path starting with '/' reads back as that path |
| SystemdPanel.BufferRun | src/automatic_linux_network_repair/systemd_panel.py:58-64 | inside an open file, non-header lines are buffered in order |
| SystemdPanel.FileRun | src/automatic_linux_network_repair/systemd_panel.py:49-64 | a header opens its file, closing the previous one, and the lines below it fill the buffer |
| SystemdPanel.FlattenRun | src/automatic_linux_network_repair/systemd_panel.py:49-67 | parsing files written one after another stores each file's body in turn |
| SystemdPanel.FilesRoundTrip | src/automatic_linux_network_repair/systemd_panel.py:19-69 | files written with "# path" headers parse back to their bodies, the last file of a repeated path winning |
| SystemdPanel.ApplyLast | src/automatic_linux_network_repair/systemd_panel.py:52-53 | a repeated path keeps the body of its last file |
| SystemdPanel.SettingOf | src/automatic_linux_network_repair/systemd_panel.py:123-138 | a setting is found only on a '#' or ';' line that is no section header and holds '='; its key is an identifier and its value is stripped |
| SystemdPanel.NonEmptySections | src/automatic_linux_network_repair/systemd_panel.py:142 | exactly the sections with at least one setting remain, with their settings unchanged |
| SystemdPanel.ExtractCommented | src/automatic_linux_network_repair/systemd_panel.py:103-142 | the line-by-line loop computes the same settings as the step-function reading of the body |
| SystemdPanel.CapturedOnly | src/automatic_linux_network_repair/systemd_panel.py:114-140 | a line either leaves the settings alone, or is inside a section and records the key and value it carries |
| SystemdPanel.OutsideSection | src/automatic_linux_network_repair/systemd_panel.py:120-121 | before any section, only a section header has an effect |
| SystemdPanel.NestedCommentIgnored | src/automatic_linux_network_repair/systemd_panel.py:126-128 | a comment whose text starts with '#' again after the marks is prose and carries no setting |
| SystemdPanel.SplitAtEquals | src/automatic_linux_network_repair/systemd_panel.py:133 | `key=value` with '=' not in the key splits at the '=' right after the key |
| SystemdPanel.TrimmedTrim | src/automatic_linux_network_repair/systemd_panel.py:134-135 | a value already free of surrounding whitespace strips to itself |
| SystemdPanel.SettingOfMarked | src/automatic_linux_network_repair/systemd_panel.py:123-138 | comment marks followed by `key=value`, with an identifier key and a stripped value, carry exactly that key and value |
| SystemdPanel.SettingOfText | src/automatic_linux_network_repair/systemd_panel.py:126-138 | once the marks are removed and nothing else strips, the line carries the key and value around its first '=' |
| SystemdPanel.IdentifierPlain | src/automatic_linux_network_repair/systemd_panel.py:137 | an identifier key holds no '=' and starts with no whitespace or comment mark |
| SystemdPanel.StepSetting | src/automatic_linux_network_repair/systemd_panel.py:140 | a `key=value` line inside a section records it under that section |
| SystemdPanel.PutTwice | src/automatic_linux_network_repair/systemd_panel.py:140 | setting a key twice keeps the second value |
| SystemdPanel.LaterOverwrites | src/automatic_linux_network_repair/systemd_panel.py:114-140 | a second setting of the same key in the same section overwrites the first |
| SystemdPanel.SortedMembers | src/automatic_linux_network_repair/systemd_panel.py:202 | the sorted order lists only members of the set |
| SystemdPanel.SettingLinesOf | src/automatic_linux_network_repair/systemd_panel.py:207-211 | the loop writes one `<marker>key=value` line per key, in sorted key order |
| SystemdPanel.EntryLinesOf | src/automatic_linux_network_repair/systemd_panel.py:200-213 | an entry is written as its header, then each section in sorted order with its commented and then its active settings, then a blank line |
| SystemdPanel.DumpLinesOf | src/automatic_linux_network_repair/systemd_panel.py:190-213 | the loop writes the files in sorted path order, separated by blank lines |
| SystemdPanel.DumpFromSchema | src/automatic_linux_network_repair/systemd_panel.py:187-215 | the dump is the joined lines with trailing whitespace replaced by one newline |
| SystemdPanel.DumpEndsOnce | src/automatic_linux_network_repair/systemd_panel.py:215 | the dump ends with exactly one newline |
| SystemdPanel.SectionHeaderGood | src/automatic_linux_network_repair/systemd_panel.py:205 | a section header is one line without line breaks that no parser step strips |
| SystemdPanel.SettingLineGood | src/automatic_linux_network_repair/systemd_panel.py:208-211 | a setting line is one line without line breaks, for both the commented and the active form |
| SystemdPanel.SettingLinesGood | src/automatic_linux_network_repair/systemd_panel.py:207-211 | all setting lines of a section are single lines, the last of them not blank |
| SystemdPanel.SectionBlockGood | src/automatic_linux_network_repair/systemd_panel.py:203-211 | all lines of a section block are single lines, the last not blank |
| SystemdPanel.SectionLinesGood | src/automatic_linux_network_repair/systemd_panel.py:203-211 | all lines of an entry's sections are single lines |
| SystemdPanel.CommentRunAppend | src/automatic_linux_network_repair/systemd_panel.py:114-140 | reading two blocks of lines is reading the first and then continuing with the second |
| SystemdPanel.BlankStep | src/automatic_linux_network_repair/systemd_panel.py:120-124 | a blank line changes nothing |
| SystemdPanel.SectionStep | src/automatic_linux_network_repair/systemd_panel.py:116-118 | a section header opens that section and keeps the settings |
| SystemdPanel.ActiveStep | src/automatic_linux_network_repair/systemd_panel.py:123-124 | an active `key=value` line is not a commented setting |
| SystemdPanel.CommentedStep | src/automatic_linux_network_repair/systemd_panel.py:123-140 | a written `#key=value` line records the key and value in the open section |
| SystemdPanel.ActiveRun | src/automatic_linux_network_repair/systemd_panel.py:123-124 | the active setting lines written for a section leave the commented settings alone |
| SystemdPanel.CommentedRun | src/automatic_linux_network_repair/systemd_panel.py:207-208 | the commented setting lines written for a section record each of its settings |
| SystemdPanel.BlockRun | src/automatic_linux_network_repair/systemd_panel.py:114-211 | a written section block records exactly that section's commented settings, under that section |
| SystemdPanel.SectionsRun | src/automatic_linux_network_repair/systemd_panel.py:114-211 | the written sections record the commented settings of each section, the rest staying as they were |
| SystemdPanel.EntryCommented | src/automatic_linux_network_repair/systemd_panel.py:114-213 | reading an entry's written lines gives back its commented settings, less its empty sections |
| SystemdPanel.BodyTrailing | src/automatic_linux_network_repair/systemd_panel.py:213-215 | trailing blank lines do not change a file's body |
| SystemdPanel.BodyLeadingBlank | src/automatic_linux_network_repair/systemd_panel.py:200-205 | a body whose first line is blank is the rest joined, and splits back into those lines |
| SystemdPanel.EntryRoundTrip | src/automatic_linux_network_repair/systemd_panel.py:103-215 | an entry's written body reads back as its commented settings, less its empty sections |
| SystemdPanel.DumpLayout | src/automatic_linux_network_repair/systemd_panel.py:190-213 | the written dump is the files, each a "# path" header followed by its lines, then a blank line |
| SystemdPanel.DumpFilesGood | src/automatic_linux_network_repair/systemd_panel.py:190-213 | every file written has a well-formed path and single lines |
| SystemdPanel.FlattenBreakFree | src/automatic_linux_network_repair/systemd_panel.py:190-213 | no written line holds a line break |
| SystemdPanel.DumpLastSolid | src/automatic_linux_network_repair/systemd_panel.py:190-213 | the last written line before the final blank is not blank |
| SystemdPanel.DumpTextLines | src/automatic_linux_network_repair/systemd_panel.py:213-215 | splitting the dump text gives back the written lines without the trailing blank |
| SystemdPanel.ApplyDumpFiles | src/automatic_linux_network_repair/systemd_panel.py:49-67 | parsing the written files stores exactly each path's body |
| SystemdPanel.DumpParsesFrom | src/automatic_linux_network_repair/systemd_panel.py:19-215 | the dump of any set of well-formed bodies parses back to those bodies |
| SystemdPanel.EmptyDump | src/automatic_linux_network_repair/systemd_panel.py:19-215 | the empty schema is written as a single newline, which parses to no files |
| SystemdPanel.DumpParses | src/automatic_linux_network_repair/systemd_panel.py:19-215 | a dump written from a schema parses back into one file per schema path, holding its entry's lines |
| SystemdPanel.SchemaFromDump | src/automatic_linux_network_repair/systemd_panel.py:174-184 | the schema has an entry for exactly the paths the dump's headers name |
| SystemdPanel.SchemaOfFiles | src/automatic_linux_network_repair/systemd_panel.py:178-183 | one entry per parsed file, its commented settings read from that file's body |
| SystemdPanel.SchemaRoundTrip | src/automatic_linux_network_repair/systemd_panel.py:174-215 | a schema written as a dump and read back has the same paths, each with its commented settings less the empty sections |
| SystemdPanel.EntriesBack | src/automatic_linux_network_repair/systemd_panel.py:103-215 | every entry's written body gives back its commented settings |
| SystemdPanel.DropinPath | src/automatic_linux_network_repair/systemd_panel.py:249-258 | the path ends with the fixed drop-in name, inside the override directory when one is given and non-empty, else inside `<target>.d` |
| SystemdPanel.DropinLayout | src/automatic_linux_network_repair/systemd_panel.py:257-258 | the name is joined with "/" unless the directory already ends with one |
| SystemdValidation.FailLines | src/automatic_linux_network_repair/systemd_validation.py:50-54 | one log line per issue with a logger, none without |
| SystemdValidation.FailLinesAppend | src/automatic_linux_network_repair/systemd_validation.py:50-54 | logging two runs of issues logs the first run and then the second |
| SystemdValidation.FailMessages | src/automatic_linux_network_repair/systemd_validation.py:50-54 | with a logger, the i-th logged message is "[FAIL] " followed by the i-th issue |
| SystemdValidation.MessagesAppend | src/automatic_linux_network_repair/systemd_validation.py:50-54 | the messages of two runs of log lines are the first run's and then the second's |
| SystemdValidation.LogFail | src/automatic_linux_network_repair/systemd_validation.py:50-54 | logging an issue runs no command and appends "[FAIL] <issue>" to the log exactly when a logger is given |
| SystemdValidation.AddressIssues | src/automatic_linux_network_repair/systemd_validation.py:57-68 | there are never more issues than tokens |
| SystemdValidation.AddressIssuesExact | src/automatic_linux_network_repair/systemd_validation.py:57-68 | every issue names an invalid token, and every invalid token has its issue |
| SystemdValidation.AddressIssuesEmpty | src/automatic_linux_network_repair/systemd_validation.py:57-68 | a list has no issues exactly when every token is a valid address |
| SystemdValidation.AddressIssuesAt | src/automatic_linux_network_repair/systemd_validation.py:61-67 | the tokens are checked in order, one issue for each invalid one |
| SystemdValidation.ValidateIpList | src/automatic_linux_network_repair/systemd_validation.py:57-68 | the loop reports the issues of the whitespace-separated tokens and logs each one as it is found |
| SystemdValidation.ChoiceIssues | src/automatic_linux_network_repair/systemd_validation.py:71-81 | no issue exactly when the value is allowed; otherwise one issue naming the path, the key, the sorted allowed values and the value |
| SystemdValidation.SortedListing | src/automatic_linux_network_repair/systemd_validation.py:79 | a listing in strict order of exactly the allowed values is their `sorted` order |
| SystemdValidation.DnssecSorted | src/automatic_linux_network_repair/systemd_validation.py:145 | the DNSSEC choices are listed as `sorted` lists them |
| SystemdValidation.DnsOverTlsSorted | src/automatic_linux_network_repair/systemd_validation.py:153 | the DNSOverTLS choices are listed as `sorted` lists them |
| SystemdValidation.LlmnrSorted | src/automatic_linux_network_repair/systemd_validation.py:158 | the LLMNR choices are listed as `sorted` lists them |
| SystemdValidation.MulticastDnsSorted | src/automatic_linux_network_repair/systemd_validation.py:162 | the MulticastDNS choices are listed as `sorted` lists them |
| SystemdValidation.StubListenerSorted | src/automatic_linux_network_repair/systemd_validation.py:167 | the DNSStubListener choices are listed as `sorted` lists them |
| SystemdValidation.ReadEtcHostsSorted | src/automatic_linux_network_repair/systemd_validation.py:172 | the ReadEtcHosts choices are listed as `sorted` lists them |
| SystemdValidation.AllOrdersSorted | src/automatic_linux_network_repair/systemd_validation.py:138-172 | all six choice keys list their allowed values in sorted order |
| SystemdValidation.KeyIssues | src/automatic_linux_network_repair/systemd_validation.py:138-172 | at most one issue per key, and none exactly when the key is unset, empty or allowed |
| SystemdValidation.ChoicesClean | src/automatic_linux_network_repair/systemd_validation.py:138-172 | the choice keys give no issue exactly when each of the six is unset, empty or allowed |
| SystemdValidation.CheckKey | src/automatic_linux_network_repair/systemd_validation.py:138-148 | checking one key reports its issues and logs each of them |
| SystemdValidation.CheckChoices | src/automatic_linux_network_repair/systemd_validation.py:138-172 | the six keys are checked in order and their issues logged, with no command run |
| SystemdValidation.CheckServers | src/automatic_linux_network_repair/systemd_validation.py:121-127 | DNS and then FallbackDNS are checked and their issues logged |
| SystemdValidation.CheckLater | src/automatic_linux_network_repair/systemd_validation.py:129-172 | the name lookup is made only when both server lists are empty, then the choice keys are checked |
| SystemdValidation.LogExtend | src/automatic_linux_network_repair/systemd_validation.py:114-172 | logging two runs of issues in turn logs their concatenation |
| SystemdValidation.CheckSection | src/automatic_linux_network_repair/systemd_validation.py:114-174 | the [Resolve] section's issues are the server, lookup and choice issues, each logged |
| SystemdValidation.ValidateResolvedConf | src/automatic_linux_network_repair/systemd_validation.py:94-174 | the issues and the events are those of the specification function on the file's presence and how it parses |
| SystemdValidation.AddressIssuesNamePath | src/automatic_linux_network_repair/systemd_validation.py:65 | every address issue starts with the file's path |
| SystemdValidation.KeyIssuesNamePath | src/automatic_linux_network_repair/systemd_validation.py:79 | every choice issue starts with the file's path |
| SystemdValidation.ChoicesNamePath | src/automatic_linux_network_repair/systemd_validation.py:138-172 | every issue of the choice keys starts with the file's path |
| SystemdValidation.SectionNamesPath | src/automatic_linux_network_repair/systemd_validation.py:114-174 | every issue of the section starts with the file's path |
| SystemdValidation.ResolvedIssuesNamePath | src/automatic_linux_network_repair/systemd_validation.py:94-119 | every issue names resolved.conf's path; a missing file gives no issue, and an unreadable file or one without [Resolve] gives exactly one and no further events |
| SystemdValidation.SectionCleanIff | src/automatic_linux_network_repair/systemd_validation.py:114-174 | the section has no issue exactly when all servers are valid, the lookup (if made) succeeds and all six choice keys are acceptable |
| SystemdValidation.ResolvedLookup | src/automatic_linux_network_repair/systemd_validation.py:129-137 | "example.com" is looked up exactly when a readable [Resolve] section has no DNS and no FallbackDNS, and a failed lookup adds its issue before the choice issues |
| SystemdValidation.ResolvedLogMessages | src/automatic_linux_network_repair/systemd_validation.py:50-54 | without a logger nothing is logged; with one, the messages are "[FAIL] " plus each issue, in order |
| SystemdValidation.TwoRunsMessages | src/automatic_linux_network_repair/systemd_validation.py:50-54 | two runs of failure lines carry "[FAIL] " plus each issue of both runs, in order |
| SystemdValidation.ToolsStepMeans | src/automatic_linux_network_repair/systemd_validation.py:177-180 | the tools are available exactly when both systemctl and systemd-analyze are found; systemd-analyze is looked up only after systemctl is found, and no command runs |
| SystemdValidation.ToolsAvailable | src/automatic_linux_network_repair/systemd_validation.py:177-180 | the result and the lookups are those of the specification function, and nothing is logged |
| SystemdValidation.EndsWithAnyMeans | src/automatic_linux_network_repair/systemd_validation.py:192 | `endswith` with a tuple holds exactly when the name ends with one of the suffixes |
| SystemdValidation.DirMatches | src/automatic_linux_network_repair/systemd_validation.py:191-193 | a directory yields at most one path per file name |
| SystemdValidation.DirMatchesMembers | src/automatic_linux_network_repair/systemd_validation.py:191-193 | a path is found in a directory exactly when it is a unit-like name of it joined to the directory |
| SystemdValidation.WalkMatchesMembers | src/automatic_linux_network_repair/systemd_validation.py:190-193 | a path is found exactly when some walked directory yields it |
| SystemdValidation.DirMatchesSound | src/automatic_linux_network_repair/systemd_validation.py:191-193 | every path a directory yields is one of its names with a unit-like ending, joined to the directory |
| SystemdValidation.DirMatchesComplete | src/automatic_linux_network_repair/systemd_validation.py:191-193 | every name of a directory with a unit-like ending, joined to the directory, is yielded |
| SystemdValidation.WalkMatchesSound | src/automatic_linux_network_repair/systemd_validation.py:190-193 | every path the walk yields comes from a file of one of the walked directories |
| SystemdValidation.WalkMatchesComplete | src/automatic_linux_network_repair/systemd_validation.py:190-193 | every path one walked directory yields is yielded by the whole walk |
| SystemdValidation.UnitFilesProps | src/automatic_linux_network_repair/systemd_validation.py:183-194 | no directory gives no files; otherwise the result is sorted, is a permutation of the matches, and holds exactly the unit-like files |
| SystemdValidation.FindUnitFiles | src/automatic_linux_network_repair/systemd_validation.py:183-194 | the loop over the walk computes the specification function's sorted file list |
| SystemdValidation.CollectMatches | src/automatic_linux_network_repair/systemd_validation.py:190-193 | the nested loop over the walk collects exactly the files ending with one of the extensions, joined to their directory, in walk order |
| SystemdValidation.VerifyStep | src/automatic_linux_network_repair/systemd_validation.py:224-227 | one result and one command per file |
| SystemdValidation.VerifyStepMeans | src/automatic_linux_network_repair/systemd_validation.py:224-227 | the i-th command is `systemd-analyze verify` on the i-th file with timeout 15, and the i-th result pairs that file with that command's answer |
| SystemdValidation.VerifyStepAt | src/automatic_linux_network_repair/systemd_validation.py:225-234 | each file is verified after the ones before it, and its log line follows theirs |
| SystemdValidation.FailDetail | src/automatic_linux_network_repair/systemd_validation.py:233 | the failure detail is never empty: stderr, else stdout, else the return code |
| SystemdValidation.VerifyLog | src/automatic_linux_network_repair/systemd_validation.py:229-234 | one log line per verified file with a logger, none without |
| SystemdValidation.VerifyFiles | src/automatic_linux_network_repair/systemd_validation.py:224-234 | the loop's results, commands and log lines are those of the specification functions |
| SystemdValidation.VerifyLogMessages | src/automatic_linux_network_repair/systemd_validation.py:229-234 | the i-th log message is the verdict on the i-th file's result |
| SystemdValidation.VerifyMessageMeans | src/automatic_linux_network_repair/systemd_validation.py:230-234 | return code 0 gives "[OK] <path>"; any other gives "[FAIL] <path>: " followed by a non-empty detail |
| SystemdValidation.ReportTree | src/automatic_linux_network_repair/systemd_validation.py:209-241 | the report and the log follow the three cases: no tools, no unit files, or verify every file |
| SystemdValidation.ValidateSystemdTree | src/automatic_linux_network_repair/systemd_validation.py:197-241 | the report and the events are those of the specification function: resolved.conf, the tools, the walk, then the verifications |
| SystemdValidation.VerifyCmds | src/automatic_linux_network_repair/systemd_validation.py:226 | one `systemd-analyze verify` command per file, in order |
| SystemdValidation.VerifyCommands | src/automatic_linux_network_repair/systemd_validation.py:224-227 | the commands run are exactly one verify per file, in order |
| SystemdValidation.ResolvedNoCommands | src/automatic_linux_network_repair/systemd_validation.py:94-174 | linting resolved.conf runs no command |
| SystemdValidation.TreeStepMeans | src/automatic_linux_network_repair/systemd_validation.py:197-241 | the report carries resolved.conf's issues and the tool check; without the tools no command runs and nothing is verified; with them every unit file is verified once, in order |

## Left out

- Process spawning, time limits and the `logging` setup (eth_repair/shell.py, eth_repair/logging_utils.py, `setup_logging`, `log` and `debug` in the menu tool). They are I/O. A command's result is an oracle answer, a spawn failure or a timeout is the 255 result, and log output is the stamped log sequence. Debug-level messages are not recorded.
- The menu tool's own `run_cmd` and `cmd_str`, and its copies of the probes, the diagnosis and the shared repairs. They differ from the package's versions only in logging calls, comments and type hints, and they share those modules.
- Foreign calls become parameters, because they are library code outside this repository:
  - `ipaddress.ip_address` is the `valid` predicate;
  - `socket.getaddrinfo` is the `Lookup` oracle;
  - `shutil.which` is the `installed` oracle;
  - `os.path.exists`, `islink` and `realpath` together are the `inspect` oracle;
  - `os.walk` and `os.path.isdir` are an optional list of walked directories;
  - configparser's reading of resolved.conf is a `ConfRead` value: unreadable with its message, or the `[Resolve]` section when there is one.
- `_extract_active_settings` (systemd_panel.py:72-100) is configparser work. The schema takes the active settings of each body from an `active` parameter.
- SystemdPanel.SchemaRoundTrip: states only the paths and the commented settings of the schema → dump → schema round trip. The active settings go through configparser, which is not modelled.
- `render_systemd_panel`, `print_systemd_panel`, eth_repair/status.py, eth_repair/menus.py, `show_status`, `show_all_adapters`, `list_all_interfaces_detailed`, `read_resolv_conf_summary` and `show_systemd_dns_status` are left out. They are presentation, and `read_resolv_conf_summary` is also a file read. Showing the status is a `Delegate` event where a flow calls it.
- `interactive_menu` and `advanced_systemd_dns_menu`: the menu loops are prompt-driven presentation. The entry flow records `interactive_menu` as a `Delegate` event, and menu option 2 (the full repair) is modelled.
- `collect_systemd_files`, `generate_systemd_dump` and `interactive_edit_systemd_dump`: directory walking, shell plumbing and prompt-driven file writing.
- `parse_args` and the Typer command wrappers: argument parsing. `main` is modelled from its parsed arguments.
- `EthernetRepairCoordinator` is not part of this model, because it is not in the repository's code. The CLI's auto pass hands it a `Delegate` event.
- `repr()` of strings, in validation issues, is modelled for strings without quotes or backslashes, which covers every allowed-value set the code lists.
- `str.lower`, `str.isdigit` and `str.isidentifier`, and `re`'s `\d` in the iwlist quality pattern, are modelled for ASCII only. Non-ASCII letters, digits and identifier characters are treated as ordinary characters.
- Floating-point scores are integer hundredths. The code uses only constants with two decimals, compared with `max` and `>`, and prints them with `:.2f`.
- The scores of a diagnosis, a dictionary whose insertion order the ranking relies on, are a sequence of entries. The manager flags are a record of three booleans. Other dictionaries are `map`s, because only their contents matter.
- The `ValueError` handler of the `iwlist` quality parse (wifi.py:313-317) is unreachable, because the regular expression admits only digits. The model reads the digits and has no error path there.
- Wifi.NmcliScanRoundTrip, Iwctl.IwctlRowsRoundTrip, WpaCli.WpaRowsRoundTrip and Iwlist.IwlistScanOutput cover only networks whose fields hold no separator or line break. Other fields cannot be written back in the backend's own listing format.
- Repairs.RepairFull: its ensures gives the trace of the chosen repair but not the log, because the repair methods it calls do not specify their log output. The ranked score lines it logs after its start line and header are stated by Repairs.LogScores and Repairs.ScoreLines.

## Findings

| source | as written | input that shows it | evidently intended | confidence | as-written member | corrected member |
|---|---|---|---|---|---|---|
| src/automatic_linux_network_repair/wifi.py:174 | the signal is converted with `int(signal)` whenever `signal.lstrip("-").isdigit()` holds, and that test admits any number of leading '-' | a `wpa_cli scan_results` row whose signal field is "--45": the test passes, `int("--45")` raises `ValueError` and the whole scan fails | such a field gives no signal and the row is kept | not executed | WpaCli.WpaSignalDoubleMinus | WpaCli.WpaSignalRoundTrip |
| src/automatic_linux_network_repair/wifi.py:191 | the network id is `add_res.stdout.strip().splitlines()[-1]` with no check that a line exists | `add_network` exits 0 with blank output: `[][-1]` raises `IndexError` out of `connect` | a blank reply is treated like a failed `add_network` and the connect returns a failure result | not executed | WpaCli.BlankAddRaises | WpaCli.WpaConnectProps |

The model uses the corrected readings. `WpaCli.WpaSignal` reads a signal only as digits after at most one '-'. `WpaCli.WpaSignalAgrees` shows that it agrees with the code wherever the code does not raise. `WpaCli.WpaConnectStep` stops after a blank `add_network` reply without sending any further command.
