/** The tunnel command line of `run_cloudflared` and the process sweep `cleanup_processes` of
    b2listen/b2listen.py, which kills tunnel processes a session left behind. */
module Processes {
  import opened Wrappers
  import opened Text
  import opened Seqs
  import opened Config

  /** The argument vector `run_cloudflared` starts the tunnel with. */
  function TunnelCommand(command: string, logLevel: string, serviceUrl: string, sessionLabel: string): (r: seq<string>)
    ensures |r| == 9 && r[0] == command && r[8] == sessionLabel
  {
    [command, "--no-autoupdate", "tunnel", "--url", serviceUrl, "--loglevel", logLevel, "--label", sessionLabel]
  }

  /** The test of `cleanup_processes`: a non-empty command line whose first element is the tunnel
      command and in which the list of elements starting with the reserved prefix is not empty. */
  predicate IsOrphanTunnel(cmdline: seq<string>, command: string) {
    |cmdline| > 0 && cmdline[0] == command && |Filter(cmdline, IsSessionName)| > 0
  }

  /** The list-length test is an existence test: some element starts with the reserved prefix. */
  lemma OrphanTunnelIff(cmdline: seq<string>, command: string)
    ensures IsOrphanTunnel(cmdline, command) <==>
      |cmdline| > 0 && cmdline[0] == command &&
      exists i :: 0 <= i < |cmdline| && StartsWith(cmdline[i], EventNotificationRulePrefix)
  {
    if exists i :: 0 <= i < |cmdline| && StartsWith(cmdline[i], EventNotificationRulePrefix) {
      var i :| 0 <= i < |cmdline| && StartsWith(cmdline[i], EventNotificationRulePrefix);
      FilterMembership(cmdline, IsSessionName, cmdline[i]);
    } else if |Filter(cmdline, IsSessionName)| > 0 {
      var x := Filter(cmdline, IsSessionName)[0];
      FilterMembership(cmdline, IsSessionName, x);
    }
  }

  /** A tunnel started with a session label is one the sweep kills. */
  lemma TunnelCommandIsOrphan(command: string, logLevel: string, serviceUrl: string, isoTimestamp: string)
    ensures IsOrphanTunnel(TunnelCommand(command, logLevel, serviceUrl, SessionLabel(isoTimestamp)), command)
  {
    var cmdline := TunnelCommand(command, logLevel, serviceUrl, SessionLabel(isoTimestamp));
    OrphanTunnelIff(cmdline, command);
    assert StartsWith(cmdline[8], EventNotificationRulePrefix);
  }

  /** `cleanup_processes`: walk the process table and kill every orphan tunnel. Each entry is the
      process's command line, or `None` when reading it raised `AccessDenied` or `NoSuchProcess`
      (such processes are skipped). Returns the positions of the killed processes, in order; the
      count `killed_count` is its length and an empty result is logged as "could not find". */
  method CleanupProcesses(command: string, processes: seq<Option<seq<string>>>) returns (killed: seq<nat>)
    ensures forall i :: i in killed <==>
      0 <= i < |processes| && processes[i].Some? && IsOrphanTunnel(processes[i].value, command)
    ensures forall j, k :: 0 <= j < k < |killed| ==> killed[j] < killed[k]
  {
    killed := [];
    var i := 0;
    while i < |processes|
      invariant 0 <= i <= |processes|
      invariant forall p :: p in killed <==>
        0 <= p < i && processes[p].Some? && IsOrphanTunnel(processes[p].value, command)
      invariant forall j, k :: 0 <= j < k < |killed| ==> killed[j] < killed[k]
      invariant forall j :: 0 <= j < |killed| ==> killed[j] < i
    {
      var cmdline := processes[i];
      if cmdline.Some? && IsOrphanTunnel(cmdline.value, command) {
        killed := killed + [i];
      }
      i := i + 1;
    }
  }
}
