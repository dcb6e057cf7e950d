/** The vocabulary shared by the agent and the master: the wire-visible lifecycle of a fault
    instance, the plugin commands, and how one plugin invocation can end. */
module Lifecycle {
  import P = Params

  datatype Option<+T> = None | Some(value: T)

  type InstanceId = string

  datatype InstanceState = Pending | Preflight | Injecting | Active | Recovering | Done | Aborted | Error
  {
    /** True once the instance can never change state again. */
    predicate IsTerminal() {
      Done? || Aborted? || Error?
    }

    /** Position in the lifecycle; the three terminal states share the last place. */
    function Rank(): (r: nat)
      ensures r == 5 <==> IsTerminal()
      ensures r <= 5
    {
      match this
      case Pending => 0
      case Preflight => 1
      case Injecting => 2
      case Active => 3
      case Recovering => 4
      case _ => 5
    }
  }

  datatype PluginCommand = Preflight | Inject | Report | Abort | Cleanup

  datatype Phase = Install | Runtime

  /** What the agent reads into an exit code. */
  datatype Disposition = Success | PreflightFailed | InjectFailed | RecoveryFailed | Unexpected(code: int)

  /** How a spawned plugin process ended. */
  datatype InvocationOutcome = Exited(disposition: Disposition) | TimedOut | Signalled | Failed(why: string)

  const JOURNAL_VERSION := 1

  /** Everything needed to recover one instance without the master. */
  datatype JournalEntry = JournalEntry(
    version: int,
    instanceId: InstanceId,
    pluginName: string,
    pluginVersion: string,
    pluginDigest: string,
    params: P.Args,
    startedMs: int,
    durationSecs: nat,
    graceSecs: nat,
    deadlineUnix: int)

  /** The dead-man deadline has not been reached. */
  predicate InTime(nowMs: nat, deadlineUnix: int) {
    nowMs / 1000 < deadlineUnix
  }
}
