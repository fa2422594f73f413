/** The worker's recording funnel: a failed agent start is recorded on the crash-loop record once, or not at
    all when the daemon's own stop cancelled it. */
module AgentFailure {
  import opened CrashRecord

  /** A start error, and whether its chain carries a cancellation. */
  datatype StartError = StartError(text: string, cancelled: bool)

  /** How a start ended: up, failed through a terminal path, or failed otherwise. */
  datatype AgentStart = Up | Terminal(error: StartError) | Failed(error: StartError)

  const AGENT := "agent"

  class AgentProcess {
    /** Whether the daemon's signal context is done at its n-th look; it never comes back. */
    const stopped: nat -> bool
    /** Whether the n-th write of the record succeeds. */
    const persists: nat -> bool
    var looks: nat
    var writes: nat
    var now: int
    var crashed: bool
    var disk: Record
    /** The start errors this process has recorded, stored or not. */
    ghost var recorded: seq<StartError>

    constructor (stopped: nat -> bool, persists: nat -> bool, now: int, disk: Record)
      requires forall i, j :: i <= j && stopped(i) ==> stopped(j)
      ensures Fresh() && this.disk == disk && this.now == now
      ensures this.stopped == stopped && this.persists == persists && looks == 0 && writes == 0
    {
      this.stopped, this.persists, this.now, this.disk := stopped, persists, now, disk;
      looks, writes, crashed, recorded := 0, 0, false, [];
    }

    ghost predicate Fresh()
      reads this
    {
      && !crashed && recorded == []
      && forall i, j :: i <= j && stopped(i) ==> stopped(j)
    }

    /** write, for a bring-up failure: the flag, then the record, which stays as it was when it cannot be
        stored. */
    method Write(error: StartError)
      modifies this`crashed, this`disk, this`writes, this`recorded
      ensures crashed && recorded == old(recorded) + [error] && writes == old(writes) + 1
      ensures disk == if persists(old(writes)) then Update(old(disk), now, Failure(now, BringUp, AGENT, false)) else old(disk)
    {
      crashed, recorded := true, recorded + [error];
      var loaded := Prune(disk.failures, now);
      var r, _ := RecordFailure(Record(loaded, disk.trippedAt), Failure(now, BringUp, AGENT, false));
      if persists(writes) {
        disk := r;
      }
      writes := writes + 1;
    }

    /** noteAgentStartFailure: nothing for a start the daemon's own stop cancelled. */
    method Note(error: StartError)
      modifies this`crashed, this`disk, this`writes, this`recorded, this`looks
      ensures looks == old(looks) + 1
      ensures if stopped(old(looks)) && error.cancelled
              then crashed == old(crashed) && disk == old(disk) && writes == old(writes) && recorded == old(recorded)
              else crashed && recorded == old(recorded) + [error] && writes == old(writes) + 1
                   && disk == if persists(old(writes)) then Update(old(disk), now, Failure(now, BringUp, AGENT, false)) else old(disk)
    {
      var done := stopped(looks);
      looks := looks + 1;
      if !(done && error.cancelled) {
        Write(error);
      }
    }

    /** runAgent around a start: a terminal path records before it backs off, and the funnel records what no
        terminal path has. A failed start is recorded exactly once, unless it was cancelled and the stop was
        signalled when it was first noted; then not at all. It reaches the disk exactly if that one write
        succeeds. */
    method RunAgent(start: AgentStart)
      requires Fresh()
      modifies this
      ensures var skipped := start.Up? || (start.error.cancelled && stopped(old(looks)));
        && recorded == (if skipped then [] else [start.error])
        && disk == (if !skipped && persists(old(writes)) then Update(old(disk), old(now), Failure(old(now), BringUp, AGENT, false)) else old(disk))
    {
      if start.Up? {
        return;
      }
      if start.Terminal? {
        Note(start.error);
      }
      if !crashed {
        Note(start.error);
      }
    }
  }
}
