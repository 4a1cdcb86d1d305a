// The hardware interface the driver talks through (src/interface.rs), as an
// abstract collaborator: every call either appends one event to a log or
// fails. `budget` is the number of further calls that will succeed; the first
// call beyond it fails, appends nothing, and the link stays failed.
module Interface {
  import opened Command

  /** One interface call: a command byte, a data block, or a wait on BUSY. */
  datatype Event = Cmd(op: byte) | Data(bytes: seq<byte>) | BusyWait

  class Bus {
    var log: seq<Event>
    var budget: nat

    constructor (budget: nat)
      ensures log == [] && this.budget == budget
    {
      log := [];
      this.budget := budget;
    }

    /** Append `e` when the link still works; report whether it did. */
    method Send(e: Event) returns (ok: bool)
      modifies this
      ensures ok == (old(budget) > 0)
      ensures log == if ok then old(log) + [e] else old(log)
      ensures budget == if ok then old(budget) - 1 else 0
    {
      ok := budget > 0;
      if ok {
        log := log + [e];
        budget := budget - 1;
      }
    }

    /** `send_command`: a command byte with DC low. */
    method SendCommand(op: byte) returns (ok: bool)
      modifies this
      ensures ok == (old(budget) > 0)
      ensures log == if ok then old(log) + [Cmd(op)] else old(log)
      ensures budget == if ok then old(budget) - 1 else 0
    {
      ok := Send(Cmd(op));
    }

    /** `send_data`: a block of parameter or pixel bytes with DC high. */
    method SendData(bytes: seq<byte>) returns (ok: bool)
      modifies this
      ensures ok == (old(budget) > 0)
      ensures log == if ok then old(log) + [Data(bytes)] else old(log)
      ensures budget == if ok then old(budget) - 1 else 0
    {
      ok := Send(Data(bytes));
    }

    /** `busy_wait`: block until the controller releases BUSY, or time out. */
    method WaitBusy() returns (ok: bool)
      modifies this
      ensures ok == (old(budget) > 0)
      ensures log == if ok then old(log) + [BusyWait] else old(log)
      ensures budget == if ok then old(budget) - 1 else 0
    {
      ok := Send(BusyWait);
    }
  }
}
