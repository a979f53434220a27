/**
 The fields of the async client that one transport owns, updated in place. Each method is the code of one task between
 two awaits, proved equal to the corresponding piece of a step of the client system.
 */
module AsyncClientSections {
  import opened Wrappers
  import opened Accumulator
  import opened AsyncClient

  class AsyncHostLinkClient {
    const rx: TcpReceiveAccumulator
    var live: Option<nat>
    var monitorBits: nat
    var monitorWords: seq<string>

    ghost predicate Valid()
      reads this, rx, rx.buffer
    {
      rx.Valid()
    }

    /** The fields are those of the system state `s`. */
    ghost predicate Shows(s: State)
      reads this, rx, rx.buffer
    {
      Valid() && rx.Value() == s.rx && live == s.live && monitorBits == s.bits && monitorWords == s.words
    }

    constructor (ghost memory: map<nat, nat>)
      ensures fresh(rx) && fresh(rx.buffer) && Shows(Initial(memory))
    {
      rx := new TcpReceiveAccumulator();
      live, monitorBits, monitorWords := None, 0, [];
    }

    /** `_close_unlocked`, also run when a request transport is retired. */
    method CloseUnlocked(ghost s: State)
      requires Shows(s)
      modifies this, rx
      ensures Shows(Retire(s)) && fresh(rx.buffer)
    {
      monitorBits, monitorWords := 0, [];
      live := None;
      rx.Reset(true);
    }

    /** The adoption of a new connection at the end of `connect`. */
    method Adopt(conn: nat, ghost s: State)
      requires Shows(s)
      modifies this, rx
      ensures Shows(s.(live := Some(conn), rx := ResetTo(s.rx, false))) && rx.buffer == old(rx.buffer)
    {
      live := Some(conn);
      rx.Reset(false);
    }

    /** `_reject_unowned_tcp_input`: takes what the reader holds, and tells whether it is more than separators. */
    method TakeUnownedInput(arrived: seq<Byte>, ghost s: State) returns (more: bool)
      requires Shows(s) && s.rx.pending == []
      modifies rx, rx.buffer
      ensures Valid() && (rx.Value(), more) == DiscardFrom(AppendTo(s.rx, arrived))
      ensures Shows(s.(rx := rx.Value())) && (rx.buffer == old(rx.buffer) || fresh(rx.buffer))
    {
      rx.Append(arrived);
      more := rx.DiscardSeparators();
    }

    /** One turn of the receive loop after a read: append the chunk and scan. */
    method TakeChunk(chunk: seq<Byte>, limit: nat, ghost s: State) returns (r: TakeResult)
      requires Shows(s)
      modifies rx, rx.buffer
      ensures ValidAcc(AppendTo(s.rx, chunk))
      ensures r == TakeOutcome(AppendTo(s.rx, chunk), limit)
      ensures Shows(s.(rx := TakeFrom(AppendTo(s.rx, chunk), limit)))
      ensures rx.buffer == old(rx.buffer) || fresh(rx.buffer)
    {
      AppendValid(s.rx, chunk);
      hide TakeOutcome, TakeFrom, AppendTo;
      rx.Append(chunk);
      r := rx.TryTakeLine(limit);
    }

    /** What registering monitors records once the PLC confirmed them. */
    method RememberMonitors(c: Command, ghost s: State)
      requires Shows(s)
      modifies this
      ensures Shows(Remember(s, c))
    {
      match c {
        case MonitorBits(count) => monitorBits := count;
        case MonitorWords(formats) => monitorWords := formats;
        case _ =>
      }
    }
  }
}
