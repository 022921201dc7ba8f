/** The counters one agent session keeps about stream opens in flight: `agentConn` of the edge,
    guarded by its own mutex. Each mutex section of the source is one function on the value
    `Conn` and one method of the class, which is proved to do exactly what the function says;
    module `Handoff` runs the functions against the rest of the protocol. */
module AgentConns {
  import opened Options

  /** The mutable part of a session. Wake-up channels are numbered in the order they are made;
      `closed` holds those already closed. */
  datatype Conn = Conn(retired: bool, opening: int, stuck: int,
                       idle: Option<nat>, made: nat, closed: set<nat>)
  {
    function LiveOpens(): int { opening - stuck }

    /** `wakeIfIdleLocked`. */
    function Woken(): Conn {
      if LiveOpens() <= 0 && idle.Some? then this.(closed := closed + {idle.value}, idle := None) else this
    }

    /** Closing a closed channel panics; this says the next wake-up cannot. */
    predicate ChannelsOk() {
      && (forall k <- closed :: k < made)
      && (idle.Some? ==> idle.value < made && idle.value !in closed)
    }
  }

  const FRESH := Conn(false, 0, 0, None, 0, {})

  datatype OpenCheck = MayOpen | ErrRetired | ErrOpenBlocked

  function CheckOpen(c: Conn): OpenCheck {
    if c.retired then ErrRetired else if c.stuck > 0 then ErrOpenBlocked else MayOpen
  }

  function Began(c: Conn): Conn { c.(opening := c.opening + 1) }

  function Completed(c: Conn, abandoned: bool): Conn {
    c.(opening := c.opening - 1, stuck := if abandoned then c.stuck - 1 else c.stuck).Woken()
  }

  function GivenUp(c: Conn): Conn { c.(stuck := c.stuck + 1).Woken() }

  function Retired(c: Conn): Conn { c.(retired := true) }

  /** The mutex section of `retireForDrain`: nothing to wait for, or the channel to wait on. */
  function DrainChecked(c: Conn): (Conn, Option<nat>) {
    if c.LiveOpens() == 0 then (c, None)
    else if c.idle.Some? then (c, c.idle)
    else (c.(idle := Some(c.made), made := c.made + 1), Some(c.made))
  }

  /** The mutable session. */
  class AgentConn {
    var retired: bool
    var opening: int
    var stuck: int
    var idle: Option<nat>
    var made: nat
    var closed: set<nat>

    ghost function View(): Conn reads this { Conn(retired, opening, stuck, idle, made, closed) }

    constructor ()
      ensures View() == FRESH
    {
      retired, opening, stuck, idle, made, closed := false, 0, 0, None, 0, {};
    }

    /** Close the current wake-up channel if no open that may still be used is in flight. */
    method WakeIfIdle()
      requires View().ChannelsOk()
      modifies this
      ensures View() == old(View()).Woken() && View().ChannelsOk()
    {
      if opening - stuck <= 0 && idle.Some? {
        assert idle.value !in closed;  // a channel is never closed twice
        closed := closed + {idle.value};
        idle := None;
      }
    }

    /** First mutex section of `openUnlessRetired`. */
    method BeginOpen() returns (r: OpenCheck)
      modifies this
      ensures r == CheckOpen(old(View()))
      ensures View() == if r == MayOpen then Began(old(View())) else old(View())
    {
      if retired { return ErrRetired; }
      if stuck > 0 { return ErrOpenBlocked; }
      opening := opening + 1;
      return MayOpen;
    }

    /** Mutex section of the goroutine once `OpenStream` has returned. */
    method CompleteOpen(abandoned: bool)
      requires View().ChannelsOk()
      modifies this
      ensures View() == Completed(old(View()), abandoned) && View().ChannelsOk()
    {
      opening := opening - 1;
      if abandoned { stuck := stuck - 1; }
      WakeIfIdle();
    }

    /** Mutex section of the timer branch: `finished` says the open completed just as the wait ran out. */
    method GiveUpOpen(finished: bool) returns (timedOut: bool)
      requires View().ChannelsOk()
      modifies this
      ensures timedOut == !finished && View().ChannelsOk()
      ensures View() == if finished then old(View()) else GivenUp(old(View()))
    {
      if finished { return false; }
      stuck := stuck + 1;
      WakeIfIdle();
      return true;
    }

    /** Mutex section of `retire`. */
    method Retire() returns (already: bool)
      modifies this
      ensures already == old(retired) && View() == Retired(old(View()))
    {
      already := retired;
      retired := true;
    }

    /** Mutex section of `retireForDrain`; the caller then waits on `wait`, if there is one. */
    method DrainCheck() returns (wait: Option<nat>)
      requires View().ChannelsOk()
      modifies this
      ensures (View(), wait) == DrainChecked(old(View())) && View().ChannelsOk()
    {
      if opening - stuck == 0 { return None; }
      if idle.None? {
        idle := Some(made);
        made := made + 1;
      }
      return idle;
    }
  }
}
