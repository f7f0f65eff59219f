/**
  The worker's lease watchdog: a renewal thread that stamps each successful
  renewal, and a poll loop that stops before touching the terminal once the
  last stamp is too old.
 */
module Worker {
  import opened Wrappers
  import opened RedisTransport

  type LeaseKeys = Keys<nat, nat>

  function IsLeaseStale(lastSuccessAt: Millis, now: Millis, ttl: int, margin: int): bool {
    now - lastSuccessAt > ttl - margin
  }

  /** What becomes of one renewal request. */
  datatype Reply = NeverSent | ReplyLost | Answered

  /** One turn of the renewal loop: the shutdown flag as read before and after the request, and the times. */
  datatype Turn = Turn(stopping: bool, executedAt: Millis, reply: Reply, stampedAt: Millis, stoppingAfter: bool)

  datatype Renewal = Renewal(keys: LeaseKeys, lastSuccessAt: Millis, leaseLost: bool, running: bool)

  function AfterTurn(r: Renewal, c: Credential, ttl: int, t: Turn): Renewal {
    var call := Renew(c, ttl);
    if t.stopping then r.(running := false)
    else
      match t.reply
      case NeverSent => r
      case ReplyLost => r.(keys := Apply(r.keys, t.executedAt, call))
      case Answered =>
        if Accepted(r.keys, t.executedAt, call)
        then r.(keys := Apply(r.keys, t.executedAt, call), lastSuccessAt := t.stampedAt)
        else r.(leaseLost := r.leaseLost || !t.stoppingAfter, running := false)
  }

  function AfterTurns(r: Renewal, c: Credential, ttl: int, turns: seq<Turn>): Renewal
    decreases |turns|
  {
    if turns == [] || !r.running then r else AfterTurns(AfterTurn(r, c, ttl, turns[0]), c, ttl, turns[1..])
  }

  class LeaseRenewalThread {
    const lease: Server<nat, nat>
    const credential: Credential
    const ttl: int
    var lastSuccessAt: Millis
    var leaseLost: bool

    /** The first stamp is the construction time, whenever the lease was acquired. */
    constructor (lease: Server<nat, nat>, credential: Credential, ttl: int, clock: Millis)
      ensures this.lease == lease && this.credential == credential && this.ttl == ttl
      ensures lastSuccessAt == clock && !leaseLost
    {
      this.lease, this.credential, this.ttl := lease, credential, ttl;
      lastSuccessAt, leaseLost := clock, false;
    }

    ghost function State(running: bool): Renewal
      reads this, lease
    {
      Renewal(lease.State(), lastSuccessAt, leaseLost, running)
    }

    method Turn(t: Turn) returns (running: bool)
      requires lease.Valid() && ttl > 0
      modifies this`lastSuccessAt, this`leaseLost, lease
      ensures lease.Valid()
      ensures State(running) == AfterTurn(old(State(true)), credential, ttl, t)
    {
      if t.stopping {
        return false;
      }
      if t.reply.NeverSent? {
        return true;
      }
      var renewed := lease.RenewLease(t.executedAt, credential, ttl);
      if t.reply.ReplyLost? {
        return true;
      }
      if renewed.Success? {
        lastSuccessAt := t.stampedAt;
        return true;
      }
      if !t.stoppingAfter {
        leaseLost := true;
      }
      running := false;
    }

    /** The renewal loop, for the turns it takes before it is stopped. */
    method Run(turns: seq<Turn>) returns (running: bool)
      requires lease.Valid() && ttl > 0
      modifies this`lastSuccessAt, this`leaseLost, lease
      ensures lease.Valid()
      ensures State(running) == AfterTurns(old(State(true)), credential, ttl, turns)
    {
      running := true;
      var i := 0;
      while i < |turns| && running
        invariant i <= |turns| && lease.Valid()
        invariant AfterTurns(old(State(true)), credential, ttl, turns)
                  == AfterTurns(State(running), credential, ttl, turns[i..])
      {
        assert turns[i..][1..] == turns[i + 1..];
        running := Turn(turns[i]);
        i := i + 1;
      }
    }
  }

  // ---------------------------------------------------------------------
  // The poll loop
  // ---------------------------------------------------------------------

  datatype ExitCode = CLEAN_SHUTDOWN | LEASE_LOST | TERMINAL_NOT_READY | IDENTITY_VIOLATION

  datatype TerminalCheck = Ready | NotReady | Violation

  datatype PollResult = Polled(liveFailed: bool) | PollNotReady | PollViolation | PollLeaseUnavailable

  /** What one cycle finds when it looks. */
  datatype Cycle = Cycle(
    stopRequested: bool, orphaned: bool, leaseLost: bool, lastSuccessAt: Millis, now: Millis,
    terminal: TerminalCheck, poll: PollResult)

  datatype Config = Config(ttl: int, margin: int, revalidateEvery: int)

  predicate PassesLeaseChecks(config: Config, c: Cycle) {
    !c.leaseLost && !IsLeaseStale(c.lastSuccessAt, c.now, config.ttl, config.margin)
  }

  predicate Revalidates(config: Config, i: nat) {
    i % (if config.revalidateEvery > 1 then config.revalidateEvery else 1) == 0
  }

  /** The exit this cycle takes, if it takes one. */
  function ExitOf(config: Config, i: nat, c: Cycle): Option<ExitCode> {
    if c.stopRequested || c.orphaned then Some(CLEAN_SHUTDOWN)
    else if !PassesLeaseChecks(config, c) then Some(LEASE_LOST)
    else if Revalidates(config, i) && c.terminal.NotReady? then Some(TERMINAL_NOT_READY)
    else if Revalidates(config, i) && c.terminal.Violation? then Some(IDENTITY_VIOLATION)
    else if c.poll.PollNotReady? then Some(TERMINAL_NOT_READY)
    else if c.poll.PollViolation? then Some(IDENTITY_VIOLATION)
    else if c.poll.PollLeaseUnavailable? then Some(LEASE_LOST)
    else None
  }

  /**
    Why a cycle ends the loop: a stop or a lost parent shuts down cleanly; a lost lease, or a
    last success more than the time to live less the margin ago, ends it before the terminal is
    touched; the terminal is looked at in every n-th cycle; the poll itself comes last.
   */
  lemma ExitExactly(config: Config, i: nat, c: Cycle)
    ensures var ending := c.leaseLost || c.now > c.lastSuccessAt + config.ttl - config.margin;
            var looks := config.revalidateEvery <= 1 || i % config.revalidateEvery == 0;
            ExitOf(config, i, c)
            == if c.stopRequested || c.orphaned then Some(CLEAN_SHUTDOWN)
               else if ending then Some(LEASE_LOST)
               else if looks && c.terminal != Ready then
                 Some(if c.terminal == NotReady then TERMINAL_NOT_READY else IDENTITY_VIOLATION)
               else
                 match c.poll
                 case Polled(_) => None
                 case PollNotReady => Some(TERMINAL_NOT_READY)
                 case PollViolation => Some(IDENTITY_VIOLATION)
                 case PollLeaseUnavailable => Some(LEASE_LOST)
  {
  }

  function LiveErrors(cycles: seq<Cycle>): nat {
    if cycles == [] then 0
    else
      LiveErrors(cycles[..|cycles| - 1])
      + (if cycles[|cycles| - 1].poll.Polled? && cycles[|cycles| - 1].poll.liveFailed then 1 else 0)
  }

  /**
    Runs the cycles until one of them exits. `touched` counts the cycles that
    reached the terminal: all of them had passed both lease checks.
   */
  method PollLoop(config: Config, cycles: seq<Cycle>)
    returns (exit: Option<ExitCode>, completed: nat, touched: nat, liveErrorCount: nat)
    ensures completed <= |cycles|
    ensures forall i | 0 <= i < completed :: ExitOf(config, i, cycles[i]) == None
    ensures exit == (if completed < |cycles| then ExitOf(config, completed, cycles[completed]) else None)
    ensures completed < |cycles| <==> exit.Some?
    ensures completed <= touched <= completed + 1 && touched <= |cycles|
    ensures forall i | 0 <= i < touched :: PassesLeaseChecks(config, cycles[i])
    ensures completed < |cycles| ==>
              (touched == completed + 1 <==>
                 && !cycles[completed].stopRequested && !cycles[completed].orphaned
                 && PassesLeaseChecks(config, cycles[completed]))
    ensures liveErrorCount == LiveErrors(cycles[..completed])
  {
    exit, completed, touched, liveErrorCount := None, 0, 0, 0;
    while completed < |cycles|
      invariant completed <= |cycles| && touched == completed && exit == None
      invariant forall i | 0 <= i < completed :: ExitOf(config, i, cycles[i]) == None
      invariant forall i | 0 <= i < touched :: PassesLeaseChecks(config, cycles[i])
      invariant liveErrorCount == LiveErrors(cycles[..completed])
    {
      var c := cycles[completed];
      if c.stopRequested || c.orphaned {
        return Some(CLEAN_SHUTDOWN), completed, touched, liveErrorCount;
      }
      if c.leaseLost || IsLeaseStale(c.lastSuccessAt, c.now, config.ttl, config.margin) {
        return Some(LEASE_LOST), completed, touched, liveErrorCount;
      }
      touched := touched + 1;
      if Revalidates(config, completed) && !c.terminal.Ready? {
        return Some(if c.terminal.NotReady? then TERMINAL_NOT_READY else IDENTITY_VIOLATION), completed, touched, liveErrorCount;
      }
      match c.poll {
        case PollNotReady => return Some(TERMINAL_NOT_READY), completed, touched, liveErrorCount;
        case PollViolation => return Some(IDENTITY_VIOLATION), completed, touched, liveErrorCount;
        case PollLeaseUnavailable => return Some(LEASE_LOST), completed, touched, liveErrorCount;
        case Polled(failed) =>
          if failed {
            liveErrorCount := liveErrorCount + 1;
          }
      }
      assert cycles[..completed + 1][..completed] == cycles[..completed];
      completed := completed + 1;
    }
  }
}
