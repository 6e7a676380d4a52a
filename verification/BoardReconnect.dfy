/** Retry loops with a failure budget and exponential backoff. */
module BoardReconnect {

  const MAX_BACKOFF := 60.0
  const MAX_STALE := 600.0

  datatype Budget = Unlimited | AtMost(retries: nat)

  predicate Exhausted(budget: Budget, attempt: nat) {
    budget.AtMost? && attempt > budget.retries
  }

  function Min(a: real, b: real): real {
    if a <= b then a else b
  }

  function Pow2(n: nat): real {
    if n == 0 then 1.0 else 2.0 * Pow2(n - 1)
  }

  /** What the network does next. `u` in [0, 1] is the random draw that the jitter is scaled from. */
  datatype Input =
    | Fine
    | Got(channel: string, position: int)
    | NotFound(channel: string)  // the server does not know the channel
    | Quiet  // nothing received within the stale timeout
    | Broken(u: real)  // a retryable error
    | Rejected(code: nat, u: real)  // HTTP status in place of a handshake
    | Fatal  // any other error, or a frame of the wrong type

  type Script = q: seq<Input> | forall x :: x in q ==> (x.Broken? || x.Rejected? ==> 0.0 <= x.u <= 1.0)

  /** What the client sees and does. */
  datatype Event =
    | Saw(input: Input)
    | Sent(attempt: nat, backoff: real)  // watch frame from the outer loop
    | Resent  // the same frame again on a quiet connection
    | Delivered(channel: string, position: int)
    | Advanced(channel: string, position: int)  // watch frame with the cursor at the message just delivered
    | Dropped(channel: string)  // not watched any longer on this connection
    | WentStale(timeout: real)  // gave up a quiet connection; the timeout used from now on
    | Failure  // counted against the budget
    | Slept(seconds: real)
    | Reconnected
    | Raised

  /** The events so far, the latest outermost. */
  datatype Trace = Empty | Then(before: Trace, e: Event)

  /** Counted failures since the last connection was made. */
  function Outage(t: Trace): nat {
    if t.Empty? then 0
    else if t.e.Failure? then 1 + Outage(t.before)
    else if t.e.Reconnected? then 0
    else Outage(t.before)
  }

  /** Connections given up as stale since the last message. */
  function IdleCount(t: Trace): nat {
    if t.Empty? then 0
    else if t.e.WentStale? then 1 + IdleCount(t.before)
    else if t.e.Delivered? then 0
    else IdleCount(t.before)
  }

  function Deliveries(t: Trace): nat {
    if t.Empty? then 0 else Deliveries(t.before) + if t.e.Delivered? then 1 else 0
  }

  /** The channels dropped since the last watch frames of the outer loop. */
  function DroppedSince(t: Trace): set<string> {
    if t.Empty? || t.e.Sent? then {}
    else if t.e.Dropped? then DroppedSince(t.before) + {t.e.channel}
    else DroppedSince(t.before)
  }

  /** The inputs that the client has taken, in order. */
  function Seen(t: Trace): seq<Input> {
    if t.Empty? then []
    else if t.e.Saw? then Seen(t.before) + [t.e.input]
    else Seen(t.before)
  }

  datatype Verdict = Open | Retry(u: real) | GiveUp

  /** A rejected handshake is final below HTTP 500; a server error counts like a lost connection. */
  function VerdictOf(dial: Input): Verdict {
    match dial
    case Rejected(code, u) => if code < 500 then GiveUp else Retry(u)
    case Broken(u) => Retry(u)
    case Fatal => GiveUp
    case _ => Open
  }

  predicate JustSaw(t: Trace, x: Input) {
    t.Then? && t.e == Saw(x)
  }

  /** The last thing was a message of a channel that is to be watched further. */
  predicate OwesFrame(watched: set<string>, t: Trace) {
    t.Then? && t.e.Delivered? && t.e.channel in watched && t.e.channel !in DroppedSince(t)
  }

  /** Nothing is owed: the last thing was neither an input to act on, nor a failure to sleep on, nor a message whose
      channel is to be watched further. */
  predicate Settled(watched: set<string>, t: Trace) {
    t.Empty? || (!t.e.Saw? && !t.e.Failure? && !t.e.Raised? && !OwesFrame(watched, t))
  }

  /** The rule for an event that comes after the trace `t`. */
  predicate Allowed(budget: Budget, stale: real, watched: set<string>, t: Trace, e: Event) {
    && (t.Then? ==> !t.e.Raised?)
    && (Exhausted(budget, Outage(t)) ==> e == Raised)
    && (t.Then? && t.e.Failure? && !Exhausted(budget, Outage(t)) ==> e.Slept?)
    && (t.Then? && t.e.Saw? && t.e.input.Broken? ==> e.Failure?)
    && (OwesFrame(watched, t) <==> e.Advanced?)
    && match e
       case Saw(_) => true
       case Sent(attempt, backoff) => Outage(t) == 0 && attempt == 0 && backoff == 1.0
       case Resent => Outage(t) == 0 && JustSaw(t, Quiet)
       case Delivered(c, p) => Outage(t) == 0 && JustSaw(t, Got(c, p))
       case Advanced(c, p) => Outage(t) == 0 && t.Then? && t.e == Delivered(c, p)
       case Dropped(c) => Outage(t) == 0 && JustSaw(t, NotFound(c))
       case WentStale(timeout) =>
         Outage(t) == 0 && JustSaw(t, Quiet) && t.before.Then? && t.before.e == Resent
         && timeout == StaleTimeout(stale, IdleCount(t) + 1)
       case Failure => t.Then? && t.e.Saw? && VerdictOf(t.e.input).Retry?
       case Slept(seconds) =>
         Outage(t) > 0 && t.Then? && t.e == Failure
         && Backoff(Outage(t) - 1) <= seconds <= MAX_BACKOFF
       case Reconnected => t.Then? && t.e.Saw? && VerdictOf(t.e.input).Open?
       case Raised => Exhausted(budget, Outage(t)) || (t.Then? && t.e.Saw? && !t.e.input.Broken?)
  }

  ghost predicate Obeys(budget: Budget, stale: real, watched: set<string>, t: Trace) {
    t.Then? ==> Obeys(budget, stale, watched, t.before) && Allowed(budget, stale, watched, t.before, t.e)
  }

  /** The receive timeout after `idle` stale reconnects in a row: it doubles from the third on, up to a cap. */
  function StaleTimeout(stale: real, idle: nat): real {
    if idle < 3 then stale else Min(StaleTimeout(stale, idle - 1) * 2.0, MAX_STALE)
  }

  function Scaled(stale: real, doublings: nat): real {
    stale * Pow2(doublings)
  }

  lemma ScaledDoubles(stale: real, n: nat)
    ensures Scaled(stale, n + 1) == 2.0 * Scaled(stale, n)
  {
    var p := Pow2(n);
    assert Pow2(n + 1) == 2.0 * p;
    assert stale * (2.0 * p) == 2.0 * (stale * p);
  }

  /** Closed form of that recurrence. */
  lemma {:induction false} StaleTimeoutClosed(stale: real, idle: nat)
    ensures idle < 3 ==> StaleTimeout(stale, idle) == stale
    ensures idle >= 3 ==>
              StaleTimeout(stale, idle) == if Scaled(stale, idle - 2) <= 600.0 then Scaled(stale, idle - 2) else 600.0
  {
    if idle >= 3 { ScaledDoubles(stale, idle - 3); }
    if idle < 3 {
    } else if idle == 3 {
      assert Scaled(stale, 0) == stale;
      assert StaleTimeout(stale, 2) == stale;
    } else {
      StaleTimeoutClosed(stale, idle - 1);
    }
  }

  /** The backoff after n counted failures, as the doubling with a cap leaves it. */
  lemma BackoffDoubles(n: nat)
    ensures Min(Backoff(n) * 2.0, MAX_BACKOFF) == Backoff(n + 1)
    ensures Backoff(0) == 1.0 && Backoff(n + 1) == if Backoff(n) * 2.0 <= 60.0 then Backoff(n) * 2.0 else 60.0
  {
  }

  lemma ObeysMore(budget: Budget, stale: real, watched: set<string>, t: Trace, e: Event)
    requires Obeys(budget, stale, watched, t) && Allowed(budget, stale, watched, t, e)
    ensures Obeys(budget, stale, watched, Then(t, e))
  {
  }

  /** A finite budget M is never overrun: an outage has at most M + 1 counted failures, and after the last of them
      the client can only raise. */
  lemma {:induction false} BudgetBound(retries: nat, stale: real, watched: set<string>, t: Trace)
    requires Obeys(AtMost(retries), stale, watched, t)
    ensures Outage(t) <= retries + 1
    ensures Outage(t) == retries + 1 ==> t.e == Failure || t.e == Raised
    ensures t.Then? && t.e == Raised && t.before.Then? && t.before.e == Failure ==> Outage(t) == retries + 1
  {
    if t.Then? {
      BudgetBound(retries, stale, watched, t.before);
    }
  }

  ghost predicate IsPrefix(p: Trace, t: Trace) {
    p == t || (t.Then? && IsPrefix(p, t.before))
  }

  /** Every event of an obedient trace followed the rule when it happened. */
  lemma {:induction false} ObeysEverywhere(budget: Budget, stale: real, watched: set<string>, t: Trace, p: Trace)
    requires Obeys(budget, stale, watched, t) && IsPrefix(p, t) && p.Then?
    ensures Obeys(budget, stale, watched, p) && Allowed(budget, stale, watched, p.before, p.e)
  {
    if p != t {
      ObeysEverywhere(budget, stale, watched, t.before, p);
    }
  }

  lemma CountsMore(t: Trace, e: Event)
    ensures Outage(Then(t, e)) == if e.Failure? then 1 + Outage(t) else if e.Reconnected? then 0 else Outage(t)
    ensures IdleCount(Then(t, e)) == if e.WentStale? then 1 + IdleCount(t) else if e.Delivered? then 0 else IdleCount(t)
    ensures Deliveries(Then(t, e)) == Deliveries(t) + if e.Delivered? then 1 else 0
    ensures Seen(Then(t, e)) == if e.Saw? then Seen(t) + [e.input] else Seen(t)
    ensures DroppedSince(Then(t, e)) ==
            if e.Sent? then {} else if e.Dropped? then DroppedSince(t) + {e.channel} else DroppedSince(t)
  {
  }

  lemma JitterNonNegative(u: real, backoff: real)
    requires 0.0 <= u && 0.0 <= backoff
    ensures 0.0 <= u * (backoff * 0.5)
  {
  }

  /** The backoff and up to half of it again, at most a minute. */
  method WaitTime(backoff: real, u: real) returns (seconds: real)
    requires 0.0 <= u <= 1.0 && 0.0 <= backoff <= MAX_BACKOFF
    ensures backoff <= seconds <= 60.0
    ensures seconds <= backoff * 1.5
    ensures seconds == if backoff + u * (backoff * 0.5) <= 60.0 then backoff + u * (backoff * 0.5) else 60.0
  {
    JitterNonNegative(u, backoff);
    JitterNonNegative(1.0 - u, backoff);
    var jitter := u * (backoff * 0.5);
    assert (1.0 - u) * (backoff * 0.5) == backoff * 0.5 - jitter;
    seconds := Min(backoff + jitter, MAX_BACKOFF);
  }

  function Backoff(failures: nat): (r: real)
    ensures 1.0 <= r <= MAX_BACKOFF
  {
    PowPositive(failures);
    Min(Pow2(failures), MAX_BACKOFF)
  }

  lemma PowPositive(n: nat)
    ensures Pow2(n) >= 1.0
  {
  }

  datatype Status = Up | Failed | Ended | Pending  // Pending: the script ends while the client waits

  datatype Leave = Message | Stale | Lost | Refused | NoChannels | Waiting

  class Client {
    const script: Script
    const budget: Budget
    const stale: real
    var next: nat
    var trace: Trace
    ghost var watched: set<string>  // the channels of a stream, each to be watched again after a message

    constructor (script: Script, budget: Budget, stale: real)
      ensures this.script == script && this.budget == budget && this.stale == stale && next == 0 && trace == Empty
      ensures Valid()
    {
      this.script, this.budget, this.stale, next, trace := script, budget, stale, 0, Empty;
      watched := {};
    }

    ghost predicate Valid()
      reads this
    {
      next <= |script| && Seen(trace) == script[..next] && Obeys(budget, stale, watched, trace)
    }

    /** What has been seen and done when a connection is left for that reason. */
    ghost predicate LeftBy(leave: Leave)
      reads this
    {
      match leave
      case Message => trace.Then? && trace.e.Delivered?
      case Stale => JustSaw(trace, Quiet) && trace.before.Then? && trace.before.e == Resent
      case Lost => 0 < next <= |script| && script[next-1].Broken? && JustSaw(trace, script[next-1])
      case Refused => trace.Then? && trace.e.Saw? && !trace.e.input.Broken?
      case NoChannels => Settled(watched, trace)
      case Waiting => Settled(watched, trace) && next == |script|
    }

    method See() returns (x: Input)
      requires Valid() && next < |script| && Allowed(budget, stale, watched, trace, Saw(script[next]))
      modifies this`next, this`trace
      ensures Valid() && next == old(next) + 1 && x == script[old(next)] && trace == Then(old(trace), Saw(x))
      ensures Outage(trace) == Outage(old(trace)) && IdleCount(trace) == IdleCount(old(trace))
      ensures Deliveries(trace) == Deliveries(old(trace))
      ensures DroppedSince(trace) == DroppedSince(old(trace))
      ensures x.Broken? || x.Rejected? ==> 0.0 <= x.u <= 1.0
    {
      x := script[next];
      ObeysMore(budget, stale, watched, trace, Saw(x));
      CountsMore(trace, Saw(x));
      assert script[..next+1] == script[..next] + [x];
      next, trace := next + 1, Then(trace, Saw(x));
    }

    method Record(e: Event)
      requires !e.Saw? && Valid() && Allowed(budget, stale, watched, trace, e)
      modifies this`trace
      ensures Valid() && trace == Then(old(trace), e)
      ensures Outage(trace) ==
              if e.Failure? then 1 + Outage(old(trace)) else if e.Reconnected? then 0 else Outage(old(trace))
      ensures IdleCount(trace) ==
              if e.WentStale? then 1 + IdleCount(old(trace)) else if e.Delivered? then 0 else IdleCount(old(trace))
      ensures Deliveries(trace) == Deliveries(old(trace)) + if e.Delivered? then 1 else 0
      ensures DroppedSince(trace) ==
              if e.Sent? then {}
              else if e.Dropped? then DroppedSince(old(trace)) + {e.channel}
              else DroppedSince(old(trace))
    {
      ObeysMore(budget, stale, watched, trace, e);
      CountsMore(trace, e);
      trace := Then(trace, e);
    }

    /** A counted failure: raise when the budget is used up, otherwise sleep and double the backoff. */
    method CountFailure(attempt: nat, backoff: real, u: real) returns (raised: bool, attempt': nat, backoff': real)
      requires Valid() && 0.0 <= u <= 1.0
      requires trace.Then? && trace.e.Saw? && VerdictOf(trace.e.input).Retry?
      requires attempt == Outage(trace) && !Exhausted(budget, attempt) && backoff == Backoff(attempt)
      modifies this`trace
      ensures Valid() && IdleCount(trace) == IdleCount(old(trace)) && Deliveries(trace) == Deliveries(old(trace))
      ensures DroppedSince(trace) == DroppedSince(old(trace))
      ensures attempt' == Outage(trace) == attempt + 1
      ensures raised <==> Exhausted(budget, attempt + 1)
      ensures raised <==> budget.AtMost? && attempt + 1 > budget.retries
      ensures trace == Then(Then(old(trace), Failure), trace.e)
      ensures raised ==> trace.e == Raised
      ensures !raised ==> backoff' == Backoff(attempt') && trace.e.Slept?
      ensures !raised ==>
                var wait := backoff + u * (backoff * 0.5);
                trace.e.seconds == if wait <= 60.0 then wait else 60.0
      ensures !raised ==> backoff' == if backoff * 2.0 <= 60.0 then backoff * 2.0 else 60.0
    {
      Record(Failure);
      attempt', backoff' := attempt + 1, backoff;
      if Exhausted(budget, attempt') {
        Record(Raised);
        return true, attempt', backoff;
      }
      var seconds := WaitTime(backoff, u);
      Record(Slept(seconds));
      BackoffDoubles(attempt);
      backoff' := Min(backoff * 2.0, MAX_BACKOFF);
      raised := false;
    }

    /** One attempt; `Pending` is to try again. A lost connection and a server error count, a refusal is final. */
    method DialOnce(attempt0: nat, backoff0: real) returns (status: Status, attempt: nat, backoff: real)
      requires Valid() && next < |script|
      requires attempt0 == Outage(trace) && !Exhausted(budget, attempt0) && Settled(watched, trace)
      requires backoff0 == Backoff(attempt0)
      modifies this`next, this`trace
      ensures Valid() && next == old(next) + 1
      ensures IdleCount(trace) == IdleCount(old(trace)) && Deliveries(trace) == Deliveries(old(trace))
      ensures DroppedSince(trace) == DroppedSince(old(trace))
      ensures status == Up ==> attempt == 0 && backoff == 1.0 && Outage(trace) == 0 && Settled(watched, trace)
      ensures status == Pending ==>
                && attempt == Outage(trace) && !Exhausted(budget, attempt) && backoff == Backoff(attempt)
                && Settled(watched, trace)
      ensures status == Failed ==> trace.Then? && trace.e == Raised
      ensures status != Ended
      ensures var dial := script[old(next)];
              && (status == Up <==> !dial.Broken? && !dial.Rejected? && !dial.Fatal?)
              && (status == Pending ==> dial.Broken? || (dial.Rejected? && dial.code >= 500))
              && (status == Failed ==>
                    || dial.Fatal? || (dial.Rejected? && dial.code < 500)
                    || (budget.AtMost? && Outage(trace) > budget.retries))
    {
      attempt, backoff := attempt0, backoff0;
      var dial := See();
      match VerdictOf(dial) {
        case Open =>
          Record(Reconnected);
          status, attempt, backoff := Up, 0, 1.0;
        case GiveUp =>
          Record(Raised);
          status := Failed;
        case Retry(u) =>
          var raised;
          raised, attempt, backoff := CountFailure(attempt, backoff, u);
          status := if raised then Failed else Pending;
      }
    }

    /** `_connect_with_retry`. */
    method ConnectWithRetry(attempt0: nat, backoff0: real) returns (status: Status, attempt: nat, backoff: real)
      requires Valid()
      requires attempt0 == Outage(trace) && !Exhausted(budget, attempt0) && Settled(watched, trace)
      requires backoff0 == Backoff(attempt0)
      modifies this`next, this`trace
      ensures Valid() && old(next) <= next
      ensures IdleCount(trace) == IdleCount(old(trace)) && Deliveries(trace) == Deliveries(old(trace))
      ensures status == Up ==> attempt == 0 && backoff == 1.0 && Outage(trace) == 0 && old(next) < next
      ensures status != Failed ==> Settled(watched, trace)
      ensures status == Failed ==> trace.Then? && trace.e == Raised
      ensures status == Pending ==> next == |script| && !Exhausted(budget, Outage(trace))
      ensures status != Ended
      // What has been taken from the script, and what it led to.
      ensures forall i :: old(next) <= i < next && (i < next - 1 || status == Pending) ==>
                script[i].Broken? || (script[i].Rejected? && script[i].code >= 500)
      ensures status == Up ==> !script[next-1].Broken? && !script[next-1].Rejected? && !script[next-1].Fatal?
      ensures status == Failed ==>
                && old(next) < next
                && (|| script[next-1].Fatal? || (script[next-1].Rejected? && script[next-1].code < 500)
                    || ((script[next-1].Broken? || (script[next-1].Rejected? && script[next-1].code >= 500))
                        && budget.AtMost? && Outage(trace) > budget.retries))
      ensures DroppedSince(trace) == DroppedSince(old(trace))
    {
      attempt, backoff := attempt0, backoff0;
      while next < |script|
        invariant Valid() && old(next) <= next
        invariant IdleCount(trace) == IdleCount(old(trace)) && Deliveries(trace) == Deliveries(old(trace))
        invariant attempt == Outage(trace) && !Exhausted(budget, attempt) && Settled(watched, trace)
        invariant backoff == Backoff(attempt)
        invariant DroppedSince(trace) == DroppedSince(old(trace))
        invariant forall i :: old(next) <= i < next ==>
                    script[i].Broken? || (script[i].Rejected? && script[i].code >= 500)
        decreases |script| - next
      {
        status, attempt, backoff := DialOnce(attempt, backoff);
        if status != Pending {
          return;
        }
      }
      status := Pending;
    }

    /** After a connection is left: a lost one counts as a failure, a stale one does not. */
    method Redial(lost: bool) returns (status: Status, attempt: nat, backoff: real)
      requires Valid() && Outage(trace) == 0 && if lost then LeftBy(Lost) else Settled(watched, trace)
      modifies this`next, this`trace
      ensures Valid() && old(next) <= next && status != Ended
      ensures IdleCount(trace) == IdleCount(old(trace)) && Deliveries(trace) == Deliveries(old(trace))
      ensures DroppedSince(trace) == DroppedSince(old(trace))
      ensures status == Up ==>
                attempt == Outage(trace) == 0 && backoff == 1.0 && old(next) < next && Settled(watched, trace)
      ensures status == Failed ==> trace.Then? && trace.e == Raised
      ensures status == Pending ==> next == |script|
    {
      assert Backoff(0) == 1.0;
      attempt, backoff := 0, 1.0;
      if lost {
        var raised;
        raised, attempt, backoff := CountFailure(attempt, backoff, script[next-1].u);
        if raised {
          return Failed, attempt, backoff;
        }
      }
      status, attempt, backoff := ConnectWithRetry(attempt, backoff);
    }

    /** A quiet connection: the watch frames go out once more, and the second time in a row it is given up. */
    method Reregister(before: nat) returns (stale: bool, reregistered: nat)
      requires Valid() && Outage(trace) == 0 && JustSaw(trace, Quiet)
      requires before == 0 || (before == 1 && trace.before.Then? && trace.before.e == Resent)
      modifies this`trace
      ensures Valid() && Outage(trace) == 0 && IdleCount(trace) == IdleCount(old(trace))
      ensures Deliveries(trace) == Deliveries(old(trace)) && DroppedSince(trace) == DroppedSince(old(trace))
      ensures stale <==> before == 1
      ensures if stale then trace == old(trace) && LeftBy(Stale)
              else reregistered == 1 && trace == Then(old(trace), Resent)
    {
      reregistered := before + 1;
      stale := reregistered > 1;
      if !stale {
        Record(Resent);
      }
    }

    /** The answers on one connection, from the watch frame on. `leave` says why the connection is left. */
    method Listen() returns (leave: Leave, position: int)
      requires Valid() && Outage(trace) == 0 && Settled(watched, trace)
      modifies this`next, this`trace
      ensures Valid() && old(next) <= next
      ensures Outage(trace) == 0 && LeftBy(leave)
      ensures leave == Message ==> trace.Then? && trace.e.Delivered? && trace.e.position == position
      ensures leave != NoChannels
      ensures leave == Lost || leave == Stale ==> old(next) < next
      ensures leave != Message ==> IdleCount(trace) == IdleCount(old(trace))
    {
      var reregistered := 0;
      position := 0;
      while next < |script|
        invariant Valid() && old(next) <= next
        invariant Outage(trace) == 0 && IdleCount(trace) == IdleCount(old(trace)) && Settled(watched, trace)
        invariant reregistered == 0 || (reregistered == 1 && trace.Then? && trace.e == Resent)
        decreases |script| - next
      {
        var answer := See();
        match answer {
          case Got(channel, p) =>
            Record(Delivered(channel, p));
            return Message, p;
          case Quiet =>
            var isStale;
            isStale, reregistered := Reregister(reregistered);
            if isStale {
              return Stale, 0;
            }
          case Broken(_) => return Lost, 0;
          case _ => return Refused, 0;
        }
      }
      leave := Waiting;
    }

    /** A quiet connection is given up without counting against the budget. */
    method GiveUpQuiet(idle: nat, timeout: real) returns (idle': nat, timeout': real)
      requires JustSaw(trace, Quiet) && trace.before.Then? && trace.before.e == Resent
      requires Valid() && Outage(trace) == 0 && idle == IdleCount(trace) && timeout == StaleTimeout(stale, idle)
      modifies this`trace
      ensures Valid() && Outage(trace) == 0 && Settled(watched, trace) && Deliveries(trace) == Deliveries(old(trace))
      ensures idle' == IdleCount(trace) == idle + 1 && timeout' == StaleTimeout(stale, idle')
      ensures DroppedSince(trace) == DroppedSince(old(trace))
    {
      idle', timeout' := idle + 1, timeout;
      if idle' >= 3 {
        timeout' := Min(timeout * 2.0, MAX_STALE);
      }
      Record(WentStale(timeout'));
    }

    /** What the outer loops do when a connection is left without a result: raise, or connect again. */
    method Recover(leave: Leave, idle: nat, timeout: real)
      returns (status: Status, attempt: nat, backoff: real, idle': nat, timeout': real)
      requires Valid() && Outage(trace) == 0 && LeftBy(leave) && (leave == Refused || leave == Stale || leave == Lost)
      requires idle == IdleCount(trace) && timeout == StaleTimeout(stale, idle)
      modifies this`next, this`trace
      ensures Valid() && old(next) <= next && status != Ended
      ensures Deliveries(trace) == Deliveries(old(trace)) && DroppedSince(trace) == DroppedSince(old(trace))
      ensures idle' == IdleCount(trace) && timeout' == StaleTimeout(stale, idle')
      ensures status == Up ==>
                attempt == Outage(trace) == 0 && backoff == 1.0 && old(next) < next && Settled(watched, trace)
      ensures status == Failed ==> trace.Then? && trace.e == Raised
      ensures status == Pending ==> next == |script|
    {
      idle', timeout' := idle, timeout;
      if leave == Refused {
        Record(Raised);
        return Failed, 0, 1.0, idle', timeout';
      }
      if leave == Stale {
        idle', timeout' := GiveUpQuiet(idle, timeout);
      }
      status, attempt, backoff := Redial(leave == Lost);
    }

    /** `watch_with_reconnect`: one message, or an exception, or still waiting when the script ends. */
    method WatchWithReconnect() returns (status: Status, position: int)
      requires Valid() && next == 0 && trace == Empty
      modifies this`next, this`trace, this`watched
      ensures Valid() && watched == {}
      ensures status == Up ==> trace.Then? && trace.e.Delivered? && trace.e.position == position
      ensures status != Ended
      ensures status == Failed ==> trace.Then? && trace.e == Raised
      ensures status == Pending ==> next == |script|
    {
      watched := {};
      var attempt, backoff := 0, 1.0;
      var currentStale := stale;
      var idleReconnects := 0;
      status, position := Pending, 0;
      while next < |script|
        invariant Valid() && Settled(watched, trace) && watched == {}
        invariant attempt == Outage(trace) == 0 && backoff == 1.0
        invariant idleReconnects == IdleCount(trace) && currentStale == StaleTimeout(stale, idleReconnects)
        decreases |script| - next
      {
        Record(Sent(attempt, backoff));
        var leave;
        leave, position := Listen();
        match leave {
          case Message => return Up, position;
          case Waiting => return Pending, 0;
          case _ =>
        }
        var dialled;
        dialled, attempt, backoff, idleReconnects, currentStale := Recover(leave, idleReconnects, currentStale);
        if dialled != Up {
          return dialled, 0;
        }
      }
    }

    /** A message is handed on and counted, and its channel watched again unless the cap is reached. */
    method HandOn(channel: string, position: int, active: set<string>, count: nat, already: nat)
      returns (capped: bool, delivered: nat)
      requires Valid() && Outage(trace) == 0 && JustSaw(trace, Got(channel, position))
      requires already == Deliveries(trace) && (count > 0 ==> already < count)
      requires active == watched - DroppedSince(trace)
      modifies this`trace
      ensures Valid() && Outage(trace) == 0 && IdleCount(trace) == 0
      ensures trace == if !capped && channel in active
                       then Then(Then(old(trace), Delivered(channel, position)), Advanced(channel, position))
                       else Then(old(trace), Delivered(channel, position))
      ensures DroppedSince(trace) == DroppedSince(old(trace))
      ensures delivered == Deliveries(trace) == already + 1 && (capped <==> count > 0 && delivered >= count)
    {
      Record(Delivered(channel, position));
      delivered := already + 1;
      capped := count > 0 && delivered >= count;
      if !capped && channel in active {
        Record(Advanced(channel, position));
      }
    }

    /** One answer in the stream; `Waiting` is to wait for the next one. */
    method Respond(answer: Input, active: set<string>, count: nat, already: nat, before: nat)
      returns (leave: Leave, active': set<string>, delivered: nat, reregistered: nat)
      requires Valid() && Outage(trace) == 0 && JustSaw(trace, answer) && 0 < next && answer == script[next-1]
      requires before == 0 || (before == 1 && trace.before.Then? && trace.before.e == Resent)
      requires already == Deliveries(trace) && (count > 0 ==> already < count)
      requires active == watched - DroppedSince(trace)
      modifies this`trace
      ensures Valid() && Outage(trace) == 0 && leave != NoChannels
      ensures if leave == Waiting then Settled(watched, trace) else LeftBy(leave)
      ensures delivered == Deliveries(trace) <= already + 1
      ensures leave == Message <==> count > 0 && delivered >= count
      ensures IdleCount(trace) == if answer.Got? then 0 else IdleCount(old(trace))
      ensures var gone := if answer.NotFound? then {answer.channel} else {};
              active' == active - gone && DroppedSince(trace) == DroppedSince(old(trace)) + gone
      ensures answer.NotFound? ==> leave == Waiting
      ensures leave == Waiting ==> reregistered == 0 || (reregistered == 1 && trace.Then? && trace.e == Resent)
    {
      active', delivered, reregistered, leave := active, already, 0, Waiting;
      match answer {
        case Got(channel, p) =>
          var capped;
          capped, delivered := HandOn(channel, p, active, count, already);
          if capped {
            leave := Message;
          }
        case NotFound(channel) =>
          Record(Dropped(channel));
          active' := active - {channel};
        case Quiet =>
          var isStale;
          isStale, reregistered := Reregister(before);
          if isStale {
            leave := Stale;
          }
        case Broken(_) => leave := Lost;
        case _ => leave := Refused;
      }
    }

    /** The generator of `watch_multi` with acknowledgement on: messages until the cap, or until every channel is
        dropped, or until the connection is left. */
    method Stream(channels: set<string>, count: nat, already: nat, idle0: nat)
      returns (leave: Leave, delivered: nat, idle: nat)
      requires Valid() && Outage(trace) == 0 && Settled(watched, trace)
      requires DroppedSince(trace) == {} && channels == watched
      requires already == Deliveries(trace) && (count > 0 ==> already < count) && idle0 == IdleCount(trace)
      modifies this`next, this`trace
      ensures Valid() && old(next) <= next && Outage(trace) == 0 && LeftBy(leave)
      ensures delivered == Deliveries(trace) && idle == IdleCount(trace) && (idle == idle0 || idle == 0)
      ensures leave == NoChannels <==> channels <= DroppedSince(trace)
      ensures leave == Message <==> count > 0 && delivered >= count
      ensures leave == Message ==> delivered == count
      ensures leave == Lost || leave == Stale ==> old(next) < next
    {
      var reregistered := 0;
      var active := channels;
      delivered, idle := already, idle0;
      while active != {} && next < |script|
        invariant Valid() && old(next) <= next && Outage(trace) == 0 && Settled(watched, trace)
        invariant delivered == Deliveries(trace) && (count > 0 ==> delivered < count)
        invariant active == channels - DroppedSince(trace)
        invariant idle == IdleCount(trace) && (idle == idle0 || idle == 0)
        invariant reregistered == 0 || (reregistered == 1 && trace.Then? && trace.e == Resent)
        decreases |script| - next
      {
        var answer := See();
        leave, active, delivered, reregistered := Respond(answer, active, count, delivered, reregistered);
        if answer.Got? {
          idle := 0;
        }
        if leave != Waiting {
          return;
        }
      }
      leave := if active == {} then NoChannels else Waiting;
    }

    /** `watch_multi_with_reconnect`: at most `count` messages over all of its connections. It ends without an exception
        when the cap is reached, or when a connection has lost its last channel. */
    method WatchMultiWithReconnect(channels: set<string>, count: nat) returns (status: Status, delivered: nat)
      requires Valid() && next == 0 && trace == Empty
      modifies this`next, this`trace, this`watched
      ensures Valid() && watched == channels && delivered == Deliveries(trace)
      ensures count > 0 ==> delivered <= count
      ensures status == Up ==> count > 0 && delivered == count
      ensures status == Ended <==> channels <= DroppedSince(trace)
      ensures status == Failed ==> trace.Then? && trace.e == Raised
      ensures status == Pending ==> next == |script|
    {
      watched := channels;
      var attempt, backoff := 0, 1.0;
      var currentStale := stale;
      var idleReconnects := 0;
      if channels == {} {
        return Ended, 0;
      }
      status, delivered := Pending, 0;
      while next < |script|
        invariant Valid() && Settled(watched, trace) && watched == channels
        invariant !(channels <= DroppedSince(trace))
        invariant attempt == Outage(trace) == 0 && backoff == 1.0
        invariant delivered == Deliveries(trace) && (count > 0 ==> delivered < count)
        invariant idleReconnects == IdleCount(trace) && currentStale == StaleTimeout(stale, idleReconnects)
        decreases |script| - next
      {
        Record(Sent(attempt, backoff));
        var leave;
        leave, delivered, idleReconnects := Stream(channels, count, delivered, idleReconnects);
        if idleReconnects == 0 {
          currentStale := stale;
        }
        match leave {
          case Message => return Up, delivered;
          case NoChannels => return Ended, delivered;
          case Waiting => return Pending, delivered;
          case _ =>
        }
        var dialled;
        dialled, attempt, backoff, idleReconnects, currentStale := Recover(leave, idleReconnects, currentStale);
        if dialled != Up {
          return dialled, delivered;
        }
      }
    }
  }
}
