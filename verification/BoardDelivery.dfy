/** The board's watch protocol: no message is ever skipped. */
module BoardDelivery {

  datatype Msg = Msg(channel: string, position: int)

  /** A watch request: the next message of the channel after the cursor. */
  datatype Frame = Frame(channel: string, cursor: int)

  /** Where a watching process stands. */
  datatype Phase =
    | Down  // no usable connection
    | Listening(todo: set<string>)  // channels whose watch frame is still to be sent; receives when there is none
    | Yielded(msg: Msg)  // handed to the consumer
    | Printed(msg: Msg)
    | Saved(msg: Msg)  // cursor on disk
    | Rewatching(msg: Msg)  // about to send the frame with the advanced cursor
    | Finished
    | NoChannels  // the last channel is gone

  /** The reconnecting wrapper and the generator inside it, each with its own copy of the cursors. */
  datatype Process = Process(cursors: map<string, int>, inner: map<string, int>, active: set<string>,
                             reregistered: nat, delivered: nat, limit: nat, phase: Phase)

  // ----- the client's transitions -----

  function Launch(cursors: map<string, int>, limit: nat): Process {
    Process(cursors, map[], {}, 0, 0, limit, Down)
  }

  /** A new connection: the generator copies the wrapper's cursors and will watch every channel. */
  function Connected(p: Process): Process {
    p.(inner := p.cursors, active := p.cursors.Keys, reregistered := 0, phase := Listening(p.cursors.Keys))
  }

  predicate CanReceive(p: Process) {
    p.phase.Listening? && p.phase.todo == {} && p.active != {}
  }

  /** A message arrives: the wrapper advances its cursor, then hands the message on. */
  function Received(p: Process, m: Msg): Process {
    p.(reregistered := 0, cursors := p.cursors[m.channel := m.position], phase := Yielded(m))
  }

  /** The consumer asks for more: the cap is checked, then the generator advances its own cursor. */
  function Resumed(p: Process): Process
    requires p.phase.Saved?
  {
    var m := p.phase.msg;
    if p.limit > 0 && p.delivered + 1 >= p.limit then p.(delivered := p.delivered + 1, phase := Finished)
    else p.(delivered := p.delivered + 1, inner := p.inner[m.channel := m.position],
            phase := if m.channel in p.active then Rewatching(m) else Listening({}))
  }

  /** No message in time: once, every watch frame is sent again; twice in a row, the connection is given up. */
  function TimedOut(p: Process): Process {
    if p.reregistered + 1 > 1 then p.(reregistered := p.reregistered + 1, phase := Down)
    else p.(reregistered := p.reregistered + 1, phase := Listening(p.inner.Keys))
  }

  /** The server does not know the channel; without channels there is nothing to wait for. */
  function WithoutChannel(p: Process, channel: string): Process {
    p.(reregistered := 0, active := p.active - {channel},
       phase := if p.active <= {channel} then NoChannels else p.phase)
  }

  /** The two sets of cursors: equal whenever frames are sent or awaited, and between a message and the next request
      for one apart at that message's channel only, where the wrapper is already at the message. */
  ghost predicate InSync(p: Process) {
    match p.phase
    case Listening(_) => p.inner == p.cursors
    case Rewatching(m) => p.inner == p.cursors && m.channel in p.inner && p.inner[m.channel] == m.position
    case Yielded(m) => m.channel in p.inner && p.cursors == p.inner[m.channel := m.position]
    case Printed(m) => m.channel in p.inner && p.cursors == p.inner[m.channel := m.position]
    case Saved(m) => m.channel in p.inner && p.cursors == p.inner[m.channel := m.position]
    case _ => true
  }

  /** The generator as an object; every method is one of the transitions above, and none takes the cursors apart. */
  class Watcher {
    var cursors: map<string, int>
    var inner: map<string, int>
    var active: set<string>
    var reregistered: nat
    var delivered: nat
    const limit: nat
    var phase: Phase

    ghost function State(): Process
      reads this
    {
      Process(cursors, inner, active, reregistered, delivered, limit, phase)
    }

    constructor (channels: map<string, int>, count: nat)
      ensures State() == Launch(channels, count)
    {
      cursors, inner, active, reregistered, delivered, limit, phase := channels, map[], {}, 0, 0, count, Down;
    }

    method Connect()
      requires phase.Down?
      modifies this
      ensures State() == Connected(old(State())) && InSync(State())
    {
      inner, active, reregistered := cursors, cursors.Keys, 0;
      phase := Listening(cursors.Keys);
    }

    method SendFrame(channel: string) returns (sent: bool, frame: Frame)
      requires phase.Listening? && channel in phase.todo && channel in inner
      modifies this`phase
      ensures State() == old(State()).(phase := Listening(old(phase.todo) - {channel}))
      ensures old(InSync(State())) ==> InSync(State()) && frame.cursor == cursors[channel]
      ensures sent == (channel in active) && frame == Frame(channel, inner[channel])
    {
      phase := Listening(phase.todo - {channel});
      sent, frame := channel in active, Frame(channel, inner[channel]);
    }

    method Receive(m: Msg)
      requires CanReceive(State())
      modifies this
      ensures State() == Received(old(State()), m)
      ensures old(InSync(State())) && m.channel in inner ==> InSync(State())
    {
      reregistered := 0;
      cursors := cursors[m.channel := m.position];
      phase := Yielded(m);
    }

    method Resume()
      requires phase.Saved?
      modifies this
      ensures State() == Resumed(old(State()))
      ensures old(InSync(State())) ==> InSync(State())
    {
      var m := phase.msg;
      delivered := delivered + 1;
      if limit > 0 && delivered >= limit {
        phase := Finished;
        return;
      }
      inner := inner[m.channel := m.position];
      if m.channel in active {
        phase := Rewatching(m);
      } else {
        phase := Listening({});
      }
    }

    method Timeout()
      requires CanReceive(State())
      modifies this
      ensures State() == TimedOut(old(State()))
      ensures old(InSync(State())) ==> InSync(State())
    {
      reregistered := reregistered + 1;
      if reregistered > 1 {
        phase := Down;
        return;
      }
      phase := Listening(inner.Keys);
    }

    method ChannelNotFound(channel: string)
      requires CanReceive(State())
      modifies this
      ensures State() == WithoutChannel(old(State()), channel)
      ensures old(InSync(State())) ==> InSync(State())
    {
      reregistered := 0;
      active := active - {channel};
      if active == {} {
        phase := NoChannels;
      }
    }
  }

  // ----- the whole system -----

  /** `heads[c]` messages are in channel c, at positions 1, 2, and so on. `watches` and `replies` are what the
      present connection has carried: a frame can be answered late and more than once, an answer can arrive late
      and more than once, or never. */
  datatype World = World(heads: map<string, nat>, disk: map<string, int>, printed: set<Msg>, yielded: set<Msg>,
                         watches: set<Frame>, replies: set<Msg>, process: Maybe<Process>, taken: nat)

  datatype Maybe<+T> = Nothing | Just(value: T)

  function Head(w: World, channel: string): nat {
    if channel in w.heads then w.heads[channel] else 0
  }

  /** `load_cursor`: 0 when there is no file. */
  function Load(disk: map<string, int>, channel: string): int {
    if channel in disk then disk[channel] else 0
  }

  /** The first position after the cursor, if there is one yet. */
  function FirstAfter(w: World, f: Frame): Maybe<int> {
    var p := if f.cursor < 0 then 1 else f.cursor + 1;
    if p <= Head(w, f.channel) then Just(p) else Nothing
  }

  datatype Event =
    | Append(channel: string)
    | Start(channels: set<string>, limit: nat)
    | Reconnect
    | SendFrame(channel: string)
    | Answer(frame: Frame)
    | Receive(msg: Msg)
    | Print
    | Save
    | Resume
    | SendAdvanced
    | Timeout
    | DropChannel(channel: string)
    | Disconnect
    | Die

  predicate Running(w: World) {
    w.process.Just?
  }

  function With(w: World, p: Process): World {
    w.(process := Just(p))
  }

  ghost predicate Step(w: World, e: Event, w': World) {
    match e
    case Append(c) => w' == w.(heads := w.heads[c := Head(w, c) + 1])
    case Start(channels, limit) =>
      !Running(w) && channels != {}
      && w' == With(w, Launch(map c | c in channels :: Load(w.disk, c), limit))
               .(watches := {}, replies := {}, taken := 0)
    case Reconnect =>
      Running(w) && w.process.value.phase.Down?
      && w' == With(w, Connected(w.process.value)).(watches := {}, replies := {})
    case SendFrame(c) =>
      Running(w) && var p := w.process.value;
      p.phase.Listening? && c in p.phase.todo && c in p.inner
      && w' == With(w, p.(phase := Listening(p.phase.todo - {c})))
               .(watches := w.watches + if c in p.active then {Frame(c, p.inner[c])} else {})
    case Answer(f) =>
      f in w.watches && FirstAfter(w, f).Just?
      && w' == w.(replies := w.replies + {Msg(f.channel, FirstAfter(w, f).value)})
    case Receive(m) =>
      Running(w) && CanReceive(w.process.value) && m in w.replies
      && w' == With(w, Received(w.process.value, m)).(yielded := w.yielded + {m}, taken := w.taken + 1)
    case Print =>
      Running(w) && w.process.value.phase.Yielded?
      && var m := w.process.value.phase.msg;
      w' == With(w, w.process.value.(phase := Printed(m))).(printed := w.printed + {m})
    case Save =>
      Running(w) && w.process.value.phase.Printed?
      && var m := w.process.value.phase.msg;
      w' == With(w, w.process.value.(phase := Saved(m))).(disk := w.disk[m.channel := m.position])
    case Resume =>
      Running(w) && w.process.value.phase.Saved? && w' == With(w, Resumed(w.process.value))
    case SendAdvanced =>
      Running(w) && w.process.value.phase.Rewatching?
      && var m := w.process.value.phase.msg;
      w' == With(w, w.process.value.(phase := Listening({}))).(watches := w.watches + {Frame(m.channel, m.position)})
    case Timeout =>
      Running(w) && CanReceive(w.process.value) && w' == With(w, TimedOut(w.process.value))
    case DropChannel(c) =>
      Running(w) && CanReceive(w.process.value)
      && w' == With(w, WithoutChannel(w.process.value, c))
    case Disconnect =>
      // Connection errors surface while the client sends or waits.
      Running(w) && (w.process.value.phase.Listening? || w.process.value.phase.Rewatching?)
      && w' == With(w, w.process.value.(phase := Down))
    case Die => Running(w) && w' == w.(process := Nothing)
  }

  // ----- nothing is skipped -----

  /** Every message of the channel after the start and up to `c` is in `done`. */
  ghost predicate Covered(start: map<string, int>, done: set<Msg>, channel: string, c: int) {
    forall p :: Load(start, channel) < p <= c && 1 <= p ==> Msg(channel, p) in done
  }

  /** What is printed, and the message that the consumer holds. */
  ghost function Accounted(w: World): set<Msg> {
    w.printed + if Running(w) && w.process.value.phase.Yielded? then {w.process.value.phase.msg} else {}
  }

  ghost predicate HoldsMessage(p: Phase) {
    p.Yielded? || p.Printed? || p.Saved? || p.Rewatching?
  }

  ghost predicate ProcessSafe(start: map<string, int>, done: set<Msg>, p: Process) {
    && (forall c :: c in p.cursors ==> Covered(start, done, c, p.cursors[c]))
    && (forall c :: c in p.inner ==> Covered(start, done, c, p.inner[c]))
    && (HoldsMessage(p.phase) ==> Covered(start, done, p.phase.msg.channel, p.phase.msg.position))
  }

  /** A frame's answer is the very next message, so everything before it is accounted for. */
  ghost predicate WireSafe(start: map<string, int>, done: set<Msg>, w: World) {
    && (forall f :: f in w.watches ==> Covered(start, done, f.channel, f.cursor))
    && (forall m :: m in w.replies ==> Covered(start, done, m.channel, m.position - 1))
  }

  /** `taken` counts the messages that the present process has handed out. */
  ghost predicate CapKept(w: World) {
    Running(w) ==>
      var p := w.process.value;
      && w.taken == p.delivered + (if p.phase.Yielded? || p.phase.Printed? || p.phase.Saved? then 1 else 0)
      && (p.limit > 0 ==> w.taken <= p.limit && (p.phase.Finished? <==> p.delivered == p.limit))
  }

  ghost predicate Safe(start: map<string, int>, w: World) {
    && (forall c :: Covered(start, w.printed, c, Load(w.disk, c)))
    && (Running(w) ==> ProcessSafe(start, Accounted(w), w.process.value) && WireSafe(start, Accounted(w), w))
    && w.printed <= w.yielded && Accounted(w) <= w.yielded
    && CapKept(w)
  }

  lemma CoveredGrows(start: map<string, int>, done: set<Msg>, more: set<Msg>)
    requires done <= more
    ensures forall channel, c :: Covered(start, done, channel, c) ==> Covered(start, more, channel, c)
  {
  }

  lemma AnswerCovers(start: map<string, int>, w: World, f: Frame)
    requires Covered(start, Accounted(w), f.channel, f.cursor) && FirstAfter(w, f).Just?
    ensures Covered(start, Accounted(w), f.channel, FirstAfter(w, f).value - 1)
  {
  }

  lemma ServerKeepsSafe(start: map<string, int>, w: World, e: Event, w': World)
    requires Safe(start, w) && Step(w, e, w') && (e.Append? || e.Answer? || e.Die?)
    ensures Safe(start, w')
  {
    if e.Answer? && Running(w) {
      AnswerCovers(start, w, e.frame);
    }
  }

  lemma ConnectingKeepsSafe(start: map<string, int>, w: World, e: Event, w': World)
    requires Safe(start, w) && Step(w, e, w')
    requires e.Start? || e.Reconnect? || e.Disconnect? || e.Timeout? || e.DropChannel?
    ensures Safe(start, w')
  {
    assert Accounted(w') == Accounted(w) == w.printed;
  }

  lemma SendingKeepsSafe(start: map<string, int>, w: World, e: Event, w': World)
    requires Safe(start, w) && Step(w, e, w') && (e.SendFrame? || e.SendAdvanced? || e.Resume?)
    ensures Safe(start, w')
  {
    assert Accounted(w') == Accounted(w) == w.printed;
  }

  lemma ReceiveKeepsSafe(start: map<string, int>, w: World, m: Msg, w': World)
    requires Safe(start, w) && Step(w, Receive(m), w')
    ensures Safe(start, w')
  {
    assert Accounted(w) == w.printed && Accounted(w') == w.printed + {m};
    CoveredGrows(start, Accounted(w), Accounted(w'));
    assert Covered(start, Accounted(w'), m.channel, m.position);
  }

  lemma PrintKeepsSafe(start: map<string, int>, w: World, w': World)
    requires Safe(start, w) && Step(w, Print, w')
    ensures Safe(start, w')
  {
    assert Accounted(w') == Accounted(w);
    CoveredGrows(start, w.printed, w'.printed);
  }

  /** The cursor goes to disk only after its message is printed. */
  lemma SaveKeepsSafe(start: map<string, int>, w: World, w': World)
    requires Safe(start, w) && Step(w, Save, w')
    ensures Safe(start, w')
  {
    assert Accounted(w') == Accounted(w) == w.printed;
    var m := w.process.value.phase.msg;
    forall c ensures Covered(start, w'.printed, c, Load(w'.disk, c)) {
      if c != m.channel {
        assert Load(w'.disk, c) == Load(w.disk, c);
      }
    }
  }

  lemma {:induction false} StepKeepsSafe(start: map<string, int>, w: World, e: Event, w': World)
    requires Safe(start, w) && Step(w, e, w')
    ensures Safe(start, w')
  {
    match e
    case Append(_) => ServerKeepsSafe(start, w, e, w');
    case Answer(_) => ServerKeepsSafe(start, w, e, w');
    case Die => ServerKeepsSafe(start, w, e, w');
    case Receive(m) => ReceiveKeepsSafe(start, w, m, w');
    case Print => PrintKeepsSafe(start, w, w');
    case Save => SaveKeepsSafe(start, w, w');
    case SendFrame(_) => SendingKeepsSafe(start, w, e, w');
    case SendAdvanced => SendingKeepsSafe(start, w, e, w');
    case Resume => SendingKeepsSafe(start, w, e, w');
    case _ => ConnectingKeepsSafe(start, w, e, w');
  }

  ghost predicate Run(start: map<string, int>, ws: seq<World>, es: seq<Event>) {
    && |ws| == |es| + 1
    && ws[0] == World(map[], start, {}, {}, {}, {}, Nothing, 0)
    && forall i :: 0 <= i < |es| ==> Step(ws[i], es[i], ws[i+1])
  }

  lemma {:induction false} RunsAreSafe(start: map<string, int>, ws: seq<World>, es: seq<Event>, k: nat)
    requires Run(start, ws, es) && k < |ws|
    ensures Safe(start, ws[k])
  {
    if k > 0 {
      RunsAreSafe(start, ws, es, k - 1);
      assert Step(ws[k-1], es[k-1], ws[k-1+1]);
      StepKeepsSafe(start, ws[k-1], es[k-1], ws[k]);
    }
  }

  /** In every run, every message between the starting cursor and any cursor that the client holds has been handed
      to the consumer, and every one up to the persisted cursor has been printed. */
  lemma {:induction false} NoMessageSkipped(start: map<string, int>, ws: seq<World>, es: seq<Event>, k: nat,
                                            channel: string, position: int)
    requires Run(start, ws, es) && k < |ws| && 1 <= position && (channel in start ==> start[channel] < position)
    ensures channel in ws[k].disk && position <= ws[k].disk[channel] ==> Msg(channel, position) in ws[k].printed
    ensures ws[k].process.Just? ==>
              var p := ws[k].process.value;
              && (channel in p.cursors && position <= p.cursors[channel] ==> Msg(channel, position) in ws[k].yielded)
              && (channel in p.inner && position <= p.inner[channel] ==> Msg(channel, position) in ws[k].yielded)
  {
    RunsAreSafe(start, ws, es, k);
    assert Covered(start, ws[k].printed, channel, Load(ws[k].disk, channel));
    if Running(ws[k]) {
      var p := ws[k].process.value;
      assert channel in p.cursors ==> Covered(start, Accounted(ws[k]), channel, p.cursors[channel]);
      assert channel in p.inner ==> Covered(start, Accounted(ws[k]), channel, p.inner[channel]);
    }
  }

  /** With a cap, a process hands out at most that many messages over all of its connections, and it stops exactly
      when the cap is reached. */
  lemma {:induction false} CapAcrossReconnects(start: map<string, int>, ws: seq<World>, es: seq<Event>, k: nat)
    requires Run(start, ws, es) && k < |ws| && Running(ws[k]) && ws[k].process.value.limit > 0
    ensures ws[k].taken <= ws[k].process.value.limit
    ensures ws[k].process.value.phase.Finished? <==> ws[k].process.value.delivered == ws[k].process.value.limit
    ensures ws[k].process.value.phase.Finished? ==> ws[k].taken == ws[k].process.value.limit
  {
    RunsAreSafe(start, ws, es, k);
  }

  // ----- every channel is watched where it should be -----

  /** The channels whose watch frame is still to be sent. */
  ghost function Unsent(phase: Phase): set<string> {
    if phase.Listening? then phase.todo else if HoldsMessage(phase) then {phase.msg.channel} else {}
  }

  predicate OnConnection(phase: Phase) {
    !phase.Down? && !phase.Finished? && !phase.NoChannels?
  }

  ghost predicate WatchesCursor(w: World, p: Process, channel: string) {
    channel in p.cursors && Frame(channel, p.cursors[channel]) in w.watches
  }

  /** What the connection has carried belongs to the process's channels, and every channel that is not waiting for its
      frame is watched at exactly the cursor of the wrapper. */
  ghost predicate Wired(w: World, p: Process) {
    && InSync(p)
    && (OnConnection(p.phase) ==>
          && p.active <= p.inner.Keys
          && (forall f :: f in w.watches ==> f.channel in p.inner)
          && (forall m :: m in w.replies ==> m.channel in p.inner)
          && (forall c :: c in p.active && c !in Unsent(p.phase) ==> WatchesCursor(w, p, c)))
  }

  ghost predicate AllWired(w: World) {
    Running(w) ==> Wired(w, w.process.value)
  }

  lemma ServerKeepsWired(w: World, e: Event, w': World)
    requires AllWired(w) && Step(w, e, w') && (e.Append? || e.Answer? || e.Print? || e.Save? || e.Die?)
    ensures AllWired(w')
  {
    if Running(w') && OnConnection(w.process.value.phase) {
      forall c | c in w'.process.value.active && c !in Unsent(w'.process.value.phase)
        ensures WatchesCursor(w', w'.process.value, c)
      {
        assert WatchesCursor(w, w.process.value, c);
      }
    }
  }

  lemma ConnectingKeepsWired(w: World, e: Event, w': World)
    requires AllWired(w) && Step(w, e, w')
    requires e.Start? || e.Reconnect? || e.Disconnect? || e.Timeout? || e.DropChannel?
    ensures AllWired(w')
  {
    if e.DropChannel? {
      forall c | c in w'.process.value.active ensures WatchesCursor(w', w'.process.value, c) {
        assert WatchesCursor(w, w.process.value, c);
      }
    }
  }

  lemma TakingKeepsWired(w: World, e: Event, w': World)
    requires AllWired(w) && Step(w, e, w') && (e.Receive? || e.Resume?)
    ensures AllWired(w')
  {
    var p, p' := w.process.value, w'.process.value;
    forall c | c in p'.active && c !in Unsent(p'.phase) && OnConnection(p'.phase) ensures WatchesCursor(w', p', c) {
      assert WatchesCursor(w, p, c);
    }
  }

  lemma SendingKeepsWired(w: World, e: Event, w': World)
    requires AllWired(w) && Step(w, e, w') && (e.SendFrame? || e.SendAdvanced?)
    ensures AllWired(w')
  {
    var p, p' := w.process.value, w'.process.value;
    forall c | c in p'.active && c !in Unsent(p'.phase) ensures WatchesCursor(w', p', c) {
      if c !in Unsent(p.phase) {
        assert WatchesCursor(w, p, c);
      }
    }
  }

  lemma {:induction false} StepKeepsWired(w: World, e: Event, w': World)
    requires AllWired(w) && Step(w, e, w')
    ensures AllWired(w')
  {
    match e
    case Append(_) => ServerKeepsWired(w, e, w');
    case Answer(_) => ServerKeepsWired(w, e, w');
    case Print => ServerKeepsWired(w, e, w');
    case Save => ServerKeepsWired(w, e, w');
    case Die => ServerKeepsWired(w, e, w');
    case Receive(_) => TakingKeepsWired(w, e, w');
    case Resume => TakingKeepsWired(w, e, w');
    case SendFrame(_) => SendingKeepsWired(w, e, w');
    case SendAdvanced => SendingKeepsWired(w, e, w');
    case _ => ConnectingKeepsWired(w, e, w');
  }

  lemma {:induction false} RunsAreWired(start: map<string, int>, ws: seq<World>, es: seq<Event>, k: nat)
    requires Run(start, ws, es) && k < |ws|
    ensures AllWired(ws[k])
  {
    if k > 0 {
      RunsAreWired(start, ws, es, k - 1);
      assert Step(ws[k-1], es[k-1], ws[k-1+1]);
      StepKeepsWired(ws[k-1], es[k-1], ws[k]);
    }
  }

  /** In every run: while frames are sent or awaited the generator's cursors are the wrapper's; while a message is with
      the consumer they differ at its channel only; and a client that waits watches each of its channels at exactly
      its cursor, so that the first message after the cursor can be answered at once, and then be received. */
  lemma {:induction false} EveryChannelIsWatched(start: map<string, int>, ws: seq<World>, es: seq<Event>, k: nat,
                                                 c: string)
    requires Run(start, ws, es) && k < |ws| && ws[k].process.Just?
    ensures var p := ws[k].process.value;
            && (p.phase.Listening? || p.phase.Rewatching? ==> p.inner == p.cursors)
            && (p.phase.Yielded? || p.phase.Printed? || p.phase.Saved? ==>
                  p.cursors == p.inner[p.phase.msg.channel := p.phase.msg.position])
            && (p.phase == Listening({}) && c in p.active ==>
                  && c in p.cursors && Frame(c, p.cursors[c]) in ws[k].watches
                  && (c in ws[k].heads && 0 <= p.cursors[c] < ws[k].heads[c] ==>
                        var m := Msg(c, p.cursors[c] + 1);
                        && Step(ws[k], Answer(Frame(c, p.cursors[c])), Answered(ws[k], m))
                        && exists w :: Step(Answered(ws[k], m), Receive(m), w) && HandedOut(w, m)))
  {
    RunsAreWired(start, ws, es, k);
    var w, p := ws[k], ws[k].process.value;
    if p.phase == Listening({}) && c in p.active {
      assert WatchesCursor(w, p, c);
      var m := Msg(c, p.cursors[c] + 1);
      var w' := With(Answered(w, m), Received(p, m)).(yielded := w.yielded + {m}, taken := w.taken + 1);
      assert Step(Answered(w, m), Receive(m), w');
      assert HandedOut(w', m);
    }
  }

  function Answered(w: World, m: Msg): World {
    w.(replies := w.replies + {m})
  }

  predicate HandedOut(w: World, m: Msg) {
    m in w.yielded && w.process.Just? && w.process.value.phase == Yielded(m)
  }
}
