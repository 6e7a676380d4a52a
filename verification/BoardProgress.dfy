/** What the watching client does in time. */
module BoardProgress {
  import opened BoardDelivery

  lemma StepOfRun(start: map<string, int>, ws: seq<World>, es: seq<Event>, i: nat)
    requires Run(start, ws, es) && 0 < i < |ws|
    ensures Step(ws[i-1], es[i-1], ws[i])
  {
    assert Step(ws[i-1], es[i-1], ws[i-1+1]);
  }

  // ----- every message is one that was appended -----

  predicate Exists(w: World, m: Msg) {
    1 <= m.position && m.channel in w.heads && m.position <= w.heads[m.channel]
  }

  ghost predicate AllExist(w: World) {
    (forall m :: m in w.replies ==> Exists(w, m)) && (forall m :: m in w.yielded ==> Exists(w, m))
  }

  lemma StepKeepsExisting(w: World, e: Event, w': World)
    requires AllExist(w) && Step(w, e, w')
    ensures AllExist(w')
  {
    forall m | Exists(w, m) ensures Exists(w', m) {
    }
  }

  lemma {:induction false} RunsKeepExisting(start: map<string, int>, ws: seq<World>, es: seq<Event>, k: nat)
    requires Run(start, ws, es) && k < |ws|
    ensures AllExist(ws[k])
  {
    if k > 0 {
      RunsKeepExisting(start, ws, es, k - 1);
      StepOfRun(start, ws, es, k);
      StepKeepsExisting(ws[k-1], es[k-1], ws[k]);
    }
  }

  /** How often a channel was appended to. */
  function Appends(es: seq<Event>, channel: string): nat {
    if es == [] then 0
    else Appends(es[..|es|-1], channel) + if es[|es|-1] == Append(channel) then 1 else 0
  }

  lemma {:induction false} HeadsCount(start: map<string, int>, ws: seq<World>, es: seq<Event>, k: nat, c: string)
    requires Run(start, ws, es) && k < |ws|
    ensures Appends(es[..k], c) == if c in ws[k].heads then ws[k].heads[c] else 0
  {
    if k > 0 {
      HeadsCount(start, ws, es, k - 1, c);
      StepOfRun(start, ws, es, k);
      assert es[..k][..k-1] == es[..k-1] && es[..k][k-1] == es[k-1];
    }
  }

  /** In every run, what is handed out was appended before: no position but one of those, counted from 1. */
  lemma {:induction false} OnlyAppendedIsHandedOut(start: map<string, int>, ws: seq<World>, es: seq<Event>, k: nat,
                                                   m: Msg)
    requires Run(start, ws, es) && k < |ws| && m in ws[k].yielded
    ensures 1 <= m.position <= Appends(es[..k], m.channel)
  {
    RunsKeepExisting(start, ws, es, k);
    HeadsCount(start, ws, es, k, m.channel);
    assert Exists(ws[k], m);
  }

  // ----- silence -----

  /** The events that the count of silences depends on. */
  predicate Counts(e: Event) {
    e.Timeout? || e.Receive? || e.DropChannel? || e.Reconnect?
  }

  ghost predicate SilentIff(w: World, silent: bool) {
    w.process.Just? && OnConnection(w.process.value.phase) ==> (w.process.value.reregistered > 0 <==> silent)
  }

  lemma CountingStep(w: World, e: Event, w': World)
    requires Step(w, e, w') && Counts(e)
    ensures SilentIff(w', e.Timeout?)
  {
  }

  lemma OtherStep(w: World, e: Event, w': World, silent: bool)
    requires Step(w, e, w') && !Counts(e) && SilentIff(w, silent)
    ensures SilentIff(w', silent)
  {
  }

  lemma {:induction false} SilenceIsCounted(start: map<string, int>, ws: seq<World>, es: seq<Event>, i: nat, k: nat)
    requires Run(start, ws, es) && i < k < |ws| && Counts(es[i])
    requires forall j :: i < j < k ==> !Counts(es[j])
    ensures SilentIff(ws[k], es[i].Timeout?)
  {
    StepOfRun(start, ws, es, k);
    if k == i + 1 {
      CountingStep(ws[i], es[i], ws[k]);
    } else {
      SilenceIsCounted(start, ws, es, i, k - 1);
      OtherStep(ws[k-1], es[k-1], ws[k], es[i].Timeout?);
    }
  }

  /** In every run, a timeout ends the connection if and only if the one before it came with no message, no removed
      channel and no new connection in between; otherwise all the watch frames of the connection are due again. */
  lemma {:induction false} SecondSilenceEndsConnection(start: map<string, int>, ws: seq<World>, es: seq<Event>,
                                                       i: nat, k: nat)
    requires Run(start, ws, es) && i < k < |es| && es[k].Timeout?
    requires es[i].Timeout? || es[i].Receive? || es[i].DropChannel? || es[i].Reconnect?
    requires forall j :: i < j < k ==>
               !es[j].Timeout? && !es[j].Receive? && !es[j].DropChannel? && !es[j].Reconnect?
    ensures ws[k+1].process.Just?
    ensures ws[k+1].process.value.phase == if es[i].Timeout? then Down else Listening(ws[k].process.value.inner.Keys)
  {
    SilenceIsCounted(start, ws, es, i, k);
    StepOfRun(start, ws, es, k + 1);
    assert ws[k+1-1] == ws[k] && es[k+1-1] == es[k];
  }

  // ----- frames are sent again -----

  ghost predicate SentSince(es: seq<Event>, i: nat, k: nat, c: string) {
    exists j :: i < j < k && j < |es| && es[j] == SendFrame(c)
  }

  /** Since event i, every frame of the connection was sent or is still to be sent. */
  ghost predicate Resending(es: seq<Event>, i: nat, k: nat, w: World) {
    w.process.Just? && OnConnection(w.process.value.phase) ==>
      forall c :: c in w.process.value.inner ==>
        (w.process.value.phase.Listening? && c in w.process.value.phase.todo) || SentSince(es, i, k, c)
  }

  lemma SentLater(es: seq<Event>, i: nat, k: nat)
    ensures forall c :: SentSince(es, i, k, c) ==> SentSince(es, i, k + 1, c)
  {
    forall c | SentSince(es, i, k, c) ensures SentSince(es, i, k + 1, c) {
      var j :| i < j < k && j < |es| && es[j] == SendFrame(c);
      assert i < j < k + 1;
    }
  }

  lemma StepKeepsResending(es: seq<Event>, i: nat, k: nat, w: World, w': World)
    requires i < k < |es| && Resending(es, i, k, w) && AllWired(w) && Step(w, es[k], w')
    ensures Resending(es, i, k + 1, w')
  {
    SentLater(es, i, k);
    if es[k].SendFrame? {
      assert SentSince(es, i, k + 1, es[k].channel);
    }
  }

  lemma {:induction false} RunKeepsResending(start: map<string, int>, ws: seq<World>, es: seq<Event>, i: nat, k: nat)
    requires Run(start, ws, es) && i < k < |ws| && (es[i].Timeout? || es[i].Reconnect?)
    ensures Resending(es, i, k, ws[k])
  {
    StepOfRun(start, ws, es, k);
    if k > i + 1 {
      RunKeepsResending(start, ws, es, i, k - 1);
      RunsAreWired(start, ws, es, k - 1);
      StepKeepsResending(es, i, k - 1, ws[k-1], ws[k]);
    }
  }

  /** In every run, after a timeout or a reconnection nothing is received, and no further timeout is reached, before
      the frame of every channel of the connection has been sent again. */
  lemma {:induction false} FramesAreSentAgain(start: map<string, int>, ws: seq<World>, es: seq<Event>, i: nat, k: nat,
                                              c: string)
    requires Run(start, ws, es) && i < k < |es| && (es[i].Timeout? || es[i].Reconnect?)
    requires es[k].Receive? || es[k].Timeout? || es[k].DropChannel?
    requires ws[k].process.Just? && c in ws[k].process.value.inner
    ensures exists j :: i < j < k && es[j] == SendFrame(c)
  {
    RunKeepsResending(start, ws, es, i, k);
    StepOfRun(start, ws, es, k + 1);
    assert ws[k+1-1] == ws[k] && es[k+1-1] == es[k];
    assert SentSince(es, i, k, c);
  }

  // ----- never stuck -----

  ghost predicate Leads(w: World, es: seq<Event>, w': World)
    decreases |es|
  {
    if es == [] then w' == w else exists mid :: Step(w, es[0], mid) && Leads(mid, es[1..], w')
  }

  lemma FirstStep(w: World, e: Event, mid: World, es: seq<Event>, w': World)
    requires Step(w, e, mid) && Leads(mid, es, w')
    ensures Leads(w, [e] + es, w')
  {
    assert ([e] + es)[0] == e && ([e] + es)[1..] == es;
  }

  /** Steps of the client and its consumer alone. */
  predicate OwnStep(e: Event) {
    e.Reconnect? || e.SendFrame? || e.Print? || e.Save? || e.Resume? || e.SendAdvanced?
  }

  ghost predicate HasWork(w: World) {
    w.process.Just? ==>
      var p := w.process.value;
      && p.cursors != map[]
      && (OnConnection(p.phase) ==> p.active != {})
      && (p.phase.Listening? ==> p.phase.todo <= p.inner.Keys)
  }

  lemma StepKeepsWork(w: World, e: Event, w': World)
    requires HasWork(w) && Step(w, e, w')
    ensures HasWork(w')
  {
    if e.Start? {
      var c :| c in e.channels;
      assert c in w'.process.value.cursors;
    } else if e.Reconnect? {
      var c :| c in w.process.value.cursors;
      assert c in w'.process.value.active;
    }
  }

  lemma {:induction false} RunsHaveWork(start: map<string, int>, ws: seq<World>, es: seq<Event>, k: nat)
    requires Run(start, ws, es) && k < |ws|
    ensures HasWork(ws[k])
  {
    if k > 0 {
      RunsHaveWork(start, ws, es, k - 1);
      StepOfRun(start, ws, es, k);
      StepKeepsWork(ws[k-1], es[k-1], ws[k]);
    }
  }

  /** The client waits with every frame sent, for at least one channel; or it has delivered what it was asked for. */
  predicate Waits(p: Process) {
    (p.phase == Listening({}) && p.active != {}) || p.phase == Finished
  }

  /** How many phases are left before the client waits, frames aside. */
  function Distance(phase: Phase): nat {
    match phase
    case Yielded(_) => 5
    case Printed(_) => 4
    case Saved(_) => 3
    case Rewatching(_) => 2
    case Down => 2
    case Listening(_) => 1
    case _ => 0
  }

  lemma {:induction false} Advances(w: World) returns (es: seq<Event>, w': World)
    requires w.process.Just? && HasWork(w) && !w.process.value.phase.NoChannels?
    ensures Leads(w, es, w') && (forall e :: e in es ==> OwnStep(e))
    ensures w'.process.Just? && Waits(w'.process.value)
    decreases Distance(w.process.value.phase), Todo(w)
  {
    if Waits(w.process.value) {
      return [], w;
    }
    var e, mid := NextStep(w);
    StepKeepsWork(w, e, mid);
    var rest;
    rest, w' := Advances(mid);
    es := [e] + rest;
    FirstStep(w, e, mid, rest, w');
  }

  function Todo(w: World): nat {
    if w.process.Just? && w.process.value.phase.Listening? then |w.process.value.phase.todo| else 0
  }

  lemma NextStep(w: World) returns (e: Event, w': World)
    requires w.process.Just? && HasWork(w)
    requires !w.process.value.phase.NoChannels? && !Waits(w.process.value)
    ensures Step(w, e, w') && OwnStep(e) && w'.process.Just? && !w'.process.value.phase.NoChannels?
    ensures Distance(w'.process.value.phase) < Distance(w.process.value.phase)
            || (Distance(w'.process.value.phase) == Distance(w.process.value.phase) && Todo(w') < Todo(w))
  {
    var p := w.process.value;
    match p.phase
    case Down => e, w' := Reconnect, With(w, Connected(p)).(watches := {}, replies := {});
    case Listening(todo) =>
      var c :| c in todo;
      e, w' := SendFrame(c), With(w, p.(phase := Listening(todo - {c})))
        .(watches := w.watches + if c in p.active then {Frame(c, p.inner[c])} else {});
    case Yielded(m) => e, w' := Print, With(w, p.(phase := Printed(m))).(printed := w.printed + {m});
    case Printed(m) => e, w' := Save, With(w, p.(phase := Saved(m))).(disk := w.disk[m.channel := m.position]);
    case Saved(m) => e, w' := Resume, With(w, Resumed(p));
    case Rewatching(m) =>
      e, w' := SendAdvanced, With(w, p.(phase := Listening({})))
        .(watches := w.watches + {Frame(m.channel, m.position)});
    case _ =>
  }

  /** In every run, a client that still has a channel can come to wait for messages, or to its cap, by steps of its own
      and its consumer alone; what it can then receive is said by `EveryChannelIsWatched`. */
  lemma {:induction false} NeverStuck(start: map<string, int>, ws: seq<World>, es: seq<Event>, k: nat)
    returns (more: seq<Event>, w': World)
    requires Run(start, ws, es) && k < |ws| && ws[k].process.Just? && !ws[k].process.value.phase.NoChannels?
    ensures Leads(ws[k], more, w') && (forall e :: e in more ==> OwnStep(e))
    ensures w'.process.Just? && Waits(w'.process.value)
  {
    RunsHaveWork(start, ws, es, k);
    more, w' := Advances(ws[k]);
  }
}
