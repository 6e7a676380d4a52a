/** Memory decay: an age pass, then a capacity pass, over the memories of one entity, with events. */
module MemoryDecay {
  import opened Options
  import StableSort

  datatype Tier = Journal | Consolidated | Core

  /** Frontmatter and text of one memory; times are microseconds. */
  datatype Memory = Memory(tier: Tier, title: string, salience: int, lastReinforced: int, text: string)

  datatype Path = Path(folder: Tier, stem: string)

  datatype Item = Item(memory: Memory, path: Path)

  type Positive = n: nat | n >= 1 witness 1

  datatype Config = Config(journalExpiry: Positive, consolidatedExpiry: Positive, coreDemotion: Positive,
                           coreCapacity: Positive)

  datatype Action = Expired | Demoted | SalienceReduced

  datatype Event = Event(timestamp: int, title: string, id: string, action: Action, from: Tier, to: Option<Tier>)

  datatype Decisions = Decisions(survivors: seq<Item>, demotions: seq<Item>, expirations: seq<Item>,
                                 events: seq<Event>)

  const DAY := 86_400_000_000

  /** Whole days, rounded down also for a reinforcement in the future. */
  function Days(m: Memory, now: int): int {
    (now - m.lastReinforced) / DAY
  }

  function Threshold(config: Config, tier: Tier): Positive {
    match tier
    case Journal => config.journalExpiry
    case Consolidated => config.consolidatedExpiry
    case Core => config.coreDemotion
  }

  predicate Stale(x: Item, now: int, config: Config) {
    Days(x.memory, now) >= Threshold(config, x.memory.tier)
  }

  // ----- what should happen -----

  predicate Chosen(x: Item, tier: Tier, stale: bool, now: int, config: Config) {
    x.memory.tier == tier && Stale(x, now, config) == stale
  }

  /** The items of one tier that are stale, or that are not, in input order. */
  function Select(items: seq<Item>, tier: Tier, stale: bool, now: int, config: Config): seq<Item> {
    if items == [] then [] else
      var x := items[|items|-1];
      Select(items[..|items|-1], tier, stale, now, config) + if Chosen(x, tier, stale, now, config) then [x] else []
  }

  predicate NoLater(a: Item, b: Item) {
    a.memory.lastReinforced <= b.memory.lastReinforced
  }

  /** Oldest reinforcement first; ties stay in input order. */
  function SortByAge(q: seq<Item>): seq<Item> {
    StableSort.Sort(q, NoLater)
  }

  function Fresh(items: seq<Item>, now: int, config: Config): seq<Item> {
    Select(items, Core, false, now, config)
  }

  function Excess(items: seq<Item>, now: int, config: Config): nat {
    var n := |Fresh(items, now, config)|;
    if n > config.coreCapacity then n - config.coreCapacity else 0
  }

  lemma SortLength(q: seq<Item>)
    ensures |SortByAge(q)| == |q|
  {
    StableSort.Permutes(q, NoLater);
  }

  /** The core memories that stay, and those that the capacity pass demotes. */
  function CoreKept(items: seq<Item>, now: int, config: Config): seq<Item> {
    var young, excess := Fresh(items, now, config), Excess(items, now, config);
    SortLength(young);
    if excess == 0 then young else SortByAge(young)[excess..]
  }

  function Pressed(items: seq<Item>, now: int, config: Config): seq<Item> {
    var young, excess := Fresh(items, now, config), Excess(items, now, config);
    SortLength(young);
    SortByAge(young)[..excess]
  }

  function Expiring(items: seq<Item>, now: int, config: Config): seq<Item> {
    Select(items, Journal, true, now, config) + Select(items, Consolidated, true, now, config)
  }

  function Demoting(items: seq<Item>, now: int, config: Config): seq<Item> {
    Select(items, Core, true, now, config) + Pressed(items, now, config)
  }

  function Kept(items: seq<Item>, now: int, config: Config): seq<Item> {
    Select(items, Journal, false, now, config) + Select(items, Consolidated, false, now, config)
    + CoreKept(items, now, config)
  }

  predicate Fading(x: Item, now: int, config: Config) {
    x.memory.tier == Consolidated && Days(x.memory, now) >= config.consolidatedExpiry / 2 && x.memory.salience > 1
  }

  /** The form in which a kept item survives. */
  function Faded(x: Item, now: int, config: Config): Item {
    if Fading(x, now, config) then x.(memory := x.memory.(salience := x.memory.salience - 1)) else x
  }

  function AllFaded(q: seq<Item>, now: int, config: Config): seq<Item> {
    if q == [] then [] else AllFaded(q[..|q|-1], now, config) + [Faded(q[|q|-1], now, config)]
  }

  function Lowered(x: Item): Item {
    x.(memory := x.memory.(tier := Consolidated))
  }

  function AllLowered(q: seq<Item>): seq<Item> {
    if q == [] then [] else AllLowered(q[..|q|-1]) + [Lowered(q[|q|-1])]
  }

  function ExpiryEvent(x: Item, now: int): Event {
    Event(now, x.memory.title, x.path.stem, Expired, x.memory.tier, None)
  }

  function DemotionEvent(x: Item, now: int): Event {
    Event(now, x.memory.title, x.path.stem, Demoted, Core, Some(Consolidated))
  }

  function FadeEvent(x: Item, now: int): Event {
    Event(now, x.memory.title, x.path.stem, SalienceReduced, Consolidated, Some(Consolidated))
  }

  function ExpiryEvents(q: seq<Item>, now: int): multiset<Event> {
    if q == [] then multiset{} else ExpiryEvents(q[..|q|-1], now) + multiset{ExpiryEvent(q[|q|-1], now)}
  }

  function DemotionEvents(q: seq<Item>, now: int): multiset<Event> {
    if q == [] then multiset{} else DemotionEvents(q[..|q|-1], now) + multiset{DemotionEvent(q[|q|-1], now)}
  }

  /** One event for each item whose salience the survivor form lowers. */
  function FadeEvents(q: seq<Item>, now: int, config: Config): multiset<Event> {
    if q == [] then multiset{} else
      FadeEvents(q[..|q|-1], now, config)
      + if Faded(q[|q|-1], now, config) != q[|q|-1] then multiset{FadeEvent(q[|q|-1], now)} else multiset{}
  }

  // ----- properties of the decisions -----

  lemma {:induction false} SelectMembers(items: seq<Item>, tier: Tier, stale: bool, now: int, config: Config)
    ensures forall x :: x in Select(items, tier, stale, now, config) <==>
          x in items && Chosen(x, tier, stale, now, config)
  {
    if items != [] {
      SelectMembers(items[..|items|-1], tier, stale, now, config);
      assert items == items[..|items|-1] + [items[|items|-1]];
    }
  }

  function Selected(items: seq<Item>, tier: Tier, now: int, config: Config): multiset<Item> {
    multiset(Select(items, tier, true, now, config)) + multiset(Select(items, tier, false, now, config))
  }

  lemma AddToOne(a: multiset<Item>, b: multiset<Item>, c: multiset<Item>, tier: Tier, x: Item)
    ensures (a + if tier == Journal then multiset{x} else multiset{})
            + (b + if tier == Consolidated then multiset{x} else multiset{})
            + (c + if tier == Core then multiset{x} else multiset{})
         == a + b + c + multiset{x}
  {
  }

  lemma SelectedStep(items: seq<Item>, tier: Tier, now: int, config: Config)
    requires items != []
    ensures var x := items[|items|-1];
            Selected(items, tier, now, config) == Selected(items[..|items|-1], tier, now, config)
                                                  + if x.memory.tier == tier then multiset{x} else multiset{}
  {
  }

  lemma {:induction false} SelectionsCover(items: seq<Item>, now: int, config: Config)
    ensures multiset(items)
         == Selected(items, Journal, now, config) + Selected(items, Consolidated, now, config)
            + Selected(items, Core, now, config)
  {
    if items != [] {
      var x, rest := items[|items|-1], items[..|items|-1];
      SelectionsCover(rest, now, config);
      assert items == rest + [x];
      SelectedStep(items, Journal, now, config);
      SelectedStep(items, Consolidated, now, config);
      SelectedStep(items, Core, now, config);
      AddToOne(Selected(rest, Journal, now, config), Selected(rest, Consolidated, now, config),
               Selected(rest, Core, now, config), x.memory.tier, x);
    }
  }

  lemma CoreSplit(items: seq<Item>, now: int, config: Config)
    ensures multiset(Fresh(items, now, config))
         == multiset(CoreKept(items, now, config)) + multiset(Pressed(items, now, config))
  {
    var young, excess := Fresh(items, now, config), Excess(items, now, config);
    StableSort.Permutes(young, NoLater);
    SplitElements(SortByAge(young), excess);
  }

  lemma SplitElements(q: seq<Item>, n: nat)
    requires n <= |q|
    ensures multiset(q) == multiset(q[n..]) + multiset(q[..n])
    ensures n == 0 ==> q[..n] == []
  {
    assert q == q[..n] + q[n..];
  }

  /** Every memory is kept, demoted or expired, and only one of these. */
  lemma EachInOnePlace(items: seq<Item>, now: int, config: Config)
    ensures multiset(items) == multiset(Kept(items, now, config)) + multiset(Demoting(items, now, config))
                               + multiset(Expiring(items, now, config))
  {
    SelectionsCover(items, now, config);
    CoreSplit(items, now, config);
  }

  lemma CoreKeptMembers(items: seq<Item>, now: int, config: Config)
    ensures forall x :: x in CoreKept(items, now, config) ==> x in items && Chosen(x, Core, false, now, config)
    ensures forall x :: x in Pressed(items, now, config) ==> x in items && Chosen(x, Core, false, now, config)
  {
    CoreSplit(items, now, config);
    SelectMembers(items, Core, false, now, config);
    var young := Fresh(items, now, config);
    forall x | x in CoreKept(items, now, config) || x in Pressed(items, now, config) ensures x in young {
      assert x in multiset(CoreKept(items, now, config)) + multiset(Pressed(items, now, config));
      assert x in multiset(young);
    }
  }

  /** The number of core memories that survive is the capacity, or all the young ones if they are fewer. */
  lemma CapacityIsMet(items: seq<Item>, now: int, config: Config)
    ensures |CoreKept(items, now, config)| <= config.coreCapacity
    ensures Pressed(items, now, config) != [] ==> |CoreKept(items, now, config)| == config.coreCapacity
  {
    SortLength(Fresh(items, now, config));
  }

  lemma DaysMonotone(a: Memory, b: Memory, now: int)
    requires a.lastReinforced <= b.lastReinforced
    ensures Days(a, now) >= Days(b, now)
  {
  }

  /** No demoted core memory, of either pass, was reinforced later than one that stays core. */
  lemma LeastRecentlyReinforcedGoFirst(items: seq<Item>, now: int, config: Config, d: Item, k: Item)
    requires d in Demoting(items, now, config) && k in Kept(items, now, config) && k.memory.tier == Core
    ensures d.memory.lastReinforced <= k.memory.lastReinforced
    ensures Stale(d, now, config) ==> d.memory.lastReinforced < k.memory.lastReinforced
  {
    SelectMembers(items, Core, true, now, config);
    SelectMembers(items, Journal, false, now, config);
    SelectMembers(items, Consolidated, false, now, config);
    CoreKeptMembers(items, now, config);
    if d in Select(items, Core, true, now, config) {
      if k.memory.lastReinforced <= d.memory.lastReinforced { DaysMonotone(k.memory, d.memory, now); }
    } else {
      PressedAreOlder(items, now, config, d, k);
    }
  }

  lemma PressedAreOlder(items: seq<Item>, now: int, config: Config, d: Item, k: Item)
    requires d in Pressed(items, now, config) && k in CoreKept(items, now, config)
    ensures d.memory.lastReinforced <= k.memory.lastReinforced
  {
    var young, excess := Fresh(items, now, config), Excess(items, now, config);
    StableSort.Sorts(young, NoLater);
    SortLength(young);
    var i :| 0 <= i < excess && SortByAge(young)[i] == d;
    var j :| 0 <= j < |CoreKept(items, now, config)| && CoreKept(items, now, config)[j] == k;
    assert SortByAge(young)[excess + j] == k;
  }

  /** Among fresh core memories reinforced at the same moment, the capacity pass demotes those listed first. */
  lemma TiesGoInOrder(items: seq<Item>, now: int, config: Config, e: Item)
    ensures StableSort.Ties(Pressed(items, now, config), e, NoLater)
         <= StableSort.Ties(Fresh(items, now, config), e, NoLater)
  {
    var young, excess := Fresh(items, now, config), Excess(items, now, config);
    SortLength(young);
    StableSort.KeepsTies(young, e, NoLater);
    StableSort.TiesConcat(SortByAge(young)[..excess], SortByAge(young)[excess..], e, NoLater);
    assert SortByAge(young) == SortByAge(young)[..excess] + SortByAge(young)[excess..];
  }

  /** The exact fate of a memory that is not core; a core memory is never expired, and a stale one never kept. */
  lemma FateByAge(items: seq<Item>, now: int, config: Config, x: Item)
    requires x in items
    ensures x in Expiring(items, now, config) <==> x.memory.tier != Core && Stale(x, now, config)
    ensures x.memory.tier != Core ==> (x in Kept(items, now, config) <==> !Stale(x, now, config))
    ensures x in Demoting(items, now, config) ==> x.memory.tier == Core
    ensures x.memory.tier == Core ==> x in Kept(items, now, config) || x in Demoting(items, now, config)
    ensures x.memory.tier == Core && Stale(x, now, config) ==> x !in Kept(items, now, config)
    ensures x.memory.tier == Journal ==>
              (x in Expiring(items, now, config) <==> Days(x.memory, now) >= config.journalExpiry)
    ensures x.memory.tier == Consolidated ==>
              (x in Expiring(items, now, config) <==> Days(x.memory, now) >= config.consolidatedExpiry)
    ensures x.memory.tier == Core && Days(x.memory, now) >= config.coreDemotion ==> x in Demoting(items, now, config)
  {
    SelectMembers(items, Journal, true, now, config);
    SelectMembers(items, Journal, false, now, config);
    SelectMembers(items, Consolidated, true, now, config);
    SelectMembers(items, Consolidated, false, now, config);
    SelectMembers(items, Core, true, now, config);
    CoreKeptMembers(items, now, config);
    EachInOnePlace(items, now, config);
    assert x in multiset(items);
  }

  /** Whole days since the reinforcement, rounded down; 24 hours have 86,400,000,000 microseconds. */
  lemma DaysMean(m: Memory, now: int)
    ensures Days(m, now) * 86_400_000_000 <= now - m.lastReinforced < (Days(m, now) + 1) * 86_400_000_000
  {
  }

  /** A survivor is the memory as it was, but that a consolidated one loses a point of salience, never the last, once
      half of its threshold, rounded down, has passed. */
  lemma FadedMeans(x: Item, now: int, config: Config)
    ensures var y := Faded(x, now, config);
            var fades := x.memory.tier == Consolidated && x.memory.salience > 1
                         && 2 * Days(x.memory, now) + 1 >= config.consolidatedExpiry;
            && y.path == x.path && y.memory.(salience := 0) == x.memory.(salience := 0)
            && y.memory.salience == x.memory.salience - if fades then 1 else 0
  {
  }

  predicate TellsExpiry(e: Event, x: Item, now: int) {
    e == Event(now, x.memory.title, x.path.stem, Expired, x.memory.tier, None)
  }

  predicate TellsDemotion(e: Event, x: Item, now: int) {
    e == Event(now, x.memory.title, x.path.stem, Demoted, Core, Some(Consolidated))
  }

  predicate TellsFading(e: Event, x: Item, now: int, config: Config) {
    Faded(x, now, config).memory.salience < x.memory.salience
    && e == Event(now, x.memory.title, x.path.stem, SalienceReduced, Consolidated, Some(Consolidated))
  }

  /** What each event says: when, which memory, what happened to it, and from which tier to which. */
  lemma {:induction false} ExpiriesSay(q: seq<Item>, now: int, e: Event)
    ensures e in ExpiryEvents(q, now) <==> exists i :: 0 <= i < |q| && TellsExpiry(e, q[i], now)
  {
    if q != [] {
      var front := q[..|q|-1];
      ExpiriesSay(front, now, e);
      assert forall i :: 0 <= i < |front| ==> front[i] == q[i];
    }
  }

  lemma {:induction false} DemotionsSay(q: seq<Item>, now: int, e: Event)
    ensures e in DemotionEvents(q, now) <==> exists i :: 0 <= i < |q| && TellsDemotion(e, q[i], now)
  {
    if q != [] {
      var front := q[..|q|-1];
      DemotionsSay(front, now, e);
      assert forall i :: 0 <= i < |front| ==> front[i] == q[i];
    }
  }

  lemma {:induction false} FadingsSay(q: seq<Item>, now: int, config: Config, e: Event)
    ensures e in FadeEvents(q, now, config) <==> exists i :: 0 <= i < |q| && TellsFading(e, q[i], now, config)
  {
    if q != [] {
      var front := q[..|q|-1];
      FadingsSay(front, now, config, e);
      assert forall i :: 0 <= i < |front| ==> front[i] == q[i];
    }
  }

  // ----- the loops -----

  function OfTier(items: seq<Item>, tier: Tier): seq<Item> {
    if items == [] then [] else
      OfTier(items[..|items|-1], tier) + if items[|items|-1].memory.tier == tier then [items[|items|-1]] else []
  }

  lemma {:induction false} SelectOfTier(items: seq<Item>, tier: Tier, stale: bool, now: int, config: Config)
    ensures Select(OfTier(items, tier), tier, stale, now, config) == Select(items, tier, stale, now, config)
  {
    if items != [] {
      var rest := OfTier(items[..|items|-1], tier);
      SelectOfTier(items[..|items|-1], tier, stale, now, config);
      if items[|items|-1].memory.tier == tier {
        assert OfTier(items, tier)[..|rest|] == rest;
      } else {
        assert OfTier(items, tier) == rest;
      }
    }
  }

  method PartitionByTier(memories: seq<Item>) returns (tier0: seq<Item>, tier1: seq<Item>, tier2: seq<Item>)
    ensures tier0 == OfTier(memories, Journal) && tier1 == OfTier(memories, Consolidated)
    ensures tier2 == OfTier(memories, Core)
  {
    tier0, tier1, tier2 := [], [], [];
    for i := 0 to |memories|
      invariant tier0 == OfTier(memories[..i], Journal)
      invariant tier1 == OfTier(memories[..i], Consolidated)
      invariant tier2 == OfTier(memories[..i], Core)
    {
      assert memories[..i+1][..i] == memories[..i];
      match memories[i].memory.tier
      case Journal => tier0 := tier0 + [memories[i]];
      case Consolidated => tier1 := tier1 + [memories[i]];
      case Core => tier2 := tier2 + [memories[i]];
    }
    assert memories[..|memories|] == memories;
  }

  lemma OfTierMembers(items: seq<Item>, tier: Tier)
    ensures forall x :: x in OfTier(items, tier) ==> x.memory.tier == tier
  {
  }

  /** Tier 0: memories past their threshold go, the others stay. */
  method ExpireJournals(tier0: seq<Item>, now: int, config: Config) returns (r: Decisions)
    requires forall x :: x in tier0 ==> x.memory.tier == Journal
    ensures r.expirations == Select(tier0, Journal, true, now, config)
    ensures r.survivors == Select(tier0, Journal, false, now, config) && r.demotions == []
    ensures multiset(r.events) == ExpiryEvents(r.expirations, now)
  {
    r := Decisions([], [], [], []);
    for i := 0 to |tier0|
      invariant r.expirations == Select(tier0[..i], Journal, true, now, config)
      invariant r.survivors == Select(tier0[..i], Journal, false, now, config) && r.demotions == []
      invariant multiset(r.events) == ExpiryEvents(r.expirations, now)
    {
      var x := tier0[i];
      assert tier0[..i+1][..i] == tier0[..i] && x in tier0;
      if Days(x.memory, now) >= config.journalExpiry {
        assert (r.expirations + [x])[..|r.expirations|] == r.expirations;
        r := r.(expirations := r.expirations + [x], events := r.events + [ExpiryEvent(x, now)]);
      } else {
        r := r.(survivors := r.survivors + [x]);
      }
    }
    assert tier0[..|tier0|] == tier0;
  }

  /** Tier 1: memories past their threshold go; past half of it they lose salience, but never the last point. */
  method DecayConsolidated(tier1: seq<Item>, now: int, config: Config) returns (r: Decisions)
    requires forall x :: x in tier1 ==> x.memory.tier == Consolidated
    ensures r.expirations == Select(tier1, Consolidated, true, now, config) && r.demotions == []
    ensures r.survivors == AllFaded(Select(tier1, Consolidated, false, now, config), now, config)
    ensures multiset(r.events) == ExpiryEvents(r.expirations, now)
                                  + FadeEvents(Select(tier1, Consolidated, false, now, config), now, config)
  {
    var survivors: seq<Item>, expirations: seq<Item>, events: seq<Event> := [], [], [];
    ghost var weak: seq<Item> := [];
    for i := 0 to |tier1|
      invariant expirations == Select(tier1[..i], Consolidated, true, now, config)
      invariant weak == Select(tier1[..i], Consolidated, false, now, config)
      invariant FadedSoFar(weak, expirations, survivors, events, now, config)
    {
      var x, days := tier1[i], Days(tier1[i].memory, now);
      assert tier1[..i+1][..i] == tier1[..i] && x in tier1;
      if days >= config.consolidatedExpiry {
        OneMoreExpiry(weak, expirations, survivors, events, x, now, config);
        expirations, events := expirations + [x], events + [ExpiryEvent(x, now)];
      } else {
        var y, lost := Weaken(x, days, now, config);
        OneMoreFaded(weak, expirations, survivors, events, x, y, lost, now, config);
        weak := weak + [x];
        survivors, events := survivors + [y], events + lost;
      }
    }
    assert tier1[..|tier1|] == tier1;
    r := Decisions(survivors, [], expirations, events);
  }

  ghost predicate FadedSoFar(weak: seq<Item>, expirations: seq<Item>, survivors: seq<Item>, events: seq<Event>,
                             now: int, config: Config) {
    && survivors == AllFaded(weak, now, config)
    && multiset(events) == ExpiryEvents(expirations, now) + FadeEvents(weak, now, config)
  }

  lemma OneMoreExpiry(weak: seq<Item>, expirations: seq<Item>, survivors: seq<Item>, events: seq<Event>, x: Item,
                      now: int, config: Config)
    requires FadedSoFar(weak, expirations, survivors, events, now, config)
    ensures FadedSoFar(weak, expirations + [x], survivors, events + [ExpiryEvent(x, now)], now, config)
  {
    SnocExpiry(expirations, x, now);
    MoreEvents(events, [ExpiryEvent(x, now)], ExpiryEvents(expirations, now), FadeEvents(weak, now, config));
  }

  lemma OneMoreFaded(weak: seq<Item>, expirations: seq<Item>, survivors: seq<Item>, events: seq<Event>, x: Item,
                     y: Item, lost: seq<Event>, now: int, config: Config)
    requires FadedSoFar(weak, expirations, survivors, events, now, config) && y == Faded(x, now, config)
    requires multiset(lost) == if y != x then multiset{FadeEvent(x, now)} else multiset{}
    ensures FadedSoFar(weak + [x], expirations, survivors + [y], events + lost, now, config)
  {
    SnocFaded(weak, x, now, config);
    MoreEvents(events, lost, ExpiryEvents(expirations, now), FadeEvents(weak, now, config));
  }

  lemma MoreEvents(events: seq<Event>, more: seq<Event>, a: multiset<Event>, b: multiset<Event>)
    requires multiset(events) == a + b
    ensures multiset(events + more) == (a + multiset(more)) + b == a + (b + multiset(more))
  {
  }

  /** One consolidated memory that does not expire. */
  method Weaken(x: Item, days: int, now: int, config: Config) returns (y: Item, events: seq<Event>)
    requires x.memory.tier == Consolidated && days == Days(x.memory, now)
    ensures y == Faded(x, now, config)
    ensures multiset(events) == if y != x then multiset{FadeEvent(x, now)} else multiset{}
  {
    y, events := x, [];
    if days >= config.consolidatedExpiry / 2 {
      var salience := if x.memory.salience - 1 > 1 then x.memory.salience - 1 else 1;
      if salience < x.memory.salience {
        y := x.(memory := x.memory.(salience := salience));
        events := [FadeEvent(x, now)];
      }
    }
  }

  lemma SnocExpiry(q: seq<Item>, x: Item, now: int)
    ensures ExpiryEvents(q + [x], now) == ExpiryEvents(q, now) + multiset{ExpiryEvent(x, now)}
  {
    assert (q + [x])[..|q|] == q;
  }

  ghost predicate DemotionsSoFar(down: seq<Item>, demotions: seq<Item>, events: seq<Event>, now: int) {
    demotions == AllLowered(down) && multiset(events) == DemotionEvents(down, now)
  }

  lemma OneMoreDemotion(down: seq<Item>, demotions: seq<Item>, events: seq<Event>, x: Item, now: int)
    requires DemotionsSoFar(down, demotions, events, now)
    ensures DemotionsSoFar(down + [x], demotions + [Lowered(x)], events + [DemotionEvent(x, now)], now)
  {
    assert (down + [x])[..|down|] == down;
  }

  lemma SnocFaded(q: seq<Item>, x: Item, now: int, config: Config)
    ensures AllFaded(q + [x], now, config) == AllFaded(q, now, config) + [Faded(x, now, config)]
    ensures FadeEvents(q + [x], now, config)
         == FadeEvents(q, now, config) + if Faded(x, now, config) != x then multiset{FadeEvent(x, now)} else multiset{}
  {
    assert (q + [x])[..|q|] == q;
  }

  /** Tier 2, by age: stale memories are demoted. */
  method DemoteStale(tier2: seq<Item>, now: int, config: Config)
    returns (surviving: seq<Item>, ghost stale: seq<Item>, demotions: seq<Item>, events: seq<Event>)
    requires forall x :: x in tier2 ==> x.memory.tier == Core
    ensures surviving == Select(tier2, Core, false, now, config) && stale == Select(tier2, Core, true, now, config)
    ensures demotions == AllLowered(stale) && multiset(events) == DemotionEvents(stale, now)
  {
    surviving, stale, demotions, events := [], [], [], [];
    for i := 0 to |tier2|
      invariant surviving == Select(tier2[..i], Core, false, now, config)
      invariant stale == Select(tier2[..i], Core, true, now, config)
      invariant DemotionsSoFar(stale, demotions, events, now)
    {
      var x := tier2[i];
      assert tier2[..i+1][..i] == tier2[..i] && x in tier2;
      if Days(x.memory, now) >= config.coreDemotion {
        OneMoreDemotion(stale, demotions, events, x, now);
        stale := stale + [x];
        demotions, events := demotions + [Lowered(x)], events + [DemotionEvent(x, now)];
      } else {
        surviving := surviving + [x];
      }
    }
    assert tier2[..|tier2|] == tier2;
  }

  /** Tier 2, by capacity: the least recently reinforced go until the budget is met. */
  method DemoteExcess(surviving: seq<Item>, capacity: nat, now: int)
    returns (rest: seq<Item>, demotions: seq<Item>, events: seq<Event>)
    ensures |SortByAge(surviving)| == |surviving|
    ensures var excess := if |surviving| > capacity then |surviving| - capacity else 0;
            && rest == (if excess == 0 then surviving else SortByAge(surviving)[excess..])
            && demotions == AllLowered(SortByAge(surviving)[..excess])
            && multiset(events) == DemotionEvents(SortByAge(surviving)[..excess], now)
  {
    SortLength(surviving);
    rest, demotions, events := surviving, [], [];
    if |surviving| > capacity {
      var sorted := SortByAge(surviving);
      var excess := |sorted| - capacity;
      for i := 0 to excess
        invariant DemotionsSoFar(sorted[..i], demotions, events, now)
      {
        OneMoreDemotion(sorted[..i], demotions, events, sorted[i], now);
        assert sorted[..i+1] == sorted[..i] + [sorted[i]];
        demotions, events := demotions + [Lowered(sorted[i])], events + [DemotionEvent(sorted[i], now)];
      }
      rest := sorted[excess..];
    }
  }

  lemma {:induction false} ExpiryConcat(a: seq<Item>, b: seq<Item>, now: int)
    ensures ExpiryEvents(a + b, now) == ExpiryEvents(a, now) + ExpiryEvents(b, now)
  {
    if b == [] {
      assert a + b == a;
    } else {
      assert (a + b)[..|a + b|-1] == a + b[..|b|-1];
      ExpiryConcat(a, b[..|b|-1], now);
    }
  }

  lemma {:induction false} DemotionConcat(a: seq<Item>, b: seq<Item>, now: int)
    ensures DemotionEvents(a + b, now) == DemotionEvents(a, now) + DemotionEvents(b, now)
  {
    if b == [] {
      assert a + b == a;
    } else {
      assert (a + b)[..|a + b|-1] == a + b[..|b|-1];
      DemotionConcat(a, b[..|b|-1], now);
    }
  }

  lemma {:induction false} LoweredConcat(a: seq<Item>, b: seq<Item>)
    ensures AllLowered(a + b) == AllLowered(a) + AllLowered(b)
  {
    if b == [] {
      assert a + b == a;
    } else {
      assert (a + b)[..|a + b|-1] == a + b[..|b|-1];
      LoweredConcat(a, b[..|b|-1]);
    }
  }

  lemma {:induction false} FadedConcat(a: seq<Item>, b: seq<Item>, now: int, config: Config)
    ensures AllFaded(a + b, now, config) == AllFaded(a, now, config) + AllFaded(b, now, config)
  {
    if b == [] {
      assert a + b == a;
    } else {
      assert (a + b)[..|a + b|-1] == a + b[..|b|-1];
      FadedConcat(a, b[..|b|-1], now, config);
    }
  }

  lemma {:induction false} FadeEventsConcat(a: seq<Item>, b: seq<Item>, now: int, config: Config)
    ensures FadeEvents(a + b, now, config) == FadeEvents(a, now, config) + FadeEvents(b, now, config)
  {
    if b == [] {
      assert a + b == a;
    } else {
      assert (a + b)[..|a + b|-1] == a + b[..|b|-1];
      FadeEventsConcat(a, b[..|b|-1], now, config);
    }
  }

  lemma {:induction false} NothingFades(q: seq<Item>, now: int, config: Config)
    requires forall x :: x in q ==> x.memory.tier != Consolidated
    ensures FadeEvents(q, now, config) == multiset{} && AllFaded(q, now, config) == q
  {
    if q != [] {
      NothingFades(q[..|q|-1], now, config);
    }
  }

  /** What is kept, in the form in which it survives. */
  lemma SurvivorForms(items: seq<Item>, now: int, config: Config)
    ensures var weak := Select(items, Consolidated, false, now, config);
            && AllFaded(Kept(items, now, config), now, config)
               == Select(items, Journal, false, now, config) + AllFaded(weak, now, config)
                  + CoreKept(items, now, config)
            && FadeEvents(Kept(items, now, config), now, config) == FadeEvents(weak, now, config)
  {
    var journals, weak := Select(items, Journal, false, now, config), Select(items, Consolidated, false, now, config);
    SelectMembers(items, Journal, false, now, config);
    CoreKeptMembers(items, now, config);
    NothingFades(journals, now, config);
    NothingFades(CoreKept(items, now, config), now, config);
    FadedConcat(journals, weak, now, config);
    FadeEventsConcat(journals, weak, now, config);
    FadedConcat(journals + weak, CoreKept(items, now, config), now, config);
    FadeEventsConcat(journals + weak, CoreKept(items, now, config), now, config);
  }

  /** Tier 2: the age pass, then the capacity pass on what it leaves. */
  method DecayCore(tier2: seq<Item>, ghost memories: seq<Item>, now: int, config: Config)
    returns (rest: seq<Item>, demotions: seq<Item>, events: seq<Event>)
    requires tier2 == OfTier(memories, Core)
    ensures rest == CoreKept(memories, now, config) && demotions == AllLowered(Demoting(memories, now, config))
    ensures multiset(events) == DemotionEvents(Demoting(memories, now, config), now)
  {
    OfTierMembers(memories, Core);
    SelectOfTier(memories, Core, true, now, config);
    SelectOfTier(memories, Core, false, now, config);
    var surviving, stale, demoted, staleEvents := DemoteStale(tier2, now, config);
    var pressed, pressedEvents;
    rest, pressed, pressedEvents := DemoteExcess(surviving, config.coreCapacity, now);
    demotions, events := demoted + pressed, staleEvents + pressedEvents;
    DemotionsJoin(stale, Pressed(memories, now, config), demoted, pressed, staleEvents, pressedEvents, now);
  }

  lemma DemotionsJoin(a: seq<Item>, b: seq<Item>, demotedA: seq<Item>, demotedB: seq<Item>, eventsA: seq<Event>,
                      eventsB: seq<Event>, now: int)
    requires DemotionsSoFar(a, demotedA, eventsA, now) && DemotionsSoFar(b, demotedB, eventsB, now)
    ensures DemotionsSoFar(a + b, demotedA + demotedB, eventsA + eventsB, now)
  {
    DemotionConcat(a, b, now);
    LoweredConcat(a, b);
    assert multiset(eventsA + eventsB) == multiset(eventsA) + multiset(eventsB);
  }

  /** `apply_decay`: the kept items in their survivor form, the demoted ones a tier lower, and one event for each
      expiry, each demotion and each kept item whose salience changed. */
  method ApplyDecay(memories: seq<Item>, now: int, config: Config) returns (r: Decisions)
    ensures r.survivors == AllFaded(Kept(memories, now, config), now, config)
    ensures r.demotions == AllLowered(Demoting(memories, now, config))
    ensures r.expirations == Expiring(memories, now, config)
    ensures multiset(r.events) == ExpiryEvents(Expiring(memories, now, config), now)
                                  + DemotionEvents(Demoting(memories, now, config), now)
                                  + FadeEvents(Kept(memories, now, config), now, config)
  {
    var tier0, tier1, tier2 := PartitionByTier(memories);
    OfTierMembers(memories, Journal);
    OfTierMembers(memories, Consolidated);
    var r0 := ExpireJournals(tier0, now, config);
    var r1 := DecayConsolidated(tier1, now, config);
    var rest, demotions, events := DecayCore(tier2, memories, now, config);
    SelectOfTier(memories, Journal, true, now, config);
    SelectOfTier(memories, Journal, false, now, config);
    SelectOfTier(memories, Consolidated, true, now, config);
    SelectOfTier(memories, Consolidated, false, now, config);
    ExpiryConcat(r0.expirations, r1.expirations, now);
    SurvivorForms(memories, now, config);
    r := Decisions(r0.survivors + r1.survivors + rest, demotions, r0.expirations + r1.expirations,
                   r0.events + r1.events + events);
  }
}
