/** AWS health events: counters that are refilled at every collection, and entities asked for ten ARNs at a time. */
module Health {
  import opened Collections
  import opened Batching

  datatype Event = Event(
    arn: string, service: string, region: string, startTime: string, status: string, updated: string,
    typeCode: string, category: string, scope: string, zone: string)

  datatype Entity = Entity(
    eventArn: string, account: string, arn: string, status: string, value: string, url: string, updated: string)

  const ARNS_PER_REQUEST := 10
  const OPEN := "open"
  const CLOSED := "closed"

  type LabelValues = seq<string>

  /** A counter vector: the counters that exist, by their label values. */
  type CounterVec = map<LabelValues, nat>

  function Inc(vec: CounterVec, labels: LabelValues): CounterVec {
    vec[labels := (if labels in vec then vec[labels] else 0) + 1]
  }

  /** The vector counts exactly the occurrences in `seen`. */
  ghost predicate Counts(vec: CounterVec, seen: seq<LabelValues>) {
    forall l :: (l in vec <==> Times(l, seen) > 0) && (l in vec ==> vec[l] == Times(l, seen))
  }

  ghost function Total(vec: CounterVec): nat {
    if vec == map[] then 0 else var l :| l in vec; vec[l] + Total(vec - {l})
  }

  lemma CountsNext(vec: CounterVec, seen: seq<LabelValues>, labels: LabelValues)
    requires Counts(vec, seen)
    ensures Counts(Inc(vec, labels), seen + [labels])
  {
    forall l ensures Times(l, seen + [labels]) == Times(l, seen) + if l == labels then 1 else 0 {
      TimesAppend(l, seen, [labels]);
    }
  }

  lemma NothingCounted(vec: CounterVec)
    requires vec == map[]
    ensures Counts(vec, [])
  {
  }

  /** One more element under a labelling `f` that gives at most one label tuple. */
  lemma CountsMore<T>(vec: CounterVec, f: T -> seq<LabelValues>, seen: seq<T>, x: T)
    requires Counts(vec, FlatMap(f, seen))
    ensures f(x) == [] ==> Counts(vec, FlatMap(f, seen + [x]))
    ensures |f(x)| == 1 ==> Counts(Inc(vec, f(x)[0]), FlatMap(f, seen + [x]))
  {
    FlatMapAppend(f, seen, [x]);
    FlatMapOne(f, x);
    if |f(x)| == 1 {
      assert f(x) == [f(x)[0]];
      CountsNext(vec, FlatMap(f, seen), f(x)[0]);
    }
  }

  /** The counters of a vector sum to the number of occurrences it has counted. */
  lemma {:induction false} TotalIsCount(vec: CounterVec, seen: multiset<LabelValues>)
    requires forall l :: (l in vec <==> seen[l] > 0) && (l in vec ==> vec[l] == seen[l])
    ensures Total(vec) == |seen|
    decreases vec.Keys
  {
    if vec == map[] {
      assert forall l :: seen[l] == 0;
      assert seen == multiset{};
    } else {
      var l :| l in vec && Total(vec) == vec[l] + Total(vec - {l});
      var rest := seen[l := 0];
      TotalIsCount(vec - {l}, rest);
      assert |seen| == |rest| + seen[l] by {
        assert seen == rest[l := seen[l]];
      }
    }
  }

  lemma CountsTotal(vec: CounterVec, seen: seq<LabelValues>)
    requires Counts(vec, seen)
    ensures Total(vec) == |seen|
  {
    TotalIsCount(vec, multiset(seen));
  }

  // ---- label values ----

  function EventLabels(e: Event): LabelValues {
    [e.arn, e.service, e.region, e.startTime, e.status, e.updated, e.typeCode, e.category, e.scope, e.zone]
  }

  function TotalLabels(e: Event): LabelValues {
    [e.category, e.zone, e.service]
  }

  /** The region of the last event with this ARN; the empty string when there is none. */
  function RegionOf(events: seq<Event>, arn: string): string {
    if events == [] then ""
    else
      var n := |events| - 1;
      if events[n].arn == arn then events[n].region else RegionOf(events[..n], arn)
  }

  function EntityLabels(events: seq<Event>, x: Entity): LabelValues {
    [x.eventArn, x.account, RegionOf(events, x.eventArn), x.arn, x.status, x.value, x.url, x.updated]
  }

  ghost function EventLabel(): Event -> seq<LabelValues> {
    (e: Event) => [EventLabels(e)]
  }

  ghost function StatusLabel(status: string): Event -> seq<LabelValues> {
    (e: Event) => if e.status == status then [TotalLabels(e)] else []
  }

  ghost function EntityLabel(events: seq<Event>): Entity -> seq<LabelValues> {
    (x: Entity) => [EntityLabels(events, x)]
  }

  ghost function Arns(events: seq<Event>): (r: seq<string>)
    ensures |r| == |events|
  {
    seq(|events|, i requires 0 <= i < |events| => events[i].arn)
  }

  /** The service's answer to one request for affected entities, all pages together. */
  type EntityService = seq<string> -> seq<Entity>

  ghost function AllEntities(service: EntityService, events: seq<Event>): seq<Entity> {
    FlatMap(service, Batches(Arns(events), ARNS_PER_REQUEST))
  }

  type Regions = map<string, string>

  ghost predicate IsRegionMap(regions: Regions, events: seq<Event>) {
    forall arn :: (if arn in regions then regions[arn] else "") == RegionOf(events, arn)
  }

  lemma RegionMapNext(regions: Regions, events: seq<Event>, e: Event)
    requires IsRegionMap(regions, events)
    ensures IsRegionMap(regions[e.arn := e.region], events + [e])
  {
    assert (events + [e])[..|events|] == events;
  }

  // ---- batching ----

  /** Full batches so far, and a short one that is being filled. */
  ghost predicate Filling(batches: seq<seq<string>>, arnList: seq<string>, arns: seq<string>) {
    && Concat(batches) + arnList == arns
    && (forall i :: 0 <= i < |batches| ==> |batches[i]| == ARNS_PER_REQUEST)
    && |arnList| < ARNS_PER_REQUEST
  }

  lemma FilledBatches(batches: seq<seq<string>>, arnList: seq<string>, arns: seq<string>)
    requires Filling(batches, arnList, arns)
    ensures (if arnList == [] then batches else batches + [arnList]) == Batches(arns, ARNS_PER_REQUEST)
  {
    var all := if arnList == [] then batches else batches + [arnList];
    if arnList != [] {
      assert all[..|batches|] == batches;
    }
    CutIsUnique(arns, ARNS_PER_REQUEST, all);
  }

  lemma EventCounted(vec: CounterVec, before: seq<Event>, e: Event)
    requires Counts(vec, FlatMap(EventLabel(), before))
    ensures Counts(Inc(vec, EventLabels(e)), FlatMap(EventLabel(), before + [e]))
  {
    CountsMore(vec, EventLabel(), before, e);
  }

  lemma StatusCounted(vec: CounterVec, status: string, before: seq<Event>, e: Event)
    requires Counts(vec, FlatMap(StatusLabel(status), before))
    ensures Counts(if e.status == status then Inc(vec, TotalLabels(e)) else vec,
                   FlatMap(StatusLabel(status), before + [e]))
  {
    CountsMore(vec, StatusLabel(status), before, e);
  }

  lemma EntityCounted(vec: CounterVec, events: seq<Event>, regions: Regions, before: seq<Entity>, x: Entity)
    requires IsRegionMap(regions, events) && Counts(vec, FlatMap(EntityLabel(events), before))
    ensures var region := if x.eventArn in regions then regions[x.eventArn] else "";
      Counts(Inc(vec, [x.eventArn, x.account, region, x.arn, x.status, x.value, x.url, x.updated]),
             FlatMap(EntityLabel(events), before + [x]))
  {
    CountsMore(vec, EntityLabel(events), before, x);
  }

  // ---- what the vectors show, field by field ----

  ghost predicate EventShows(l: LabelValues, e: Event) {
    && |l| == 10 && l[0] == e.arn && l[1] == e.service && l[2] == e.region && l[3] == e.startTime && l[4] == e.status
    && l[5] == e.updated && l[6] == e.typeCode && l[7] == e.category && l[8] == e.scope && l[9] == e.zone
  }

  ghost predicate TotalShows(l: LabelValues, e: Event) {
    |l| == 3 && l[0] == e.category && l[1] == e.zone && l[2] == e.service
  }

  ghost predicate EntityShows(l: LabelValues, x: Entity, events: seq<Event>) {
    && |l| == 8 && l[0] == x.eventArn && l[1] == x.account && IsRegion(events, x.eventArn, l[2]) && l[3] == x.arn
    && l[4] == x.status && l[5] == x.value && l[6] == x.url && l[7] == x.updated
  }

  /** The region of the last event with the ARN, or the empty string when no event has it. */
  ghost predicate IsRegion(events: seq<Event>, arn: string, region: string) {
    if forall i :: 0 <= i < |events| ==> events[i].arn != arn then region == ""
    else
      exists i ::
        0 <= i < |events| && events[i].arn == arn && events[i].region == region
        && forall j :: i < j < |events| ==> events[j].arn != arn
  }

  /** A counter with this many increments; there is none without increments. */
  ghost predicate HasCount(vec: CounterVec, l: LabelValues, n: nat) {
    (l in vec <==> n > 0) && (l in vec ==> vec[l] == n)
  }

  ghost function EventsWith(events: seq<Event>, l: LabelValues): set<nat> {
    set i: nat | i < |events| && EventShows(l, events[i])
  }

  ghost function StatusWith(events: seq<Event>, status: string, l: LabelValues): set<nat> {
    set i: nat | i < |events| && events[i].status == status && TotalShows(l, events[i])
  }

  ghost function EntitiesWith(entities: seq<Entity>, events: seq<Event>, l: LabelValues): set<nat> {
    set i: nat | i < |entities| && EntityShows(l, entities[i], events)
  }

  /** Under every ten label values, as many as there are events with these values in their fields. */
  ghost predicate CountsEvents(vec: CounterVec, events: seq<Event>) {
    forall l :: HasCount(vec, l, |EventsWith(events, l)|)
  }

  ghost predicate CountsStatus(vec: CounterVec, status: string, events: seq<Event>) {
    forall l :: HasCount(vec, l, |StatusWith(events, status, l)|)
  }

  ghost predicate CountsEntities(vec: CounterVec, entities: seq<Entity>, events: seq<Event>) {
    forall l :: HasCount(vec, l, |EntitiesWith(entities, events, l)|)
  }

  lemma CountedByPosition<T>(vec: CounterVec, f: T -> seq<LabelValues>, xs: seq<T>, l: LabelValues)
    requires Counts(vec, FlatMap(f, xs)) && forall i :: 0 <= i < |xs| ==> |f(xs[i])| <= 1
    ensures HasCount(vec, l, |Mapped(f, xs, l, |xs|)|)
  {
    TimesByPosition(f, xs, l, |xs|);
    assert xs[..|xs|] == xs;
  }

  lemma EventsAreCounted(vec: CounterVec, events: seq<Event>)
    requires Counts(vec, FlatMap(EventLabel(), events))
    ensures CountsEvents(vec, events)
  {
    forall l ensures HasCount(vec, l, |EventsWith(events, l)|) {
      CountedByPosition(vec, EventLabel(), events, l);
      forall e ensures EventLabel()(e) == [l] <==> EventShows(l, e) {
        assert EventLabel()(e) == [EventLabels(e)];
        assert EventShows(l, e) ==> l == EventLabels(e);
      }
      assert Mapped(EventLabel(), events, l, |events|) == EventsWith(events, l);
    }
  }

  lemma StatusesAreCounted(vec: CounterVec, status: string, events: seq<Event>)
    requires Counts(vec, FlatMap(StatusLabel(status), events))
    ensures CountsStatus(vec, status, events)
  {
    forall l ensures HasCount(vec, l, |StatusWith(events, status, l)|) {
      CountedByPosition(vec, StatusLabel(status), events, l);
      forall e: Event ensures StatusLabel(status)(e) == [l] <==> e.status == status && TotalShows(l, e) {
        assert e.status == status ==> StatusLabel(status)(e) == [TotalLabels(e)];
        assert TotalShows(l, e) ==> l == TotalLabels(e);
      }
      assert Mapped(StatusLabel(status), events, l, |events|) == StatusWith(events, status, l);
    }
  }

  lemma {:induction false} RegionIsLast(events: seq<Event>, arn: string, region: string)
    ensures IsRegion(events, arn, region) <==> region == RegionOf(events, arn)
  {
    if events != [] {
      var n := |events| - 1;
      if events[n].arn != arn {
        RegionIsLast(events[..n], arn, region);
        assert forall i :: 0 <= i < n ==> events[..n][i] == events[i];
      }
    }
  }

  lemma EntitiesAreCounted(vec: CounterVec, entities: seq<Entity>, events: seq<Event>)
    requires Counts(vec, FlatMap(EntityLabel(events), entities))
    ensures CountsEntities(vec, entities, events)
  {
    forall l ensures HasCount(vec, l, |EntitiesWith(entities, events, l)|) {
      CountedByPosition(vec, EntityLabel(events), entities, l);
      forall x ensures EntityLabel(events)(x) == [l] <==> EntityShows(l, x, events) {
        assert EntityLabel(events)(x) == [EntityLabels(events, x)];
        if |l| == 8 {
          RegionIsLast(events, x.eventArn, l[2]);
        }
        assert EntityShows(l, x, events) ==> l == EntityLabels(events, x);
      }
      assert Mapped(EntityLabel(events), entities, l, |entities|) == EntitiesWith(entities, events, l);
    }
  }

  /** The ARNs of the events in order, ten at a time. */
  ghost predicate AreRequests(requests: seq<seq<string>>, events: seq<Event>) {
    && |Concat(requests)| == |events| && (forall i :: 0 <= i < |events| ==> Concat(requests)[i] == events[i].arn)
    && (forall i :: 0 <= i < |requests| ==> 0 < |requests[i]| <= 10)
    && (forall i :: 0 <= i < |requests| - 1 ==> |requests[i]| == 10)
  }

  /** The entities that the service returns for these requests are counted. */
  ghost predicate CountsAnswers(vec: CounterVec, service: EntityService, events: seq<Event>) {
    exists requests :: AreRequests(requests, events) && CountsEntities(vec, FlatMap(service, requests), events)
  }

  lemma RequestsAre(events: seq<Event>)
    ensures AreRequests(Batches(Arns(events), ARNS_PER_REQUEST), events)
  {
    BatchesCut(Arns(events), ARNS_PER_REQUEST);
  }

  lemma AnswersAreCounted(vec: CounterVec, service: EntityService, events: seq<Event>)
    requires Counts(vec, FlatMap(EntityLabel(events), AllEntities(service, events)))
    ensures CountsAnswers(vec, service, events)
  {
    EntitiesAreCounted(vec, AllEntities(service, events), events);
    RequestsAre(events);
    assert AllEntities(service, events) == FlatMap(service, Batches(Arns(events), ARNS_PER_REQUEST));
  }

  // ---- the collector ----

  class HealthCollector {
    var healthEvent: CounterVec
    var affectedEntity: CounterVec
    var openedTotal: CounterVec
    var closedTotal: CounterVec

    constructor ()
      ensures healthEvent == affectedEntity == openedTotal == closedTotal == map[]
    {
      healthEvent, affectedEntity, openedTotal, closedTotal := map[], map[], map[], map[];
    }

    /**
     What a collection leaves in the counters depends on this collection's events and entities only. Nothing is
     handed to the registry when there are no events.
     */
    method Collect(pages: seq<seq<Event>>, service: EntityService) returns (emitted: bool)
      modifies this
      ensures var events := Concat(pages);
        && (emitted <==> events != [])
        && Counts(healthEvent, FlatMap(EventLabel(), events))
        && Counts(closedTotal, FlatMap(StatusLabel(CLOSED), events))
        && Counts(openedTotal, FlatMap(StatusLabel(OPEN), events))
        && Counts(affectedEntity, FlatMap(EntityLabel(events), AllEntities(service, events)))
      ensures var events := Concat(pages);
        && CountsEvents(healthEvent, events)
        && CountsStatus(closedTotal, "closed", events) && CountsStatus(openedTotal, "open", events)
        && CountsAnswers(affectedEntity, service, events)
    {
      openedTotal, closedTotal, healthEvent, affectedEntity := map[], map[], map[], map[];
      var events: seq<Event> := [];
      for p := 0 to |pages|
        invariant events == Concat(pages[..p])
        invariant openedTotal == closedTotal == healthEvent == affectedEntity == map[]
      {
        events := events + pages[p];
        assert pages[..p + 1][..p] == pages[..p];
      }
      assert pages[..|pages|] == pages;
      if |events| == 0 {
        assert Arns(events) == [];
        VectorsShow(events, service);
        return false;
      }
      var batches, regions := CountEvents(events);
      CountEntities(events, service, batches, regions);
      VectorsShow(events, service);
      emitted := true;
    }

    lemma VectorsShow(events: seq<Event>, service: EntityService)
      requires Counted(events)
      requires Counts(affectedEntity, FlatMap(EntityLabel(events), AllEntities(service, events)))
      ensures CountsEvents(healthEvent, events)
      ensures CountsStatus(closedTotal, "closed", events) && CountsStatus(openedTotal, "open", events)
      ensures CountsAnswers(affectedEntity, service, events)
    {
      EventsAreCounted(healthEvent, events);
      StatusesAreCounted(closedTotal, CLOSED, events);
      StatusesAreCounted(openedTotal, OPEN, events);
      AnswersAreCounted(affectedEntity, service, events);
    }

    /** The three event counters count exactly these events. */
    ghost predicate Counted(events: seq<Event>)
      reads this
    {
      && Counts(healthEvent, FlatMap(EventLabel(), events))
      && Counts(closedTotal, FlatMap(StatusLabel(CLOSED), events))
      && Counts(openedTotal, FlatMap(StatusLabel(OPEN), events))
    }

    /** The events are counted and their ARNs are batched; a short last batch is handed over as it is. */
    method CountEvents(events: seq<Event>) returns (eventArn: seq<seq<string>>, regionMap: Regions)
      requires openedTotal == closedTotal == healthEvent == map[]
      modifies `healthEvent, `closedTotal, `openedTotal
      ensures eventArn == Batches(Arns(events), ARNS_PER_REQUEST) && AreRequests(eventArn, events)
      ensures IsRegionMap(regionMap, events)
      ensures Counted(events)
    {
      var arnList: seq<string>;
      eventArn, arnList, regionMap := CountEach(events);
      FilledBatches(eventArn, arnList, Arns(events));
      if |arnList| != 0 {
        eventArn := eventArn + [arnList];
      }
      RequestsAre(events);
    }

    /** The loop over the events. */
    method CountEach(events: seq<Event>)
      returns (eventArn: seq<seq<string>>, arnList: seq<string>, regionMap: Regions)
      requires openedTotal == closedTotal == healthEvent == map[]
      modifies `healthEvent, `closedTotal, `openedTotal
      ensures Filling(eventArn, arnList, Arns(events)) && IsRegionMap(regionMap, events)
      ensures Counted(events)
    {
      ghost var seen: seq<Event> := [];
      eventArn, arnList, regionMap := [], [], map[];
      assert Filling(eventArn, arnList, Arns(seen)) && IsRegionMap(regionMap, seen) && Counted(seen);
      for i := 0 to |events|
        invariant seen == events[..i]
        invariant Filling(eventArn, arnList, Arns(seen)) && IsRegionMap(regionMap, seen)
        invariant Counted(seen)
      {
        TakeNext(events, i);
        CountEvent(events[i], seen);
        eventArn, arnList, regionMap := Remember(events[i], eventArn, arnList, regionMap, seen);
        seen := seen + [events[i]];
      }
      assert events[..|events|] == events;
    }

    /** The region is noted under the ARN, and the ARN joins the list that is being filled. */
    static method Remember(
      e: Event, batches: seq<seq<string>>, list: seq<string>, regions: Regions, ghost seen: seq<Event>)
      returns (eventArn: seq<seq<string>>, arnList: seq<string>, regionMap: Regions)
      requires Filling(batches, list, Arns(seen)) && IsRegionMap(regions, seen)
      ensures Filling(eventArn, arnList, Arns(seen + [e])) && IsRegionMap(regionMap, seen + [e])
    {
      RegionMapNext(regions, seen, e);
      regionMap := regions[e.arn := e.region];
      assert Arns(seen + [e]) == Arns(seen) + [e.arn];
      eventArn, arnList := AddArn(batches, list, e.arn, Arns(seen));
    }

    /** The list is handed over when it has ten ARNs, and started anew. */
    static method AddArn(batches: seq<seq<string>>, list: seq<string>, arn: string, ghost arns: seq<string>)
      returns (eventArn: seq<seq<string>>, arnList: seq<string>)
      requires Filling(batches, list, arns)
      ensures Filling(eventArn, arnList, arns + [arn])
    {
      eventArn, arnList := batches, list + [arn];
      if |arnList| == 10 {
        eventArn := eventArn + [arnList];
        assert eventArn[..|batches|] == batches;
        arnList := [];
      }
    }

    method CountEvent(e: Event, ghost before: seq<Event>)
      requires Counted(before)
      modifies `healthEvent, `closedTotal, `openedTotal
      ensures Counted(before + [e])
    {
      CountInAll(e, before);
      CountStatus(e, before);
    }

    method CountInAll(e: Event, ghost before: seq<Event>)
      requires Counts(healthEvent, FlatMap(EventLabel(), before))
      modifies `healthEvent
      ensures Counts(healthEvent, FlatMap(EventLabel(), before + [e]))
    {
      EventCounted(healthEvent, before, e);
      healthEvent := Inc(healthEvent, EventLabels(e));
    }

    method CountStatus(e: Event, ghost before: seq<Event>)
      requires Counts(closedTotal, FlatMap(StatusLabel(CLOSED), before))
      requires Counts(openedTotal, FlatMap(StatusLabel(OPEN), before))
      modifies `closedTotal, `openedTotal
      ensures Counts(closedTotal, FlatMap(StatusLabel(CLOSED), before + [e]))
      ensures Counts(openedTotal, FlatMap(StatusLabel(OPEN), before + [e]))
    {
      StatusCounted(closedTotal, CLOSED, before, e);
      StatusCounted(openedTotal, OPEN, before, e);
      assert CLOSED[0] != OPEN[0];
      if e.status == CLOSED {
        closedTotal := Inc(closedTotal, TotalLabels(e));
      } else if e.status == OPEN {
        openedTotal := Inc(openedTotal, TotalLabels(e));
      }
    }

    /** The loop over the ARN batches; `entities` is emptied and refilled for each of them. */
    method CountEntities(events: seq<Event>, service: EntityService, eventArn: seq<seq<string>>, regionMap: Regions)
      requires IsRegionMap(regionMap, events) && affectedEntity == map[]
      modifies `affectedEntity
      ensures Counts(affectedEntity, FlatMap(EntityLabel(events), FlatMap(service, eventArn)))
    {
      var entities: seq<Entity> := [];
      NothingCounted(affectedEntity);
      for b := 0 to |eventArn|
        invariant Counts(affectedEntity, FlatMap(EntityLabel(events), FlatMap(service, eventArn[..b])))
      {
        entities := [];
        entities := entities + service(eventArn[b]);
        assert entities == service(eventArn[b]);
        FlatMapNext(service, eventArn, b);
        CountBatch(events, entities, regionMap, FlatMap(service, eventArn[..b]));
      }
      assert eventArn[..|eventArn|] == eventArn;
    }

    method CountBatch(events: seq<Event>, entities: seq<Entity>, regionMap: Regions, ghost before: seq<Entity>)
      requires IsRegionMap(regionMap, events) && Counts(affectedEntity, FlatMap(EntityLabel(events), before))
      modifies `affectedEntity
      ensures Counts(affectedEntity, FlatMap(EntityLabel(events), before + entities))
    {
      ghost var seen := before;
      for k := 0 to |entities|
        invariant seen == before + entities[..k]
        invariant Counts(affectedEntity, FlatMap(EntityLabel(events), seen))
      {
        var x := entities[k];
        TakeNext(entities, k);
        ghost var next := before + entities[..k + 1];
        assert next == seen + [x];
        EntityCounted(affectedEntity, events, regionMap, seen, x);
        var region := if x.eventArn in regionMap then regionMap[x.eventArn] else "";
        affectedEntity := Inc(affectedEntity,
          [x.eventArn, x.account, region, x.arn, x.status, x.value, x.url, x.updated]);
        seen := next;
      }
      assert before + entities[..|entities|] == before + entities;
    }
  }

  // ---- conservation ----

  /** How many events have a status. */
  function WithStatus(events: seq<Event>, status: string): nat {
    if events == [] then 0
    else
      var n := |events| - 1;
      WithStatus(events[..n], status) + if events[n].status == status then 1 else 0
  }

  /** A labelling that gives one tuple an element gives as many tuples as elements. */
  lemma {:induction false} LabelCount<T>(f: T -> seq<LabelValues>, xs: seq<T>)
    requires forall x :: |f(x)| == 1
    ensures |FlatMap(f, xs)| == |xs|
  {
    if xs != [] {
      LabelCount(f, xs[..|xs| - 1]);
    }
  }

  lemma {:induction false} StatusLabelCount(events: seq<Event>, status: string)
    ensures |FlatMap(StatusLabel(status), events)| == WithStatus(events, status)
  {
    if events != [] {
      StatusLabelCount(events[..|events| - 1], status);
    }
  }

  lemma EventTotal(vec: CounterVec, events: seq<Event>)
    requires Counts(vec, FlatMap(EventLabel(), events))
    ensures Total(vec) == |events|
  {
    LabelCount(EventLabel(), events);
    CountsTotal(vec, FlatMap(EventLabel(), events));
  }

  lemma StatusTotal(vec: CounterVec, status: string, events: seq<Event>)
    requires Counts(vec, FlatMap(StatusLabel(status), events))
    ensures Total(vec) == WithStatus(events, status)
  {
    StatusLabelCount(events, status);
    CountsTotal(vec, FlatMap(StatusLabel(status), events));
  }

  lemma EntityTotal(vec: CounterVec, events: seq<Event>, entities: seq<Entity>)
    requires Counts(vec, FlatMap(EntityLabel(events), entities))
    ensures Total(vec) == |entities|
  {
    LabelCount(EntityLabel(events), entities);
    CountsTotal(vec, FlatMap(EntityLabel(events), entities));
  }

  /** The four vectors sum to the events, the closed and the open events, and the entities returned. */
  lemma CountersConserve(
    events: seq<Event>, entities: seq<Entity>,
    ofAll: CounterVec, ofClosed: CounterVec, ofOpen: CounterVec, ofEntities: CounterVec)
    requires Counts(ofAll, FlatMap(EventLabel(), events))
    requires Counts(ofClosed, FlatMap(StatusLabel(CLOSED), events))
    requires Counts(ofOpen, FlatMap(StatusLabel(OPEN), events))
    requires Counts(ofEntities, FlatMap(EntityLabel(events), entities))
    ensures Total(ofAll) == |events|
    ensures Total(ofClosed) == WithStatus(events, CLOSED) && Total(ofOpen) == WithStatus(events, OPEN)
    ensures Total(ofEntities) == |entities|
  {
    EventTotal(ofAll, events);
    StatusTotal(ofClosed, CLOSED, events);
    StatusTotal(ofOpen, OPEN, events);
    EntityTotal(ofEntities, events, entities);
  }
}
