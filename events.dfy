/**
 * The developer event emitter: every emitted event is appended to an in-memory
 * buffer with an XP value taken from a fixed table, optionally forwarded to a
 * webhook, and the buffer can be aggregated per developer and per event type.
 *
 * The webhook delivery is an input (`delivered`), the clock is an input
 * (`timestamp`) and the environment variable is an input (`environmentUrl`).
 */
module Events {
  import opened Wrappers
  import opened Grouping

  datatype MetaValue = Text(text: string) | Number(number: int) | Flag(flag: bool)

  type Metadata = map<string, MetaValue>

  datatype DeveloperEvent = DeveloperEvent(
    eventType: string,
    developer: string,
    repository: string,
    timestamp: string,
    xpValue: nat,
    metadata: Metadata)

  /** XP awarded per event type. */
  const XpTable: map<string, nat> := map[
    "repo_created" := 50,
    "repo_initialized" := 30,
    "template_applied" := 20,
    "health_check_excellent" := 100,
    "health_check_good" := 50,
    "health_check_fair" := 25,
    "batch_operation_success" := 75,
    "security_policy_added" := 40,
    "ci_setup" := 60,
    "tests_added" := 50]

  /** XP of an event type not in the table. */
  const DefaultXp: nat := 10

  function XpValue(eventType: string): nat {
    if eventType in XpTable then XpTable[eventType] else DefaultXp
  }

  /** Every event type earns at least 10 XP; exactly the unlisted ones earn the default,
      since no listed value equals it. */
  lemma XpValueSpec(eventType: string)
    ensures XpValue(eventType) >= DefaultXp
    ensures XpValue(eventType) == DefaultXp <==> eventType !in XpTable
    ensures eventType in XpTable ==> XpValue(eventType) == XpTable[eventType]
  {
    assert forall t :: t in XpTable ==> XpTable[t] > DefaultXp;
  }

  // ---------------------------------------------------------------------------
  // Projections of the buffer

  function Developers(buf: seq<DeveloperEvent>): (r: seq<string>)
    ensures |r| == |buf| && forall i :: 0 <= i < |buf| ==> r[i] == buf[i].developer
  {
    seq(|buf|, i requires 0 <= i < |buf| => buf[i].developer)
  }

  function EventTypes(buf: seq<DeveloperEvent>): (r: seq<string>)
    ensures |r| == |buf| && forall i :: 0 <= i < |buf| ==> r[i] == buf[i].eventType
  {
    seq(|buf|, i requires 0 <= i < |buf| => buf[i].eventType)
  }

  function Xps(buf: seq<DeveloperEvent>): (r: seq<int>)
    ensures |r| == |buf| && forall i :: 0 <= i < |buf| ==> r[i] == buf[i].xpValue
  {
    seq(|buf|, i requires 0 <= i < |buf| => buf[i].xpValue)
  }

  lemma ProjectionsSnoc(buf: seq<DeveloperEvent>, e: DeveloperEvent)
    ensures Developers(buf + [e]) == Developers(buf) + [e.developer]
    ensures EventTypes(buf + [e]) == EventTypes(buf) + [e.eventType]
    ensures Xps(buf + [e]) == Xps(buf) + [e.xpValue]
  {
  }

  // ---------------------------------------------------------------------------
  // Per-developer XP

  /** The XP of the buffered events whose developer is d. */
  function TotalXp(buf: seq<DeveloperEvent>, d: string): int
    decreases |buf|
  {
    if |buf| == 0 then 0
    else TotalXp(buf[..|buf| - 1], d) + (if buf[|buf| - 1].developer == d then buf[|buf| - 1].xpValue else 0)
  }

  /** get_total_xp agrees with the XP the grouped summary attributes to d, and is 0 for a
      developer without events. */
  lemma TotalXpGrouped(buf: seq<DeveloperEvent>, d: string)
    ensures TotalXp(buf, d) == SumWhere(Developers(buf), Xps(buf), d)
    ensures d !in Developers(buf) ==> TotalXp(buf, d) == 0
    ensures TotalXp(buf, d) >= 0
  {
    TotalXpIsSumWhere(buf, d);
    TotalXpNonNegative(buf, d);
    if d !in Developers(buf) {
      AbsentKey(Developers(buf), Xps(buf), d);
    }
  }

  lemma {:induction false} TotalXpIsSumWhere(buf: seq<DeveloperEvent>, d: string)
    ensures TotalXp(buf, d) == SumWhere(Developers(buf), Xps(buf), d)
    decreases |buf|
  {
    if |buf| > 0 {
      var p := buf[..|buf| - 1];
      var e := buf[|buf| - 1];
      assert buf == p + [e];
      TotalXpIsSumWhere(p, d);
      ProjectionsSnoc(p, e);
      SumWhereSnoc(Developers(p), Xps(p), e.developer, e.xpValue, d);
    }
  }

  lemma {:induction false} TotalXpNonNegative(buf: seq<DeveloperEvent>, d: string)
    ensures TotalXp(buf, d) >= 0
    decreases |buf|
  {
    if |buf| > 0 {
      TotalXpNonNegative(buf[..|buf| - 1], d);
    }
  }

  // ---------------------------------------------------------------------------
  // The summary

  /** The repositories of d's events. */
  function RepoSet(buf: seq<DeveloperEvent>, d: string): set<string>
    decreases |buf|
  {
    if |buf| == 0 then {}
    else RepoSet(buf[..|buf| - 1], d) + (if buf[|buf| - 1].developer == d then {buf[|buf| - 1].repository} else {})
  }

  lemma {:induction false} RepoSetSpec(buf: seq<DeveloperEvent>, d: string, r: string)
    ensures r in RepoSet(buf, d) <==> exists i :: 0 <= i < |buf| && buf[i].developer == d && buf[i].repository == r
    decreases |buf|
  {
    if |buf| > 0 {
      var p := buf[..|buf| - 1];
      RepoSetSpec(p, d, r);
      if r in RepoSet(p, d) {
        var i :| 0 <= i < |p| && p[i].developer == d && p[i].repository == r;
        assert buf[i] == p[i];
      }
      if exists i :: 0 <= i < |buf| && buf[i].developer == d && buf[i].repository == r {
        var i :| 0 <= i < |buf| && buf[i].developer == d && buf[i].repository == r;
        if i < |p| { assert p[i] == buf[i]; }
      }
    }
  }

  datatype DeveloperRow = DeveloperRow(developer: string, events: nat, xp: int, repositories: nat)

  datatype TypeRow = TypeRow(eventType: string, count: nat, totalXp: int)

  /** get_event_summary's result; the two dicts are their items in insertion order. */
  datatype EventSummary = EventSummary(totalEvents: nat, totalXp: int, developers: seq<DeveloperRow>, eventTypes: seq<TypeRow>)

  function DeveloperRowOf(buf: seq<DeveloperEvent>, d: string): DeveloperRow {
    DeveloperRow(d, Count(Developers(buf), d), SumWhere(Developers(buf), Xps(buf), d), |RepoSet(buf, d)|)
  }

  function TypeRowOf(buf: seq<DeveloperEvent>, t: string): TypeRow {
    TypeRow(t, Count(EventTypes(buf), t), SumWhere(EventTypes(buf), Xps(buf), t))
  }

  function DeveloperRowsFor(buf: seq<DeveloperEvent>, keys: seq<string>): seq<DeveloperRow> {
    seq(|keys|, j requires 0 <= j < |keys| => DeveloperRowOf(buf, keys[j]))
  }

  function TypeRowsFor(buf: seq<DeveloperEvent>, keys: seq<string>): seq<TypeRow> {
    seq(|keys|, j requires 0 <= j < |keys| => TypeRowOf(buf, keys[j]))
  }

  /** The summary as it is meant: one row per developer and per event type, in first-seen order. */
  function SummaryOf(buf: seq<DeveloperEvent>): EventSummary {
    EventSummary(|buf|, Sum(Xps(buf)),
                 DeveloperRowsFor(buf, Distinct(Developers(buf))),
                 TypeRowsFor(buf, Distinct(EventTypes(buf))))
  }

  function SumEvents(rows: seq<DeveloperRow>): int
    decreases |rows|
  {
    if |rows| == 0 then 0 else SumEvents(rows[..|rows| - 1]) + rows[|rows| - 1].events
  }

  function SumDeveloperXp(rows: seq<DeveloperRow>): int
    decreases |rows|
  {
    if |rows| == 0 then 0 else SumDeveloperXp(rows[..|rows| - 1]) + rows[|rows| - 1].xp
  }

  function SumTypeCounts(rows: seq<TypeRow>): int
    decreases |rows|
  {
    if |rows| == 0 then 0 else SumTypeCounts(rows[..|rows| - 1]) + rows[|rows| - 1].count
  }

  function SumTypeXp(rows: seq<TypeRow>): int
    decreases |rows|
  {
    if |rows| == 0 then 0 else SumTypeXp(rows[..|rows| - 1]) + rows[|rows| - 1].totalXp
  }

  lemma {:induction false} DeveloperRowSums(buf: seq<DeveloperEvent>, keys: seq<string>)
    ensures SumEvents(DeveloperRowsFor(buf, keys)) == CountOver(Developers(buf), keys)
    ensures SumDeveloperXp(DeveloperRowsFor(buf, keys)) == SumOver(Developers(buf), Xps(buf), keys)
    decreases |keys|
  {
    if |keys| > 0 {
      var p := keys[..|keys| - 1];
      assert DeveloperRowsFor(buf, keys)[..|keys| - 1] == DeveloperRowsFor(buf, p);
      DeveloperRowSums(buf, p);
    }
  }

  lemma {:induction false} TypeRowSums(buf: seq<DeveloperEvent>, keys: seq<string>)
    ensures SumTypeCounts(TypeRowsFor(buf, keys)) == CountOver(EventTypes(buf), keys)
    ensures SumTypeXp(TypeRowsFor(buf, keys)) == SumOver(EventTypes(buf), Xps(buf), keys)
    decreases |keys|
  {
    if |keys| > 0 {
      var p := keys[..|keys| - 1];
      assert TypeRowsFor(buf, keys)[..|keys| - 1] == TypeRowsFor(buf, p);
      TypeRowSums(buf, p);
    }
  }

  /** Per-developer event counts and XP, and per-type counts and XP, each add up to the
      summary's totals. */
  lemma SummaryTotals(buf: seq<DeveloperEvent>)
    ensures var s := SummaryOf(buf);
      && s.totalEvents == |buf|
      && SumEvents(s.developers) == s.totalEvents
      && SumDeveloperXp(s.developers) == s.totalXp
      && SumTypeCounts(s.eventTypes) == s.totalEvents
      && SumTypeXp(s.eventTypes) == s.totalXp
  {
    var devs, types := Developers(buf), EventTypes(buf);
    DeveloperRowSums(buf, Distinct(devs));
    TypeRowSums(buf, Distinct(types));
    CountsTotal(devs);
    SumsTotal(devs, Xps(buf));
    CountsTotal(types);
    SumsTotal(types, Xps(buf));
  }

  /** The summary has one row per developer and one per event type that occur in the buffer,
      each exactly once. */
  lemma SummaryKeys(buf: seq<DeveloperEvent>)
    ensures var s := SummaryOf(buf);
      && (forall j, k :: 0 <= j < k < |s.developers| ==> s.developers[j].developer != s.developers[k].developer)
      && (forall j, k :: 0 <= j < k < |s.eventTypes| ==> s.eventTypes[j].eventType != s.eventTypes[k].eventType)
      && (forall d :: d in Developers(buf) <==> exists j :: 0 <= j < |s.developers| && s.developers[j].developer == d)
      && (forall t :: t in EventTypes(buf) <==> exists j :: 0 <= j < |s.eventTypes| && s.eventTypes[j].eventType == t)
  {
    var devs, types := Developers(buf), EventTypes(buf);
    DistinctSpec(devs);
    DistinctSpec(types);
    var s := SummaryOf(buf);
    forall d | d in devs ensures exists j :: 0 <= j < |s.developers| && s.developers[j].developer == d {
      var j := FirstIndex(Distinct(devs), d);
      assert s.developers[j].developer == d;
    }
    forall t | t in types ensures exists j :: 0 <= j < |s.eventTypes| && s.eventTypes[j].eventType == t {
      var j := FirstIndex(Distinct(types), t);
      assert s.eventTypes[j].eventType == t;
    }
  }

  /** Every developer row has at least one event, its XP is get_total_xp of that developer,
      and its repositories are the number of distinct repositories among their events. */
  lemma SummaryDeveloperRows(buf: seq<DeveloperEvent>, j: nat)
    requires j < |SummaryOf(buf).developers|
    ensures var row := SummaryOf(buf).developers[j];
      && row.events > 0
      && row.xp == TotalXp(buf, row.developer)
      && row.repositories == |RepoSet(buf, row.developer)|
  {
    var devs := Developers(buf);
    DistinctMember(devs, j);
    CountPositive(devs, Distinct(devs)[j]);
    TotalXpGrouped(buf, Distinct(devs)[j]);
  }

  // ---------------------------------------------------------------------------
  // Loop state of get_event_summary

  /** repos maps exactly the developers of p, each to the set of their repositories. */
  ghost predicate RepoTable(p: seq<DeveloperEvent>, repos: map<string, set<string>>) {
    (forall d :: d in repos <==> d in Developers(p)) && forall d :: d in repos ==> repos[d] == RepoSet(p, d)
  }

  lemma RepoTableStep(p: seq<DeveloperEvent>, repos: map<string, set<string>>, e: DeveloperEvent)
    requires RepoTable(p, repos)
    ensures RepoTable(p + [e], repos[e.developer := (if e.developer in repos then repos[e.developer] else {}) + {e.repository}])
  {
    ProjectionsSnoc(p, e);
    assert (p + [e])[..|p|] == p;
    if e.developer !in repos {
      RepoSetAbsent(p, e.developer);
    }
  }

  lemma {:induction false} RepoSetAbsent(p: seq<DeveloperEvent>, d: string)
    requires d !in Developers(p)
    ensures RepoSet(p, d) == {}
    decreases |p|
  {
    if |p| > 0 {
      var q := p[..|p| - 1];
      assert Developers(q) == Developers(p)[..|p| - 1];
      RepoSetAbsent(q, d);
    }
  }

  /** The per-developer tables of get_event_summary after the events of p. */
  ghost predicate DeveloperTables(p: seq<DeveloperEvent>, order: seq<string>, events: map<string, nat>,
                                  xp: map<string, int>, repos: map<string, set<string>>)
  {
    && GroupTables(Developers(p), Xps(p), order, events, xp)
    && RepoTable(p, repos)
  }

  /** The per-type tables of get_event_summary after the events of p. */
  ghost predicate TypeTables(p: seq<DeveloperEvent>, order: seq<string>, counts: map<string, nat>, xp: map<string, int>) {
    GroupTables(EventTypes(p), Xps(p), order, counts, xp)
  }

  lemma DeveloperTablesStep(p: seq<DeveloperEvent>, e: DeveloperEvent, order: seq<string>, events: map<string, nat>,
                            xp: map<string, int>, repos: map<string, set<string>>,
                            order': seq<string>, events': map<string, nat>, xp': map<string, int>,
                            repos': map<string, set<string>>)
    requires DeveloperTables(p, order, events, xp, repos)
    requires order' == if e.developer in events then order else order + [e.developer]
    requires events' == events[e.developer := (if e.developer in events then events[e.developer] else 0) + 1]
    requires xp' == xp[e.developer := (if e.developer in xp then xp[e.developer] else 0) + e.xpValue]
    requires repos' == repos[e.developer := (if e.developer in repos then repos[e.developer] else {}) + {e.repository}]
    ensures DeveloperTables(p + [e], order', events', xp', repos')
  {
    ProjectionsSnoc(p, e);
    GroupTablesStep(Developers(p), Xps(p), order, events, xp, e.developer, e.xpValue, order', events', xp');
    RepoTableStep(p, repos, e);
  }

  lemma TypeTablesStep(p: seq<DeveloperEvent>, e: DeveloperEvent, order: seq<string>, counts: map<string, nat>,
                       xp: map<string, int>, order': seq<string>, counts': map<string, nat>, xp': map<string, int>)
    requires TypeTables(p, order, counts, xp)
    requires order' == if e.eventType in counts then order else order + [e.eventType]
    requires counts' == counts[e.eventType := (if e.eventType in counts then counts[e.eventType] else 0) + 1]
    requires xp' == xp[e.eventType := (if e.eventType in xp then xp[e.eventType] else 0) + e.xpValue]
    ensures TypeTables(p + [e], order', counts', xp')
  {
    ProjectionsSnoc(p, e);
    GroupTablesStep(EventTypes(p), Xps(p), order, counts, xp, e.eventType, e.xpValue, order', counts', xp');
  }

  /** One event's update of the per-developer tables: a new developer is added in order,
      then the counts, XP and repository set of the event's developer grow. */
  method TrackDeveloper(ghost p: seq<DeveloperEvent>, e: DeveloperEvent, order: seq<string>, events: map<string, nat>,
                        xp: map<string, int>, repos: map<string, set<string>>)
    returns (order': seq<string>, events': map<string, nat>, xp': map<string, int>, repos': map<string, set<string>>)
    requires DeveloperTables(p, order, events, xp, repos)
    ensures DeveloperTables(p + [e], order', events', xp', repos')
  {
    var d := e.developer;
    order' := if d in events then order else order + [d];
    events' := events[d := (if d in events then events[d] else 0) + 1];
    xp' := xp[d := (if d in xp then xp[d] else 0) + e.xpValue];
    repos' := repos[d := (if d in repos then repos[d] else {}) + {e.repository}];
    DeveloperTablesStep(p, e, order, events, xp, repos, order', events', xp', repos');
  }

  /** One event's update of the per-type tables. */
  method TrackEventType(ghost p: seq<DeveloperEvent>, e: DeveloperEvent, order: seq<string>, counts: map<string, nat>,
                        xp: map<string, int>)
    returns (order': seq<string>, counts': map<string, nat>, xp': map<string, int>)
    requires TypeTables(p, order, counts, xp)
    ensures TypeTables(p + [e], order', counts', xp')
  {
    var t := e.eventType;
    order' := if t in counts then order else order + [t];
    counts' := counts[t := (if t in counts then counts[t] else 0) + 1];
    xp' := xp[t := (if t in xp then xp[t] else 0) + e.xpValue];
    TypeTablesStep(p, e, order, counts, xp, order', counts', xp');
  }

  /** The developer rows get_event_summary builds from its tables. */
  function DeveloperRowsFromTables(order: seq<string>, events: map<string, nat>, xp: map<string, int>,
                                   repos: map<string, set<string>>): seq<DeveloperRow>
    requires forall j :: 0 <= j < |order| ==> order[j] in events && order[j] in xp && order[j] in repos
  {
    seq(|order|, j requires 0 <= j < |order| =>
      DeveloperRow(order[j], events[order[j]], xp[order[j]], |repos[order[j]]|))
  }

  function TypeRowsFromTables(order: seq<string>, counts: map<string, nat>, xp: map<string, int>): seq<TypeRow>
    requires forall j :: 0 <= j < |order| ==> order[j] in counts && order[j] in xp
  {
    seq(|order|, j requires 0 <= j < |order| => TypeRow(order[j], counts[order[j]], xp[order[j]]))
  }

  lemma RowsFromTables(buf: seq<DeveloperEvent>, devOrder: seq<string>, devEvents: map<string, nat>,
                       devXp: map<string, int>, devRepos: map<string, set<string>>,
                       typeOrder: seq<string>, typeCounts: map<string, nat>, typeXp: map<string, int>)
    requires DeveloperTables(buf, devOrder, devEvents, devXp, devRepos)
    requires TypeTables(buf, typeOrder, typeCounts, typeXp)
    ensures forall j :: 0 <= j < |devOrder| ==> devOrder[j] in devEvents && devOrder[j] in devXp && devOrder[j] in devRepos
    ensures forall j :: 0 <= j < |typeOrder| ==> typeOrder[j] in typeCounts && typeOrder[j] in typeXp
    ensures DeveloperRowsFromTables(devOrder, devEvents, devXp, devRepos) == SummaryOf(buf).developers
    ensures TypeRowsFromTables(typeOrder, typeCounts, typeXp) == SummaryOf(buf).eventTypes
  {
    DistinctSpec(Developers(buf));
    DistinctSpec(EventTypes(buf));
  }

  // ---------------------------------------------------------------------------
  // The emitter

  /** Python truthiness of an optional string. */
  predicate Truthy(s: Option<string>) {
    s.Some? && s.value != ""
  }

  class EventEmitter {
    const webhookUrl: Option<string>
    const enabled: bool
    var eventsBuffer: seq<DeveloperEvent>

    ghost predicate Valid()
      reads this
    {
      enabled == Truthy(webhookUrl)
    }

    /** The explicit URL wins when it is non-empty, otherwise the environment's value is used;
        the emitter is enabled exactly when the chosen URL is non-empty. */
    constructor (webhookUrl: Option<string>, environmentUrl: Option<string>)
      ensures this.webhookUrl == (if Truthy(webhookUrl) then webhookUrl else environmentUrl)
      ensures Valid() && (enabled <==> Truthy(this.webhookUrl))
      ensures eventsBuffer == []
    {
      var url := if Truthy(webhookUrl) then webhookUrl else environmentUrl;
      this.webhookUrl := url;
      this.enabled := Truthy(url);
      this.eventsBuffer := [];
    }

    /** Appends exactly one event, whatever is returned; returns true when the webhook is
        disabled and the delivery outcome otherwise. */
    method Emit(eventType: string, developer: string, repository: string, metadata: Option<Metadata>,
                timestamp: string, delivered: bool) returns (ok: bool)
      requires Valid()
      modifies this
      ensures Valid()
      ensures eventsBuffer == old(eventsBuffer)
        + [DeveloperEvent(eventType, developer, repository, timestamp, XpValue(eventType), metadata.GetOr(map[]))]
      ensures ok <==> !enabled || delivered
      ensures forall d :: TotalXp(eventsBuffer, d) == TotalXp(old(eventsBuffer), d) + (if d == developer then XpValue(eventType) else 0)
    {
      var xp := XpValue(eventType);
      var event := DeveloperEvent(eventType, developer, repository, timestamp, xp, metadata.GetOr(map[]));
      eventsBuffer := eventsBuffer + [event];
      assert eventsBuffer[..|eventsBuffer| - 1] == old(eventsBuffer);
      forall d ensures TotalXp(eventsBuffer, d) == TotalXp(old(eventsBuffer), d) + (if d == developer then xp else 0) {
        assert TotalXp(eventsBuffer, d) == TotalXp(eventsBuffer[..|eventsBuffer| - 1], d) + (if d == developer then xp else 0);
      }
      if enabled {
        ok := SendWebhook(delivered);
      } else {
        ok := true;
      }
    }

    /** The send fails without a URL; otherwise its outcome is the delivery outcome. */
    function SendWebhook(delivered: bool): (ok: bool)
      reads this
      ensures ok <==> Truthy(webhookUrl) && delivered
    {
      if !Truthy(webhookUrl) then false else delivered
    }

    /** The buffer itself, in emission order. */
    function GetEvents(): (r: seq<DeveloperEvent>)
      reads this
      ensures |r| == |eventsBuffer| && forall i :: 0 <= i < |r| ==> r[i] == eventsBuffer[i]
    {
      eventsBuffer
    }

    function GetTotalXp(developer: string): (xp: int)
      reads this
      ensures xp == SumWhere(Developers(eventsBuffer), Xps(eventsBuffer), developer)
      ensures developer !in Developers(eventsBuffer) ==> xp == 0
    {
      TotalXpGrouped(eventsBuffer, developer);
      TotalXp(eventsBuffer, developer)
    }

    method GetEventSummary() returns (s: EventSummary)
      ensures s == SummaryOf(eventsBuffer)
      ensures |eventsBuffer| == 0 ==> s == EventSummary(0, 0, [], [])
    {
      var buf := eventsBuffer;
      if |buf| == 0 {
        return EventSummary(0, 0, [], []);
      }
      var devOrder: seq<string> := [];
      var devEvents: map<string, nat> := map[];
      var devXp: map<string, int> := map[];
      var devRepos: map<string, set<string>> := map[];
      var typeOrder: seq<string> := [];
      var typeCounts: map<string, nat> := map[];
      var typeXp: map<string, int> := map[];
      for i := 0 to |buf|
        invariant DeveloperTables(buf[..i], devOrder, devEvents, devXp, devRepos)
        invariant TypeTables(buf[..i], typeOrder, typeCounts, typeXp)
      {
        assert buf[..i + 1] == buf[..i] + [buf[i]];
        devOrder, devEvents, devXp, devRepos := TrackDeveloper(buf[..i], buf[i], devOrder, devEvents, devXp, devRepos);
        typeOrder, typeCounts, typeXp := TrackEventType(buf[..i], buf[i], typeOrder, typeCounts, typeXp);
      }
      assert buf[..|buf|] == buf;
      RowsFromTables(buf, devOrder, devEvents, devXp, devRepos, typeOrder, typeCounts, typeXp);
      var developers := DeveloperRowsFromTables(devOrder, devEvents, devXp, devRepos);
      var eventTypes := TypeRowsFromTables(typeOrder, typeCounts, typeXp);
      s := EventSummary(|buf|, Sum(Xps(buf)), developers, eventTypes);
    }
  }
}
