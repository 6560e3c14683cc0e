/** The bounded GitHub reader (dashboard/gh_api.py): a hard budget per refresh, and answers kept by ETag
    that GitHub confirms with 304 Not Modified (sections 13.1.2 and 15.4.5 of RFC 9110). Requests of
    several threads interleave; each event below is one section under the lock, or GitHub's answer. */
module GhApi {
  import opened Common

  type Endpoint = string
  type Etag = string
  type Body = string

  /** The content an ETag stands for. */
  type Meaning = (Endpoint, Etag) -> Body

  datatype Entry = Entry(etag: Etag, body: Body, generation: nat)

  datatype Error = RateLimited | BudgetExhausted | OtherFailure

  /** What the lock guards. */
  datatype Api = Api(calls: int, maxCalls: nat, generation: nat, cache: map<Endpoint, Entry>,
                     backoffUntil: int, familyBackoff: map<string, int>)

  // The sections under the lock

  function BeginSection(api: Api, now: int): Api
  {
    api.(calls := 0, generation := api.generation + 1,
         cache := map e | e in api.cache && api.cache[e].generation >= api.generation :: api.cache[e],
         familyBackoff := map f | f in api.familyBackoff && api.familyBackoff[f] > now :: api.familyBackoff[f])
  }

  function Refusal(api: Api, family: string, now: int): Option<Error>
  {
    var until := if family in api.familyBackoff then Max(api.backoffUntil, api.familyBackoff[family]) else Max(api.backoffUntil, 0);
    if now < until then Some(RateLimited)
    else if api.calls >= api.maxCalls then Some(BudgetExhausted)
    else None
  }

  function ConfirmSection(api: Api, endpoint: Endpoint, cached: Entry): Api
  {
    api.(calls := api.calls - 1, cache := api.cache[endpoint := cached.(generation := api.generation)])
  }

  function StoreSection(api: Api, endpoint: Endpoint, etag: Option<Etag>, body: Body): Api
  {
    if etag.Some? then api.(cache := api.cache[endpoint := Entry(etag.value, body, api.generation)]) else api
  }

  /** With a reset time known, requests of the one family wait for it. Otherwise all requests wait sixty seconds. */
  function PauseSection(api: Api, family: string, reset: Option<int>, now: int): Api
  {
    if reset.None? then api.(backoffUntil := Max(api.backoffUntil, now + 60))
    else
      var last := if family in api.familyBackoff then api.familyBackoff[family] else 0;
      api.(familyBackoff := api.familyBackoff[family := Max(last, reset.value)])
  }

  function Exported(api: Api): map<Endpoint, Entry> { api.cache }

  /** Rows whose endpoint or ETag is not printable text are dropped. */
  function ImportSection(api: Api, rows: map<Endpoint, Entry>, printable: string -> bool): Api
  {
    api.(cache := api.cache + map e | e in rows && printable(e) && printable(rows[e].etag) :: rows[e].(generation := api.generation))
  }

  class GitHubAPI {
    var calls: int
    const maxCalls: nat
    var generation: nat
    var cache: map<Endpoint, Entry>
    var backoffUntil: int
    var familyBackoff: map<string, int>

    function Fields(): Api
      reads this
    {
      Api(calls, maxCalls, generation, cache, backoffUntil, familyBackoff)
    }

    constructor (maxCalls: nat)
      ensures Fields() == New(maxCalls)
    {
      this.maxCalls := maxCalls;
      calls, generation, cache, backoffUntil, familyBackoff := 0, 0, map[], 0, map[];
    }

    method Begin(now: int) returns (paused: bool)
      modifies this
      ensures Fields() == BeginSection(old(Fields()), now) && paused == (now < backoffUntil)
    {
      calls := 0;
      familyBackoff := map f | f in familyBackoff && familyBackoff[f] > now :: familyBackoff[f];
      generation := generation + 1;
      cache := map e | e in cache && cache[e].generation >= generation - 1 :: cache[e];
      paused := now < backoffUntil;
    }

    method Reserve(family: string, now: int) returns (refused: Option<Error>)
      modifies this
      ensures refused == Refusal(old(Fields()), family, now)
      ensures Fields() == if refused.None? then old(Fields()).(calls := old(calls) + 1) else old(Fields())
    {
      var until := Max(backoffUntil, if family in familyBackoff then familyBackoff[family] else 0);
      if now < until { return Some(RateLimited); }
      if calls >= maxCalls { return Some(BudgetExhausted); }
      calls := calls + 1;
      refused := None;
    }

    /** After a 304: the unit comes back, and the kept answer is the answer. */
    method Confirm(endpoint: Endpoint, cached: Entry) returns (body: Body)
      modifies this
      ensures Fields() == ConfirmSection(old(Fields()), endpoint, cached) && body == cached.body
    {
      calls := calls - 1;
      cache := cache[endpoint := Entry(cached.etag, cached.body, generation)];
      body := cached.body;
    }

    method Store(endpoint: Endpoint, etag: Option<Etag>, body: Body)
      modifies this
      ensures Fields() == StoreSection(old(Fields()), endpoint, etag, body)
    {
      if etag.Some? { cache := cache[endpoint := Entry(etag.value, body, generation)]; }
    }

    method Pause(family: string, reset: Option<int>, now: int)
      modifies this
      ensures Fields() == PauseSection(old(Fields()), family, reset, now)
    {
      if reset.None? {
        backoffUntil := Max(backoffUntil, now + 60);
      } else {
        var last := if family in familyBackoff then familyBackoff[family] else 0;
        familyBackoff := familyBackoff[family := Max(last, reset.value)];
      }
    }

    method ImportCache(rows: map<Endpoint, Entry>, printable: string -> bool)
      modifies this`cache
      ensures Fields() == ImportSection(old(Fields()), rows, printable)
    {
      var kept := map e | e in rows && printable(e) && printable(rows[e].etag) :: rows[e].(generation := generation);
      cache := AddAll(cache, kept);
    }
  }

  /** The rows taken in one by one, each over what was there. */
  method AddAll<K(==), V>(into: map<K, V>, rows: map<K, V>) returns (m: map<K, V>)
    ensures m == into + rows
  {
    m := into;
    var left := rows.Keys;
    while left != {}
      invariant left <= rows.Keys && m.Keys == into.Keys + (rows.Keys - left)
      invariant forall k :: k in rows && k !in left ==> m[k] == rows[k]
      invariant forall k :: k in into && (k !in rows || k in left) ==> m[k] == into[k]
      decreases left
    {
      var k :| k in left;
      left := left - {k};
      m := m[k := rows[k]];
    }
  }

  function New(maxCalls: nat): Api { Api(0, maxCalls, 0, map[], 0, map[]) }

  // Requests of several threads, against a server whose content changes

  /** What GitHub holds at an endpoint at one moment. */
  datatype Content = Content(etag: Option<Etag>, body: Body)

  datatype Reply = NotModified | Ok | Refused(error: Error)

  datatype Request =
    | Reserved(endpoint: Endpoint)
    | Asked(endpoint: Endpoint, cached: Option<Entry>)
    | Answered(endpoint: Endpoint, cached: Option<Entry>, reply: Reply, content: Content)

  /** One value a caller got, and what an unconditional read would have returned when GitHub answered. */
  datatype Read = Read(got: Body, unconditional: Body)

  /** `own` are the requests in flight that took their unit since begin, `budgeted` and `confirmed` count such
      requests, and `saved` is what the state store keeps. */
  datatype State = State(api: Api, inFlight: map<nat, Request>, own: set<nat>, saved: map<Endpoint, Entry>,
                         budgeted: nat, confirmed: nat, values: seq<Read>)

  datatype Event =
    | Begin(now: int)
    | Reserve(id: nat, family: string, endpoint: Endpoint, now: int)
    | Lookup(id: nat)
    | Answer(id: nat, reply: Reply, content: Content)
    | Settle(id: nat, family: string, reset: Option<int>, now: int)
    | ClearCache
    | Export
    | Restart(maxCalls: nat, printable: string -> bool)

  /** GitHub answers 304 only to the ETag of the content it holds, and an ETag stands for one content. */
  predicate Honest(meaning: Meaning, request: Request, reply: Reply, content: Content)
    requires request.Asked?
  {
    && (content.etag.Some? ==> meaning(request.endpoint, content.etag.value) == content.body)
    && (reply.NotModified? ==> request.cached.Some? && meaning(request.endpoint, request.cached.value.etag) == content.body)
  }

  predicate Enabled(meaning: Meaning, s: State, e: Event)
  {
    match e
    case Begin(_) => true
    case Reserve(id, _, _, _) => id !in s.inFlight
    case Lookup(id) => id in s.inFlight && s.inFlight[id].Reserved?
    case Answer(id, reply, content) =>
      id in s.inFlight && s.inFlight[id].Asked? && Honest(meaning, s.inFlight[id], reply, content)
    case Settle(id, _, _, _) => id in s.inFlight && s.inFlight[id].Answered?
    case ClearCache => true
    case Export => true
    case Restart(_, _) => true
  }

  function SettleStep(s: State, id: nat, family: string, reset: Option<int>, now: int): State
    requires id in s.inFlight && s.inFlight[id].Answered?
  {
    var r, done := s.inFlight[id], s.(inFlight := s.inFlight - {id}, own := s.own - {id});
    match r.reply
    case NotModified =>
      if r.cached.Some? then
        done.(api := ConfirmSection(s.api, r.endpoint, r.cached.value),
              confirmed := if id in s.own then s.confirmed + 1 else s.confirmed,
              values := s.values + [Read(r.cached.value.body, r.content.body)])
      else done
    case Ok =>
      done.(api := StoreSection(s.api, r.endpoint, r.content.etag, r.content.body),
            values := s.values + [Read(r.content.body, r.content.body)])
    case Refused(error) =>
      done.(api := if error.RateLimited? then PauseSection(s.api, family, reset, now) else s.api)
  }

  function Step(meaning: Meaning, s: State, e: Event): State
    requires Enabled(meaning, s, e)
  {
    match e
    case Begin(now) => s.(api := BeginSection(s.api, now), own := {}, budgeted := 0, confirmed := 0)
    case Reserve(id, family, endpoint, now) =>
      if Refusal(s.api, family, now).Some? then s
      else s.(api := s.api.(calls := s.api.calls + 1), inFlight := s.inFlight[id := Reserved(endpoint)], own := s.own + {id},
              budgeted := s.budgeted + 1)
    case Lookup(id) =>
      var endpoint := s.inFlight[id].endpoint;
      var cached := if endpoint in s.api.cache then Some(s.api.cache[endpoint]) else None;
      s.(inFlight := s.inFlight[id := Asked(endpoint, cached)])
    case Answer(id, reply, content) =>
      s.(inFlight := s.inFlight[id := Answered(s.inFlight[id].endpoint, s.inFlight[id].cached, reply, content)])
    case Settle(id, family, reset, now) => SettleStep(s, id, family, reset, now)
    case ClearCache => s.(api := s.api.(cache := map[]))
    case Export => s.(saved := Exported(s.api))
    case Restart(maxCalls, printable) =>
      State(ImportSection(New(maxCalls), s.saved, printable), map[], {}, s.saved, 0, 0, s.values)
  }

  function First(maxCalls: nat): State { State(New(maxCalls), map[], {}, map[], 0, 0, []) }

  // When a request is let through

  /** A request of this family waits at time t. */
  predicate Waits(api: Api, family: string, t: int) { Refusal(api, family, t) == Some(RateLimited) }

  /** A request is let through exactly when its family does not wait and the budget has a unit. */
  lemma RefusalMeans(api: Api, family: string, now: int)
    requires now >= 0
    ensures Refusal(api, family, now).None? <==> !Waits(api, family, now) && api.calls < api.maxCalls
    ensures Waits(api, family, now) <==>
      now < api.backoffUntil || (family in api.familyBackoff && now < api.familyBackoff[family])
  {
  }

  /** A pause makes requests wait and shortens no wait: those of its family until the reset GitHub named, or else all of them
      for a minute. */
  lemma PauseDelays(api: Api, family: string, reset: Option<int>, now: int, other: string, t: int)
    ensures Waits(PauseSection(api, family, reset, now), other, t) <==>
      Waits(api, other, t) || (if reset.Some? then other == family && t < reset.value else t < now + 60)
  {
  }

  /** A new refresh has its whole budget and ends no wait. */
  lemma BeginKeepsWaits(api: Api, now: int, family: string, t: int)
    requires 0 <= now <= t
    ensures BeginSection(api, now).calls == 0 && (Waits(BeginSection(api, now), family, t) <==> Waits(api, family, t))
  {
  }

  /** A refresh, an export, a clear or a restart may come at any time, and a request when its number is free. */
  lemma AnyTime(meaning: Meaning, s: State, now: int, maxCalls: nat, printable: string -> bool, id: nat, family: string,
                endpoint: Endpoint)
    ensures Enabled(meaning, s, Begin(now)) && Enabled(meaning, s, Export) && Enabled(meaning, s, ClearCache)
    ensures Enabled(meaning, s, Restart(maxCalls, printable))
    ensures id !in s.inFlight ==> Enabled(meaning, s, Reserve(id, family, endpoint, now))
  {
  }

  predicate Leads(meaning: Meaning, s: State, e: Event, t: State) { Enabled(meaning, s, e) && Step(meaning, s, e) == t }

  /** A request that is let through takes a unit, and is asked with what is kept of its endpoint. */
  lemma RequestIsAsked(meaning: Meaning, s: State, id: nat, family: string, endpoint: Endpoint, now: int)
    requires id !in s.inFlight && !Waits(s.api, family, now) && s.api.calls < s.api.maxCalls && now >= 0
    ensures var cached := if endpoint in s.api.cache then Some(s.api.cache[endpoint]) else None;
      var s1 := s.(api := s.api.(calls := s.api.calls + 1), inFlight := s.inFlight[id := Reserved(endpoint)], own := s.own + {id},
                   budgeted := s.budgeted + 1);
      && Leads(meaning, s, Reserve(id, family, endpoint, now), s1)
      && Leads(meaning, s1, Lookup(id), s1.(inFlight := s.inFlight[id := Asked(endpoint, cached)]))
  {
    RefusalMeans(s.api, family, now);
    var cached := if endpoint in s.api.cache then Some(s.api.cache[endpoint]) else None;
    assert s.inFlight[id := Reserved(endpoint)][id := Asked(endpoint, cached)] == s.inFlight[id := Asked(endpoint, cached)];
  }

  /** A full answer is given as it came, and kept when it has an ETag. */
  lemma AnswerIsGiven(meaning: Meaning, s: State, id: nat, family: string, now: int, content: Content)
    requires id in s.inFlight && s.inFlight[id].Answered? && s.inFlight[id].reply.Ok? && s.inFlight[id].content == content
    ensures var t := Step(meaning, s, Settle(id, family, None, now));
      && t.values == s.values + [Read(content.body, content.body)] && t.api.calls == s.api.calls && id !in t.inFlight
      && match content.etag
         case Some(etag) => t.api.cache == s.api.cache[s.inFlight[id].endpoint := Entry(etag, content.body, s.api.generation)]
         case None => t.api.cache == s.api.cache
  {
  }

  /** A confirmation gives what was kept, keeps it as just read, and gives the unit back. */
  lemma ConfirmationIsGiven(meaning: Meaning, s: State, id: nat, family: string, now: int, kept: Entry)
    requires id in s.inFlight && s.inFlight[id].Answered? && s.inFlight[id].reply.NotModified? && s.inFlight[id].cached == Some(kept)
    ensures var t := Step(meaning, s, Settle(id, family, None, now));
      && t.values == s.values + [Read(kept.body, s.inFlight[id].content.body)] && t.api.calls == s.api.calls - 1 && id !in t.inFlight
      && t.api.cache == s.api.cache[s.inFlight[id].endpoint := Entry(kept.etag, kept.body, s.api.generation)]
  {
  }

  /** An answer that refuses leaves the cache and the count. One for the rate makes requests wait, any other lets them on. */
  lemma RefusedAnswer(meaning: Meaning, s: State, id: nat, family: string, reset: Option<int>, now: int, other: string, t: int)
    requires id in s.inFlight && s.inFlight[id].Answered? && s.inFlight[id].reply.Refused?
    ensures var after := Step(meaning, s, Settle(id, family, reset, now)).api;
      && after.cache == s.api.cache && after.calls == s.api.calls
      && (Waits(after, other, t) <==>
            Waits(s.api, other, t)
            || (s.inFlight[id].reply.error == RateLimited && if reset.Some? then other == family && t < reset.value else t < now + 60))
  {
    PauseDelays(s.api, family, reset, now, other, t);
  }

  ghost predicate ValidRun(meaning: Meaning, s: State, events: seq<Event>)
    decreases |events|
  {
    events == [] || (Enabled(meaning, s, events[0]) && ValidRun(meaning, Step(meaning, s, events[0]), events[1..]))
  }

  ghost function Run(meaning: Meaning, s: State, events: seq<Event>): State
    requires ValidRun(meaning, s, events)
    decreases |events|
  {
    if events == [] then s else Run(meaning, Step(meaning, s, events[0]), events[1..])
  }

  /** GitHub may still confirm this request: it has a kept answer, or may yet find one when it looks. */
  predicate Confirmable(r: Request)
  {
    match r
    case Reserved(_) => true
    case Asked(_, cached) => cached.Some?
    case Answered(_, _, reply, _) => reply.NotModified?
  }

  /** No request in flight can still be answered, or be about to be counted as answered, 304. */
  predicate Settled(s: State)
  {
    forall id :: id in s.inFlight ==> !Confirmable(s.inFlight[id])
  }

  /** Each refresh of a run begins settled. */
  ghost predicate BeginsSettled(meaning: Meaning, s: State, events: seq<Event>)
    requires ValidRun(meaning, s, events)
    decreases |events|
  {
    events != [] ==> (events[0].Begin? ==> Settled(s)) && BeginsSettled(meaning, Step(meaning, s, events[0]), events[1..])
  }

  // What every event keeps

  predicate EntriesMean(meaning: Meaning, entries: map<Endpoint, Entry>)
  {
    forall e :: e in entries ==> meaning(e, entries[e].etag) == entries[e].body
  }

  predicate RequestMeans(meaning: Meaning, r: Request)
  {
    && (!r.Reserved? && r.cached.Some? ==> meaning(r.endpoint, r.cached.value.etag) == r.cached.value.body)
    && (r.Answered? ==> r.content.etag.Some? ==> meaning(r.endpoint, r.content.etag.value) == r.content.body)
    && (r.Answered? && r.reply.NotModified? ==> r.cached.Some? && r.cached.value.body == r.content.body)
  }

  /** Every kept answer is its ETag's content, and every value read was the one GitHub held. */
  predicate Faithful(meaning: Meaning, s: State)
  {
    && EntriesMean(meaning, s.api.cache) && EntriesMean(meaning, s.saved)
    && (forall id :: id in s.inFlight ==> RequestMeans(meaning, s.inFlight[id]))
    && (forall k :: 0 <= k < |s.values| ==> s.values[k].got == s.values[k].unconditional)
  }

  /** The count is the requests that took a unit since begin less those of them answered 304, and in its bounds. */
  predicate Exact(s: State)
  {
    s.api.calls == s.budgeted - s.confirmed && 0 <= s.api.calls <= s.api.maxCalls
  }

  /** The count is exact, it covers every unit in flight, and no older request can still be confirmed. */
  predicate Counted(s: State)
  {
    && Exact(s) && s.own <= s.inFlight.Keys && |s.own| <= s.api.calls
    && forall id :: id in s.inFlight && id !in s.own ==> !Confirmable(s.inFlight[id])
  }

  lemma FaithfulKept(meaning: Meaning, s: State, e: Event)
    requires Enabled(meaning, s, e) && Faithful(meaning, s)
    ensures Faithful(meaning, Step(meaning, s, e))
  {
  }

  lemma CountedKept(meaning: Meaning, s: State, e: Event)
    requires Enabled(meaning, s, e) && Counted(s) && Faithful(meaning, s)
    requires e.Begin? ==> Settled(s)
    ensures Counted(Step(meaning, s, e))
  {
    match e {
      case Reserve(id, _, _, _) => ReserveKeepsCount(meaning, s, e);
      case Settle(id, _, _, _) => SettleKeepsCount(meaning, s, e);
      case _ =>
    }
  }

  lemma ReserveKeepsCount(meaning: Meaning, s: State, e: Event)
    requires Enabled(meaning, s, e) && Counted(s) && e.Reserve?
    ensures Counted(Step(meaning, s, e))
  {
    Joins(s.own, e.id);
  }

  lemma SettleKeepsCount(meaning: Meaning, s: State, e: Event)
    requires Enabled(meaning, s, e) && Counted(s) && Faithful(meaning, s) && e.Settle?
    ensures Counted(Step(meaning, s, e))
  {
    Joins(s.own, e.id);
    assert RequestMeans(meaning, s.inFlight[e.id]);
    assert e.id in s.own ==> |s.own| > 0;
    assert e.id !in s.own ==> !Confirmable(s.inFlight[e.id]);
  }

  lemma {:induction false} RunKeeps(meaning: Meaning, s: State, events: seq<Event>)
    requires ValidRun(meaning, s, events) && Faithful(meaning, s)
    ensures Faithful(meaning, Run(meaning, s, events))
    ensures Counted(s) && BeginsSettled(meaning, s, events) ==> Counted(Run(meaning, s, events))
    decreases |events|
  {
    if events != [] {
      FaithfulKept(meaning, s, events[0]);
      if Counted(s) && BeginsSettled(meaning, s, events) { CountedKept(meaning, s, events[0]); }
      RunKeeps(meaning, Step(meaning, s, events[0]), events[1..]);
    }
  }

  /** Every value a request returns is what an unconditional read would have returned, across threads,
      eviction by generation, and export then import. */
  lemma ReadsAreUnconditional(meaning: Meaning, maxCalls: nat, events: seq<Event>)
    requires ValidRun(meaning, First(maxCalls), events)
    ensures var s := Run(meaning, First(maxCalls), events);
      forall k :: 0 <= k < |s.values| ==> s.values[k].got == s.values[k].unconditional
  {
    RunKeeps(meaning, First(maxCalls), events);
  }

  /** The counter is always the budgeted requests since begin less those answered 304, and in its bounds. */
  lemma BudgetIsExact(meaning: Meaning, maxCalls: nat, events: seq<Event>)
    requires ValidRun(meaning, First(maxCalls), events) && BeginsSettled(meaning, First(maxCalls), events)
    ensures Exact(Run(meaning, First(maxCalls), events))
  {
    RunKeeps(meaning, First(maxCalls), events);
  }

  predicate NoBegin(events: seq<Event>) { forall i :: 0 <= i < |events| ==> !events[i].Begin? }

  /** The count stays exact for as long as this refresh lasts, whatever the requests meet. */
  ghost predicate StaysExact(meaning: Meaning, s: State)
  {
    forall events :: ValidRun(meaning, s, events) && NoBegin(events) ==> Exact(Run(meaning, s, events))
  }

  lemma {:induction false} NoBeginIsSettled(meaning: Meaning, s: State, events: seq<Event>)
    requires ValidRun(meaning, s, events) && NoBegin(events)
    ensures BeginsSettled(meaning, s, events)
    decreases |events|
  {
    if events != [] { NoBeginIsSettled(meaning, Step(meaning, s, events[0]), events[1..]); }
  }

  /** A refresh keeps its count exact exactly when it begins with no request in flight that may still be confirmed. */
  lemma ExactExactlyWhenSettled(meaning: Meaning, s: State, now: int)
    requires Faithful(meaning, s) && Counted(s)
    ensures StaysExact(meaning, Step(meaning, s, Begin(now))) <==> Settled(s)
  {
    var t := Step(meaning, s, Begin(now));
    FaithfulKept(meaning, s, Begin(now));
    if Settled(s) {
      CountedKept(meaning, s, Begin(now));
      forall events | ValidRun(meaning, t, events) && NoBegin(events)
        ensures Exact(Run(meaning, t, events))
      {
        NoBeginIsSettled(meaning, t, events);
        RunKeeps(meaning, t, events);
      }
    } else {
      var id :| id in s.inFlight && Confirmable(s.inFlight[id]);
      var events := LateConfirmation(meaning, t, id);
    }
  }

  /** A request from before the refresh is confirmed after it began, and the count loses a unit no request of its own gave. */
  lemma LateConfirmation(meaning: Meaning, t: State, id: nat) returns (events: seq<Event>)
    requires Faithful(meaning, t) && id in t.inFlight && id !in t.own && Confirmable(t.inFlight[id])
    requires t.api.calls == t.budgeted == t.confirmed == 0 && (t.inFlight[id].Reserved? ==> t.api.maxCalls > 0)
    ensures ValidRun(meaning, t, events) && NoBegin(events) && !Exact(Run(meaning, t, events))
  {
    match t.inFlight[id] {
      case Answered(_, _, _, _) =>
        events := SettleLate(meaning, t, id);
      case Asked(_, _) =>
        events := ConfirmLate(meaning, t, id);
      case Reserved(endpoint) =>
        events := LookupLate(meaning, t, id);
    }
  }

  lemma SettleLate(meaning: Meaning, t: State, id: nat) returns (events: seq<Event>)
    requires Faithful(meaning, t) && id in t.inFlight && id !in t.own
    requires t.inFlight[id].Answered? && t.inFlight[id].reply.NotModified? && t.api.calls == t.budgeted - t.confirmed
    ensures ValidRun(meaning, t, events) && NoBegin(events) && !Exact(Run(meaning, t, events))
  {
    assert RequestMeans(meaning, t.inFlight[id]);
    events := [Settle(id, "", None, 0)];
    RunOfOne(meaning, t, events[0], []);
  }

  lemma ConfirmLate(meaning: Meaning, t: State, id: nat) returns (events: seq<Event>)
    requires Faithful(meaning, t) && id in t.inFlight && id !in t.own
    requires t.inFlight[id].Asked? && t.inFlight[id].cached.Some? && t.api.calls == t.budgeted - t.confirmed
    ensures ValidRun(meaning, t, events) && NoBegin(events) && !Exact(Run(meaning, t, events))
  {
    assert RequestMeans(meaning, t.inFlight[id]);
    var first := Answer(id, NotModified, Content(None, t.inFlight[id].cached.value.body));
    FaithfulKept(meaning, t, first);
    var rest := SettleLate(meaning, Step(meaning, t, first), id);
    RunOfOne(meaning, t, first, rest);
    events := [first] + rest;
  }

  /** Another request for the same endpoint brings the answer that the late one then finds. */
  lemma LookupLate(meaning: Meaning, t: State, id: nat) returns (events: seq<Event>)
    requires Faithful(meaning, t) && id in t.inFlight && id !in t.own && t.inFlight[id].Reserved?
    requires t.api.calls == t.budgeted == t.confirmed == 0 && t.api.maxCalls > 0
    ensures ValidRun(meaning, t, events) && NoBegin(events) && !Exact(Run(meaning, t, events))
  {
    var endpoint, now := t.inFlight[id].endpoint, QuietAt(t.api);
    var other := Beyond(t.inFlight.Keys);
    var content := Content(Some(""), meaning(endpoint, ""));
    var e1, e2, e3, e4, e5 := Reserve(other, "", endpoint, now), Lookup(other), Answer(other, Ok, content),
                              Settle(other, "", None, 0), Lookup(id);
    var t1 := Step(meaning, t, e1);
    FaithfulKept(meaning, t, e1);
    var t2 := Step(meaning, t1, e2);
    FaithfulKept(meaning, t1, e2);
    var t3 := Step(meaning, t2, e3);
    FaithfulKept(meaning, t2, e3);
    var t4 := Step(meaning, t3, e4);
    FaithfulKept(meaning, t3, e4);
    var t5 := Step(meaning, t4, e5);
    FaithfulKept(meaning, t4, e5);
    var rest := ConfirmLate(meaning, t5, id);
    RunOfOne(meaning, t4, e5, rest);
    RunOfOne(meaning, t3, e4, [e5] + rest);
    RunOfOne(meaning, t2, e3, [e4] + ([e5] + rest));
    RunOfOne(meaning, t1, e2, [e3] + ([e4] + ([e5] + rest)));
    RunOfOne(meaning, t, e1, [e2] + ([e3] + ([e4] + ([e5] + rest))));
    events := [e1] + ([e2] + ([e3] + ([e4] + ([e5] + rest))));
  }

  /** A moment when no pause holds. */
  function QuietAt(api: Api): (now: int)
    ensures Refusal(api, "", now) == if api.calls >= api.maxCalls then Some(BudgetExhausted) else None
  {
    if "" in api.familyBackoff then Max(api.backoffUntil, api.familyBackoff[""]) else Max(api.backoffUntil, 0)
  }

  /** One request reserved, in a run from the first state. */
  lemma ReservedIsReached(meaning: Meaning) returns (s: State)
    ensures Faithful(meaning, s) && Counted(s) && !Settled(s)
    ensures var events := [Reserve(0, "", "", 0), Begin(0)];
      ValidRun(meaning, First(1), events) && Run(meaning, First(1), events) == Step(meaning, s, Begin(0))
  {
    var first := Reserve(0, "", "", 0);
    s := Step(meaning, First(1), first);
    FaithfulKept(meaning, First(1), first);
    CountedKept(meaning, First(1), first);
    assert Confirmable(s.inFlight[0]);
    RunOfOne(meaning, s, Begin(0), []);
    RunOfOne(meaning, First(1), first, [Begin(0)]);
    assert [first] + [Begin(0)] == [first, Begin(0)];
  }

  /** A refresh that begins then does not keep its count exact. */
  lemma BeginInFlightBreaksTheCount(meaning: Meaning)
    ensures var events := [Reserve(0, "", "", 0), Begin(0)];
      ValidRun(meaning, First(1), events) && !StaysExact(meaning, Run(meaning, First(1), events))
  {
    var s := ReservedIsReached(meaning);
    ExactExactlyWhenSettled(meaning, s, 0);
  }

  lemma RunOfOne(meaning: Meaning, s: State, e: Event, rest: seq<Event>)
    requires Enabled(meaning, s, e) && ValidRun(meaning, Step(meaning, s, e), rest)
    ensures ValidRun(meaning, s, [e] + rest)
    ensures Run(meaning, s, [e] + rest) == Run(meaning, Step(meaning, s, e), rest)
  {
    assert ([e] + rest)[1..] == rest;
  }

  /** What was exported and imported is confirmed and evicted as if it had just been read, printable rows all. */
  lemma ImportedAsJustRead(api: Api, now: int, printable: string -> bool)
    ensures var again := ImportSection(New(api.maxCalls), Exported(api), printable);
      && (forall e :: e in again.cache <==> e in api.cache && printable(e) && printable(api.cache[e].etag))
      && (forall e :: e in again.cache ==> again.cache[e].etag == api.cache[e].etag && again.cache[e].body == api.cache[e].body)
      && BeginSection(again, now).cache == again.cache
      && BeginSection(BeginSection(again, now), now).cache == map[]
  {
  }
}
