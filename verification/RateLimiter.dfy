/** The token-bucket rate limiter per client IP, with its background eviction. */
module RateLimiter {
  import opened Options
  import opened Products

  /** One hour in nanoseconds, the unit of every time here. */
  const HOUR: int := 3600000000000

  datatype ClientLimit = ClientLimit(lastSeen: int, tokens: int)

  /** The parameters the middleware is built with. */
  datatype Config = Config(maxTokens: int, refillRate: int, duration: int) {
    predicate Valid() { maxTokens >= 1 && refillRate >= 0 && duration > 0 }
  }

  /** Tokens earned over an elapsed time. */
  function Refills(cfg: Config, elapsed: int): int
    requires cfg.duration > 0
  {
    elapsed / cfg.duration * cfg.refillRate
  }

  datatype Reply = Reply(client: ClientLimit, admitted: bool)

  /** What a request does to the client's entry. */
  function Serve(cfg: Config, client: Option<ClientLimit>, now: int): Reply
    requires cfg.duration > 0
  {
    if client.None? then Reply(ClientLimit(now, cfg.maxTokens - 1), true)
    else
      var c := client.value;
      var refills := Refills(cfg, now - c.lastSeen);
      var filled :=
        if refills > 0 then ClientLimit(now, if c.tokens + refills > cfg.maxTokens then cfg.maxTokens else c.tokens + refills)
        else c;
      if filled.tokens <= 0 then Reply(filled, false) else Reply(filled.(tokens := filled.tokens - 1), true)
  }

  type Clients = map<string, ClientLimit>

  function Entry(clients: Clients, ip: string): Option<ClientLimit> {
    if ip in clients then Some(clients[ip]) else None
  }

  function Idle(clients: Clients, now: int): set<string> {
    set ip | ip in clients && now - clients[ip].lastSeen > HOUR
  }

  class IPBasedRateLimiter {
    const cfg: Config
    var clients: Clients

    constructor (cfg: Config)
      ensures this.cfg == cfg && clients == map[]
    {
      this.cfg := cfg;
      clients := map[];
    }

    method Allow(ip: string, now: int) returns (admitted: bool)
      requires cfg.duration > 0
      modifies this`clients
      ensures var reply := Serve(cfg, Entry(old(clients), ip), now);
        clients == old(clients)[ip := reply.client] && admitted == reply.admitted
      ensures ip !in old(clients) ==> admitted && clients == old(clients)[ip := ClientLimit(now, cfg.maxTokens - 1)]
      ensures cfg.Valid() && ip in old(clients) && old(clients)[ip].lastSeen <= now && 0 <= old(clients)[ip].tokens <= cfg.maxTokens ==>
        var c := old(clients)[ip];
        var earned := (now - c.lastSeen) / cfg.duration * cfg.refillRate;
        var room := if c.tokens + earned > cfg.maxTokens then cfg.maxTokens else c.tokens + earned;
        && admitted == (room > 0)
        && clients == old(clients)[ip := ClientLimit(if earned > 0 then now else c.lastSeen, if admitted then room - 1 else 0)]
    {
      if ip !in clients {
        clients := clients[ip := ClientLimit(now, cfg.maxTokens - 1)];
        return true;
      }
      var lastSeen, tokens := clients[ip].lastSeen, clients[ip].tokens;
      var elapsed := now - lastSeen;
      var refills := elapsed / cfg.duration * cfg.refillRate;
      if cfg.Valid() && elapsed >= 0 {
        RefillsGrow(cfg, 0, elapsed);
      }
      if refills > 0 {
        tokens := tokens + refills;
        if tokens > cfg.maxTokens {
          tokens := cfg.maxTokens;
        }
        lastSeen := now;
      }
      if tokens <= 0 {
        clients := clients[ip := ClientLimit(lastSeen, tokens)];
        return false;
      }
      tokens := tokens - 1;
      clients := clients[ip := ClientLimit(lastSeen, tokens)];
      return true;
    }

    /** One round of the cleanup goroutine. */
    method Cleanup(now: int)
      modifies this`clients
      ensures clients == old(clients) - Idle(old(clients), now)
      ensures forall ip :: ip in clients <==> ip in old(clients) && now - old(clients)[ip].lastSeen <= 3600 * 1000000000
      ensures forall ip | ip in clients :: clients[ip] == old(clients)[ip]
    {
      var todo := clients.Keys;
      ghost var before := clients;
      while todo != {}
        invariant todo <= before.Keys
        invariant clients == before - (Idle(before, now) - todo)
        decreases todo
      {
        var ip :| ip in todo;
        if now - clients[ip].lastSeen > HOUR {
          clients := clients - {ip};
        }
        todo := todo - {ip};
      }
      assert Idle(before, now) - {} == Idle(before, now);
    }
  }

  // ---- runs ----

  datatype Event = Request(ip: string, now: int) | Cleanup(now: int)

  datatype State = State(clients: Clients, answers: seq<bool>)

  function Answer(cfg: Config, s: State, ip: string, now: int): State
    requires cfg.duration > 0
  {
    var reply := Serve(cfg, Entry(s.clients, ip), now);
    State(s.clients[ip := reply.client], s.answers + [reply.admitted])
  }

  function Step(cfg: Config, evicting: bool, s: State, e: Event): State
    requires cfg.duration > 0
  {
    match e
    case Request(ip, now) => Answer(cfg, s, ip, now)
    case Cleanup(now) => if evicting then s.(clients := s.clients - Idle(s.clients, now)) else s
  }

  function Run(cfg: Config, evicting: bool, events: seq<Event>): State
    requires cfg.duration > 0
    decreases |events|
  {
    if events == [] then State(map[], [])
    else Step(cfg, evicting, Run(cfg, evicting, events[..|events| - 1]), events[|events| - 1])
  }

  /** Time does not run backwards. */
  ghost predicate Timed(events: seq<Event>) {
    forall i, j | 0 <= i < j < |events| :: events[i].now <= events[j].now
  }

  ghost predicate Before(events: seq<Event>, t: int) {
    forall e | e in events :: e.now <= t
  }

  lemma TimedOneLess(events: seq<Event>)
    requires Timed(events) && events != []
    ensures var n := |events| - 1; Timed(events[..n]) && Before(events[..n], events[n].now)
  {
    var n := |events| - 1;
    forall e | e in events[..n] ensures e.now <= events[n].now {
      var i :| 0 <= i < n && events[i] == e;
    }
  }

  // ---- eviction is unobservable ----

  /** After more than an hour a client has earned a full bucket. */
  predicate FullAfterAnHour(cfg: Config)
    requires cfg.duration > 0
  {
    Refills(cfg, HOUR + 1) >= cfg.maxTokens
  }

  /** Entry by entry: what eviction dropped has been idle for more than an hour. */
  ghost predicate Matches(cfg: Config, evicted: Clients, kept: Clients, t: int) {
    && (forall ip | ip in evicted :: ip in kept && evicted[ip] == kept[ip])
    && (forall ip | ip in kept && ip !in evicted :: t - kept[ip].lastSeen > HOUR)
    && (forall ip | ip in kept :: 0 <= kept[ip].tokens <= cfg.maxTokens && kept[ip].lastSeen <= t)
  }

  lemma QuotientGrows(a: int, b: int, d: int)
    requires 0 <= a <= b && d > 0
    ensures 0 <= a / d <= b / d
  {
    Quotient(b, d, a / d);
  }

  lemma Quotient(a: int, d: int, k: int)
    requires d > 0 && k * d <= a
    ensures k <= a / d
  {
    var q := a / d;
    assert a < (q + 1) * d;
    if k >= q + 1 {
      Times(q + 1, k, d);
    }
  }

  lemma RefillsGrow(cfg: Config, a: int, b: int)
    requires cfg.Valid() && 0 <= a <= b
    ensures 0 <= Refills(cfg, a) <= Refills(cfg, b)
  {
    QuotientGrows(a, b, cfg.duration);
    Times(a / cfg.duration, b / cfg.duration, cfg.refillRate);
    Times(0, a / cfg.duration, cfg.refillRate);
  }

  /** A request in the same instant earns nothing. */
  lemma ServeAtOnce(cfg: Config, c: ClientLimit)
    requires cfg.Valid()
    ensures Serve(cfg, Some(c), c.lastSeen) == if c.tokens <= 0 then Reply(c, false) else Reply(c.(tokens := c.tokens - 1), true)
  {
    assert Refills(cfg, 0) == 0;
  }

  /** An entry idle for more than an hour is served like a new client. */
  lemma IdleIsNew(cfg: Config, c: ClientLimit, now: int)
    requires cfg.Valid() && FullAfterAnHour(cfg) && now - c.lastSeen > HOUR && c.tokens >= 0
    ensures Serve(cfg, Some(c), now) == Serve(cfg, None, now)
  {
    RefillsGrow(cfg, HOUR + 1, now - c.lastSeen);
  }

  lemma StepMatches(cfg: Config, a: State, b: State, e: Event, t: int)
    requires cfg.Valid() && FullAfterAnHour(cfg) && Matches(cfg, a.clients, b.clients, t) && a.answers == b.answers && t <= e.now
    ensures Matches(cfg, Step(cfg, true, a, e).clients, Step(cfg, false, b, e).clients, e.now)
    ensures Step(cfg, true, a, e).answers == Step(cfg, false, b, e).answers
  {
    if e.Request? && e.ip in b.clients && e.ip !in a.clients {
      IdleIsNew(cfg, b.clients[e.ip], e.now);
    }
  }

  lemma {:induction false} RunsMatch(cfg: Config, events: seq<Event>, t: int)
    requires cfg.Valid() && FullAfterAnHour(cfg) && Timed(events) && Before(events, t)
    ensures Matches(cfg, Run(cfg, true, events).clients, Run(cfg, false, events).clients, t)
    ensures Run(cfg, true, events).answers == Run(cfg, false, events).answers
    decreases |events|
  {
    if events == [] {
    } else {
      var n := |events| - 1;
      TimedOneLess(events);
      assert events[n] in events;
      RunsMatch(cfg, events[..n], events[n].now);
      StepMatches(cfg, Run(cfg, true, events[..n]), Run(cfg, false, events[..n]), events[n], events[n].now);
    }
  }

  ghost predicate EvictionUnobservable(cfg: Config)
    requires cfg.duration > 0
  {
    forall events: seq<Event> | Timed(events) :: Run(cfg, true, events).answers == Run(cfg, false, events).answers
  }

  lemma EvictionIsUnobservable(cfg: Config)
    requires cfg.Valid() && FullAfterAnHour(cfg)
    ensures EvictionUnobservable(cfg)
  {
    forall events: seq<Event> | Timed(events) ensures Run(cfg, true, events).answers == Run(cfg, false, events).answers {
      if events != [] {
        TimedOneLess(events);
        assert events == events[..|events| - 1] + [events[|events| - 1]];
        RunsMatch(cfg, events, events[|events| - 1].now);
      }
    }
  }

  // ---- and only then ----

  function Burst(before: seq<Event>, ip: string, now: int, n: nat): seq<Event> {
    if n == 0 then before else Burst(before, ip, now, n - 1) + [Request(ip, now)]
  }

  function Answers(cfg: Config, s: State, ip: string, now: int, n: nat): State
    requires cfg.duration > 0
  {
    if n == 0 then s else Answer(cfg, Answers(cfg, s, ip, now, n - 1), ip, now)
  }

  lemma RunOneMore(cfg: Config, evicting: bool, events: seq<Event>, e: Event)
    requires cfg.duration > 0
    ensures Run(cfg, evicting, events + [e]) == Step(cfg, evicting, Run(cfg, evicting, events), e)
  {
    assert (events + [e])[..|events|] == events;
  }

  lemma {:induction false} RunBurst(cfg: Config, evicting: bool, before: seq<Event>, ip: string, now: int, n: nat)
    requires cfg.duration > 0
    ensures Run(cfg, evicting, Burst(before, ip, now, n)) == Answers(cfg, Run(cfg, evicting, before), ip, now, n)
  {
    if n == 0 {
    } else {
      RunBurst(cfg, evicting, before, ip, now, n - 1);
      RunOneMore(cfg, evicting, Burst(before, ip, now, n - 1), Request(ip, now));
    }
  }

  /** The client's entry, and its last answer. */
  ghost predicate Shows(s: State, ip: string, c: ClientLimit, answer: bool) {
    Entry(s.clients, ip) == Some(c) && |s.answers| > 0 && s.answers[|s.answers| - 1] == answer
  }

  lemma OneAnswer(cfg: Config, s: State, ip: string, now: int)
    requires cfg.duration > 0
    ensures var reply := Serve(cfg, Entry(s.clients, ip), now);
      Shows(Answer(cfg, s, ip, now), ip, reply.client, reply.admitted)
  {
  }

  /** A new client gets its whole bucket, one request at a time, and then nothing. */
  lemma {:induction false} FreshBurst(cfg: Config, s: State, ip: string, now: int, n: nat)
    requires cfg.Valid() && ip !in s.clients && n >= 1
    ensures Shows(Answers(cfg, s, ip, now, n), ip,
                  ClientLimit(now, if n <= cfg.maxTokens then cfg.maxTokens - n else 0), n <= cfg.maxTokens)
  {
    OneAnswer(cfg, Answers(cfg, s, ip, now, n - 1), ip, now);
    if n > 1 {
      FreshBurst(cfg, s, ip, now, n - 1);
      ServeAtOnce(cfg, ClientLimit(now, if n - 1 <= cfg.maxTokens then cfg.maxTokens - (n - 1) else 0));
    }
  }

  /**
    A known client with t tokens left, seen e ago: of any number of requests in
    one instant the first t + e / duration * refillRate are admitted, but no
    more than the bucket holds, and the others are refused.
   */
  lemma {:induction false} BurstAdmits(cfg: Config, s: State, ip: string, now: int, n: nat)
    requires cfg.Valid() && ip in s.clients && n >= 1
    requires 0 <= s.clients[ip].tokens <= cfg.maxTokens && s.clients[ip].lastSeen <= now
    ensures
      var c := s.clients[ip];
      var earned := (now - c.lastSeen) / cfg.duration * cfg.refillRate;
      var room := if c.tokens + earned > cfg.maxTokens then cfg.maxTokens else c.tokens + earned;
      Shows(Answers(cfg, s, ip, now, n), ip,
            ClientLimit(if earned > 0 then now else c.lastSeen, if n <= room then room - n else 0), n <= room)
  {
    var c := s.clients[ip];
    RefillsGrow(cfg, 0, now - c.lastSeen);
    OneAnswer(cfg, Answers(cfg, s, ip, now, n - 1), ip, now);
    var earned := Refills(cfg, now - c.lastSeen);
    if n > 1 {
      BurstAdmits(cfg, s, ip, now, n - 1);
      if earned > 0 {
        var room := if c.tokens + earned > cfg.maxTokens then cfg.maxTokens else c.tokens + earned;
        ServeAtOnce(cfg, ClientLimit(now, if n - 1 <= room then room - (n - 1) else 0));
      }
    }
  }

  lemma {:induction false} BurstIsTimed(before: seq<Event>, ip: string, now: int, n: nat)
    requires Timed(before) && Before(before, now)
    ensures Timed(Burst(before, ip, now, n)) && Before(Burst(before, ip, now, n), now)
  {
    if n == 0 {
    } else {
      BurstIsTimed(before, ip, now, n - 1);
      var prior := Burst(before, ip, now, n - 1);
      assert forall i | 0 <= i < |prior| :: prior[i] in prior;
    }
  }

  /** Otherwise a burst, a cleanup after an hour and another burst tell the two apart. */
  lemma EvictionShows(cfg: Config, ip: string) returns (events: seq<Event>)
    requires cfg.Valid() && !FullAfterAnHour(cfg)
    ensures Timed(events) && Run(cfg, true, events).answers != Run(cfg, false, events).answers
  {
    var later := HOUR + 1;
    var first := Burst([], ip, 0, cfg.maxTokens);
    var second := first + [Cleanup(later)];
    events := Burst(second, ip, later, cfg.maxTokens);
    BurstIsTimed([], ip, 0, cfg.maxTokens);
    TimedOneMore(first, later);
    BurstIsTimed(second, ip, later, cfg.maxTokens);
    RefillsGrow(cfg, 0, later);
    var evicted := Run(cfg, true, second);
    var kept := Run(cfg, false, second);
    assert ip !in evicted.clients && Entry(kept.clients, ip) == Some(ClientLimit(0, 0)) by {
      BothDrained(cfg, ip, first, second);
    }
    FreshBurst(cfg, evicted, ip, later, cfg.maxTokens);
    BurstAdmits(cfg, kept, ip, later, cfg.maxTokens);
    RunBurst(cfg, true, second, ip, later, cfg.maxTokens);
    RunBurst(cfg, false, second, ip, later, cfg.maxTokens);
  }

  lemma TimedOneMore(events: seq<Event>, later: int)
    requires Timed(events) && Before(events, 0) && later > 0
    ensures Timed(events + [Cleanup(later)]) && Before(events + [Cleanup(later)], later)
  {
    assert forall i | 0 <= i < |events| :: events[i] in events;
  }

  lemma BothDrained(cfg: Config, ip: string, first: seq<Event>, second: seq<Event>)
    requires cfg.Valid() && first == Burst([], ip, 0, cfg.maxTokens) && second == first + [Cleanup(HOUR + 1)]
    ensures ip !in Run(cfg, true, second).clients
    ensures Entry(Run(cfg, false, second).clients, ip) == Some(ClientLimit(0, 0))
  {
    RunBurst(cfg, true, [], ip, 0, cfg.maxTokens);
    RunBurst(cfg, false, [], ip, 0, cfg.maxTokens);
    FreshBurst(cfg, State(map[], []), ip, 0, cfg.maxTokens);
    CleanupDrops(cfg, ip, first, second);
  }

  /** A limiter without tokens admits a client's first request and never another; eviction lets it in again. */
  lemma NoTokensShows(cfg: Config, ip: string) returns (events: seq<Event>)
    requires cfg.maxTokens <= 0 && cfg.refillRate >= 0 && cfg.duration > 0
    ensures Timed(events) && Run(cfg, true, events).answers != Run(cfg, false, events).answers
  {
    var later := HOUR + 1;
    var first, second := [Request(ip, 0)], [Request(ip, 0), Cleanup(later)];
    events := [Request(ip, 0), Cleanup(later), Request(ip, later)];
    assert [] + [Request(ip, 0)] == first && first + [Cleanup(later)] == second && second + [Request(ip, later)] == events;
    forall evicting | evicting in {true, false}
      ensures Shows(Run(cfg, evicting, first), ip, ClientLimit(0, cfg.maxTokens - 1), true)
    {
      RunOneMore(cfg, evicting, [], Request(ip, 0));
    }
    CleanupDrops(cfg, ip, first, second);
    RunOneMore(cfg, true, second, Request(ip, later));
    RunOneMore(cfg, false, second, Request(ip, later));
    OneAnswer(cfg, Run(cfg, true, second), ip, later);
    OneAnswer(cfg, Run(cfg, false, second), ip, later);
  }

  lemma CleanupDrops(cfg: Config, ip: string, first: seq<Event>, second: seq<Event>)
    requires cfg.duration > 0 && second == first + [Cleanup(HOUR + 1)]
    requires ip in Run(cfg, true, first).clients && Run(cfg, true, first).clients[ip].lastSeen == 0
    ensures ip !in Run(cfg, true, second).clients && Run(cfg, false, second) == Run(cfg, false, first)
  {
    RunOneMore(cfg, true, first, Cleanup(HOUR + 1));
    RunOneMore(cfg, false, first, Cleanup(HOUR + 1));
    assert ip in Idle(Run(cfg, true, first).clients, HOUR + 1);
  }

  /** Eviction is unobservable exactly when there is a bucket and an hour and a tick earn a full one. */
  lemma UnobservableIff(cfg: Config)
    requires cfg.refillRate >= 0 && cfg.duration > 0
    ensures EvictionUnobservable(cfg) <==> cfg.maxTokens >= 1 && (3600 * 1000000000 + 1) / cfg.duration * cfg.refillRate >= cfg.maxTokens
  {
    if cfg.maxTokens <= 0 {
      var events := NoTokensShows(cfg, "ip");
    } else if FullAfterAnHour(cfg) {
      EvictionIsUnobservable(cfg);
    } else {
      var events := EvictionShows(cfg, "ip");
    }
  }

  /** The limiter of the API: 10 tokens, one every two seconds. */
  lemma ConfiguredLimiter()
    ensures EvictionUnobservable(Config(10, 1, 2000000000))
  {
    EvictionIsUnobservable(Config(10, 1, 2000000000));
  }

  // ---- how many requests are admitted ----

  /** Requests of ip from time `since` on that were admitted. */
  function Admitted(cfg: Config, evicting: bool, events: seq<Event>, ip: string, since: int): nat
    requires cfg.duration > 0
    decreases |events|
  {
    if events == [] then 0
    else
      var n := |events| - 1;
      Admitted(cfg, evicting, events[..n], ip, since)
      + if Counts(cfg, Run(cfg, evicting, events[..n]), events[n], ip, since) then 1 else 0
  }

  predicate Counts(cfg: Config, s: State, e: Event, ip: string, since: int)
    requires cfg.duration > 0
  {
    e.Request? && e.ip == ip && e.now >= since && Serve(cfg, Entry(s.clients, ip), e.now).admitted
  }

  /** The most that a window of this length may admit, refills included. */
  function Budget(cfg: Config, elapsed: int, extra: nat): int
    requires cfg.duration > 0
  {
    cfg.maxTokens + (elapsed / cfg.duration + extra) * cfg.refillRate
  }

  lemma BudgetGrows(cfg: Config, a: int, b: int, extra: nat)
    requires cfg.Valid() && 0 <= a <= b
    ensures cfg.maxTokens <= Budget(cfg, a, extra) <= Budget(cfg, b, extra)
  {
    QuotientGrows(a, b, cfg.duration);
    Times(0, a / cfg.duration + extra, cfg.refillRate);
    Times(a / cfg.duration + extra, b / cfg.duration + extra, cfg.refillRate);
  }

  /** Refills of two stretches fit in the budget of both. */
  lemma BudgetAdds(cfg: Config, a: int, b: int, extra: nat)
    requires cfg.Valid() && a >= 0 && b >= 0
    ensures Budget(cfg, a, extra) + Refills(cfg, b) <= Budget(cfg, a + b, extra)
  {
    var x, y, z := a / cfg.duration, b / cfg.duration, (a + b) / cfg.duration;
    Superadditive(a, b, cfg.duration);
    Distribute(x + extra, y, cfg.refillRate);
    Times(x + extra + y, z + extra, cfg.refillRate);
  }

  lemma Distribute(x: int, y: int, k: int)
    ensures x * k + y * k == (x + y) * k
  {
  }

  lemma Superadditive(a: int, b: int, d: int)
    requires d > 0 && a >= 0 && b >= 0
    ensures a / d + b / d <= (a + b) / d
  {
    var x, y := a / d, b / d;
    Distribute(x, y, d);
    assert x * d <= a && y * d <= b;
    Quotient(a + b, d, x + y);
  }

  /** What n admissions since s and the tokens left may add up to. */
  ghost predicate Within(cfg: Config, c: Option<ClientLimit>, n: int, s: int, extra: nat)
    requires cfg.duration > 0
  {
    if c.None? then n == 0
    else
      var seen, tokens := c.value.lastSeen, c.value.tokens;
      && 0 <= tokens <= cfg.maxTokens && n >= 0
      && (if seen >= s then n + tokens <= Budget(cfg, seen - s, extra)
          else
            && n + tokens <= cfg.maxTokens
            && (n > 0 && cfg.refillRate > 0 ==> seen > s - cfg.duration))
  }

  /** The bucket after the refill of a request, before it is served. */
  function Filled(cfg: Config, c: ClientLimit, now: int): ClientLimit
    requires cfg.duration > 0
  {
    var refills := Refills(cfg, now - c.lastSeen);
    if refills > 0 then ClientLimit(now, if c.tokens + refills > cfg.maxTokens then cfg.maxTokens else c.tokens + refills) else c
  }

  /** A refill keeps the bound; extra is 0 for windows that start with the entry, 1 for later ones. */
  lemma FillWithin(cfg: Config, c: ClientLimit, n: int, s: int, extra: nat, now: int)
    requires cfg.Valid() && Within(cfg, Some(c), n, s, extra) && c.lastSeen <= now && s <= now
    requires extra > 0 || c.lastSeen >= s
    ensures Within(cfg, Some(Filled(cfg, c, now)), n, s, extra)
    ensures Filled(cfg, c, now).lastSeen < s ==> cfg.refillRate > 0 ==> Filled(cfg, c, now).lastSeen > s - cfg.duration
  {
    var elapsed := now - c.lastSeen;
    if c.lastSeen >= s {
      BudgetAdds(cfg, c.lastSeen - s, elapsed, extra);
      assert c.lastSeen - s + elapsed == now - s;
    } else {
      BudgetGrows(cfg, 0, now - s, extra);
      if Refills(cfg, elapsed) > 0 {
        if n > 0 {
          assert cfg.refillRate > 0 by { Positive(elapsed / cfg.duration, cfg.refillRate); }
          LateRefill(cfg, elapsed, now - s, extra);
        }
      } else {
        NoRefill(cfg, elapsed);
      }
    }
  }

  lemma Positive(x: int, k: int)
    requires x * k > 0 && k >= 0
    ensures k > 0
  {
  }

  /** A refill that reaches back less than one duration before the window is worth at most one period more. */
  lemma LateRefill(cfg: Config, elapsed: int, inside: int, extra: nat)
    requires cfg.Valid() && inside >= 0 && 0 <= elapsed < inside + cfg.duration && extra > 0
    ensures cfg.maxTokens + Refills(cfg, elapsed) <= Budget(cfg, inside, extra)
  {
    var d := cfg.duration;
    QuotientGrows(elapsed, inside + d, d);
    OneMorePeriod(inside, d);
    Times(elapsed / d, inside / d + extra, cfg.refillRate);
  }

  lemma OneMorePeriod(a: int, d: int)
    requires d > 0 && a >= 0
    ensures (a + d) / d <= a / d + 1
  {
    var q, z := a / d, (a + d) / d;
    assert a < q * d + d && z * d <= a + d;
    if z >= q + 2 {
      Times(q + 2, z, d);
    }
  }

  lemma NoRefill(cfg: Config, elapsed: int)
    requires cfg.Valid() && elapsed >= 0 && Refills(cfg, elapsed) <= 0
    ensures cfg.refillRate > 0 ==> elapsed < cfg.duration
  {
    if elapsed >= cfg.duration {
      Quotient(elapsed, cfg.duration, 1);
      Times(1, elapsed / cfg.duration, cfg.refillRate);
    }
  }

  lemma ServeWithin(cfg: Config, c: Option<ClientLimit>, n: int, s: int, extra: nat, now: int)
    requires cfg.Valid() && Within(cfg, c, n, s, extra) && (c.Some? ==> c.value.lastSeen <= now) && s <= now
    requires extra > 0 || (c.Some? ==> c.value.lastSeen >= s)
    ensures var reply := Serve(cfg, c, now);
      Within(cfg, Some(reply.client), n + (if reply.admitted then 1 else 0), s, extra)
  {
    if c.None? {
      BudgetGrows(cfg, 0, now - s, extra);
    } else {
      FillWithin(cfg, c.value, n, s, extra, now);
    }
  }

  /** A request before the window only leaves the bucket somewhere between empty and full. */
  lemma ServeEarly(cfg: Config, c: Option<ClientLimit>, s: int, extra: nat, now: int)
    requires cfg.Valid() && Within(cfg, c, 0, s, extra) && now < s && (c.Some? ==> c.value.lastSeen <= now)
    ensures Within(cfg, Some(Serve(cfg, c, now).client), 0, s, extra)
  {
  }

  /** No request of ip comes before s. */
  ghost predicate StartsAt(events: seq<Event>, ip: string, s: int) {
    forall e | e in events && e.Request? && e.ip == ip :: e.now >= s
  }

  lemma {:induction false} NoneYet(cfg: Config, events: seq<Event>, ip: string, s: int, t: int)
    requires cfg.duration > 0 && Before(events, t) && t < s
    ensures Admitted(cfg, false, events, ip, s) == 0
    decreases |events|
  {
    if events == [] {
    } else {
      var n := |events| - 1;
      assert events[n] in events && forall e | e in events[..n] :: e in events;
      NoneYet(cfg, events[..n], ip, s, t);
    }
  }

  /** The bound, with the entry no newer than t and, for a window that opens with it, no older than s. */
  ghost predicate Tracked(cfg: Config, c: Option<ClientLimit>, n: int, s: int, extra: nat, t: int)
    requires cfg.duration > 0
  {
    Within(cfg, c, n, s, extra) && (c.Some? ==> c.value.lastSeen <= t && (extra == 0 ==> c.value.lastSeen >= s))
  }

  lemma ServeTracked(cfg: Config, c: Option<ClientLimit>, n: int, s: int, extra: nat, now: int)
    requires cfg.Valid() && Tracked(cfg, c, n, s, extra, now) && (now < s ==> n == 0 && extra > 0)
    ensures var reply := Serve(cfg, c, now);
      Tracked(cfg, Some(reply.client), n + (if now >= s && reply.admitted then 1 else 0), s, extra, now)
  {
    if now >= s {
      ServeWithin(cfg, c, n, s, extra, now);
    } else {
      ServeEarly(cfg, c, s, extra, now);
    }
  }

  /** A step changes the entry of the IP it serves and no other. */
  lemma EntryAfter(cfg: Config, s: State, e: Event, ip: string)
    requires cfg.duration > 0
    ensures Entry(Step(cfg, false, s, e).clients, ip) ==
      if e.Request? && e.ip == ip then Some(Serve(cfg, Entry(s.clients, ip), e.now).client) else Entry(s.clients, ip)
  {
  }

  lemma {:induction false} RunWithin(cfg: Config, events: seq<Event>, ip: string, s: int, extra: nat, t: int)
    requires cfg.Valid() && Timed(events) && Before(events, t) && (extra > 0 || StartsAt(events, ip, s))
    ensures Tracked(cfg, Entry(Run(cfg, false, events).clients, ip), Admitted(cfg, false, events, ip, s), s, extra, t)
    decreases |events|
  {
    if events == [] {
    } else {
      var n := |events| - 1;
      var before, e := events[..n], events[n];
      TimedOneLess(events);
      assert e in events && forall e' | e' in before :: e' in events;
      RunWithin(cfg, before, ip, s, extra, e.now);
      StepTracked(cfg, Run(cfg, false, before), e, ip, Admitted(cfg, false, before, ip, s), s, extra, t) by {
        if e.now < s {
          NoneYet(cfg, before, ip, s, e.now);
        }
      }
    }
  }

  lemma StepTracked(cfg: Config, state: State, e: Event, ip: string, n: int, s: int, extra: nat, t: int)
    requires cfg.Valid() && Tracked(cfg, Entry(state.clients, ip), n, s, extra, e.now) && e.now <= t
    requires e.now < s ==> n == 0 && (extra > 0 || !(e.Request? && e.ip == ip))
    ensures Tracked(cfg, Entry(Step(cfg, false, state, e).clients, ip), n + (if Counts(cfg, state, e, ip, s) then 1 else 0), s, extra, t)
  {
    EntryAfter(cfg, state, e, ip);
    if e.Request? && e.ip == ip {
      ServeTracked(cfg, Entry(state.clients, ip), n, s, extra, e.now);
    }
  }

  /** Matching clients have the request admitted alike. */
  lemma CountsAlike(cfg: Config, evicted: State, kept: State, e: Event, ip: string, since: int)
    requires cfg.Valid() && FullAfterAnHour(cfg) && Matches(cfg, evicted.clients, kept.clients, e.now)
    ensures Counts(cfg, evicted, e, ip, since) == Counts(cfg, kept, e, ip, since)
  {
    if ip in kept.clients && ip !in evicted.clients && e.now - kept.clients[ip].lastSeen > HOUR {
      IdleIsNew(cfg, kept.clients[ip], e.now);
    }
  }

  lemma {:induction false} AdmittedAlike(cfg: Config, events: seq<Event>, ip: string, since: int, t: int)
    requires cfg.Valid() && FullAfterAnHour(cfg) && Timed(events) && Before(events, t)
    ensures Admitted(cfg, true, events, ip, since) == Admitted(cfg, false, events, ip, since)
    decreases |events|
  {
    if events == [] {
    } else {
      var before, e := events[..|events| - 1], events[|events| - 1];
      TimedOneLess(events);
      AdmittedAlike(cfg, before, ip, since, e.now);
      RunsMatch(cfg, before, e.now);
      CountsAlike(cfg, Run(cfg, true, before), Run(cfg, false, before), e, ip, since);
    }
  }

  /**
    How many requests of one IP are admitted up to time t: a full bucket and
    the refills since its entry was created; in any later window, one period's
    refill more. So too with eviction, where it is unobservable.
   */
  lemma AdmissionsAreBounded(cfg: Config, evicting: bool, events: seq<Event>, ip: string, s: int, t: int)
    requires cfg.Valid() && Timed(events) && Before(events, t) && s <= t && (evicting ==> FullAfterAnHour(cfg))
    ensures StartsAt(events, ip, s) ==> Admitted(cfg, evicting, events, ip, s) <= cfg.maxTokens + (t - s) / cfg.duration * cfg.refillRate
    ensures Admitted(cfg, evicting, events, ip, s) <= cfg.maxTokens + ((t - s) / cfg.duration + 1) * cfg.refillRate
    ensures var clients := Run(cfg, evicting, events).clients; ip in clients ==> 0 <= clients[ip].tokens <= cfg.maxTokens
  {
    var c, n := Entry(Run(cfg, false, events).clients, ip), Admitted(cfg, false, events, ip, s);
    RunWithin(cfg, events, ip, s, 1, t);
    WithinBudget(cfg, c, n, s, 1, t);
    if StartsAt(events, ip, s) {
      RunWithin(cfg, events, ip, s, 0, t);
      WithinBudget(cfg, c, n, s, 0, t);
    }
    if evicting {
      AdmittedAlike(cfg, events, ip, s, t);
      RunsMatch(cfg, events, t);
    }
  }

  lemma WithinBudget(cfg: Config, c: Option<ClientLimit>, n: int, s: int, extra: nat, t: int)
    requires cfg.Valid() && Tracked(cfg, c, n, s, extra, t) && s <= t
    ensures n <= Budget(cfg, t - s, extra)
    ensures c.Some? ==> 0 <= c.value.tokens <= cfg.maxTokens
  {
    BudgetGrows(cfg, 0, t - s, extra);
    if c.Some? && c.value.lastSeen >= s {
      BudgetGrows(cfg, c.value.lastSeen - s, t - s, extra);
    }
  }
}
