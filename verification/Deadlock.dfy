/**
  Which operations can wait for each other in a circle.

  Locks are ranked: records of debits, then balances by wallet, then records
  without a source, then unique keys. Every operation except a swap only waits
  for a lock ranked above all it holds.
 */
module Deadlock {
  import opened Options
  import opened Ledger
  import opened Locking

  datatype Rank = Rank(level: nat, wallet: Wallet)

  predicate Below(a: Rank, b: Rank) {
    a.level < b.level || (a.level == b.level && a.wallet < b.wallet)
  }

  function RankOf(db: Database, row: Row): Rank {
    match row
    case Balance(k) => Rank(1, k.wallet)
    case Record(id) => if id in db.txs && db.txs[id].source.Some? then Rank(0, 0) else Rank(2, 0)
    case Index(_) => Rank(3, 0)
  }

  /** The row that p needs to lock next. */
  predicate Wants(s: State, p: nat, row: Row) {
    && p in s.active
    && var a := Next(s.active[p].op, s.active[p].obs);
    && a.Access() && a.row == row && Takes(a, Look(s.db, row))
  }

  ghost predicate WaitsFor(s: State, p: nat, q: nat) {
    && q in s.active && q != p
    && exists row :: Wants(s, p, row) && Holds(s.active[q].obs, row)
  }

  ghost predicate Blocked(s: State, p: nat) {
    exists q :: WaitsFor(s, p, q)
  }

  /** Settlement handles top-ups, and a top-up has no source wallet. */
  ghost predicate SettlesTopUps(s: State) {
    forall p | p in s.active && s.active[p].op.SettleTopUp? ::
      s.active[p].op.id in s.db.txs ==> s.db.txs[s.active[p].op.id].source.None?
  }

  /** What every interleaving keeps (Locking.Inv), and the one demand on its callers. */
  ghost predicate Healthy(s: State) {
    && (forall p | p in s.active :: InFlight(s.db, s.active[p]))
    && Exclusive(s.active)
    && SettlesTopUps(s)
  }

  /** The access that op makes next ranks above the lock of its i-th observation. */
  predicate Ascends(op: Op, obs: seq<Observation>, db: Database, i: nat)
    requires i < |obs| && Next(op, obs).Access()
  {
    var held, wanted := obs[i].row, Next(op, obs).row;
    || Below(RankOf(db, held), RankOf(db, wanted))
    || held == wanted
    || (op.ExecuteSwap? && RankOf(db, held) == RankOf(db, wanted) == Rank(1, op.wallet))
  }

  ghost predicate Waiting(op: Op, obs: seq<Observation>, db: Database) {
    && Follows(op, obs) && Current(db, obs)
    && Next(op, obs).Access() && Takes(Next(op, obs), Look(db, Next(op, obs).row))
    && (op.SettleTopUp? && op.id in db.txs ==> db.txs[op.id].source.None?)
  }

  lemma ProgramsAscend(op: Op, obs: seq<Observation>, db: Database, i: nat)
    requires Waiting(op, obs, db) && i < |obs| && obs[i].locked
    ensures Ascends(op, obs, db, i)
  {
    match op {
      case ExecuteTransfer(_, _, _, _, _) => TransferAscends(op, obs, db, i);
      case ExecuteSwap(_, _, _, _, _, _, _, _) => SwapAscends(op, obs, db, i);
      case CreditDeposit(_, _, _, _, _) => DepositAscends(op, obs, db, i);
      case SettleTopUp(_, _, _) => SettleAscends(op, obs, db, i);
      case RejectCrypto(_) => RejectAscends(op, obs, db, i);
      case RejectFiat(_) => RejectAscends(op, obs, db, i);
      case _ => TwoStepsAscend(op, obs, db, i);
    }
  }

  lemma TransferAscends(op: Op, obs: seq<Observation>, db: Database, i: nat)
    requires op.ExecuteTransfer?
    requires Waiting(op, obs, db) && i < |obs| && obs[i].locked
    ensures Ascends(op, obs, db, i)
  {
    assert Asked(op, obs, i);
  }

  lemma SwapAscends(op: Op, obs: seq<Observation>, db: Database, i: nat)
    requires op.ExecuteSwap?
    requires Waiting(op, obs, db) && i < |obs| && obs[i].locked
    ensures Ascends(op, obs, db, i)
  {
    assert Asked(op, obs, i);
  }

  lemma DepositAscends(op: Op, obs: seq<Observation>, db: Database, i: nat)
    requires op.CreditDeposit?
    requires Waiting(op, obs, db) && i < |obs| && obs[i].locked
    ensures Ascends(op, obs, db, i)
  {
    assert Asked(op, obs, i);
  }

  lemma SettleAscends(op: Op, obs: seq<Observation>, db: Database, i: nat)
    requires op.SettleTopUp?
    requires Waiting(op, obs, db) && i < |obs| && obs[i].locked
    ensures Ascends(op, obs, db, i)
  {
    assert Asked(op, obs, i);
  }

  lemma RejectAscends(op: Op, obs: seq<Observation>, db: Database, i: nat)
    requires op.RejectCrypto? || op.RejectFiat?
    requires Waiting(op, obs, db) && i < |obs| && obs[i].locked
    ensures Ascends(op, obs, db, i)
  {
    assert Asked(op, obs, i) && Asked(op, obs, 0);
  }

  lemma TwoStepsAscend(op: Op, obs: seq<Observation>, db: Database, i: nat)
    requires op.ExecuteWithdrawFiat? || op.CreatePendingWithdrawal? || op.CreatePendingTopUp? || op.UpdateStatus? || op.UpdateWithdrawal?
    requires Waiting(op, obs, db) && i < |obs| && obs[i].locked
    ensures Ascends(op, obs, db, i)
  {
    assert Asked(op, obs, i);
  }

  // ---- circles ----

  function WantedRank(s: State, p: nat): Rank {
    if p in s.active && Next(s.active[p].op, s.active[p].obs).Access()
    then RankOf(s.db, Next(s.active[p].op, s.active[p].obs).row)
    else Rank(0, 0)
  }

  predicate AtMost(a: Rank, b: Rank) { a == b || Below(a, b) }

  predicate SwapOn(s: State, p: nat, w: Wallet) {
    p in s.active && s.active[p].op.ExecuteSwap? && s.active[p].op.wallet == w
  }

  /** Along a wait the wanted rank rises, or stays because the holder is a swap on that wallet. */
  lemma WaitRises(s: State, p: nat, q: nat)
    requires Healthy(s) && WaitsFor(s, p, q) && Blocked(s, q)
    ensures AtMost(WantedRank(s, p), WantedRank(s, q))
    ensures WantedRank(s, p) == WantedRank(s, q) ==> SwapOn(s, q, WantedRank(s, q).wallet)
  {
    var row :| Wants(s, p, row) && Holds(s.active[q].obs, row);
    var r :| WaitsFor(s, q, r);
    var next :| Wants(s, q, next) && Holds(s.active[r].obs, next);
    var Flight(op, obs) := s.active[q];
    assert !Holds(obs, next);
    var i :| 0 <= i < |obs| && obs[i].locked && obs[i].row == row;
    ProgramsAscend(op, obs, s.db, i);
  }

  /** c[i] waits for the next operation of the circle c. */
  ghost predicate Link(s: State, c: seq<nat>, i: nat)
    requires i < |c|
  {
    WaitsFor(s, c[i], c[(i + 1) % |c|])
  }

  ghost predicate Circle(s: State, c: seq<nat>) {
    c != [] && forall i :: 0 <= i < |c| ==> Link(s, c, i)
  }

  ghost predicate AllSwapsOn(s: State, c: seq<nat>, w: Wallet) {
    forall i :: 0 <= i < |c| ==> SwapOn(s, c[i], w)
  }

  /** The rank rises along link i, or stays because the next operation is a swap on that wallet. */
  ghost predicate Rises(s: State, c: seq<nat>, ranks: seq<Rank>, i: nat)
    requires i < |c| == |ranks|
  {
    var k := (i + 1) % |c|;
    AtMost(ranks[i], ranks[k]) && (ranks[i] == ranks[k] ==> SwapOn(s, c[k], ranks[k].wallet))
  }

  lemma CircleRanks(s: State, c: seq<nat>) returns (ranks: seq<Rank>)
    requires Healthy(s) && Circle(s, c)
    ensures |ranks| == |c| && forall i :: 0 <= i < |c| ==> Rises(s, c, ranks, i)
  {
    ranks := seq(|c|, i requires 0 <= i < |c| => WantedRank(s, c[i]));
    forall i | 0 <= i < |c| ensures Rises(s, c, ranks, i) {
      var k := (i + 1) % |c|;
      assert Link(s, c, i) && Link(s, c, k);
      WaitRises(s, c[i], c[k]);
    }
  }

  lemma Successor(k: nat, n: nat)
    requires k < n
    ensures (k + 1) % n == if k + 1 < n then k + 1 else 0
  {
  }

  lemma {:induction false} RanksClimb(s: State, c: seq<nat>, ranks: seq<Rank>, i: nat, j: nat)
    requires |ranks| == |c| && forall k :: 0 <= k < |c| ==> Rises(s, c, ranks, k)
    requires i <= j < |ranks|
    ensures AtMost(ranks[i], ranks[j])
    decreases j
  {
    if i < j {
      RanksClimb(s, c, ranks, i, j - 1);
      Successor(j - 1, |c|);
      assert Rises(s, c, ranks, j - 1);
    }
  }

  /** Ranks that never fall around a circle are all the same. */
  lemma RanksAgree(s: State, c: seq<nat>, ranks: seq<Rank>, i: nat)
    requires |ranks| == |c| && i < |c| && forall k | 0 <= k < |c| :: Rises(s, c, ranks, k)
    ensures ranks[i] == ranks[0]
  {
    var last := |c| - 1;
    Successor(last, |c|);
    assert Rises(s, c, ranks, last);
    RanksClimb(s, c, ranks, 0, i);
    RanksClimb(s, c, ranks, i, last);
  }

  /** A circle of waiting operations consists of swaps on one wallet, whatever else is in flight. */
  lemma OnlySwapsDeadlock(s: State, c: seq<nat>)
    requires Healthy(s) && Circle(s, c)
    ensures exists w :: AllSwapsOn(s, c, w)
  {
    var ranks := CircleRanks(s, c);
    forall i | 0 <= i < |c| ensures SwapOn(s, c[i], ranks[0].wallet) {
      RanksAgree(s, c, ranks, i);
      var before := if i == 0 then |c| - 1 else i - 1;
      RanksAgree(s, c, ranks, before);
      assert Rises(s, c, ranks, before);
    }
    assert AllSwapsOn(s, c, ranks[0].wallet);
  }

  // ---- what a circle looks like ----

  /** Swap a waits for the balance that swap b debits. */
  predicate Feeds(a: Op, b: Op) {
    a.ExecuteSwap? && b.ExecuteSwap? && a.wallet == b.wallet && a.to == b.from
  }

  /** Swaps of one wallet in which each one's target is the next one's source, all the way around. */
  ghost predicate RequestCycle(r: seq<Op>) {
    r != [] && forall i :: 0 <= i < |r| ==> FeedsNext(r, i)
  }

  predicate FeedsNext(r: seq<Op>, i: nat)
    requires i < |r|
  {
    Feeds(r[i], r[(i + 1) % |r|])
  }

  /** A swap that has to wait holds balance rows only. */
  lemma BlockedSwapHoldsBalances(s: State, q: nat, row: Row)
    requires Healthy(s) && q in s.active && s.active[q].op.ExecuteSwap? && Blocked(s, q) && Holds(s.active[q].obs, row)
    ensures row.Balance?
  {
    var Flight(op, obs) := s.active[q];
    var i :| 0 <= i < |obs| && obs[i].locked && obs[i].row == row;
    assert Asked(op, obs, i);
  }

  /** A swap that waits for a balance and is waited for holds its source, and waits for its target. */
  lemma WaitsForTarget(s: State, p: nat, q: nat, r: nat)
    requires Healthy(s) && WaitsFor(s, p, q) && WaitsFor(s, q, r) && Blocked(s, r)
    requires s.active[q].op.ExecuteSwap? && s.active[r].op.ExecuteSwap?
    ensures var op := s.active[q].op;
      Wants(s, q, Balance(Key(op.wallet, op.to))) && Wants(s, p, Balance(Key(op.wallet, op.from)))
  {
    var held :| Wants(s, p, held) && Holds(s.active[q].obs, held);
    var wanted :| Wants(s, q, wanted) && Holds(s.active[r].obs, wanted);
    BlockedSwapHoldsBalances(s, r, wanted);
    var Flight(op, obs) := s.active[q];
    var i :| 0 <= i < |obs| && obs[i].locked && obs[i].row == held;
    assert Asked(op, obs, i);
  }

  function Requests(s: State, c: seq<nat>): seq<Op>
    requires forall i | 0 <= i < |c| :: c[i] in s.active
  {
    seq(|c|, i requires 0 <= i < |c| => s.active[c[i]].op)
  }

  lemma CircleIsActive(s: State, c: seq<nat>)
    requires Circle(s, c)
    ensures forall i | 0 <= i < |c| :: c[i] in s.active
  {
    forall i | 0 <= i < |c| ensures c[i] in s.active {
      assert Link(s, c, i);
    }
  }

  /** Around every circle of waiting operations the requests form a cycle of swaps on one wallet. */
  lemma CircleIsCycle(s: State, c: seq<nat>)
    requires Healthy(s) && Circle(s, c)
    ensures (forall i | 0 <= i < |c| :: c[i] in s.active) && RequestCycle(Requests(s, c))
  {
    CircleIsActive(s, c);
    OnlySwapsDeadlock(s, c);
    var w :| AllSwapsOn(s, c, w);
    forall i | 0 <= i < |c| ensures FeedsNext(Requests(s, c), i) {
      CircleFeeds(s, c, i, w);
    }
  }

  lemma CircleFeeds(s: State, c: seq<nat>, i: nat, w: Wallet)
    requires Healthy(s) && Circle(s, c) && AllSwapsOn(s, c, w) && i < |c|
    ensures c[i] in s.active && c[(i + 1) % |c|] in s.active && Feeds(s.active[c[i]].op, s.active[c[(i + 1) % |c|]].op)
  {
    var n := |c|;
    var before, k := (i + n - 1) % n, (i + 1) % n;
    var after := (k + 1) % n;
    StepBack(i, n);
    assert Link(s, c, before) && Link(s, c, i) && Link(s, c, k) && Link(s, c, after);
    assert SwapOn(s, c[before], w) && SwapOn(s, c[i], w) && SwapOn(s, c[k], w) && SwapOn(s, c[after], w);
    WaitsForTarget(s, c[before], c[i], c[k]);
    WaitsForTarget(s, c[i], c[k], c[after]);
  }

  lemma StepBack(i: nat, n: nat)
    requires i < n
    ensures ((i + n - 1) % n + 1) % n == i
  {
    if i == 0 {
      assert (n - 1) % n == n - 1;
    } else {
      assert (i + n - 1) % n == i - 1;
    }
  }

  // ---- progress ----

  lemma {:induction false} SomeRepeat(walk: seq<nat>, nodes: set<nat>) returns (i: nat, j: nat)
    requires |walk| > |nodes| && forall k | 0 <= k < |walk| :: walk[k] in nodes
    ensures i < j < |walk| && walk[i] == walk[j]
    decreases |nodes|
  {
    var last := |walk| - 1;
    if k :| 0 <= k < last && walk[k] == walk[last] {
      return k, last;
    }
    i, j := SomeRepeat(walk[..last], nodes - {walk[last]});
  }

  ghost predicate AllBlocked(s: State) {
    forall p | p in s.active :: Blocked(s, p)
  }

  predicate Path(next: map<nat, nat>, walk: seq<nat>) {
    && (forall k | 0 <= k < |walk| :: walk[k] in next)
    && (forall k | 0 < k < |walk| :: next[walk[k - 1]] == walk[k])
  }

  lemma {:induction false} LongPath(next: map<nat, nat>, start: nat, n: nat) returns (walk: seq<nat>)
    requires next.Values <= next.Keys && start in next
    ensures |walk| == n + 1 && Path(next, walk)
  {
    if n == 0 {
      walk := [start];
    } else {
      var shorter := LongPath(next, start, n - 1);
      assert next[shorter[n - 1]] in next.Values;
      walk := shorter + [next[shorter[n - 1]]];
    }
  }

  predicate Loop(next: map<nat, nat>, c: seq<nat>) {
    c != [] && forall k | 0 <= k < |c| :: c[k] in next && next[c[k]] == c[(k + 1) % |c|]
  }

  /** Following a finite map that never leaves its keys ends in a loop. */
  lemma MapHasLoop(next: map<nat, nat>) returns (c: seq<nat>)
    requires next != map[] && next.Values <= next.Keys
    ensures Loop(next, c)
  {
    var start :| start in next;
    var walk := LongPath(next, start, |next.Keys|);
    var i, j := SomeRepeat(walk, next.Keys);
    c := walk[i..j];
    forall k | 0 <= k < |c| ensures c[k] in next && next[c[k]] == c[(k + 1) % |c|] {
      Successor(k, |c|);
      assert next[walk[i + k + 1 - 1]] == walk[i + k + 1];
    }
  }

  ghost function Holder(s: State, p: nat): nat {
    if Blocked(s, p) then var q: nat :| WaitsFor(s, p, q); q else p
  }

  lemma HolderIsActive(s: State, p: nat)
    requires Blocked(s, p)
    ensures Holder(s, p) in s.active && WaitsFor(s, p, Holder(s, p))
  {
  }

  ghost function Holders(s: State): map<nat, nat> {
    map p | p in s.active :: Holder(s, p)
  }

  lemma HoldersStayInside(s: State)
    requires AllBlocked(s)
    ensures Holders(s).Values <= Holders(s).Keys
  {
    forall p | p in s.active ensures Holder(s, p) in s.active {
      HolderIsActive(s, p);
    }
  }

  lemma LoopIsCircle(s: State, c: seq<nat>)
    requires AllBlocked(s) && Loop(Holders(s), c)
    ensures Circle(s, c)
  {
    forall k | 0 <= k < |c| ensures Link(s, c, k) {
      assert c[k] in Holders(s);
      HolderIsActive(s, c[k]);
    }
  }

  /** If every operation waits, some of them wait in a circle. */
  lemma AllBlockedMakesCircle(s: State) returns (c: seq<nat>)
    requires AllBlocked(s) && s.active != map[]
    ensures Circle(s, c)
  {
    HoldersStayInside(s);
    var some :| some in s.active;
    assert some in Holders(s);
    c := MapHasLoop(Holders(s));
    LoopIsCircle(s, c);
  }

  ghost function InFlightOps(s: State): set<Op> {
    set p | p in s.active :: s.active[p].op
  }

  lemma NoCircle(s: State, c: seq<nat>)
    requires Healthy(s) && CycleFree(InFlightOps(s))
    ensures !Circle(s, c)
  {
    if Circle(s, c) {
      CircleIsActive(s, c);
      assert forall i | 0 <= i < |c| :: s.active[c[i]].op in InFlightOps(s);
      assert forall op | op in Requests(s, c) :: op in InFlightOps(s);
      CircleIsCycle(s, c);
    }
  }

  /** Without a cycle among the requests in flight, no operations wait in a circle and some operation can take its next step. */
  lemma SomeoneCanStep(s: State) returns (p: nat)
    requires Healthy(s) && s.active != map[] && CycleFree(InFlightOps(s))
    ensures p in s.active && !Blocked(s, p) && Step(s, Advance(p)) != s
    ensures forall c :: !Circle(s, c)
  {
    forall c ensures !Circle(s, c) {
      NoCircle(s, c);
    }
    if AllBlocked(s) {
      var c := AllBlockedMakesCircle(s);
    }
    p :| p in s.active && !Blocked(s, p);
    UnblockedSteps(s, p);
  }

  lemma UnblockedSteps(s: State, p: nat)
    requires p in s.active && !Blocked(s, p)
    ensures Step(s, Advance(p)) != s
  {
    var Flight(op, obs) := s.active[p];
    var a := Next(op, obs);
    var after := Step(s, Advance(p));
    if a.Access() {
      if Takes(a, Look(s.db, a.row)) {
        assert Wants(s, p, a.row);
        forall q | q in s.active && q != p ensures !Holds(s.active[q].obs, a.row) {
          assert !WaitsFor(s, p, q);
        }
      }
      assert |after.active[p].obs| == |obs| + 1;
    } else {
      assert p !in after.active;
    }
  }

  // ---- when requests can deadlock ----

  /** No wallet's swaps lead from asset to asset and back. */
  ghost predicate CycleFree(ops: set<Op>) {
    forall r: seq<Op> | (forall op | op in r :: op in ops) :: !RequestCycle(r)
  }

  /** Only these operations are begun, any number of times. */
  ghost predicate Begins(events: seq<Event>, ops: set<Op>) {
    forall e | e in events && e.Begin? :: e.op in ops
  }

  lemma {:induction false} ActiveWereBegun(db: Database, events: seq<Event>, ops: set<Op>)
    requires Begins(events, ops)
    ensures forall p | p in Run(db, events).active :: Run(db, events).active[p].op in ops
    decreases |events|
  {
    if events == [] {
    } else {
      var before := events[..|events| - 1];
      assert Begins(before, ops) by { assert forall e | e in before :: e in events; }
      ActiveWereBegun(db, before, ops);
      assert events[|events| - 1] in events;
    }
  }

  /** A settlement's row is there and has no source wallet, as a top-up has none. */
  predicate NamesTopUp(db: Database, op: Op) {
    op.SettleTopUp? ==> op.id in db.txs && db.txs[op.id].source.None?
  }

  /** Every settlement of the run names such a row when it begins: the one its handler has read. */
  ghost predicate SettlesRead(db: Database, events: seq<Event>)
    decreases |events|
  {
    events == [] ||
    var before, last := events[..|events| - 1], events[|events| - 1];
    SettlesRead(db, before) && (last.Begin? ==> NamesTopUp(Run(db, before).db, last.op))
  }

  ghost predicate TopUpsInFlight(s: State) {
    forall p | p in s.active :: NamesTopUp(s.db, s.active[p].op)
  }

  lemma {:induction false} SettlesInFlight(db: Database, events: seq<Event>)
    requires SettlesRead(db, events)
    ensures TopUpsInFlight(Run(db, events))
    decreases |events|
  {
    if events == [] {
    } else {
      var before, e := events[..|events| - 1], events[|events| - 1];
      SettlesInFlight(db, before);
      RunKeepsInv(db, before);
      StepKeepsTopUps(db, Run(db, before), e);
    }
  }

  lemma StepKeepsTopUps(init: Database, s: State, e: Event)
    requires Inv(init, s) && TopUpsInFlight(s) && (e.Begin? ==> NamesTopUp(s.db, e.op))
    ensures TopUpsInFlight(Step(s, e))
  {
    var after := Step(s, e);
    StepIsAtomic(init, s, e);
    forall p | p in after.active ensures NamesTopUp(after.db, after.active[p].op) {
      var op := after.active[p].op;
      assert NamesTopUp(s.db, op) by { assert p in s.active ==> NamesTopUp(s.db, s.active[p].op); }
      if op.SettleTopUp? && Committing(s, e).Some? {
        CommitKeepsRow(Committing(s, e).value, s.db, after.db, op.id);
      }
    }
  }

  lemma ReachableIsHealthy(db: Database, events: seq<Event>)
    requires SettlesRead(db, events)
    ensures Healthy(Run(db, events))
  {
    RunKeepsInv(db, events);
    SettlesInFlight(db, events);
    var s := Run(db, events);
    forall p | p in s.active && s.active[p].op.SettleTopUp?
      ensures s.active[p].op.id in s.db.txs ==> s.db.txs[s.active[p].op.id].source.None?
    {
      assert NamesTopUp(s.db, s.active[p].op);
    }
  }

  /** However requests without a cycle interleave, no circle of waiting closes and the run never gets stuck. */
  lemma RunsNeverStick(db: Database, events: seq<Event>, ops: set<Op>) returns (p: nat)
    requires Begins(events, ops) && SettlesRead(db, events) && CycleFree(ops)
    ensures var s := Run(db, events);
      && (forall c :: !Circle(s, c))
      && (s.active != map[] ==> p in s.active && !Blocked(s, p) && Step(s, Advance(p)) != s)
  {
    var s := Run(db, events);
    ReachableIsHealthy(db, events);
    ActiveWereBegun(db, events, ops);
    p := 0;
    if s.active != map[] {
      p := SomeoneCanStep(s);
    } else {
      forall c | Circle(s, c) ensures c[0] in s.active {
        CircleIsActive(s, c);
      }
    }
  }

  /** The accesses that operations in flight have left, at most; ShortPrograms bounds each. */
  function Todo(s: State): set<(nat, nat)> {
    set p, k | p in s.active && |s.active[p].obs| <= k < 6 :: (p, k)
  }

  lemma StepShrinksTodo(s: State, p: nat)
    requires p in s.active && Step(s, Advance(p)) != s && |s.active[p].obs| < 6
    ensures Todo(Step(s, Advance(p))) < Todo(s)
    ensures forall q | q in Step(s, Advance(p)).active :: q in s.active
  {
    var after := Step(s, Advance(p));
    var n := |s.active[p].obs|;
    assert p in after.active ==> |after.active[p].obs| == n + 1;
    assert (p, n) in Todo(s) && (p, n) !in Todo(after);
    forall e | e in Todo(after) ensures e in Todo(s) {
      assert e.0 == p || after.active[e.0] == s.active[e.0];
    }
  }

  ghost predicate AllAdvance(events: seq<Event>) {
    forall e | e in events :: e.Advance?
  }

  lemma {:induction false} FewAccesses(db: Database, events: seq<Event>)
    ensures forall p | p in Run(db, events).active :: |Run(db, events).active[p].obs| < 6
    decreases |events|
  {
    if events == [] {
    } else {
      var before, e := events[..|events| - 1], events[|events| - 1];
      FewAccesses(db, before);
      var s := Run(db, before);
      if e.Advance? && e.p in s.active && Next(s.active[e.p].op, s.active[e.p].obs).Access() {
        ShortPrograms(s.active[e.p].op, s.active[e.p].obs);
      }
    }
  }

  /** From wherever such a run has come, its operations can all be brought to an end, one step after the other. */
  lemma {:induction false} RunsCanFinish(db: Database, events: seq<Event>, ops: set<Op>) returns (more: seq<Event>)
    requires Begins(events, ops) && SettlesRead(db, events) && CycleFree(ops)
    ensures AllAdvance(more) && Run(db, events + more).active == map[]
    decreases Todo(Run(db, events))
  {
    var s := Run(db, events);
    if s.active == map[] {
      more := [];
      assert events + more == events;
    } else {
      var p := RunsNeverStick(db, events, ops);
      var next := events + [Advance(p)];
      FewAccesses(db, events);
      RunOneMore(db, events, Advance(p));
      StepShrinksTodo(s, p);
      assert next[..|next| - 1] == events;
      var rest := RunsCanFinish(db, next, ops);
      more := [Advance(p)] + rest;
      assert events + more == next + rest;
    }
  }

  // ---- every cycle of requests does deadlock ----

  function SourceLock(db: Database, op: Op): Observation
    requires op.ExecuteSwap? && Key(op.wallet, op.from) in db.balances
  {
    Observation(Balance(Key(op.wallet, op.from)), Some(Amount(db.balances[Key(op.wallet, op.from)])), true)
  }

  /** The swap's source exists and covers its debit, and its assets differ: the guards of the usecase. */
  predicate Covered(db: Database, op: Op) {
    && op.ExecuteSwap? && op.from != op.to
    && var source := Key(op.wallet, op.from);
    && source in db.balances && op.debit <= db.balances[source]
  }

  ghost predicate AllCovered(db: Database, r: seq<Op>) {
    forall i | 0 <= i < |r| :: Covered(db, r[i])
  }

  ghost predicate DistinctSources(r: seq<Op>) {
    forall i, j | 0 <= i < j < |r| :: r[i].ExecuteSwap? && r[j].ExecuteSwap? && r[i].from != r[j].from
  }

  /** All of r have begun, and the first k of them have locked their source. */
  ghost function Locked(db: Database, r: seq<Op>, k: nat): State
    requires k <= |r| && AllCovered(db, r)
  {
    State(db, map i: nat | i < |r| :: i := assert Covered(db, r[i]); Flight(r[i], if i < k then [SourceLock(db, r[i])] else []), [])
  }

  function BeginAll(r: seq<Op>): (events: seq<Event>)
    ensures |events| == |r| && forall i | 0 <= i < |r| :: events[i] == Begin(i, r[i])
  {
    seq(|r|, i requires 0 <= i < |r| => Begin(i, r[i]))
  }

  function AdvanceAll(k: nat): (events: seq<Event>)
    ensures |events| == k && forall i | 0 <= i < k :: events[i] == Advance(i)
  {
    seq(k, i requires 0 <= i < k => Advance(i))
  }

  lemma {:induction false} AllBegin(db: Database, r: seq<Op>)
    requires AllCovered(db, r)
    ensures Run(db, BeginAll(r)) == Locked(db, r, 0)
    decreases |r|
  {
    if r == [] {
      assert Locked(db, r, 0).active == map[];
    } else {
      var n := |r| - 1;
      assert BeginAll(r) == BeginAll(r[..n]) + [Begin(n, r[n])];
      AllBegin(db, r[..n]);
      RunOneMore(db, BeginAll(r[..n]), Begin(n, r[n]));
      assert Covered(db, r[n]);
      assert Locked(db, r, 0).active == Locked(db, r[..n], 0).active[n := Flight(r[n], [])];
    }
  }

  lemma {:induction false} AllLock(db: Database, r: seq<Op>, k: nat)
    requires AllCovered(db, r) && DistinctSources(r) && k <= |r|
    ensures Run(db, BeginAll(r) + AdvanceAll(k)) == Locked(db, r, k)
    decreases k
  {
    if k == 0 {
      assert BeginAll(r) + AdvanceAll(0) == BeginAll(r);
      AllBegin(db, r);
    } else {
      var prior := BeginAll(r) + AdvanceAll(k - 1);
      assert BeginAll(r) + AdvanceAll(k) == prior + [Advance(k - 1)];
      AllLock(db, r, k - 1);
      RunOneMore(db, prior, Advance(k - 1));
      OneLocks(db, r, k - 1);
    }
  }

  lemma OneLocks(db: Database, r: seq<Op>, k: nat)
    requires AllCovered(db, r) && DistinctSources(r) && k < |r|
    ensures Step(Locked(db, r, k), Advance(k)) == Locked(db, r, k + 1)
  {
    var s, op := Locked(db, r, k), r[k];
    assert Covered(db, op);
    forall q | q in s.active && q != k ensures !Holds(s.active[q].obs, Balance(Key(op.wallet, op.from))) {
      assert Covered(db, r[q]);
    }
    SwapLocksItsSource(s, k);
    assert Locked(db, r, k + 1).active == s.active[k := Flight(op, [SourceLock(db, op)])];
  }

  lemma SwapLocksItsSource(s: State, p: nat)
    requires p in s.active && s.active[p].op.ExecuteSwap? && s.active[p].obs == []
    requires Key(s.active[p].op.wallet, s.active[p].op.from) in s.db.balances
    requires !HeldByOther(s.active, p, Balance(Key(s.active[p].op.wallet, s.active[p].op.from)))
    ensures Step(s, Advance(p)) == s.(active := s.active[p := Flight(s.active[p].op, [SourceLock(s.db, s.active[p].op)])])
  {
    var key := Key(s.active[p].op.wallet, s.active[p].op.from);
    var a := Next(s.active[p].op, s.active[p].obs);
    assert a == Select(Balance(key));
    assert Look(s.db, a.row) == Some(Amount(s.db.balances[key]));
    assert [] + [SourceLock(s.db, s.active[p].op)] == [SourceLock(s.db, s.active[p].op)];
  }

  /** Swap i waits for the source of the next one. */
  lemma LockedWait(db: Database, r: seq<Op>, i: nat)
    requires AllCovered(db, r) && DistinctSources(r) && RequestCycle(r) && i < |r|
    ensures WaitsFor(Locked(db, r, |r|), i, (i + 1) % |r|)
  {
    var s, k := Locked(db, r, |r|), (i + 1) % |r|;
    assert FeedsNext(r, i) && Covered(db, r[i]) && Covered(db, r[k]);
    var row := Balance(Key(r[k].wallet, r[k].from));
    assert s.active[k].obs[0].row == row && Holds(s.active[k].obs, row);
    assert Wants(s, i, row);
  }

  /** A cycle of covered swaps with distinct sources: begin all and advance each once, and they wait in a circle. */
  lemma CycleDeadlocks(db: Database, r: seq<Op>)
    requires AllCovered(db, r) && DistinctSources(r) && RequestCycle(r)
    ensures Circle(Run(db, BeginAll(r) + AdvanceAll(|r|)), seq(|r|, i => i))
  {
    AllLock(db, r, |r|);
    var c: seq<nat> := seq(|r|, i => i);
    forall i | 0 <= i < |c| ensures Link(Locked(db, r, |r|), c, i) {
      LockedWait(db, r, i);
    }
  }

  lemma {:induction false} OneWallet(r: seq<Op>, i: nat)
    requires RequestCycle(r) && i < |r|
    ensures r[i].ExecuteSwap? && r[0].ExecuteSwap? && r[i].wallet == r[0].wallet
  {
    assert FeedsNext(r, i);
    if i > 0 {
      OneWallet(r, i - 1);
      Successor(i - 1, |r|);
      assert FeedsNext(r, i - 1);
    }
  }

  /** Every cycle contains one with distinct sources. */
  lemma {:induction false} SimpleCycle(r: seq<Op>) returns (c: seq<Op>)
    requires RequestCycle(r)
    ensures RequestCycle(c) && DistinctSources(c) && forall op | op in c :: op in r
    decreases |r|
  {
    forall i | 0 <= i < |r| ensures r[i].ExecuteSwap? {
      OneWallet(r, i);
    }
    if i, j :| 0 <= i < j < |r| && r[i].from == r[j].from {
      var shorter := Chord(r, i, j);
      c := SimpleCycle(shorter);
    } else {
      c := r;
    }
  }

  lemma Chord(r: seq<Op>, i: nat, j: nat) returns (c: seq<Op>)
    requires RequestCycle(r) && i < j < |r|
    requires r[i].ExecuteSwap? && r[j].ExecuteSwap? && r[i].from == r[j].from
    ensures RequestCycle(c) && c == r[i..j]
  {
    c := r[i..j];
    forall k | 0 <= k < |c| ensures FeedsNext(c, k) {
      ChordLink(r, i, j, k);
    }
  }

  lemma ChordLink(r: seq<Op>, i: nat, j: nat, k: nat)
    requires RequestCycle(r) && i < j < |r| && k < j - i
    requires r[i].ExecuteSwap? && r[j].ExecuteSwap? && r[i].from == r[j].from
    ensures FeedsNext(r[i..j], k)
  {
    assert FeedsNext(r, i + k);
    Successor(i + k, |r|);
    Successor(k, j - i);
    OneWallet(r, i);
    OneWallet(r, j);
  }

  lemma {:induction false} NoSettlements(db: Database, events: seq<Event>)
    requires forall e | e in events && e.Begin? :: !e.op.SettleTopUp?
    ensures SettlesRead(db, events)
    decreases |events|
  {
    if events == [] {
    } else {
      var before := events[..|events| - 1];
      assert events[|events| - 1] in events && forall e | e in before :: e in events;
      NoSettlements(db, before);
    }
  }

  lemma SwapsSettleNothing(db: Database, events: seq<Event>, c: seq<Op>)
    requires events == BeginAll(c) + AdvanceAll(|c|) && AllCovered(db, c)
    ensures SettlesRead(db, events)
  {
    forall e | e in events && e.Begin? ensures !e.op.SettleTopUp? {
      var i :| 0 <= i < |events| && events[i] == e;
      assert i < |c| && Covered(db, c[i]);
    }
    NoSettlements(db, events);
  }

  /** Some interleaving of these operations ends in a circle of waiting. */
  ghost predicate CanDeadlock(db: Database, ops: set<Op>) {
    exists events, c :: Begins(events, ops) && SettlesRead(db, events) && Circle(Run(db, events), c)
  }

  /**
    Operations of any kind can deadlock if and only if some wallet's swaps among
    them lead from asset to asset and back. A caller can tell from the requests.
   */
  lemma DeadlockIff(db: Database, ops: set<Op>)
    requires forall op | op in ops && op.ExecuteSwap? :: Covered(db, op)
    ensures CanDeadlock(db, ops) <==> !CycleFree(ops)
  {
    if CycleFree(ops) {
      forall events, c | Begins(events, ops) && SettlesRead(db, events) ensures !Circle(Run(db, events), c) {
        var p := RunsNeverStick(db, events, ops);
      }
    } else {
      var r: seq<Op> :| (forall op | op in r :: op in ops) && RequestCycle(r);
      var c := SimpleCycle(r);
      forall i | 0 <= i < |c| ensures Covered(db, c[i]) {
        assert FeedsNext(c, i) && c[i] in c;
      }
      CycleDeadlocks(db, c);
      var events := BeginAll(c) + AdvanceAll(|c|);
      assert Begins(events, ops) by {
        forall e | e in events && e.Begin? ensures e.op in ops {
          var i :| 0 <= i < |events| && events[i] == e;
          assert i < |c| && c[i] in c;
        }
      }
      SwapsSettleNothing(db, events, c);
    }
  }

  /** Settling a row that has a source wallet is not covered for good reason: it can deadlock with the row's rejection. */
  lemma SettledWithdrawalDeadlocks(db: Database, id: TxId, w: Wallet, amount: real)
    requires id in db.txs && db.txs[id].status == Pending && db.txs[id].source == Some(w) && db.txs[id].asset == IDR
    requires Key(w, IDR) in db.balances
    ensures Circle(Run(db, [Begin(0, SettleTopUp(id, w, amount)), Begin(1, RejectFiat(id)), Advance(0), Advance(1)]), [0, 1])
  {
    var settle, reject := SettleTopUp(id, w, amount), RejectFiat(id);
    var balance := Observation(Balance(Key(w, IDR)), Some(Amount(db.balances[Key(w, IDR)])), true);
    var record := Observation(Record(id), Some(Entry(db.txs[id])), true);
    TwoLock(db, settle, balance, reject, record);
    SettleAndRejectWait(InTwo(db, settle, [balance], reject, [record]), id, w, balance, record);
  }

  /** Two operations begin, and each locks the row it selects first. */
  lemma TwoLock(db: Database, a: Op, o: Observation, b: Op, u: Observation)
    requires !a.OpenWallet? && Next(a, []) == Select(o.row) && o.seen == Look(db, o.row) && o.seen.Some? && o.locked
    requires !b.OpenWallet? && Next(b, []) == Select(u.row) && u.seen == Look(db, u.row) && u.seen.Some? && u.locked
    requires o.row != u.row
    ensures Run(db, [Begin(0, a), Begin(1, b), Advance(0), Advance(1)]) == InTwo(db, a, [o], b, [u])
  {
    var e1, e2, e3, e4 := Begin(0, a), Begin(1, b), Advance(0), Advance(1);
    assert [e1, e2] + [e3] == [e1, e2, e3] && [e1, e2, e3] + [e4] == [e1, e2, e3, e4];
    TwoBegin(db, a, b);
    RunOneMore(db, [e1, e2], e3);
    RunOneMore(db, [e1, e2, e3], e4);
    OneLock(InTwo(db, a, [], b, []), 0, o);
    assert InTwo(db, a, [], b, []).active[0 := Flight(a, [o])] == InTwo(db, a, [o], b, []).active;
    assert !Holds([o], u.row);
    OneLock(InTwo(db, a, [o], b, []), 1, u);
    assert InTwo(db, a, [o], b, []).active[1 := Flight(b, [u])] == InTwo(db, a, [o], b, [u]).active;
  }

  /** Two operations in flight, and what they have seen. */
  function InTwo(db: Database, a: Op, seenByA: seq<Observation>, b: Op, seenByB: seq<Observation>): State {
    State(db, map[0 := Flight(a, seenByA), 1 := Flight(b, seenByB)], [])
  }

  lemma TwoBegin(db: Database, a: Op, b: Op)
    requires !a.OpenWallet? && !b.OpenWallet?
    ensures Run(db, [Begin(0, a), Begin(1, b)]) == InTwo(db, a, [], b, [])
  {
    var e1, e2 := Begin(0, a), Begin(1, b);
    assert [] + [e1] == [e1] && [e1] + [e2] == [e1, e2];
    RunOneMore(db, [], e1);
    RunOneMore(db, [e1], e2);
  }

  lemma OneLock(s: State, p: nat, o: Observation)
    requires p in s.active && s.active[p].obs == [] && Next(s.active[p].op, []) == Select(o.row)
    requires o.seen == Look(s.db, o.row) && o.seen.Some? && o.locked && !HeldByOther(s.active, p, o.row)
    ensures Step(s, Advance(p)) == s.(active := s.active[p := Flight(s.active[p].op, [o])])
  {
    assert [] + [o] == [o];
  }

  lemma SettleAndRejectWait(s: State, id: TxId, w: Wallet, balance: Observation, record: Observation)
    requires 0 in s.active && 1 in s.active && s.active[0].op.SettleTopUp? && s.active[0].op.id == id && s.active[1].op == RejectFiat(id)
    requires s.active[0].obs == [balance] && s.active[1].obs == [record]
    requires id in s.db.txs && s.db.txs[id].status == Pending && s.db.txs[id].source == Some(w) && s.db.txs[id].asset == IDR
    requires balance.row == Balance(Key(w, IDR)) && balance.seen.Some? && balance.locked && Look(s.db, balance.row).Some?
    requires record == Observation(Record(id), Some(Entry(s.db.txs[id])), true)
    ensures Circle(s, [0, 1])
  {
    assert s.active[0].obs[0].row == balance.row && s.active[1].obs[0].row == record.row;
    assert Wants(s, 0, record.row) && Holds(s.active[1].obs, record.row);
    assert Wants(s, 1, balance.row) && Holds(s.active[0].obs, balance.row);
    var c: seq<nat> := [0, 1];
    assert Link(s, c, 0) && Link(s, c, 1);
  }

  /** Three swaps around the three assets deadlock, although no two of them are opposite. */
  lemma ThreeSwapsDeadlock(db: Database, w: Wallet, a: Op, b: Op, c: Op)
    requires a.ExecuteSwap? && b.ExecuteSwap? && c.ExecuteSwap? && a.wallet == b.wallet == c.wallet == w
    requires a.from == IDR && a.to == USDT && b.from == USDT && b.to == USDC && c.from == USDC && c.to == IDR
    requires Covered(db, a) && Covered(db, b) && Covered(db, c)
    ensures CanDeadlock(db, {a, b, c})
  {
    var r := [a, b, c];
    assert FeedsNext(r, 0) && FeedsNext(r, 1) && FeedsNext(r, 2);
    assert RequestCycle(r) && forall op | op in r :: op in {a, b, c};
    DeadlockIff(db, {a, b, c});
  }
}
