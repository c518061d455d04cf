/**
  Alone, an operation ends as its atomic form does. Operations that fail beside
  others although they would succeed alone: exactly the deposits that have to
  create their balance row.
 */
module Overtaking {
  import opened Options
  import opened Ledger
  import opened Locking

  /** The next read of p makes it give up, on tables where running it alone would commit. */
  predicate FailsInVain(db: Database, events: seq<Event>, p: nat, op: Op) {
    var s := Run(db, events);
    var after := Step(s, Advance(p));
    && p in s.active && s.active[p].op == op && p in after.active && after != s
    && Next(op, after.active[p].obs).Abort? && Atomic(op, s.db).Committed?
  }

  /** Some interleaving with some other operations makes op fail in vain. */
  ghost predicate CanFailInVain(db: Database, op: Op) {
    exists events, p :: FailsInVain(db, events, p, op)
  }

  // ---- alone, an operation ends as its atomic form does ----

  /** Everything read, under a lock or not, is what the tables hold. */
  ghost predicate AllCurrent(db: Database, obs: seq<Observation>) {
    forall i | 0 <= i < |obs| :: obs[i].seen == Look(db, obs[i].row)
  }

  /** Flight 0 has ended as Atomic says. */
  function Ended(db: Database, op: Op): State {
    match Atomic(op, db)
    case Committed(after) => State(after, map[], [op])
    case RolledBack(_) => State(db, map[], [])
  }

  function Lone(db: Database, op: Op, obs: seq<Observation>): State {
    State(db, map[0 := Flight(op, obs)], [])
  }

  lemma NobodyOvertakes(db: Database, op: Op, obs: seq<Observation>)
    requires Follows(op, obs) && AllCurrent(db, obs) && Next(op, obs).Abort?
    ensures !Overtaken(op, obs, db)
  {
    if op.CreditDeposit? && |obs| > 0 {
      assert Asked(op, obs, 0);
      if |obs| > 1 {
        assert Asked(op, obs, 1);
      }
    }
  }

  lemma LoneStep(db: Database, op: Op, obs: seq<Observation>) returns (more: seq<Observation>)
    requires !op.OpenWallet? && Follows(op, obs) && AllCurrent(db, obs)
    ensures
      var after := Step(Lone(db, op, obs), Advance(0));
      if Next(op, obs).Access() then
        after == Lone(db, op, more) && |more| == |obs| + 1 && Follows(op, more) && AllCurrent(db, more)
      else after == Ended(db, op)
  {
    var s := Lone(db, op, obs);
    var next := Next(op, obs);
    more := obs;
    assert s.active - {0} == map[];
    match next {
      case Commit(_) =>
        CommitIsAtomic(op, obs, db);
        assert [] + [op] == [op];
      case Abort(_) =>
        AbortIsAtomic(op, obs, db);
        NobodyOvertakes(db, op, obs);
      case _ =>
        var o := Observation(next.row, Look(db, next.row), Takes(next, Look(db, next.row)));
        more := obs + [o];
        FollowsOneMore(op, obs, o);
        assert !HeldByOther(s.active, 0, next.row);
        assert s.active[0 := Flight(op, more)] == Lone(db, op, more).active;
    }
  }

  /** From any point of its program. */
  lemma {:induction false} LoneRunEnds(db: Database, op: Op, obs: seq<Observation>, events: seq<Event>) returns (all: seq<Event>)
    requires !op.OpenWallet? && Follows(op, obs) && AllCurrent(db, obs) && |obs| <= 5
    requires Run(db, events) == Lone(db, op, obs)
    ensures Run(db, all) == Ended(db, op)
    ensures events <= all && forall i | |events| <= i < |all| :: all[i] == Advance(0)
    decreases 5 - |obs|
  {
    var next := events + [Advance(0)];
    RunOneMore(db, events, Advance(0));
    var more := LoneStep(db, op, obs);
    if Next(op, obs).Access() {
      ShortPrograms(op, obs);
      all := LoneRunEnds(db, op, more, next);
      assert all[..|next|] == next;
      assert all[|events|] == next[|events|];
    } else {
      all := next;
    }
  }

  /** Begun with nothing beside it and advanced step by step, every operation commits its atomic effect, or ends without a trace. */
  lemma AloneIsAtomic(db: Database, op: Op) returns (events: seq<Event>)
    requires !op.OpenWallet?
    ensures events != [] && events[0] == Begin(0, op) && forall i | 1 <= i < |events| :: events[i] == Advance(0)
    ensures Run(db, events) == Ended(db, op)
  {
    var start := [Begin(0, op)];
    assert start[..0] == [];
    assert map[][0 := Flight(op, [])] == map[0 := Flight(op, [])];
    events := LoneRunEnds(db, op, [], start);
    assert start <= events && events[0] == start[0];
  }

  // ---- only deposits without a balance row ----

  /** A balance row that was there at the start is there, and is seen, ever after. */
  ghost predicate Seen(s: State, k: Key) {
    && k in s.db.balances
    && forall p, i | p in s.active && 0 <= i < |s.active[p].obs| && s.active[p].obs[i].row == Balance(k) ::
         s.active[p].obs[i].seen.Some?
  }

  lemma {:induction false} PresentStaysSeen(db: Database, events: seq<Event>, k: Key)
    requires k in db.balances
    ensures Seen(Run(db, events), k)
    decreases |events|
  {
    if events == [] {
    } else {
      var before, e := events[..|events| - 1], events[|events| - 1];
      PresentStaysSeen(db, before, k);
      RunKeepsInv(db, before);
      StepKeepsSeen(db, Run(db, before), e, k);
    }
  }

  lemma StepKeepsSeen(init: Database, s: State, e: Event, k: Key)
    requires Inv(init, s) && Seen(s, k)
    ensures Seen(Step(s, e), k)
  {
    StepIsAtomic(init, s, e);
    if Committing(s, e).Some? {
      CommitAddsOnly(Committing(s, e).value, s.db, Step(s, e).db);
    }
  }

  lemma OnlyNewBalances(db: Database, events: seq<Event>, p: nat, op: Op)
    requires FailsInVain(db, events, p, op)
    ensures op.CreditDeposit? && Key(op.wallet, op.asset) !in db.balances
  {
    var s := Run(db, events);
    var after := Step(s, Advance(p));
    AbortsAreJust(db, events, p);
    RunKeepsInv(db, events);
    var obs := after.active[p].obs;
    assert Overtaken(op, obs, s.db) && |obs| == 3;
    assert obs[..2] == s.active[p].obs && Asked(op, s.active[p].obs, 1);
    var k := Key(op.wallet, op.asset);
    assert s.active[p].obs[1].row == Balance(k) && s.active[p].obs[1].seen.None?;
    if k in db.balances {
      PresentStaysSeen(db, events, k);
    }
  }

  // ---- and all of those ----

  /** Two deposits that both look for the balance row; the first one then creates it and commits. */
  function Race(op: Op, rival: Op): seq<Event> {
    [Begin(0, rival), Begin(1, op), Advance(0), Advance(0), Advance(1), Advance(1), Advance(0), Advance(0), Advance(0), Advance(0)]
  }

  /** Deposits of different transactions to one balance, each of which would commit alone. */
  predicate Rivals(db: Database, op: Op, rival: Op) {
    && op.CreditDeposit? && rival.CreditDeposit? && op.wallet == rival.wallet && op.asset == rival.asset
    && op.id != rival.id && op.hash != rival.hash
    && Atomic(op, db).Committed? && Atomic(rival, db).Committed?
  }

  /** What a deposit has seen when it has found no hash and no balance row. */
  function Lookups(op: Op): seq<Observation>
    requires op.CreditDeposit?
  {
    [Observation(Index(TxHash(op.hash)), None, false), Observation(Balance(Key(op.wallet, op.asset)), None, false)]
  }

  function Missing(row: Row): Observation { Observation(row, None, true) }

  /** The rival is flight 0, the deposit it overtakes flight 1. */
  function Both(db: Database, rival: Op, seen: seq<Observation>, op: Op, obs: seq<Observation>): State {
    State(db, map[0 := Flight(rival, seen), 1 := Flight(op, obs)], [])
  }

  lemma Unroll(db: Database, events: seq<Event>, n: nat)
    requires 0 < n <= |events|
    ensures Run(db, events[..n]) == Step(Run(db, events[..n - 1]), events[n - 1])
  {
    assert events[..n][..n - 1] == events[..n - 1];
  }

  lemma BothBegin(db: Database, op: Op, rival: Op)
    requires op.CreditDeposit? && rival.CreditDeposit?
    ensures Run(db, Race(op, rival)[..2]) == Both(db, rival, [], op, [])
  {
    var race := Race(op, rival);
    Unroll(db, race, 1);
    Unroll(db, race, 2);
    assert race[..0] == [];
  }

  /** Flight p looks for its hash and its balance, and locks neither. */
  lemma LookTwice(s: State, p: nat, op: Op)
    requires p in s.active && s.active[p] == Flight(op, []) && op.CreditDeposit?
    requires TxHash(op.hash) !in s.db.keys && Key(op.wallet, op.asset) !in s.db.balances
    ensures Step(Step(s, Advance(p)), Advance(p)) == s.(active := s.active[p := Flight(op, Lookups(op))])
  {
    var first := Lookups(op)[..1];
    var t := Step(s, Advance(p));
    assert [] + first == first && t.active[p] == Flight(op, first);
    assert first + Lookups(op)[1..] == Lookups(op);
  }

  lemma RivalLooks(db: Database, op: Op, rival: Op)
    requires Rivals(db, op, rival) && Key(op.wallet, op.asset) !in db.balances
    ensures Step(Step(Both(db, rival, [], op, []), Advance(0)), Advance(0)) == Both(db, rival, Lookups(rival), op, [])
  {
    LookTwice(Both(db, rival, [], op, []), 0, rival);
    assert Both(db, rival, [], op, []).active[0 := Flight(rival, Lookups(rival))] == Both(db, rival, Lookups(rival), op, []).active;
  }

  lemma LoserLooks(db: Database, op: Op, rival: Op)
    requires Rivals(db, op, rival) && Key(op.wallet, op.asset) !in db.balances
    ensures Step(Step(Both(db, rival, Lookups(rival), op, []), Advance(1)), Advance(1)) == Both(db, rival, Lookups(rival), op, Lookups(op))
  {
    LookTwice(Both(db, rival, Lookups(rival), op, []), 1, op);
    assert Both(db, rival, Lookups(rival), op, []).active[1 := Flight(op, Lookups(op))]
      == Both(db, rival, Lookups(rival), op, Lookups(op)).active;
  }

  lemma TwoMore(db: Database, events: seq<Event>, n: nat, s: State, e: Event, t: State)
    requires n + 2 <= |events| && events[n] == e && events[n + 1] == e
    requires Run(db, events[..n]) == s && Step(Step(s, e), e) == t
    ensures Run(db, events[..n + 2]) == t
  {
    Unroll(db, events, n + 1);
    Unroll(db, events, n + 2);
  }

  lemma FirstLooks(db: Database, op: Op, rival: Op)
    requires Rivals(db, op, rival) && Key(op.wallet, op.asset) !in db.balances
    ensures Run(db, Race(op, rival)[..4]) == Both(db, rival, Lookups(rival), op, [])
  {
    BothBegin(db, op, rival);
    RivalLooks(db, op, rival);
    TwoMore(db, Race(op, rival), 2, Both(db, rival, [], op, []), Advance(0), Both(db, rival, Lookups(rival), op, []));
  }

  lemma BothLook(db: Database, op: Op, rival: Op)
    requires Rivals(db, op, rival) && Key(op.wallet, op.asset) !in db.balances
    ensures Run(db, Race(op, rival)[..6]) == Both(db, rival, Lookups(rival), op, Lookups(op))
  {
    FirstLooks(db, op, rival);
    LoserLooks(db, op, rival);
    TwoMore(db, Race(op, rival), 4, Both(db, rival, Lookups(rival), op, []), Advance(1),
            Both(db, rival, Lookups(rival), op, Lookups(op)));
  }

  /** The rival takes a row that is not there; the other deposit holds none. */
  lemma RivalTakes(db: Database, rival: Op, seen: seq<Observation>, op: Op, row: Row)
    requires op.CreditDeposit? && Next(rival, seen) == Insert(row) && Look(db, row).None?
    ensures Step(Both(db, rival, seen, op, Lookups(op)), Advance(0))
      == Both(db, rival, seen + [Missing(row)], op, Lookups(op))
  {
    var s := Both(db, rival, seen, op, Lookups(op));
    assert !Holds(Lookups(op), row);
    assert !HeldByOther(s.active, 0, row);
    assert s.active[0 := Flight(rival, seen + [Missing(row)])] == Both(db, rival, seen + [Missing(row)], op, Lookups(op)).active;
  }

  /** What the rival has seen when it has created the row, inserted its record and, at last, taken its hash. */
  function Taken(rival: Op, n: nat): seq<Observation>
    requires rival.CreditDeposit? && n <= 3
  {
    Lookups(rival)
    + [Missing(Balance(Key(rival.wallet, rival.asset))), Missing(Record(rival.id)), Missing(Index(TxHash(rival.hash)))][..n]
  }

  lemma RivalActs(db: Database, op: Op, rival: Op, n: nat)
    requires Rivals(db, op, rival) && Key(op.wallet, op.asset) !in db.balances && n < 3
    ensures Step(Both(db, rival, Taken(rival, n), op, Lookups(op)), Advance(0))
      == Both(db, rival, Taken(rival, n + 1), op, Lookups(op))
  {
    var row := Taken(rival, 3)[n + 2].row;
    assert Next(rival, Taken(rival, n)) == Insert(row) && Look(db, row).None?;
    assert Taken(rival, n + 1) == Taken(rival, n) + [Missing(row)];
    RivalTakes(db, rival, Taken(rival, n), op, row);
  }

  lemma RivalCommits(db: Database, op: Op, rival: Op)
    requires Rivals(db, op, rival) && Key(op.wallet, op.asset) !in db.balances
    ensures Step(Both(db, rival, Taken(rival, 3), op, Lookups(op)), Advance(0))
      == State(Atomic(rival, db).db, map[1 := Flight(op, Lookups(op))], [rival])
  {
    RivalIsAtomic(db, rival, Taken(rival, 3));
    var last := Both(db, rival, Taken(rival, 3), op, Lookups(op));
    assert last.active - {0} == map[1 := Flight(op, Lookups(op))];
    assert [] + [rival] == [rival];
  }

  lemma OneMore(db: Database, events: seq<Event>, n: nat, s: State, e: Event, t: State)
    requires n + 1 <= |events| && events[n] == e && Run(db, events[..n]) == s && Step(s, e) == t
    ensures Run(db, events[..n + 1]) == t
  {
    Unroll(db, events, n + 1);
  }

  lemma {:induction false} RivalActed(db: Database, op: Op, rival: Op, n: nat)
    requires Rivals(db, op, rival) && Key(op.wallet, op.asset) !in db.balances && n <= 3
    ensures Run(db, Race(op, rival)[..6 + n]) == Both(db, rival, Taken(rival, n), op, Lookups(op))
  {
    if n == 0 {
      BothLook(db, op, rival);
      assert Taken(rival, 0) == Lookups(rival);
    } else {
      RivalActed(db, op, rival, n - 1);
      RivalActs(db, op, rival, n - 1);
      OneMore(db, Race(op, rival), 5 + n, Both(db, rival, Taken(rival, n - 1), op, Lookups(op)), Advance(0),
              Both(db, rival, Taken(rival, n), op, Lookups(op)));
    }
  }

  lemma WholeRace(db: Database, op: Op, rival: Op)
    requires Rivals(db, op, rival) && Key(op.wallet, op.asset) !in db.balances
    ensures Run(db, Race(op, rival)) == State(Atomic(rival, db).db, map[1 := Flight(op, Lookups(op))], [rival])
  {
    RivalActed(db, op, rival, 3);
    RivalCommits(db, op, rival);
    OneMore(db, Race(op, rival), 9, Both(db, rival, Taken(rival, 3), op, Lookups(op)), Advance(0),
            State(Atomic(rival, db).db, map[1 := Flight(op, Lookups(op))], [rival]));
    assert Race(op, rival)[..10] == Race(op, rival);
  }

  lemma RivalIsAtomic(db: Database, rival: Op, obs: seq<Observation>)
    requires rival.CreditDeposit? && Atomic(rival, db).Committed? && Key(rival.wallet, rival.asset) !in db.balances
    requires obs == Taken(rival, 3)
    ensures Next(rival, obs).Commit? && Merge(db, Next(rival, obs).writes) == Atomic(rival, db).db
  {
    var k := Key(rival.wallet, rival.asset);
    var w := Next(rival, obs).writes;
    assert w.balances == map[k := rival.amount] && w.freed == {};
    assert db.balances + w.balances == db.balances[k := rival.amount];
  }

  lemma RivalOvertakes(db: Database, op: Op, rival: Op)
    requires Rivals(db, op, rival) && Key(op.wallet, op.asset) !in db.balances
    ensures FailsInVain(db, Race(op, rival), 1, op)
  {
    WholeRace(db, op, rival);
    LoserFails(Run(db, Race(op, rival)), op, db, rival);
  }

  lemma LoserFails(s: State, op: Op, db: Database, rival: Op)
    requires Rivals(db, op, rival) && s == State(Atomic(rival, db).db, map[1 := Flight(op, Lookups(op))], [rival])
    requires Key(op.wallet, op.asset) !in db.balances
    ensures var after := Step(s, Advance(1));
      1 in after.active && after != s && Next(op, after.active[1].obs).Abort? && Atomic(op, s.db).Committed?
  {
    var k := Key(op.wallet, op.asset);
    var after := Step(s, Advance(1));
    assert Look(s.db, Balance(k)) == Some(Amount(rival.amount));
    assert after.active[1].obs == Lookups(op) + [Observation(Balance(k), Some(Amount(rival.amount)), false)];
    assert |after.active[1].obs| != |s.active[1].obs|;
  }

  // ---- there always is a rival ----

  lemma {:induction false} BeyondIds(ids: set<TxId>) returns (id: TxId)
    ensures forall other | other in ids :: other < id
  {
    if ids == {} {
      id := 0;
    } else {
      var some :| some in ids;
      var rest := BeyondIds(ids - {some});
      id := if rest <= some then some + 1 else rest;
      assert forall other | other in ids && other != some :: other in ids - {some};
    }
  }

  lemma {:induction false} BeyondStrings(texts: set<string>) returns (text: string)
    ensures forall other | other in texts :: |other| < |text|
  {
    if texts == {} {
      text := "";
    } else {
      var some :| some in texts;
      var longer := BeyondStrings(texts - {some});
      text := longer + some + "x";
    }
  }

  lemma SomeRival(db: Database, op: Op) returns (rival: Op)
    requires op.CreditDeposit? && Atomic(op, db).Committed?
    ensures Rivals(db, op, rival)
  {
    var id := BeyondIds(db.txs.Keys + {op.id});
    var hashes := set k | k in db.keys && k.TxHash? :: k.hash;
    var hash := BeyondStrings(hashes + {op.hash});
    forall k | k in db.keys && k.TxHash? ensures k.hash != hash {
      assert k.hash in hashes;
    }
    rival := op.(id := id, hash := hash);
  }

  /**
    An operation that would commit alone can be made to fail by others that run
    beside it if and only if it is a deposit whose balance row does not exist.
    A caller can look before the call.
   */
  lemma FailsInVainIff(db: Database, op: Op)
    requires Atomic(op, db).Committed?
    ensures CanFailInVain(db, op) <==> op.CreditDeposit? && Key(op.wallet, op.asset) !in db.balances
  {
    if op.CreditDeposit? && Key(op.wallet, op.asset) !in db.balances {
      var rival := SomeRival(db, op);
      RivalOvertakes(db, op, rival);
    } else {
      forall events, p ensures !FailsInVain(db, events, p, op) {
        if FailsInVain(db, events, p, op) {
          OnlyNewBalances(db, events, p, op);
        }
      }
    }
  }
}
