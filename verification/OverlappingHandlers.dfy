/**
  Handlers of one order that overlap. Each reads the row, then acts on what it
  read: settlement does not read the status again.
 */
module OverlappingHandlers {
  import opened Options
  import opened Ledger
  import opened Indexes
  import opened Sums
  import opened MidtransNotifications

  /** Handler h reads the row, or acts. */
  datatype Turn = Read(h: nat) | Act(h: nat)

  /** What each handler does if it read `pending`: credit an amount, or (None) fail the row. */
  type Handlers = seq<Option<real>>

  /** The tables, and the handlers that have read `pending`. */
  datatype State = State(db: Database, saw: set<nat>)

  function Step(hs: Handlers, id: TxId, w: Wallet, s: State, turn: Turn): State
    requires turn.h < |hs|
  {
    match turn
    case Read(h) => if id in s.db.txs && s.db.txs[id].status == Pending then s.(saw := s.saw + {h}) else s
    case Act(h) =>
      if h !in s.saw then s
      else
        var outcome := Atomic(if hs[h].Some? then SettleTopUp(id, w, hs[h].value) else UpdateStatus(id, Failed), s.db);
        if outcome.Committed? then s.(db := outcome.db) else s
  }

  function Run(hs: Handlers, id: TxId, w: Wallet, db: Database, turns: seq<Turn>): State
    requires forall t | t in turns :: t.h < |hs|
    decreases |turns|
  {
    if turns == [] then State(db, {})
    else Step(hs, id, w, Run(hs, id, w, db, turns[..|turns| - 1]), turns[|turns| - 1])
  }

  /** A handler that reads and acts with no other in between is the handler of the payment notifications. */
  lemma AloneIsTheHandler(g: Gateway, db: Database, n: Notification, id: TxId, w: Wallet)
    requires OrdersIndexed(db) && Authentic(g, n) && CarriesOrder(db, id, n.orderID) && g.parse(n.grossAmount).Some?
    requires (SaysPaid(n) || SaysFailed(n)) && db.txs[id].destination == Some(w) && Key(w, IDR) in db.balances
    ensures
      var hs := [if SaysPaid(n) then g.parse(n.grossAmount) else None];
      Step(hs, id, w, Step(hs, id, w, State(db, {}), Read(0)), Act(0)).db == After(g, db, n)
  {
    ByOrderFinds(db, n.orderID, id);
    var hs := [if SaysPaid(n) then g.parse(n.grossAmount) else None];
    var seen := Step(hs, id, w, State(db, {}), Read(0));
    assert 0 in seen.saw <==> db.txs[id].status == Pending;
  }

  /** A handler takes each turn at most once, and reads before it acts. */
  predicate Schedule(hs: Handlers, turns: seq<Turn>)
    ensures Schedule(hs, turns) ==> forall t | t in turns :: t.h < |hs|
    decreases |turns|
  {
    turns == [] ||
    var before, last := turns[..|turns| - 1], turns[|turns| - 1];
    assert turns == before + [last];
    && Schedule(hs, before) && last.h < |hs| && last !in before
    && (if last.Read? then Act(last.h) !in before else Read(last.h) in before)
  }

  predicate Acted(turns: seq<Turn>) {
    exists t :: t in turns && t.Act?
  }

  /** The handlers that read the row before any handler acted. */
  function Early(turns: seq<Turn>): set<nat>
    decreases |turns|
  {
    if turns == [] then {}
    else
      var before, last := turns[..|turns| - 1], turns[|turns| - 1];
      Early(before) + if last.Read? && !Acted(before) then {last.h} else {}
  }

  lemma {:induction false} EarlyMeans(turns: seq<Turn>, h: nat)
    ensures h in Early(turns) <==> exists i :: 0 <= i < |turns| && turns[i] == Read(h) && !Acted(turns[..i])
    decreases |turns|
  {
    if turns == [] {
    } else {
      var n := |turns| - 1;
      EarlyMeans(turns[..n], h);
      forall i | 0 <= i < n ensures turns[..n][i] == turns[i] && turns[..n][..i] == turns[..i] {
      }
    }
  }

  /** The credits of the early handlers that have acted and whose notification settles. */
  function Credits(hs: Handlers, turns: seq<Turn>): (c: map<nat, real>)
    requires forall t | t in turns :: t.h < |hs|
    ensures forall h | h in c :: Act(h) in turns && h in Early(turns) && h < |hs| && hs[h] == Some(c[h])
    decreases |turns|
  {
    if turns == [] then map[]
    else
      var before, last := turns[..|turns| - 1], turns[|turns| - 1];
      var c := Credits(hs, before);
      if last.Act? && last.h in Early(before) && hs[last.h].Some? then c[last.h := hs[last.h].value] else c
  }

  ghost predicate Ready(db: Database, id: TxId, w: Wallet) {
    id in db.txs && db.txs[id].status == Pending && Key(w, IDR) in db.balances
  }

  /** The invariant of every schedule on a pending row. */
  ghost predicate Inv(id: TxId, w: Wallet, db: Database, s: State, acted: bool, early: set<nat>, credits: map<nat, real>) {
    var k := Key(w, IDR);
    && id in s.db.txs && k in s.db.balances && k in db.balances
    && s.saw == early
    && (s.db.txs[id].status == Pending <==> !acted)
    && s.db.balances[k] == db.balances[k] + Sum(credits)
  }

  lemma StepKeepsInv(hs: Handlers, id: TxId, w: Wallet, db: Database, s: State, turn: Turn, acted: bool,
                     early: set<nat>, credits: map<nat, real>)
    requires Inv(id, w, db, s, acted, early, credits) && turn.h < |hs|
    requires turn.Act? ==> turn.h !in credits && (acted || turn.h in early)
    ensures
      var early' := early + if turn.Read? && !acted then {turn.h} else {};
      var credits' := if turn.Act? && turn.h in early && hs[turn.h].Some? then credits[turn.h := hs[turn.h].value] else credits;
      Inv(id, w, db, Step(hs, id, w, s, turn), acted || turn.Act?, early', credits')
  {
    if turn.Act? && turn.h in early && hs[turn.h].Some? {
      Put(credits, turn.h, hs[turn.h].value);
    }
  }

  lemma ActedOneLess(turns: seq<Turn>)
    requires turns != []
    ensures Acted(turns) == (Acted(turns[..|turns| - 1]) || turns[|turns| - 1].Act?)
  {
    assert turns == turns[..|turns| - 1] + [turns[|turns| - 1]];
  }

  lemma {:induction false} ReadIsEarly(turns: seq<Turn>, h: nat)
    requires Read(h) in turns && !Acted(turns)
    ensures h in Early(turns)
  {
    EarlyMeans(turns, h);
    var i :| 0 <= i < |turns| && turns[i] == Read(h);
    assert forall t | t in turns[..i] :: t in turns;
  }

  lemma {:induction false} RunKeepsInv(hs: Handlers, id: TxId, w: Wallet, db: Database, turns: seq<Turn>)
    requires Schedule(hs, turns) && Ready(db, id, w)
    ensures Inv(id, w, db, Run(hs, id, w, db, turns), Acted(turns), Early(turns), Credits(hs, turns))
    decreases |turns|
  {
    if turns == [] {
      assert Credits(hs, turns) == map[];
    } else {
      var n := |turns| - 1;
      ActedOneLess(turns);
      if turns[n].Act? && !Acted(turns[..n]) {
        ReadIsEarly(turns[..n], turns[n].h);
      }
      RunKeepsInv(hs, id, w, db, turns[..n]);
      StepKeepsInv(hs, id, w, db, Run(hs, id, w, db, turns[..n]), turns[n],
                   Acted(turns[..n]), Early(turns[..n]), Credits(hs, turns[..n]));
    }
  }

  /**
    Exactly how often overlapping handlers credit one order: once for every
    settling handler that read the row before any handler acted.
   */
  lemma OverlapCredits(hs: Handlers, id: TxId, w: Wallet, db: Database, turns: seq<Turn>)
    requires Schedule(hs, turns) && Ready(db, id, w)
    ensures Key(w, IDR) in Run(hs, id, w, db, turns).db.balances
    ensures Run(hs, id, w, db, turns).db.balances[Key(w, IDR)] == db.balances[Key(w, IDR)] + Sum(Credits(hs, turns))
  {
    RunKeepsInv(hs, id, w, db, turns);
  }

  /** Only one handler reads the row before some handler has acted. */
  ghost predicate NoOverlap(turns: seq<Turn>) {
    forall i | 0 < i < |turns| && turns[i].Read? :: Acted(turns[..i])
  }

  /** Handlers that do not overlap credit at most once. */
  lemma NoOverlapCreditsOnce(hs: Handlers, turns: seq<Turn>)
    requires Schedule(hs, turns) && NoOverlap(turns)
    ensures |Credits(hs, turns)| <= 1
  {
    var settlers := Credits(hs, turns).Keys;
    if turns != [] {
      forall h | h in settlers ensures h == turns[0].h {
        EarlyMeans(turns, h);
      }
      assert settlers == {} || settlers == {turns[0].h};
    }
  }

  /** Two settling handlers that both read first credit twice. */
  lemma OverlapCreditsTwice(id: TxId, w: Wallet, db: Database, a: real, b: real)
    requires Ready(db, id, w)
    ensures
      var end := Run([Some(a), Some(b)], id, w, db, [Read(0), Read(1), Act(0), Act(1)]).db;
      Key(w, IDR) in end.balances && end.balances[Key(w, IDR)] == db.balances[Key(w, IDR)] + a + b
  {
    var hs := [Some(a), Some(b)];
    var t1, t2, t3 := [Read(0)], [Read(0), Read(1)], [Read(0), Read(1), Act(0)];
    var turns := [Read(0), Read(1), Act(0), Act(1)];
    assert [] + [Read(0)] == t1 && t1[..0] == [] && t2[..1] == t1 && t3[..2] == t2 && turns[..3] == t3;
    assert Run(hs, id, w, db, t1) == State(db, {0});
    assert Run(hs, id, w, db, t2) == State(db, {0, 1});
    var first := Run(hs, id, w, db, t3);
    assert first.db == Atomic(SettleTopUp(id, w, a), db).db && first.saw == {0, 1};
    assert Run(hs, id, w, db, turns).db == Atomic(SettleTopUp(id, w, b), first.db).db;
  }
}
