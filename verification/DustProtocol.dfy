// Never spending a dust UTXO twice, over whole runs: the balancer, the caller's durable
// skip-set, the event stream that lags behind, and the pruning that keeps the skip-set small.
module DustProtocol {
  import opened Common
  import opened DustBalance

  // The chain's dust events for this wallet.
  datatype ChainEvent = Created(u: Utxo) | Spent(n: Nullifier)

  function ReplayOne(us: seq<Utxo>, e: ChainEvent): seq<Utxo> {
    match e
    case Created(u) => us + [u]
    case Spent(n) => WithoutPending(us, {n})
  }

  // The UTXOs left after replaying events onto a list of tracked ones.
  function Replayed(us: seq<Utxo>, log: seq<ChainEvent>): seq<Utxo>
    decreases |log|
  {
    if log == [] then us else Replayed(ReplayOne(us, log[0]), log[1..])
  }

  function CreatedIn(log: seq<ChainEvent>): set<Nullifier> {
    set e | e in log && e.Created? :: e.u.nul
  }

  function SpentIn(log: seq<ChainEvent>): set<Nullifier> {
    set e | e in log && e.Spent? :: e.n
  }

  // Nullifiers are created once, and spent only after that.
  predicate Extends(log: seq<ChainEvent>, e: ChainEvent) {
    match e
    case Created(u) => u.nul !in CreatedIn(log) && u.nul !in SpentIn(log)
    case Spent(n) => n in CreatedIn(log)
  }

  predicate GoodLog(log: seq<ChainEvent>) {
    forall i :: 0 <= i < |log| ==> Extends(log[..i], log[i])
  }

  // cursor: how much of the chain's log the local state reflects.
  // skip: the spent nullifiers the caller has recorded and passes as exclusions.
  // emitted: every nullifier the balancer has reported as spent, in order.
  datatype World = World(log: seq<ChainEvent>, cursor: nat, local: DustState, skip: set<Nullifier>,
                         emitted: seq<Nullifier>)

  const GENESIS: World := World([], 0, DustState([], {}, {}), {}, [])

  datatype Action =
    | Chain(e: ChainEvent)               // the chain goes on: new dust, confirmed spends
    | Balance(fee: U128, t: Time)        // select with skip as exclusions, write back, record
    | Sync(upTo: nat)                    // replay further events onto the local state
    | Restore(upTo: nat, pending: set<Nullifier>, stale: set<Nullifier>)  // load a state saved at upTo events
    | Prune                              // keep of skip what the local state still lists

  // A state rebuilt from events is one saved with no marks: all pending marks are lost.
  function Resync(upTo: nat): Action {
    Restore(upTo, {}, {})
  }

  predicate Possible(w: World, a: Action) {
    match a
    case Chain(e) => Extends(w.log, e)
    case Sync(upTo) => w.cursor <= upTo <= |w.log|
    case Restore(upTo, _, _) => upTo <= |w.log|
    case _ => true
  }

  function Act(pays: Pays, w: World, a: Action): World
    requires w.cursor <= |w.log| && Possible(w, a)
  {
    match a
    case Chain(e) => w.(log := w.log + [e])
    case Balance(fee, t) =>
      (match Selected(pays, w.local, fee, t, w.skip)
       case None => w
       case Some((st, _, nuls)) =>
         w.(local := st, skip := w.skip + (set n | n in nuls), emitted := w.emitted + nuls))
    case Sync(upTo) =>
      w.(cursor := upTo, local := w.local.(utxos := Replayed(w.local.utxos, w.log[w.cursor..upTo])))
    case Restore(upTo, pending, stale) =>
      w.(cursor := upTo, local := DustState(Replayed([], w.log[..upTo]), pending, stale))
    case Prune => w.(skip := w.skip * CurrentNullifiers(w.local))
  }

  // ------------------------------------------------------------------- the event stream

  lemma {:induction false} ReplayedAppend(us: seq<Utxo>, a: seq<ChainEvent>, b: seq<ChainEvent>)
    ensures Replayed(us, a + b) == Replayed(Replayed(us, a), b)
    decreases |a|
  {
    if a == [] {
      assert a + b == b;
    } else {
      assert (a + b)[0] == a[0] && (a + b)[1..] == a[1..] + b;
      ReplayedAppend(ReplayOne(us, a[0]), a[1..], b);
    }
  }

  predicate Tracks(us: seq<Utxo>, n: Nullifier) {
    exists u :: u in us && u.nul == n
  }

  lemma SetsOfExtension(log: seq<ChainEvent>, e: ChainEvent)
    ensures CreatedIn(log + [e]) == CreatedIn(log) + (if e.Created? then {e.u.nul} else {})
    ensures SpentIn(log + [e]) == SpentIn(log) + (if e.Spent? then {e.n} else {})
  {
    assert forall x :: x in log + [e] <==> x in log || x == e;
  }

  // One event changes what is tracked as it says.
  lemma TracksOne(us: seq<Utxo>, e: ChainEvent, n: Nullifier)
    ensures Tracks(ReplayOne(us, e), n) <==>
      if e.Created? then Tracks(us, n) || n == e.u.nul else Tracks(us, n) && n != e.n
  {
    if e.Created? {
      assert (us + [e.u])[|us|] == e.u;
      assert forall u :: u in us + [e.u] <==> u in us || u == e.u;
    }
  }

  lemma GoodPrefix(log: seq<ChainEvent>, i: nat)
    requires GoodLog(log) && i <= |log|
    ensures GoodLog(log[..i])
  {
    forall k | 0 <= k < i
      ensures Extends(log[..i][..k], log[..i][k])
    {
      assert log[..i][..k] == log[..k];
    }
  }

  // What the events leave tracked is what they created and did not spend.
  lemma {:induction false} TrackedIsUnspent(log: seq<ChainEvent>, n: Nullifier)
    requires GoodLog(log)
    ensures Tracks(Replayed([], log), n) <==> n in CreatedIn(log) && n !in SpentIn(log)
    decreases |log|
  {
    if log == [] {
    } else {
      var init, e := log[..|log| - 1], log[|log| - 1];
      assert log == init + [e];
      GoodPrefix(log, |init|);
      assert Extends(init, e);
      TrackedIsUnspent(init, n);
      SetsOfExtension(init, e);
      ReplayedAppend([], init, [e]);
      assert [e][1..] == [];
      assert Replayed([], log) == ReplayOne(Replayed([], init), e);
      TracksOne(Replayed([], init), e, n);
    }
  }

  lemma SetsGrow(log: seq<ChainEvent>, i: nat, j: nat)
    requires i <= j <= |log|
    ensures CreatedIn(log[..i]) <= CreatedIn(log[..j]) && SpentIn(log[..i]) <= SpentIn(log[..j])
  {
    assert forall e :: e in log[..i] ==> e in log[..j];
  }

  // ------------------------------------------------------------------------- the invariant

  // The events so far say n is spent.
  predicate Confirmed(w: World, upTo: nat, n: Nullifier)
    requires upTo <= |w.log|
  {
    n in SpentIn(w.log[..upTo])
  }

  // Every reported nullifier exists, and is still skipped or its spend reflected locally.
  predicate Covered(w: World)
    requires w.cursor <= |w.log|
  {
    forall n :: n in w.emitted ==> n in CreatedIn(w.log) && (n in w.skip || Confirmed(w, w.cursor, n))
  }

  predicate Inv(w: World) {
    && w.cursor <= |w.log|
    && GoodLog(w.log)
    && w.local.utxos == Replayed([], w.log[..w.cursor])
    && Covered(w)
    && NoDuplicates(w.emitted)
  }

  // Pruning drops a reported nullifier whose spend is not confirmed: the local state does not
  // list it, be it that a pending mark hides it or that its creation is not replayed yet.
  predicate PruneForgets(w: World)
    requires w.cursor <= |w.log|
  {
    exists n :: n in w.emitted && n !in CurrentNullifiers(w.local) && !Confirmed(w, w.cursor, n)
  }

  // A state of the first upTo events is behind a spend that has been pruned from skip.
  predicate RestoreForgets(w: World, upTo: nat)
    requires upTo <= |w.log|
  {
    exists n :: n in w.emitted && n !in w.skip && !Confirmed(w, upTo, n)
  }

  predicate HiddenOrUnseen(w: World, n: Nullifier)
    requires w.cursor <= |w.log|
  {
    n in w.local.pending || n !in CreatedIn(w.log[..w.cursor])
  }

  lemma ListedIffTracked(w: World, n: Nullifier)
    requires Inv(w)
    ensures Tracks(w.local.utxos, n) <==> n in CreatedIn(w.log[..w.cursor]) && !Confirmed(w, w.cursor, n)
    ensures n in CurrentNullifiers(w.local) <==> Tracks(w.local.utxos, n) && n !in w.local.pending
  {
    GoodPrefix(w.log, w.cursor);
    TrackedIsUnspent(w.log[..w.cursor], n);
  }

  // The two causes: hidden by its own pending mark, or not replayed yet.
  lemma PruneForgetsWhat(w: World)
    requires Inv(w)
    ensures PruneForgets(w) <==> exists n :: n in w.emitted && !Confirmed(w, w.cursor, n) && HiddenOrUnseen(w, n)
  {
    forall n | !Confirmed(w, w.cursor, n)
      ensures n in CurrentNullifiers(w.local)
         <==> n in CreatedIn(w.log[..w.cursor]) && n !in w.local.pending
    {
      ListedIffTracked(w, n);
    }
  }

  lemma PruneKeepsIff(pays: Pays, w: World)
    requires Inv(w)
    ensures Inv(Act(pays, w, Prune)) <==> !PruneForgets(w)
  {
    var w' := Act(pays, w, Prune);
    assert Inv(w') <==> Covered(w');
    if n :| n in w.emitted && n !in CurrentNullifiers(w.local) && !Confirmed(w, w.cursor, n) {
      assert n !in w'.skip && !Confirmed(w', w'.cursor, n);
    }
    forall n | n in w.emitted && !PruneForgets(w)
      ensures n in w'.skip || Confirmed(w', w'.cursor, n)
    {
      assert n in w.skip || Confirmed(w, w.cursor, n);
    }
  }

  lemma RestoreKeepsIff(pays: Pays, w: World, upTo: nat, pending: set<Nullifier>, stale: set<Nullifier>)
    requires Inv(w) && upTo <= |w.log|
    ensures Inv(Act(pays, w, Restore(upTo, pending, stale))) <==> !RestoreForgets(w, upTo)
  {
    var w' := Act(pays, w, Restore(upTo, pending, stale));
    assert Inv(w') <==> Covered(w');
    if n :| n in w.emitted && n !in w.skip && !Confirmed(w, upTo, n) {
      assert n !in w'.skip && !Confirmed(w', w'.cursor, n);
    }
    forall n | n in w.emitted && !RestoreForgets(w, upTo)
      ensures n in w'.skip || Confirmed(w', w'.cursor, n)
    {
      assert n in w.skip || Confirmed(w, upTo, n);
    }
  }

  // A state reflecting at least what the present one does is always safe to go on with.
  lemma ForwardRestoreIsSafe(w: World, upTo: nat)
    requires Inv(w) && w.cursor <= upTo <= |w.log|
    ensures !RestoreForgets(w, upTo)
  {
    SetsGrow(w.log, w.cursor, upTo);
  }

  // Recording a tracked nullifier that is not skipped: it cannot have been reported before.
  lemma RecordingKeeps(w: World, n: Nullifier, marked: set<Nullifier>)
    requires Inv(w) && Tracks(w.local.utxos, n) && n !in w.skip
    ensures Inv(w.(local := w.local.(pending := marked), skip := w.skip + {n}, emitted := w.emitted + [n]))
  {
    GoodPrefix(w.log, w.cursor);
    TrackedIsUnspent(w.log[..w.cursor], n);
    assert n !in w.emitted;
  }

  lemma BalanceKeeps(pays: Pays, w: World, fee: U128, t: Time)
    requires Inv(w)
    ensures Inv(Act(pays, w, Balance(fee, t)))
  {
    var w' := Act(pays, w, Balance(fee, t));
    if fee == 0 {
      assert w' == w;
    } else {
      match FirstEligible(pays, Listed(w.local), fee, t, w.skip + w.local.stale) {
        case None => assert w' == w;
        case Some(i) =>
          var u := Listed(w.local)[i];
          assert u in Listed(w.local) && u in w.local.utxos;
          assert (set n | n in [u.nul]) == {u.nul};
          RecordingKeeps(w, u.nul, w.local.pending + {u.nul});
          assert w' == w.(local := w.local.(pending := w.local.pending + {u.nul}), skip := w.skip + {u.nul},
                          emitted := w.emitted + [u.nul]);
      }
    }
  }

  lemma ChainKeepsGood(log: seq<ChainEvent>, e: ChainEvent)
    requires GoodLog(log) && Extends(log, e)
    ensures GoodLog(log + [e])
  {
    forall i | 0 <= i < |log + [e]|
      ensures Extends((log + [e])[..i], (log + [e])[i])
    {
      assert (log + [e])[..i] == log[..i];
      if i == |log| {
        assert log[..i] == log;
      }
    }
  }

  lemma OtherActionsKeep(pays: Pays, w: World, a: Action)
    requires Inv(w) && Possible(w, a) && (a.Chain? || a.Sync?)
    ensures Inv(Act(pays, w, a))
  {
    var w' := Act(pays, w, a);
    match a
    case Chain(e) =>
      assert w'.log[..w'.cursor] == w.log[..w.cursor];
      ChainKeepsGood(w.log, e);
      SetsOfExtension(w.log, e);
    case Sync(upTo) =>
      assert w.log[..upTo] == w.log[..w.cursor] + w.log[w.cursor..upTo];
      ReplayedAppend([], w.log[..w.cursor], w.log[w.cursor..upTo]);
      SetsGrow(w.log, w.cursor, upTo);
  }

  // -------------------------------------------------------------------------- whole runs

  // The caller's discipline: it prunes and restores only when nothing reported is forgotten.
  predicate Careful(w: World, a: Action)
    requires w.cursor <= |w.log| && Possible(w, a)
  {
    && (a.Prune? ==> !PruneForgets(w))
    && (a.Restore? ==> !RestoreForgets(w, a.upTo))
  }

  predicate RunFrom(pays: Pays, w: World, run: seq<Action>)
    decreases |run|
  {
    run == [] || (w.cursor <= |w.log| && Possible(w, run[0]) && RunFrom(pays, Act(pays, w, run[0]), run[1..]))
  }

  function After(pays: Pays, w: World, run: seq<Action>): World
    requires RunFrom(pays, w, run)
    decreases |run|
  {
    if run == [] then w else After(pays, Act(pays, w, run[0]), run[1..])
  }

  predicate CarefulRun(pays: Pays, w: World, run: seq<Action>)
    requires RunFrom(pays, w, run)
    decreases |run|
  {
    run == [] || (Careful(w, run[0]) && CarefulRun(pays, Act(pays, w, run[0]), run[1..]))
  }

  lemma {:induction false} InvariantHolds(pays: Pays, w: World, run: seq<Action>)
    requires Inv(w) && RunFrom(pays, w, run) && CarefulRun(pays, w, run)
    ensures Inv(After(pays, w, run))
    decreases |run|
  {
    if run == [] {
    } else {
      var a := run[0];
      match a {
        case Balance(fee, t) => BalanceKeeps(pays, w, fee, t);
        case Prune => PruneKeepsIff(pays, w);
        case Restore(upTo, pending, stale) => RestoreKeepsIff(pays, w, upTo, pending, stale);
        case _ => OtherActionsKeep(pays, w, a);
      }
      InvariantHolds(pays, Act(pays, w, a), run[1..]);
    }
  }

  // In every careful run no nullifier is ever reported twice.
  lemma NeverSpentTwice(pays: Pays, run: seq<Action>)
    requires RunFrom(pays, GENESIS, run) && CarefulRun(pays, GENESIS, run)
    ensures NoDuplicates(After(pays, GENESIS, run).emitted)
  {
    InvariantHolds(pays, GENESIS, run);
  }

  lemma One(pays: Pays, w: World, a: Action, rest: seq<Action>)
    requires w.cursor <= |w.log| && Possible(w, a)
    ensures RunFrom(pays, w, [a] + rest) <==> RunFrom(pays, Act(pays, w, a), rest)
    ensures RunFrom(pays, w, [a] + rest) ==>
      && After(pays, w, [a] + rest) == After(pays, Act(pays, w, a), rest)
      && (CarefulRun(pays, w, [a] + rest) <==> Careful(w, a) && CarefulRun(pays, Act(pays, w, a), rest))
  {
    assert ([a] + rest)[0] == a && ([a] + rest)[1..] == rest;
  }

  lemma OnlyOneListed(u: Utxo)
    ensures Listed(DustState([u], {}, {})) == [u]
  {
    var us, none := [u], [u][1..];
    assert none == [];
    assert WithoutPending(us, {}) == [u] + WithoutPending(none, {});
  }

  function OnlyPays(n: Nullifier): Pays {
    (u: Utxo, fee, t) => u.nul == n
  }

  // Balancing with a rule under which only n can pay reports n, if the local state lists it.
  lemma ReportsWhatCanPay(w: World, n: Nullifier, fee: U128, t: Time)
    requires w.cursor <= |w.log| && fee > 0
    requires n in CurrentNullifiers(w.local) && n !in w.skip && n !in w.local.stale
    ensures Act(OnlyPays(n), w, Balance(fee, t)).emitted == w.emitted + [n]
  {
    var u :| u in Listed(w.local) && u.nul == n;
    assert Eligible(OnlyPays(n), u, fee, t, w.skip + w.local.stale);
    SelectionSpec(OnlyPays(n), w.local, fee, t, w.skip);
  }

  // Right behind its creation a nullifier is created and not spent.
  lemma CreatedFresh(log: seq<ChainEvent>, i: nat, from: nat)
    requires GoodLog(log) && i < |log| && log[i].Created? && from <= |log| && log[i].u.nul !in CreatedIn(log[..from])
    ensures from <= i
    ensures log[i].u.nul in CreatedIn(log[..i + 1]) && log[i].u.nul !in SpentIn(log[..i + 1])
  {
    assert forall j :: 0 <= j < from ==> log[..from][j] == log[j];
    assert Extends(log[..i], log[i]);
    assert log[..i + 1] == log[..i] + [log[i]];
    SetsOfExtension(log[..i], log[i]);
  }

  // Some continuation of the chain's log lists n again, unless n is confirmed.
  lemma ListedLater(w: World, from: nat, n: Nullifier) returns (upTo: nat)
    requires GoodLog(w.log) && from <= |w.log| && n in CreatedIn(w.log) && !Confirmed(w, from, n)
    ensures from <= upTo <= |w.log| && Tracks(Replayed([], w.log[..upTo]), n)
  {
    if n in CreatedIn(w.log[..from]) {
      upTo := from;
    } else {
      var i :| 0 <= i < |w.log| && w.log[i].Created? && w.log[i].u.nul == n;
      upTo := i + 1;
      CreatedFresh(w.log, i, from);
    }
    GoodPrefix(w.log, upTo);
    TrackedIsUnspent(w.log[..upTo], n);
  }

  lemma TwiceIsDuplicate(s: seq<Nullifier>, n: Nullifier)
    requires n in s
    ensures !NoDuplicates(s + [n])
  {
    var i :| 0 <= i < |s| && s[i] == n;
    assert (s + [n])[i] == (s + [n])[|s|];
  }

  // Three actions: forget, go on to a state of upTo or more events, balance.
  predicate SpendsTwiceAfter(pays: Pays, w: World, a: Action, upTo: nat, fee: U128, t: Time) {
    var run := [a, Resync(upTo), Balance(fee, t)];
    RunFrom(pays, w, run) && !NoDuplicates(After(pays, w, run).emitted)
  }

  lemma Unfold3(pays: Pays, w: World, a: Action, b: Action, c: Action)
    ensures RunFrom(pays, w, [a, b, c]) <==>
      && w.cursor <= |w.log| && Possible(w, a)
      && Act(pays, w, a).cursor <= |Act(pays, w, a).log| && Possible(Act(pays, w, a), b)
      && var w2 := Act(pays, Act(pays, w, a), b); w2.cursor <= |w2.log| && Possible(w2, c)
    ensures RunFrom(pays, w, [a, b, c]) ==>
      After(pays, w, [a, b, c]) == Act(pays, Act(pays, Act(pays, w, a), b), c)
  {
    assert [a, b, c] == [a] + [b, c] && [b, c] == [b] + [c] && [c] == [c] + [];
    if w.cursor <= |w.log| && Possible(w, a) {
      One(pays, w, a, [b, c]);
      var w1 := Act(pays, w, a);
      if w1.cursor <= |w1.log| && Possible(w1, b) {
        One(pays, w1, b, [c]);
        var w2 := Act(pays, w1, b);
        if w2.cursor <= |w2.log| && Possible(w2, c) {
          One(pays, w2, c, []);
        }
      }
    }
  }

  // Forgetting n, catching up and balancing reports n again.
  lemma ForgottenIsSpentAgain(w: World, a: Action, n: Nullifier, upTo: nat, fee: U128, t: Time)
    requires Inv(w) && Possible(w, a) && (a.Prune? || a.Restore?) && fee > 0
    requires n in w.emitted && n !in Act(OnlyPays(n), w, a).skip
    requires upTo <= |w.log| && Tracks(Replayed([], w.log[..upTo]), n)
    ensures SpendsTwiceAfter(OnlyPays(n), w, a, upTo, fee, t)
  {
    var pays := OnlyPays(n);
    var w1 := Act(pays, w, a);
    var w2 := Act(pays, w1, Resync(upTo));
    assert w2.local == DustState(Replayed([], w.log[..upTo]), {}, {});
    assert n in CurrentNullifiers(w2.local);
    ReportsWhatCanPay(w2, n, fee, t);
    TwiceIsDuplicate(w.emitted, n);
    Unfold3(pays, w, a, Resync(upTo), Balance(fee, t));
  }

  lemma SafeIsNotSpentAgain(pays: Pays, w: World, a: Action, upTo: nat, fee: U128, t: Time)
    requires Inv(w) && Possible(w, a) && (a.Prune? || a.Restore?) && Careful(w, a)
    requires Act(pays, w, a).cursor <= upTo
    ensures !SpendsTwiceAfter(pays, w, a, upTo, fee, t)
  {
    var run := [a, Resync(upTo), Balance(fee, t)];
    if RunFrom(pays, w, run) {
      Unfold3(pays, w, a, Resync(upTo), Balance(fee, t));
      var w1 := Act(pays, w, a);
      if a.Prune? {
        PruneKeepsIff(pays, w);
      } else {
        RestoreKeepsIff(pays, w, a.upTo, a.pending, a.stale);
      }
      ForwardRestoreIsSafe(w1, upTo);
      RestoreKeepsIff(pays, w1, upTo, {}, {});
      BalanceKeeps(pays, Act(pays, w1, Resync(upTo)), fee, t);
    }
  }

  // The discipline on pruning is exact: after a prune, some ledger rule and some catching up
  // with the chain lead the next balance to spend twice iff the prune forgets.
  lemma PruneIsSafeIff(w: World)
    requires Inv(w)
    ensures PruneForgets(w) <==>
      exists pays: Pays, upTo: nat, fee: U128, t: Time ::
        w.cursor <= upTo && SpendsTwiceAfter(pays, w, Prune, upTo, fee, t)
  {
    if n :| n in w.emitted && n !in CurrentNullifiers(w.local) && !Confirmed(w, w.cursor, n) {
      var upTo := ListedLater(w, w.cursor, n);
      ForgottenIsSpentAgain(w, Prune, n, upTo, 1, 0);
    } else {
      forall pays: Pays, upTo: nat, fee: U128, t: Time | w.cursor <= upTo
        ensures !SpendsTwiceAfter(pays, w, Prune, upTo, fee, t)
      {
        SafeIsNotSpentAgain(pays, w, Prune, upTo, fee, t);
      }
    }
  }

  // And so is the discipline on restoring a saved or rebuilt state, whatever its marks.
  lemma RestoreIsSafeIff(w: World, from: nat, pending: set<Nullifier>, stale: set<Nullifier>)
    requires Inv(w) && from <= |w.log|
    ensures RestoreForgets(w, from) <==>
      exists pays: Pays, upTo: nat, fee: U128, t: Time ::
        from <= upTo && SpendsTwiceAfter(pays, w, Restore(from, pending, stale), upTo, fee, t)
  {
    if n :| n in w.emitted && n !in w.skip && !Confirmed(w, from, n) {
      var upTo := ListedLater(w, from, n);
      ForgottenIsSpentAgain(w, Restore(from, pending, stale), n, upTo, 1, 0);
    } else {
      forall pays: Pays, upTo: nat, fee: U128, t: Time | from <= upTo
        ensures !SpendsTwiceAfter(pays, w, Restore(from, pending, stale), upTo, fee, t)
      {
        SafeIsNotSpentAgain(pays, w, Restore(from, pending, stale), upTo, fee, t);
      }
    }
  }

  lemma SpendsTheOnlyOne(pays: Pays, w: World, u: Utxo, fee: U128, t: Time)
    requires w.cursor <= |w.log| && w.local == DustState([u], {}, {}) && u.nul !in w.skip
    requires fee > 0 && pays(u, fee, t)
    ensures Act(pays, w, Balance(fee, t))
         == w.(local := DustState([u], {u.nul}, {}), skip := w.skip + {u.nul}, emitted := w.emitted + [u.nul])
  {
    OnlyOneListed(u);
    assert (set n | n in [u.nul]) == {u.nul};
  }

  // Pruning right after a balance and rebuilding from events: the same UTXO is spent again.
  lemma RespentAfterHiddenPrune(pays: Pays, w: World, u: Utxo, fee: U128, t: Time)
    requires w == World([Created(u)], 1, DustState([u], {}, {}), {}, [])
    requires fee > 0 && pays(u, fee, t)
    ensures var run := [Balance(fee, t), Prune, Resync(1), Balance(fee, t)];
      && RunFrom(pays, w, run) && !CarefulRun(pays, w, run)
      && After(pays, w, run).emitted == [u.nul, u.nul]
  {
    var w1 := Act(pays, w, Balance(fee, t));
    SpendsTheOnlyOne(pays, w, u, fee, t);
    var w2 := w1.(skip := {});
    assert Act(pays, w1, Prune) == w2;
    var w3 := w2.(local := DustState([u], {}, {}));
    var log := [Created(u)];
    assert log[..1] == log && log[1..] == [] && [] + [u] == [u];
    assert Replayed([], log) == Replayed([u], log[1..]) == [u];
    assert Act(pays, w2, Resync(1)) == w3;
    SpendsTheOnlyOne(pays, w3, u, fee, t);
    assert u.nul in w1.emitted && u.nul !in CurrentNullifiers(w1.local) && PruneForgets(w1);
    One(pays, w3, Balance(fee, t), []);
    One(pays, w2, Resync(1), [Balance(fee, t)]);
    One(pays, w1, Prune, [Resync(1), Balance(fee, t)]);
    One(pays, w, Balance(fee, t), [Prune, Resync(1), Balance(fee, t)]);
  }

  // Why the hypothesis is needed: pruning right after a balance, while the pending mark
  // hides the spent UTXO, forgets it; after a resync the next balance spends it again.
  lemma HiddenPruneSpendsTwice(pays: Pays, u: Utxo, fee: U128, t: Time)
    requires fee > 0 && pays(u, fee, t)
    ensures var run := [Chain(Created(u)), Sync(1), Balance(fee, t), Prune, Resync(1), Balance(fee, t)];
      && RunFrom(pays, GENESIS, run) && !CarefulRun(pays, GENESIS, run)
      && After(pays, GENESIS, run).emitted == [u.nul, u.nul]
  {
    var log, rest := [Created(u)], [Balance(fee, t), Prune, Resync(1), Balance(fee, t)];
    var w1 := Act(pays, GENESIS, Chain(Created(u)));
    assert w1.log == log && log[0..1] == log && log[1..] == [] && [] + [u] == [u];
    var w2 := World(log, 1, DustState([u], {}, {}), {}, []);
    assert Replayed([], log) == Replayed([u], log[1..]) == [u];
    assert Act(pays, w1, Sync(1)) == w2;
    RespentAfterHiddenPrune(pays, w2, u, fee, t);
    One(pays, w1, Sync(1), rest);
    One(pays, GENESIS, Chain(Created(u)), [Sync(1)] + rest);
    assert [Chain(Created(u))] + ([Sync(1)] + rest)
        == [Chain(Created(u)), Sync(1), Balance(fee, t), Prune, Resync(1), Balance(fee, t)];
  }

  // A wallet that spent u, saw the spend confirmed and still has it in its skip-set.
  function Confirming(u: Utxo): World {
    World([Created(u), Spent(u.nul)], 2, DustState([], {u.nul}, {}), {u.nul}, [u.nul])
  }

  lemma ReplayOfOne(u: Utxo)
    ensures Replayed([], [Created(u)]) == [u]
    ensures Replayed([], [Created(u), Spent(u.nul)]) == []
  {
    ReplayedAppend([], [Created(u)], [Spent(u.nul)]);
    assert [Created(u)] + [Spent(u.nul)] == [Created(u), Spent(u.nul)];
    assert [Created(u)][1..] == [] && [Spent(u.nul)][1..] == [] && [] + [u] == [u] && [u][1..] == [];
    assert WithoutPending([u], {u.nul}) == WithoutPending([u][1..], {u.nul});
  }

  lemma ConfirmingIsGood(u: Utxo)
    ensures Inv(Confirming(u)) && Confirmed(Confirming(u), 2, u.nul) && !Confirmed(Confirming(u), 1, u.nul)
  {
    var log := Confirming(u).log;
    ReplayOfOne(u);
    assert log[..2] == log && log[..1] == [Created(u)] && log[1] == Spent(u.nul) && log[0] in log;
  }

  // The prune is harmless; restoring a backup taken before the confirmation then spends the
  // UTXO again.
  lemma BackupSpendsTwice(pays: Pays, u: Utxo, fee: U128, t: Time)
    requires fee > 0 && pays(u, fee, t)
    ensures var run := [Prune, Resync(1), Balance(fee, t)];
      && RunFrom(pays, Confirming(u), run) && Careful(Confirming(u), Prune)
      && !CarefulRun(pays, Confirming(u), run)
      && After(pays, Confirming(u), run).emitted == [u.nul, u.nul]
  {
    var w := Confirming(u);
    ConfirmingIsGood(u);
    var w1 := w.(skip := {});
    assert Act(pays, w, Prune) == w1;
    var w2 := w1.(cursor := 1, local := DustState([u], {}, {}));
    ReplayOfOne(u);
    assert w.log[..1] == [Created(u)];
    assert Act(pays, w1, Resync(1)) == w2;
    SpendsTheOnlyOne(pays, w2, u, fee, t);
    assert u.nul in w1.emitted && u.nul !in w1.skip && !Confirmed(w1, 1, u.nul) && RestoreForgets(w1, 1);
    One(pays, w2, Balance(fee, t), []);
    One(pays, w1, Resync(1), [Balance(fee, t)]);
    One(pays, w, Prune, [Resync(1), Balance(fee, t)]);
    assert [Prune] + [Resync(1), Balance(fee, t)] == [Prune, Resync(1), Balance(fee, t)];
  }
}
