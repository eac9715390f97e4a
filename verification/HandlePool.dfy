// The process-global pool of contract states: a handle map behind a mutex and an
// atomic handle counter.  Every exported call is a sequence of lock sections and
// counter increments, and other threads may run between any two of them.
module HandlePool {
  import opened Common
  import Ops

  // What the on-chain VM transforms, and the op list it runs.  The VM is a parameter
  // of every statement below: it either fails or returns the new data and its events.
  type Data = Ops.Data
  type Program = seq<Ops.Op<()>>
  type Events = seq<Ops.Value>
  type Vm = (Data, Program) -> Option<(Data, Events)>

  type Handle = nat

  type VerifierKey(==, !new)

  // An operation a contract offers; its circuit's key, once it has one.
  datatype Operation = Operation(key: Option<VerifierKey>)

  datatype ContractState = ContractState(data: Data, operations: map<string, Operation>)

  // The two globals: STATE_POOL and NEXT_HANDLE.
  datatype Shared = Shared(pool: map<Handle, ContractState>, next: nat)

  const INITIAL: Shared := Shared(map[], 1)

  // ---------------------------------------------------------------- single sections

  // `NEXT_HANDLE.fetch_add(1)` on a 64-bit counter that wraps.
  function FetchAdd(g: Shared): Shared {
    g.(next := (g.next + 1) % U64_LIMIT)
  }

  function Insert(g: Shared, h: Handle, s: ContractState): Shared {
    g.(pool := g.pool[h := s])
  }

  function Remove(g: Shared, h: Handle): Shared {
    g.(pool := g.pool - {h})
  }

  function Get(g: Shared, h: Handle): Option<ContractState> {
    if h in g.pool then Some(g.pool[h]) else None
  }

  // `state.operations.insert(name, _)` on a persistent map: what it leaves of the state, and
  // the extended copy it returns.
  function InsertOperation(s: ContractState, name: string): (ContractState, map<string, Operation>) {
    (s, s.operations[name := Operation(None)])
  }

  // `contract_state_set_operation` goes on with the state and drops the copy.
  function RegisterOperation(g: Shared, h: Handle, name: string): Shared {
    if h in g.pool then Insert(g, h, InsertOperation(g.pool[h], name).0) else g
  }

  lemma NothingRegistered(g: Shared, h: Handle, name: string)
    ensures RegisterOperation(g, h, name) == g
  {
    assert h in g.pool ==> g.pool[h := g.pool[h]] == g.pool;
  }

  // The state a query leaves: new data, all other fields kept.
  function Queried(vm: Vm, s: ContractState, p: Program): Option<ContractState> {
    match vm(s.data, p)
    case Some((d, _)) => Some(s.(data := d))
    case None => None
  }

  // One query when nothing runs in between its two lock sections.
  function QueryOnce(vm: Vm, g: Shared, h: Handle, p: Program): (Shared, Option<Events>) {
    if h !in g.pool then (g, None)
    else
      match vm(g.pool[h].data, p)
      case None => (g, None)
      case Some((d, e)) => (Insert(g, h, g.pool[h].(data := d)), Some(e))
  }

  // A query that succeeds gives its entry the VM's data, keeps the entry's operations, touches
  // no other entry and returns the VM's events; otherwise it changes nothing.
  lemma QueryTouchesOneEntry(vm: Vm, g: Shared, h: Handle, p: Program)
    ensures var (g', r) := QueryOnce(vm, g, h, p);
      && g'.next == g.next && g'.pool.Keys == g.pool.Keys
      && (forall k :: k in g.pool && k != h ==> g'.pool[k] == g.pool[k])
      && (r.Some? <==> h in g.pool && vm(g.pool[h].data, p).Some?)
      && (r.None? ==> g' == g)
      && (r.Some? ==>
            && g'.pool[h].operations == g.pool[h].operations
            && vm(g.pool[h].data, p) == Some((g'.pool[h].data, r.value)))
  {
  }

  // ------------------------------------------------------------- the pool as an object

  // The globals with the exported calls as they run when no other thread interferes.
  class StatePool {
    var pool: map<Handle, ContractState>
    var next: nat

    ghost function View(): Shared
      reads this
    {
      Shared(pool, next)
    }

    constructor ()
      ensures View() == INITIAL
    {
      pool, next := map[], 1;
    }

    method NextHandle() returns (h: Handle)
      modifies this`next
      ensures h == old(next) && View() == FetchAdd(old(View()))
    {
      h := next;
      next := (next + 1) % U64_LIMIT;
    }

    // `contract_state_create` and `contract_state_create_with_nulls` after parsing.
    method Create(parsed: Option<ContractState>) returns (h: Handle)
      modifies this
      ensures parsed.None? ==> h == 0 && View() == old(View())
      ensures parsed.Some? ==> h == old(next) && View() == Insert(FetchAdd(old(View())), h, parsed.value)
    {
      if parsed.None? {
        return 0;
      }
      h := NextHandle();
      pool := pool[h := parsed.value];
    }

    method Clone(h: Handle) returns (copy: Handle)
      modifies this
      ensures h !in old(pool) ==> copy == 0 && View() == old(View())
      ensures h in old(pool) ==> copy == old(next) && View() == Insert(FetchAdd(old(View())), copy, old(pool)[h])
    {
      if h !in pool {
        return 0;
      }
      var state := pool[h];
      copy := NextHandle();
      pool := pool[copy := state];
    }

    method Free(h: Handle)
      modifies this`pool
      ensures View() == Remove(old(View()), h)
    {
      pool := pool - {h};
    }

    method TakeForDeploy(h: Handle) returns (taken: Option<ContractState>)
      modifies this`pool
      ensures taken == Get(old(View()), h) && View() == Remove(old(View()), h)
    {
      taken := if h in pool then Some(pool[h]) else None;
      pool := pool - {h};
    }

    method SetOperation(h: Handle, name: string)
      modifies this
      ensures View() == old(View())
    {
      if h in pool {
        var (state, extended) := InsertOperation(pool[h], name);
        pool := pool[h := state];
      }
    }

    // `contract_query`: read under one lock, run the VM, write back under another.
    method Query(vm: Vm, h: Handle, p: Program) returns (r: Option<Events>)
      modifies this`pool
      ensures View() == QueryOnce(vm, old(View()), h, p).0
      ensures r == QueryOnce(vm, old(View()), h, p).1
    {
      if h !in pool {
        return None;
      }
      var state := pool[h];
      var result := vm(state.data, p);
      if result.None? {
        return None;
      }
      pool := pool[h := state.(data := result.value.0)];
      r := Some(result.value.1);
    }
  }

  function Lookup(operations: map<string, Operation>, name: string): Option<Operation> {
    if name in operations then Some(operations[name]) else None
  }

  predicate Names(keys: seq<(string, Option<VerifierKey>)>, name: string) {
    exists k :: 0 <= k < |keys| && keys[k].0 == name
  }

  // The operations after inserting the named circuits' keys one by one.
  function Registered(ops: map<string, Operation>, keys: seq<(string, Option<VerifierKey>)>): map<string, Operation> {
    if keys == [] then ops
    else
      var last := keys[|keys| - 1];
      Registered(ops, keys[..|keys| - 1])[last.0 := Operation(last.1)]
  }

  lemma NamesOneMore(keys: seq<(string, Option<VerifierKey>)>, last: (string, Option<VerifierKey>), name: string)
    ensures Names(keys + [last], name) <==> Names(keys, name) || last.0 == name
  {
    var more := keys + [last];
    assert more[|keys|] == last && forall k :: 0 <= k < |keys| ==> more[k] == keys[k];
  }

  // A circuit not named is what it was, a named one has the key it is named with last.
  lemma {:induction false} RegisteredAsNamed(
      ops: map<string, Operation>, keys: seq<(string, Option<VerifierKey>)>, name: string)
    ensures !Names(keys, name) ==> Lookup(Registered(ops, keys), name) == Lookup(ops, name)
    ensures forall i :: 0 <= i < |keys| && keys[i].0 == name && !Names(keys[i + 1..], name) ==>
      Lookup(Registered(ops, keys), name) == Some(Operation(keys[i].1))
  {
    if keys == [] {
    } else {
      var init, last := keys[..|keys| - 1], keys[|keys| - 1];
      RegisteredAsNamed(ops, init, name);
      assert keys == init + [last];
      NamesOneMore(init, last, name);
      forall i | 0 <= i < |init| && keys[i].0 == name
        ensures Names(keys[i + 1..], name) <==> Names(init[i + 1..], name) || last.0 == name
      {
        assert keys[i + 1..] == init[i + 1..] + [last];
        NamesOneMore(init[i + 1..], last, name);
      }
    }
  }

  // The deploy's loop over `verifier_keys`, which does keep each copy; one bad key fails it.
  method RegisterVerifierKeys(state: ContractState, keys: seq<(string, Option<VerifierKey>)>)
    returns (r: Option<ContractState>)
    ensures r.Some? <==> forall i :: 0 <= i < |keys| ==> keys[i].1.Some?
    ensures r.Some? ==> r.value == state.(operations := Registered(state.operations, keys))
  {
    var ops := state.operations;
    for i := 0 to |keys|
      invariant forall j :: 0 <= j < i ==> keys[j].1.Some?
      invariant ops == Registered(state.operations, keys[..i])
    {
      if keys[i].1.None? {
        return None;
      }
      assert keys[..i + 1][..i] == keys[..i];
      ops := ops[keys[i].0 := Operation(keys[i].1)];
    }
    assert keys[..|keys|] == keys;
    r := Some(state.(operations := ops));
  }

  // --------------------------------------------------------- the interleaving protocol

  type Thread = nat

  // Where a thread stands between two of its sections.
  datatype Local =
    | Idle
    | Cloning(snapshot: ContractState)
    | Inserting(handle: Handle, state: ContractState)
    | Querying(handle: Handle, program: Program, snapshot: ContractState)

  datatype Sys = Sys(g: Shared, locals: map<Thread, Local>)

  // One lock section, or one counter increment, of one call.
  datatype Event =
    | CreateReserve(t: Thread, state: ContractState)
    | InsertReserved(t: Thread)
    | CloneRead(t: Thread, h: Handle)
    | CloneReserve(t: Thread)
    | QueryRead(t: Thread, h: Handle, p: Program)
    | QueryFinish(t: Thread)
    | Free(h: Handle)
    | Deploy(h: Handle)
    | SetOp(h: Handle, name: string)

  const START: Sys := Sys(INITIAL, map[])

  function At(s: Sys, t: Thread): Local {
    if t in s.locals then s.locals[t] else Idle
  }

  predicate Enabled(s: Sys, e: Event) {
    match e
    case CreateReserve(t, _) => At(s, t).Idle?
    case CloneRead(t, _) => At(s, t).Idle?
    case QueryRead(t, _, _) => At(s, t).Idle?
    case CloneReserve(t) => At(s, t).Cloning?
    case InsertReserved(t) => At(s, t).Inserting?
    case QueryFinish(t) => At(s, t).Querying?
    case _ => true
  }

  function Put(s: Sys, t: Thread, l: Local): Sys {
    s.(locals := s.locals[t := l])
  }

  function Apply(vm: Vm, s: Sys, e: Event): Sys
    requires Enabled(s, e)
  {
    match e
    case CreateReserve(t, state) =>
      Put(s.(g := FetchAdd(s.g)), t, Inserting(s.g.next, state))
    case InsertReserved(t) =>
      Put(s.(g := Insert(s.g, At(s, t).handle, At(s, t).state)), t, Idle)
    case CloneRead(t, h) =>
      if h in s.g.pool then Put(s, t, Cloning(s.g.pool[h])) else s
    case CloneReserve(t) =>
      Put(s.(g := FetchAdd(s.g)), t, Inserting(s.g.next, At(s, t).snapshot))
    case QueryRead(t, h, p) =>
      if h in s.g.pool then Put(s, t, Querying(h, p, s.g.pool[h])) else s
    case QueryFinish(t) =>
      var q := At(s, t);
      (match Queried(vm, q.snapshot, q.program)
       case Some(state) => Put(s.(g := Insert(s.g, q.handle, state)), t, Idle)
       case None => Put(s, t, Idle))
    case Free(h) => s.(g := Remove(s.g, h))
    case Deploy(h) => s.(g := Remove(s.g, h))
    case SetOp(h, name) => s.(g := RegisterOperation(s.g, h, name))
  }

  predicate Valid(vm: Vm, s: Sys, run: seq<Event>)
    decreases |run|
  {
    run == [] || (Enabled(s, run[0]) && Valid(vm, Apply(vm, s, run[0]), run[1..]))
  }

  function Exec(vm: Vm, s: Sys, run: seq<Event>): Sys
    requires Valid(vm, s, run)
    decreases |run|
  {
    if run == [] then s else Exec(vm, Apply(vm, s, run[0]), run[1..])
  }

  predicate Reserves(e: Event) {
    e.CreateReserve? || e.CloneReserve?
  }

  // How often a run increments the counter.
  function Reservations(run: seq<Event>): nat {
    if run == [] then 0
    else (if Reserves(run[0]) then 1 else 0) + Reservations(run[1..])
  }

  lemma {:induction false} ExecAppend(vm: Vm, s: Sys, a: seq<Event>, b: seq<Event>)
    ensures Valid(vm, s, a + b) <==> Valid(vm, s, a) && Valid(vm, Exec(vm, s, a), b)
    ensures Valid(vm, s, a + b) ==> Exec(vm, s, a + b) == Exec(vm, Exec(vm, s, a), b)
    decreases |a|
  {
    if a == [] {
      assert a + b == b;
    } else {
      assert (a + b)[0] == a[0] && (a + b)[1..] == a[1..] + b;
      if Enabled(s, a[0]) {
        ExecAppend(vm, Apply(vm, s, a[0]), a[1..], b);
      }
    }
  }

  lemma {:induction false} ReservationsAppend(a: seq<Event>, b: seq<Event>)
    ensures Reservations(a + b) == Reservations(a) + Reservations(b)
  {
    if a == [] {
      assert a + b == b;
    } else {
      assert (a + b)[0] == a[0] && (a + b)[1..] == a[1..] + b;
      ReservationsAppend(a[1..], b);
    }
  }

  // ------------------------------------------------------------------ handle freshness

  predicate QueriesOn(s: Sys, t: Thread, h: Handle) {
    t in s.locals && s.locals[t].Querying? && s.locals[t].handle == h
  }

  predicate InFlight(s: Sys, h: Handle) {
    exists t :: t in s.locals && QueriesOn(s, t, h)
  }

  predicate Reserved(s: Sys, h: Handle) {
    exists t :: t in s.locals && s.locals[t].Inserting? && s.locals[t].handle == h
  }

  ghost predicate Inv(s: Sys) {
    && (forall h :: h in s.g.pool ==> 0 < h < s.g.next)
    && (forall t :: t in s.locals && s.locals[t].Inserting? ==>
          0 < s.locals[t].handle < s.g.next && s.locals[t].handle !in s.g.pool)
    && (forall t, u :: t in s.locals && u in s.locals && t != u && s.locals[t].Inserting? && s.locals[u].Inserting?
          ==> s.locals[t].handle != s.locals[u].handle)
    && (forall t :: t in s.locals && s.locals[t].Querying? ==> 0 < s.locals[t].handle < s.g.next)
    && (forall t, u :: t in s.locals && u in s.locals && s.locals[t].Querying? && s.locals[u].Inserting?
          ==> s.locals[t].handle != s.locals[u].handle)
  }

  lemma InvReserve(s: Sys, t: Thread, state: ContractState)
    requires Inv(s) && 0 < s.g.next && s.g.next + 1 < U64_LIMIT
    ensures Inv(Put(s.(g := FetchAdd(s.g)), t, Inserting(s.g.next, state)))
  {
  }

  lemma InvInsert(s: Sys, t: Thread)
    requires Inv(s) && At(s, t).Inserting?
    ensures Inv(Put(s.(g := Insert(s.g, At(s, t).handle, At(s, t).state)), t, Idle))
  {
  }

  lemma InvQuery(s: Sys, t: Thread, h: Handle, p: Program)
    requires Inv(s) && h in s.g.pool
    ensures Inv(Put(s, t, Querying(h, p, s.g.pool[h])))
  {
  }

  lemma InvWriteBack(s: Sys, t: Thread, state: ContractState)
    requires Inv(s) && At(s, t).Querying?
    ensures Inv(Put(s.(g := Insert(s.g, At(s, t).handle, state)), t, Idle))
  {
  }

  lemma InvRelease(s: Sys, t: Thread, l: Local)
    requires Inv(s) && (l.Idle? || l.Cloning?)
    ensures Inv(Put(s, t, l))
  {
  }

  lemma InvRemove(s: Sys, h: Handle)
    requires Inv(s)
    ensures Inv(s.(g := Remove(s.g, h)))
  {
  }

  lemma InvRead(vm: Vm, s: Sys, e: Event)
    requires Inv(s) && Enabled(s, e) && (e.QueryRead? || e.CloneRead?)
    ensures Inv(Apply(vm, s, e))
  {
    if e.h in s.g.pool {
      if e.QueryRead? {
        InvQuery(s, e.t, e.h, e.p);
      } else {
        InvRelease(s, e.t, Cloning(s.g.pool[e.h]));
      }
    }
  }

  lemma InvFinish(vm: Vm, s: Sys, t: Thread)
    requires Inv(s) && Enabled(s, QueryFinish(t))
    ensures Inv(Apply(vm, s, QueryFinish(t)))
  {
    var q := At(s, t);
    var r := Queried(vm, q.snapshot, q.program);
    if r.Some? {
      InvWriteBack(s, t, r.value);
    } else {
      InvRelease(s, t, Idle);
    }
  }

  lemma InvStep(vm: Vm, s: Sys, e: Event)
    requires Inv(s) && 0 < s.g.next < U64_LIMIT && Enabled(s, e)
    requires s.g.next + Reservations([e]) < U64_LIMIT
    ensures Inv(Apply(vm, s, e))
    ensures Apply(vm, s, e).g.next == s.g.next + Reservations([e])
  {
    assert [e][1..] == [];
    if Reserves(e) {
      InvReserve(s, e.t, if e.CreateReserve? then e.state else At(s, e.t).snapshot);
    } else if e.InsertReserved? {
      InvInsert(s, e.t);
    } else if e.QueryRead? || e.CloneRead? {
      InvRead(vm, s, e);
    } else if e.QueryFinish? {
      InvFinish(vm, s, e.t);
    } else if e.Free? || e.Deploy? {
      InvRemove(s, e.h);
    }
  }

  lemma CounterStep(vm: Vm, s: Sys, e: Event)
    requires Enabled(s, e) && s.g.next < U64_LIMIT
    ensures Apply(vm, s, e).g.next == (s.g.next + if Reserves(e) then 1 else 0) % U64_LIMIT
  {
  }

  // The counter after any run, wrapping included.
  lemma {:induction false} CounterAfter(vm: Vm, s: Sys, run: seq<Event>)
    requires Valid(vm, s, run) && s.g.next < U64_LIMIT
    ensures Exec(vm, s, run).g.next == (s.g.next + Reservations(run)) % U64_LIMIT
    decreases |run|
  {
    if run == [] {
    } else {
      CounterStep(vm, s, run[0]);
      CounterAfter(vm, Apply(vm, s, run[0]), run[1..]);
      AddModulo(s.g.next + if Reserves(run[0]) then 1 else 0, Reservations(run[1..]), U64_LIMIT);
    }
  }

  // The invariant holds after every run from a good state in which the counter does not wrap.
  lemma {:induction false} InvRun(vm: Vm, s: Sys, run: seq<Event>)
    requires Valid(vm, s, run) && Inv(s) && 0 < s.g.next
    requires s.g.next + Reservations(run) < U64_LIMIT
    ensures Inv(Exec(vm, s, run)) && Exec(vm, s, run).g.next == s.g.next + Reservations(run)
    decreases |run|
  {
    if run == [] {
    } else {
      InvStep(vm, s, run[0]);
      InvRun(vm, Apply(vm, s, run[0]), run[1..]);
    }
  }

  // In every interleaving: 0 is never a key, live and reserved handles lie below the counter,
  // reservations are distinct and absent from the pool, so an insertion never overwrites.
  lemma PoolSafety(vm: Vm, run: seq<Event>)
    requires Valid(vm, START, run) && 1 + Reservations(run) < U64_LIMIT
    ensures var s := Exec(vm, START, run);
      && (forall h :: h in s.g.pool ==> 0 < h < s.g.next)
      && (forall t :: At(s, t).Inserting? ==> 0 < At(s, t).handle < s.g.next && At(s, t).handle !in s.g.pool)
      && (forall t, u :: t != u && At(s, t).Inserting? && At(s, u).Inserting? ==> At(s, t).handle != At(s, u).handle)
  {
    InvRun(vm, START, run);
  }

  // Two reservations of one run return the same handle exactly when a multiple of 2^64
  // increments lies between them; a reservation returns 0 exactly when the counter has
  // run through all 64-bit values.
  lemma HandlesReissuedOnlyByWrapping(vm: Vm, run: seq<Event>, i: nat, j: nat)
    requires Valid(vm, START, run) && i < j < |run| && Reserves(run[i]) && Reserves(run[j])
    ensures Valid(vm, START, run[..i]) && Valid(vm, START, run[..j])
    ensures Exec(vm, START, run[..i]).g.next == Exec(vm, START, run[..j]).g.next
       <==> Reservations(run[i..j]) % U64_LIMIT == 0
    ensures Exec(vm, START, run[..i]).g.next == 0 <==> (1 + Reservations(run[..i])) % U64_LIMIT == 0
  {
    assert run == run[..i] + run[i..] && run == run[..j] + run[j..] && run[..j] == run[..i] + run[i..j];
    ExecAppend(vm, START, run[..i], run[i..]);
    ExecAppend(vm, START, run[..j], run[j..]);
    CounterAfter(vm, START, run[..i]);
    CounterAfter(vm, START, run[..j]);
    ReservationsAppend(run[..i], run[i..j]);
    EqualModulo(1 + Reservations(run[..i]), Reservations(run[i..j]), U64_LIMIT);
  }

  // ------------------------------------------------------- operations are never registered

  function WithoutSetOps(run: seq<Event>): seq<Event> {
    if run == [] then []
    else if run[0].SetOp? then WithoutSetOps(run[1..])
    else [run[0]] + WithoutSetOps(run[1..])
  }

  // Leaving out every set-operation call changes nothing: no run can tell whether they ran.
  lemma {:induction false} SetOperationsRegisterNothing(vm: Vm, s: Sys, run: seq<Event>)
    ensures Valid(vm, s, run) <==> Valid(vm, s, WithoutSetOps(run))
    ensures Valid(vm, s, run) ==> Exec(vm, s, run) == Exec(vm, s, WithoutSetOps(run))
    decreases |run|
  {
    if run == [] {
    } else {
      var e, rest := run[0], WithoutSetOps(run[1..]);
      if e.SetOp? {
        NothingRegistered(s.g, e.h, e.name);
        SetOperationsRegisterNothing(vm, s, run[1..]);
      } else {
        assert ([e] + rest)[0] == e && ([e] + rest)[1..] == rest;
        if Enabled(s, e) {
          SetOperationsRegisterNothing(vm, Apply(vm, s, e), run[1..]);
        }
      }
    }
  }

  // ---------------------------------------------------- calls as atomic commands

  predicate Removes(e: Event, h: Handle) {
    (e.Free? || e.Deploy?) && e.h == h
  }

  // The caller's discipline on a handle: no query on it runs when it is freed, deployed or
  // queried again.
  predicate DisciplinedOn(s: Sys, e: Event, h: Handle) {
    Removes(e, h) || (e.QueryRead? && e.h == h) ==> !InFlight(s, h)
  }

  predicate DisciplinedRunOn(vm: Vm, s: Sys, run: seq<Event>, h: Handle)
    requires Valid(vm, s, run)
    decreases |run|
  {
    run == [] || (DisciplinedOn(s, run[0], h) && DisciplinedRunOn(vm, Apply(vm, s, run[0]), run[1..], h))
  }

  // The discipline on every handle.
  predicate Disciplined(s: Sys, e: Event) {
    e.Free? || e.Deploy? || e.QueryRead? ==> DisciplinedOn(s, e, e.h)
  }

  predicate DisciplinedRun(vm: Vm, s: Sys, run: seq<Event>)
    requires Valid(vm, s, run)
    decreases |run|
  {
    run == [] || (Disciplined(s, run[0]) && DisciplinedRun(vm, Apply(vm, s, run[0]), run[1..]))
  }

  // Under the discipline an unfinished query on a handle is the only one on it, and still
  // holds what the pool holds.
  ghost predicate QueriesCurrentOn(s: Sys, h: Handle) {
    && (forall t :: QueriesOn(s, t, h) ==> h in s.g.pool && s.g.pool[h] == s.locals[t].snapshot)
    && (forall t, u :: QueriesOn(s, t, h) && QueriesOn(s, u, h) ==> t == u)
  }

  ghost predicate QueriesCurrent(s: Sys) {
    forall h :: QueriesCurrentOn(s, h)
  }

  lemma QueriesCurrentStepOn(vm: Vm, s: Sys, e: Event, h: Handle)
    requires Inv(s) && QueriesCurrentOn(s, h) && Enabled(s, e) && DisciplinedOn(s, e, h)
    ensures QueriesCurrentOn(Apply(vm, s, e), h)
  {
    var s' := Apply(vm, s, e);
    if e.QueryFinish? {
      assert At(s, e.t).handle == h ==> QueriesOn(s, e.t, h);
    } else if e.SetOp? {
      NothingRegistered(s.g, e.h, e.name);
    }
    forall t | QueriesOn(s', t, h)
      ensures QueriesOn(s, t, h) || (e.QueryRead? && e.t == t && e.h == h)
    {
    }
    forall t | QueriesOn(s', t, h)
      ensures h in s'.g.pool && s'.g.pool[h] == s'.locals[t].snapshot
    {
      assert QueriesOn(s, t, h) ==> InFlight(s, h);
    }
    assert !InFlight(s, h) ==> forall t :: !QueriesOn(s, t, h);
  }

  lemma QueriesCurrentStep(vm: Vm, s: Sys, e: Event)
    requires Inv(s) && QueriesCurrent(s) && Enabled(s, e) && Disciplined(s, e)
    ensures QueriesCurrent(Apply(vm, s, e))
  {
    forall h
      ensures QueriesCurrentOn(Apply(vm, s, e), h)
    {
      QueriesCurrentStepOn(vm, s, e, h);
    }
  }

  // A call's effect on the pool as one indivisible command.
  datatype Command =
    | New(h: Handle, state: ContractState)
    | RunProgram(h: Handle, p: Program)
    | Drop(h: Handle)

  function CommandOf(s: Sys, e: Event): seq<Command>
    requires Enabled(s, e)
  {
    match e
    case InsertReserved(t) => [New(At(s, t).handle, At(s, t).state)]
    case QueryFinish(t) => [RunProgram(At(s, t).handle, At(s, t).program)]
    case Free(h) => [Drop(h)]
    case Deploy(h) => [Drop(h)]
    case _ => []
  }

  function History(vm: Vm, s: Sys, run: seq<Event>): seq<Command>
    requires Valid(vm, s, run)
    decreases |run|
  {
    if run == [] then [] else CommandOf(s, run[0]) + History(vm, Apply(vm, s, run[0]), run[1..])
  }

  // The simple form: one map, commands applied one after the other.
  function Step(vm: Vm, m: map<Handle, ContractState>, c: Command): map<Handle, ContractState> {
    match c
    case New(h, state) => m[h := state]
    case RunProgram(h, p) =>
      if h !in m then m else (match Queried(vm, m[h], p) case Some(state) => m[h := state] case None => m)
    case Drop(h) => m - {h}
  }

  function Sequential(vm: Vm, m: map<Handle, ContractState>, cs: seq<Command>): map<Handle, ContractState>
    decreases |cs|
  {
    if cs == [] then m else Sequential(vm, Step(vm, m, cs[0]), cs[1..])
  }

  lemma SectionIsItsCommand(vm: Vm, s: Sys, e: Event)
    requires Inv(s) && QueriesCurrent(s) && Enabled(s, e)
    ensures Apply(vm, s, e).g.pool == Sequential(vm, s.g.pool, CommandOf(s, e))
  {
    var cs := CommandOf(s, e);
    assert cs != [] ==> cs[1..] == [] && Sequential(vm, s.g.pool, cs) == Step(vm, s.g.pool, cs[0]);
    if e.QueryFinish? {
      assert QueriesCurrentOn(s, At(s, e.t).handle);
      assert QueriesOn(s, e.t, At(s, e.t).handle);
    } else if e.SetOp? {
      NothingRegistered(s.g, e.h, e.name);
    }
  }

  lemma {:induction false} SequentialAppend(vm: Vm, m: map<Handle, ContractState>, a: seq<Command>, b: seq<Command>)
    ensures Sequential(vm, m, a + b) == Sequential(vm, Sequential(vm, m, a), b)
    decreases |a|
  {
    if a == [] {
      assert a + b == b;
    } else {
      assert (a + b)[0] == a[0] && (a + b)[1..] == a[1..] + b;
      SequentialAppend(vm, Step(vm, m, a[0]), a[1..], b);
    }
  }

  // Every disciplined interleaving leaves the pool that its completed calls, run one at a
  // time in completion order, would leave.
  lemma {:induction false} InterleavingsAreSequential(vm: Vm, s: Sys, run: seq<Event>)
    requires Valid(vm, s, run) && DisciplinedRun(vm, s, run)
    requires Inv(s) && QueriesCurrent(s) && 0 < s.g.next && s.g.next + Reservations(run) < U64_LIMIT
    ensures Exec(vm, s, run).g.pool == Sequential(vm, s.g.pool, History(vm, s, run))
    ensures QueriesCurrent(Exec(vm, s, run))
    decreases |run|
  {
    if run == [] {
    } else {
      var s' := Apply(vm, s, run[0]);
      InvStep(vm, s, run[0]);
      QueriesCurrentStep(vm, s, run[0]);
      InterleavingsAreSequential(vm, s', run[1..]);
      SectionIsItsCommand(vm, s, run[0]);
      SequentialAppend(vm, s.g.pool, CommandOf(s, run[0]), History(vm, s', run[1..]));
    }
  }

  // ------------------------------------------------------------ the life of one handle

  // The program of the query on h that a section completes, if it does.
  function Completed(s: Sys, e: Event, h: Handle): seq<Program> {
    if e.QueryFinish? && At(s, e.t).Querying? && At(s, e.t).handle == h then [At(s, e.t).program] else []
  }

  // The programs of the queries on h that a run completes, in completion order.
  function Programs(vm: Vm, s: Sys, run: seq<Event>, h: Handle): seq<Program>
    requires Valid(vm, s, run)
    decreases |run|
  {
    if run == [] then []
    else Completed(s, run[0], h) + Programs(vm, Apply(vm, s, run[0]), run[1..], h)
  }

  // Applies the programs one by one; a program the VM rejects leaves the state alone.
  function Fold(vm: Vm, state: ContractState, ps: seq<Program>): ContractState
    decreases |ps|
  {
    if ps == [] then state
    else
      Fold(vm, (match Queried(vm, state, ps[0]) case Some(next) => next case None => state), ps[1..])
  }

  // How many deploys of h in a run find a state to deploy.
  function Deploys(vm: Vm, s: Sys, run: seq<Event>, h: Handle): nat
    requires Valid(vm, s, run)
    decreases |run|
  {
    if run == [] then 0
    else
      (if run[0] == Deploy(h) && h in s.g.pool then 1 else 0) + Deploys(vm, Apply(vm, s, run[0]), run[1..], h)
  }

  // Unfolds one section of a run.
  lemma First(vm: Vm, s: Sys, e: Event, rest: seq<Event>, h: Handle)
    requires Enabled(s, e) && Valid(vm, Apply(vm, s, e), rest)
    ensures Valid(vm, s, [e] + rest)
    ensures Exec(vm, s, [e] + rest) == Exec(vm, Apply(vm, s, e), rest)
    ensures DisciplinedRunOn(vm, s, [e] + rest, h)
       <==> DisciplinedOn(s, e, h) && DisciplinedRunOn(vm, Apply(vm, s, e), rest, h)
    ensures Deploys(vm, s, [e] + rest, h)
         == (if e == Deploy(h) && h in s.g.pool then 1 else 0) + Deploys(vm, Apply(vm, s, e), rest, h)
    ensures Programs(vm, s, [e] + rest, h) == Completed(s, e, h) + Programs(vm, Apply(vm, s, e), rest, h)
  {
    assert ([e] + rest)[0] == e && ([e] + rest)[1..] == rest;
  }

  lemma SectionFolds(vm: Vm, s: Sys, e: Event, h: Handle)
    requires Inv(s) && QueriesCurrentOn(s, h) && Enabled(s, e) && h in s.g.pool && !Removes(e, h)
    ensures h in Apply(vm, s, e).g.pool
    ensures Apply(vm, s, e).g.pool[h] == Fold(vm, s.g.pool[h], Completed(s, e, h))
  {
    var ps := Completed(s, e, h);
    assert ps != [] ==> ps[1..] == [] && QueriesOn(s, e.t, h);
    if e.SetOp? {
      NothingRegistered(s.g, e.h, e.name);
    }
  }

  lemma {:induction false} FoldAppend(vm: Vm, state: ContractState, a: seq<Program>, b: seq<Program>)
    ensures Fold(vm, state, a + b) == Fold(vm, Fold(vm, state, a), b)
    decreases |a|
  {
    if a == [] {
      assert a + b == b;
    } else {
      assert (a + b)[0] == a[0] && (a + b)[1..] == a[1..] + b;
      FoldAppend(vm, match Queried(vm, state, a[0]) case Some(next) => next case None => state, a[1..], b);
    }
  }

  // Whatever happens to other handles.
  lemma {:induction false} StateIsFoldOfItsQueries(vm: Vm, s: Sys, run: seq<Event>, h: Handle)
    requires Valid(vm, s, run) && DisciplinedRunOn(vm, s, run, h)
    requires Inv(s) && QueriesCurrentOn(s, h) && 0 < s.g.next && s.g.next + Reservations(run) < U64_LIMIT
    requires h in s.g.pool && forall e :: e in run ==> !Removes(e, h)
    ensures h in Exec(vm, s, run).g.pool
    ensures Exec(vm, s, run).g.pool[h] == Fold(vm, s.g.pool[h], Programs(vm, s, run, h))
    decreases |run|
  {
    if run == [] {
    } else {
      var s' := Apply(vm, s, run[0]);
      InvStep(vm, s, run[0]);
      QueriesCurrentStepOn(vm, s, run[0], h);
      assert run[0] in run;
      SectionFolds(vm, s, run[0], h);
      StateIsFoldOfItsQueries(vm, s', run[1..], h);
      FoldAppend(vm, s.g.pool[h], Completed(s, run[0], h), Programs(vm, s', run[1..], h));
    }
  }

  // What an unfinished query will write back has the operations the pool has.
  ghost predicate OperationsCurrentOn(s: Sys, h: Handle) {
    forall t :: QueriesOn(s, t, h) && h in s.g.pool ==> s.locals[t].snapshot.operations == s.g.pool[h].operations
  }

  lemma OperationsStep(vm: Vm, s: Sys, e: Event, h: Handle)
    requires Inv(s) && OperationsCurrentOn(s, h) && Enabled(s, e) && h in s.g.pool && !Removes(e, h)
    ensures OperationsCurrentOn(Apply(vm, s, e), h) && h in Apply(vm, s, e).g.pool
    ensures Apply(vm, s, e).g.pool[h].operations == s.g.pool[h].operations
  {
    var s' := Apply(vm, s, e);
    if e.QueryFinish? {
      assert At(s, e.t).handle == h ==> QueriesOn(s, e.t, h);
    } else if e.SetOp? {
      NothingRegistered(s.g, e.h, e.name);
    }
    forall t | QueriesOn(s', t, h)
      ensures s'.locals[t].snapshot.operations == s'.g.pool[h].operations
    {
      assert QueriesOn(s, t, h) || (e.QueryRead? && e.t == t && e.h == h);
    }
  }

  // In any run, disciplined or not, an entry that is not removed keeps its operations: queries
  // write back data only, and set-operation registers nothing.
  lemma {:induction false} OperationsNeverChange(vm: Vm, s: Sys, run: seq<Event>, h: Handle)
    requires Valid(vm, s, run) && Inv(s) && OperationsCurrentOn(s, h)
    requires 0 < s.g.next && s.g.next + Reservations(run) < U64_LIMIT
    requires h in s.g.pool && forall e :: e in run ==> !Removes(e, h)
    ensures h in Exec(vm, s, run).g.pool
    ensures Exec(vm, s, run).g.pool[h].operations == s.g.pool[h].operations
    decreases |run|
  {
    if run == [] {
    } else {
      assert run[0] in run;
      InvStep(vm, s, run[0]);
      OperationsStep(vm, s, run[0], h);
      OperationsNeverChange(vm, Apply(vm, s, run[0]), run[1..], h);
    }
  }

  // ------------------------------------------------------------------ removal is final

  // Some query that read h before its removal will still write back.
  predicate WriteBackPending(vm: Vm, s: Sys, h: Handle) {
    exists t :: t in s.locals && s.locals[t].Querying? && s.locals[t].handle == h &&
                Queried(vm, s.locals[t].snapshot, s.locals[t].program).Some?
  }

  // h was issued, no thread is about to insert it, and the pool no longer holds it.
  predicate Gone(s: Sys, h: Handle) {
    h !in s.g.pool && 0 < h < s.g.next && !Reserved(s, h)
  }

  lemma GoneStep(vm: Vm, s: Sys, e: Event, h: Handle)
    requires Gone(s, h) && !WriteBackPending(vm, s, h) && Enabled(s, e)
    requires s.g.next + Reservations([e]) < U64_LIMIT
    ensures Gone(Apply(vm, s, e), h) && !WriteBackPending(vm, Apply(vm, s, e), h)
  {
    var s' := Apply(vm, s, e);
    forall t | t in s'.locals && s'.locals[t].Inserting?
      ensures s'.locals[t].handle != h
    {
      assert t in s.locals && s.locals[t].Inserting? ==> s.locals[t].handle != h;
    }
  }

  lemma {:induction false} GoneForever(vm: Vm, s: Sys, run: seq<Event>, h: Handle)
    requires Valid(vm, s, run) && Gone(s, h) && !WriteBackPending(vm, s, h)
    requires s.g.next + Reservations(run) < U64_LIMIT
    ensures h !in Exec(vm, s, run).g.pool && Deploys(vm, s, run, h) == 0
    decreases |run|
  {
    if run == [] {
    } else {
      GoneStep(vm, s, run[0], h);
      GoneForever(vm, Apply(vm, s, run[0]), run[1..], h);
    }
  }

  // A removed handle can come back exactly when a query that read it earlier is still to
  // write back.
  lemma ReturnsOnlyByPendingWriteBack(vm: Vm, s: Sys, h: Handle)
    requires Gone(s, h) && s.g.next < U64_LIMIT
    ensures WriteBackPending(vm, s, h) <==>
      exists run :: Valid(vm, s, run) && s.g.next + Reservations(run) < U64_LIMIT && h in Exec(vm, s, run).g.pool
  {
    if WriteBackPending(vm, s, h) {
      var t :| t in s.locals && s.locals[t].Querying? && s.locals[t].handle == h &&
               Queried(vm, s.locals[t].snapshot, s.locals[t].program).Some?;
      var run := [QueryFinish(t)];
      var after := Apply(vm, s, run[0]);
      assert At(s, t) == s.locals[t] && h in after.g.pool;
      First(vm, s, QueryFinish(t), [], h);
      assert run == [QueryFinish(t)] + [];
      assert Valid(vm, s, run) && Reservations(run) == 0 && h in Exec(vm, s, run).g.pool;
    } else {
      forall run | Valid(vm, s, run) && s.g.next + Reservations(run) < U64_LIMIT
        ensures h !in Exec(vm, s, run).g.pool
      {
        GoneForever(vm, s, run, h);
      }
    }
  }

  lemma {:induction false} DisciplineHolds(vm: Vm, s: Sys, a: seq<Event>, b: seq<Event>, h: Handle)
    requires Valid(vm, s, a + b) && DisciplinedRunOn(vm, s, a + b, h)
    ensures Valid(vm, s, a) && DisciplinedRunOn(vm, s, a, h)
    ensures Valid(vm, Exec(vm, s, a), b) && DisciplinedRunOn(vm, Exec(vm, s, a), b, h)
    decreases |a|
  {
    if a == [] {
      assert a + b == b;
    } else {
      assert (a + b)[0] == a[0] && (a + b)[1..] == a[1..] + b;
      DisciplineHolds(vm, Apply(vm, s, a[0]), a[1..], b, h);
    }
  }

  // Freeing or deploying a live handle in a run disciplined on it removes it for good.
  lemma RemovalIsFinal(vm: Vm, before: seq<Event>, e: Event, after: seq<Event>, h: Handle)
    requires var run := before + [e] + after;
      Valid(vm, START, run) && DisciplinedRunOn(vm, START, run, h) && 1 + Reservations(run) < U64_LIMIT
    requires Valid(vm, START, before) && h in Exec(vm, START, before).g.pool && Removes(e, h)
    ensures h !in Exec(vm, START, before + [e] + after).g.pool
  {
    assert before + [e] + after == before + ([e] + after);
    DisciplineHolds(vm, START, before, [e] + after, h);
    ExecAppend(vm, START, before, [e] + after);
    ReservationsAppend(before, [e] + after);
    var s := Exec(vm, START, before);
    InvRun(vm, START, before);
    assert ([e] + after)[0] == e && ([e] + after)[1..] == after;
    assert !InFlight(s, h);
    assert !Reserved(s, h);
    GoneForever(vm, Apply(vm, s, e), after, h);
  }

  lemma {:induction false} DeploysAtMostOnce(vm: Vm, s: Sys, run: seq<Event>, h: Handle)
    requires Valid(vm, s, run) && DisciplinedRunOn(vm, s, run, h)
    requires Inv(s) && 0 < s.g.next && s.g.next + Reservations(run) < U64_LIMIT
    ensures Deploys(vm, s, run, h) <= 1
    decreases |run|
  {
    if run == [] {
    } else {
      var s' := Apply(vm, s, run[0]);
      InvStep(vm, s, run[0]);
      if run[0] == Deploy(h) && h in s.g.pool {
        assert !InFlight(s, h) && !Reserved(s, h);
        GoneForever(vm, s', run[1..], h);
      } else {
        DeploysAtMostOnce(vm, s', run[1..], h);
      }
    }
  }

  // ------------------------------------------------------- clones are independent

  function ThreadOf(e: Event): Option<Thread> {
    match e
    case Free(_) => None
    case Deploy(_) => None
    case SetOp(_, _) => None
    case _ => Some(e.t)
  }

  predicate Without(run: seq<Event>, t: Thread) {
    forall e :: e in run ==> ThreadOf(e) != Some(t)
  }

  lemma {:induction false} OthersKeepLocal(vm: Vm, s: Sys, run: seq<Event>, t: Thread)
    requires Valid(vm, s, run) && Without(run, t)
    ensures At(Exec(vm, s, run), t) == At(s, t)
    decreases |run|
  {
    if run == [] {
    } else {
      assert ThreadOf(run[0]) != Some(t);
      OthersKeepLocal(vm, Apply(vm, s, run[0]), run[1..], t);
    }
  }

  // A handle no query completes on and nobody removes keeps its state, in any run.
  lemma {:induction false} UnnamedHandleKept(vm: Vm, s: Sys, run: seq<Event>, c: Handle)
    requires Valid(vm, s, run) && Inv(s) && 0 < s.g.next && s.g.next + Reservations(run) < U64_LIMIT
    requires c in s.g.pool && Programs(vm, s, run, c) == [] && forall e :: e in run ==> !Removes(e, c)
    ensures c in Exec(vm, s, run).g.pool && Exec(vm, s, run).g.pool[c] == s.g.pool[c]
    decreases |run|
  {
    if run == [] {
    } else {
      assert !Removes(run[0], c);
      InvStep(vm, s, run[0]);
      UnnamedHandleKept(vm, Apply(vm, s, run[0]), run[1..], c);
    }
  }

  function CloneUpTo(t: Thread, h: Handle, mid: seq<Event>, late: seq<Event>): seq<Event> {
    [CloneRead(t, h)] + mid + [CloneReserve(t)] + late + [InsertReserved(t)]
  }

  // The clone's three sections with anything in between: the copy holds the state its
  // source had at the read, until a query or a removal names the copy.
  lemma CloneKeepsSnapshot(vm: Vm, s: Sys, t: Thread, h: Handle, mid: seq<Event>, late: seq<Event>, after: seq<Event>)
    requires h in s.g.pool && Inv(s) && 0 < s.g.next && Without(mid, t) && Without(late, t)
    requires Valid(vm, s, CloneUpTo(t, h, mid, late) + after)
    requires s.g.next + Reservations(CloneUpTo(t, h, mid, late) + after) < U64_LIMIT
    requires Valid(vm, s, [CloneRead(t, h)] + mid) && Valid(vm, s, CloneUpTo(t, h, mid, late))
    requires var copy := Exec(vm, s, [CloneRead(t, h)] + mid).g.next;
      var inserted := Exec(vm, s, CloneUpTo(t, h, mid, late));
      Valid(vm, inserted, after) && Programs(vm, inserted, after, copy) == [] &&
      forall e :: e in after ==> !Removes(e, copy)
    ensures var copy := Exec(vm, s, [CloneRead(t, h)] + mid).g.next;
      var final := Exec(vm, s, CloneUpTo(t, h, mid, late) + after);
      copy in final.g.pool && final.g.pool[copy] == s.g.pool[h]
  {
    var opening := [CloneRead(t, h)] + mid;
    var call := CloneUpTo(t, h, mid, late);
    ExecAppend(vm, s, call, after);
    ReservationsAppend(call, after);
    assert call == opening + ([CloneReserve(t)] + (late + [InsertReserved(t)]));
    var rest := [CloneReserve(t)] + (late + [InsertReserved(t)]);
    ExecAppend(vm, s, opening, rest);
    var s1 := Apply(vm, s, CloneRead(t, h));
    assert opening[0] == CloneRead(t, h) && opening[1..] == mid;
    OthersKeepLocal(vm, s1, mid, t);
    var s2 := Exec(vm, s, opening);
    assert At(s2, t) == Cloning(s.g.pool[h]);
    assert rest[0] == CloneReserve(t) && rest[1..] == late + [InsertReserved(t)];
    var s3 := Apply(vm, s2, CloneReserve(t));
    ExecAppend(vm, s3, late, [InsertReserved(t)]);
    OthersKeepLocal(vm, s3, late, t);
    var s4 := Exec(vm, s3, late);
    assert At(s4, t) == Inserting(s2.g.next, s.g.pool[h]);
    var finish := [InsertReserved(t)];
    assert finish[1..] == [];
    assert Exec(vm, s4, finish) == Apply(vm, s4, InsertReserved(t));
    InvRun(vm, s, call);
    UnnamedHandleKept(vm, Exec(vm, s, call), after, s2.g.next);
  }

  // -------------------------------------------------- why the discipline is needed

  // Sections run back to back by one thread are the calls of class StatePool, on live and on
  // unknown handles.
  lemma CreateWithoutInterference(vm: Vm, s: Sys, t: Thread, state: ContractState)
    requires At(s, t).Idle?
    ensures var run := [CreateReserve(t, state), InsertReserved(t)];
      && Valid(vm, s, run)
      && Exec(vm, s, run).g == Insert(FetchAdd(s.g), s.g.next, state)
      && At(Exec(vm, s, run), t).Idle?
  {
    First(vm, Apply(vm, s, CreateReserve(t, state)), InsertReserved(t), [], 0);
    First(vm, s, CreateReserve(t, state), [InsertReserved(t)], 0);
  }

  lemma CloneWithoutInterference(vm: Vm, s: Sys, t: Thread, h: Handle)
    requires At(s, t).Idle?
    ensures
      var run := [CloneRead(t, h)] + if h in s.g.pool then [CloneReserve(t), InsertReserved(t)] else [];
      && Valid(vm, s, run)
      && Exec(vm, s, run).g == (if h in s.g.pool then Insert(FetchAdd(s.g), s.g.next, s.g.pool[h]) else s.g)
      && At(Exec(vm, s, run), t).Idle?
  {
    var s1 := Apply(vm, s, CloneRead(t, h));
    if h in s.g.pool {
      First(vm, Apply(vm, s1, CloneReserve(t)), InsertReserved(t), [], h);
      First(vm, s1, CloneReserve(t), [InsertReserved(t)], h);
      First(vm, s, CloneRead(t, h), [CloneReserve(t), InsertReserved(t)], h);
      assert [CloneReserve(t)] + [InsertReserved(t)] == [CloneReserve(t), InsertReserved(t)];
    } else {
      First(vm, s, CloneRead(t, h), [], h);
    }
  }

  lemma QueryWithoutInterference(vm: Vm, s: Sys, t: Thread, h: Handle, p: Program)
    requires At(s, t).Idle?
    ensures var run := if h in s.g.pool then [QueryRead(t, h, p), QueryFinish(t)] else [QueryRead(t, h, p)];
      && Valid(vm, s, run)
      && Exec(vm, s, run).g == QueryOnce(vm, s.g, h, p).0
      && At(Exec(vm, s, run), t).Idle?
  {
    if h in s.g.pool {
      First(vm, Apply(vm, s, QueryRead(t, h, p)), QueryFinish(t), [], h);
      First(vm, s, QueryRead(t, h, p), [QueryFinish(t)], h);
    } else {
      First(vm, s, QueryRead(t, h, p), [], h);
    }
  }

  lemma SingleSections(vm: Vm, s: Sys, h: Handle, name: string)
    ensures Valid(vm, s, [Free(h)]) && Exec(vm, s, [Free(h)]).g == Remove(s.g, h)
    ensures Valid(vm, s, [Deploy(h)]) && Exec(vm, s, [Deploy(h)]).g == Remove(s.g, h)
    ensures Valid(vm, s, [SetOp(h, name)]) && Exec(vm, s, [SetOp(h, name)]).g == s.g
  {
    First(vm, s, Free(h), [], h);
    First(vm, s, Deploy(h), [], h);
    First(vm, s, SetOp(h, name), [], h);
    NothingRegistered(s.g, h, name);
  }

  // A write-back acts as if its query had run in one piece, whatever the VM does, exactly
  // when the pool still holds what the query read.
  lemma WriteBackIsAtomicIff(s: Sys, t: Thread)
    requires At(s, t).Querying?
    ensures var q := At(s, t);
      (forall vm: Vm :: Apply(vm, s, QueryFinish(t)).g == QueryOnce(vm, s.g, q.handle, q.program).0)
      <==> Get(s.g, q.handle) == Some(q.snapshot)
  {
    var q := At(s, t);
    if Get(s.g, q.handle) != Some(q.snapshot) {
      var keep: Vm := (d, p) => Some((d, []));
      var after := Apply(keep, s, QueryFinish(t)).g;
      assert after.pool[q.handle] == q.snapshot;
      assert Get(QueryOnce(keep, s.g, q.handle, q.program).0, q.handle) == Get(s.g, q.handle);
      assert Get(after, q.handle) == Some(q.snapshot);
    }
  }

  // A deploy between a query's read and its write-back: the write-back restores the handle
  // and the same contract is deployed a second time.
  lemma DeployDuringQueryDeploysTwice(vm: Vm, s: Sys, t: Thread, h: Handle, p: Program)
    requires h in s.g.pool && At(s, t).Idle? && Queried(vm, s.g.pool[h], p).Some?
    ensures var run := [QueryRead(t, h, p), Deploy(h), QueryFinish(t), Deploy(h)];
      Valid(vm, s, run) && Deploys(vm, s, run, h) == 2 && !DisciplinedRunOn(vm, s, run, h)
  {
    var s1 := Apply(vm, s, QueryRead(t, h, p));
    var s2 := Apply(vm, s1, Deploy(h));
    var s3 := Apply(vm, s2, QueryFinish(t));
    First(vm, s3, Deploy(h), [], h);
    First(vm, s2, QueryFinish(t), [Deploy(h)], h);
    First(vm, s1, Deploy(h), [QueryFinish(t), Deploy(h)], h);
    First(vm, s, QueryRead(t, h, p), [Deploy(h), QueryFinish(t), Deploy(h)], h);
    assert QueriesOn(s1, t, h) && InFlight(s1, h);
  }

  // Two overlapping queries on one handle both complete, and the second write-back erases
  // the first one's effect.
  lemma OverlappingQueriesLoseAnUpdate(vm: Vm, s: Sys, t: Thread, u: Thread, h: Handle, p: Program, q: Program)
    requires h in s.g.pool && t != u && At(s, t).Idle? && At(s, u).Idle?
    requires Queried(vm, s.g.pool[h], p).Some? && Queried(vm, s.g.pool[h], q).Some?
    ensures var run := [QueryRead(t, h, p), QueryRead(u, h, q), QueryFinish(t), QueryFinish(u)];
      && Valid(vm, s, run)
      && Programs(vm, s, run, h) == [p, q]
      && Get(Exec(vm, s, run).g, h) == Queried(vm, s.g.pool[h], q)
  {
    var s1 := Apply(vm, s, QueryRead(t, h, p));
    var s2 := Apply(vm, s1, QueryRead(u, h, q));
    var s3 := Apply(vm, s2, QueryFinish(t));
    assert At(s2, t) == Querying(h, p, s.g.pool[h]) && At(s3, u) == Querying(h, q, s.g.pool[h]);
    First(vm, s3, QueryFinish(u), [], h);
    First(vm, s2, QueryFinish(t), [QueryFinish(u)], h);
    First(vm, s1, QueryRead(u, h, q), [QueryFinish(t), QueryFinish(u)], h);
    First(vm, s, QueryRead(t, h, p), [QueryRead(u, h, q), QueryFinish(t), QueryFinish(u)], h);
  }
}
