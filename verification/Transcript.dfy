// Rewriting a recorded transcript for re-execution, and splitting a program over several
// queries of the same pooled state.
module Transcript {
  import opened Common
  import opened Ops
  import HandlePool

  // One op of `convert_verify_to_gather`: a popeq forgets its recorded result, every known
  // op keeps all its fields, an unknown one is an error.
  function ConvertOp(op: Op<Value>): Result<Op<()>, nat> {
    match op
    case Dup(n) => Ok(Dup(n))
    case Pop => Ok(Pop)
    case Popeq(cached, _) => Ok(Popeq(cached, ()))
    case Push(storage, node) => Ok(Push(storage, node))
    case Idx(cached, pushPath, path) => Ok(Idx(cached, pushPath, path))
    case Ins(cached, n) => Ok(Ins(cached, n))
    case Lt => Ok(Lt)
    case Eq => Ok(Eq)
    case Add => Ok(Add)
    case Sub => Ok(Sub)
    case Neg => Ok(Neg)
    case And => Ok(And)
    case Or => Ok(Or)
    case Type => Ok(Type)
    case Size => Ok(Size)
    case New => Ok(New)
    case Log => Ok(Log)
    case Root => Ok(Root)
    case Member => Ok(Member)
    case Ckpt => Ok(Ckpt)
    case Noop(n) => Ok(Noop(n))
    case Branch(skip) => Ok(Branch(skip))
    case Jmp(skip) => Ok(Jmp(skip))
    case Concat(cached, n) => Ok(Concat(cached, n))
    case Swap(n) => Ok(Swap(n))
    case Rem(cached) => Ok(Rem(cached))
    case Addi(immediate) => Ok(Addi(immediate))
    case Subi(immediate) => Ok(Subi(immediate))
    case Other(code) => Err(code)
  }

  function ConvertVerifyToGather(ops: seq<Op<Value>>): Result<seq<Op<()>>, nat> {
    if ops == [] then Ok([])
    else
      match ConvertOp(ops[0])
      case Err(code) => Err(code)
      case Ok(first) =>
        match ConvertVerifyToGather(ops[1..])
        case Err(code) => Err(code)
        case Ok(rest) => Ok([first] + rest)
  }

  // The VM sees no difference between an op and its conversion.
  predicate SameStep(op: Op<Value>, g: Op<()>) {
    Wire(g) == Wire(op) && SkipOf(g) == SkipOf(op) && (g.Popeq? <==> op.Popeq?)
  }

  lemma ConvertOpKeepsTheStep(op: Op<Value>)
    ensures ConvertOp(op).Ok? <==> !op.Other?
    ensures ConvertOp(op).Ok? ==> SameStep(op, ConvertOp(op).value)
    ensures op.Other? ==> ConvertOp(op) == Err(op.code)
  {
  }

  // The conversion succeeds iff every op is known, and is then position by position: same
  // length, same VM instruction, same jump distance, same read positions.  Otherwise it
  // reports the first unknown op.
  lemma {:induction false} ConversionIsPositional(ops: seq<Op<Value>>)
    ensures var r := ConvertVerifyToGather(ops);
      match r
      case Ok(out) =>
        && |out| == |ops|
        && (forall i :: 0 <= i < |ops| ==> !ops[i].Other?)
        && (forall i :: 0 <= i < |ops| ==> SameStep(ops[i], out[i]))
      case Err(code) =>
        exists i :: 0 <= i < |ops| && ops[i] == Other(code) && forall j :: 0 <= j < i ==> !ops[j].Other?
  {
    if ops == [] {
    } else {
      var rest := ops[1..];
      ConvertOpKeepsTheStep(ops[0]);
      ConversionIsPositional(rest);
      var r, tail := ConvertVerifyToGather(ops), ConvertVerifyToGather(rest);
      if ops[0].Other? {
        assert ops[0] == Other(r.error);
      } else if tail.Err? {
        var i :| 0 <= i < |rest| && rest[i] == Other(tail.error) && forall j :: 0 <= j < i ==> !rest[j].Other?;
        assert ops[i + 1] == Other(r.error);
      }
    }
  }

  lemma SameLogs(v: Value, log: seq<Value>, w: Value, wanted: seq<Value>)
    ensures [v] + log == [w] + wanted <==> v == w && log == wanted
  {
    assert ([v] + log)[0] == v && ([v] + log)[1..] == log;
    assert ([w] + wanted)[0] == w && ([w] + wanted)[1..] == wanted;
  }

  lemma SameStepSteps(vm: Vm, m: Machine, op: Op<Value>, g: Op<()>)
    requires SameStep(op, g)
    ensures Step(vm, m, g) == Step(vm, m, op)
  {
  }

  lemma ConvertedSteps(vm: Vm, m: Machine, ops: seq<Op<Value>>, gops: seq<Op<()>>, pc: nat)
    requires ConvertVerifyToGather(ops) == Ok(gops)
    ensures |gops| == |ops| && (pc < |ops| ==> Step(vm, m, gops[pc]) == Step(vm, m, ops[pc]))
  {
    ConversionIsPositional(ops);
    if pc < |ops| {
      SameStepSteps(vm, m, ops[pc], gops[pc]);
    }
  }

  // Verifying is gathering and comparing with the record.
  predicate VerifyIsGather(vm: Vm, m: Machine, ops: seq<Op<Value>>, gops: seq<Op<()>>, pc: nat) {
    var g := RunGather(vm, m, gops, pc);
    RunVerify(vm, m, ops, pc) == if g.Some? && g.value.1 == Recorded(vm, m, ops, pc) then Some(g.value.0) else None
  }

  lemma OneStepBack(vm: Vm, m: Machine, ops: seq<Op<Value>>, gops: seq<Op<()>>, pc: nat, s: Stepped)
    requires pc < |ops| == |gops|
    requires Step(vm, m, ops[pc]) == Step(vm, m, gops[pc]) == Some(s)
    requires VerifyIsGather(vm, s.m, ops, gops, pc + 1 + s.skipped)
    ensures VerifyIsGather(vm, m, ops, gops, pc)
  {
    var next := pc + 1 + s.skipped;
    var rest, wanted := RunGather(vm, s.m, gops, next), Recorded(vm, s.m, ops, next);
    if rest.Some? {
      if ops[pc].Popeq? {
        SameLogs(s.read.value, rest.value.1, ops[pc].result, wanted);
      } else {
        assert [] + wanted == wanted;
      }
    }
  }

  // From any machine and position: verifying succeeds exactly when the converted ops run
  // through and read what was recorded, and both end in the same machine.
  lemma {:induction false} VerifyFrom(vm: Vm, m: Machine, ops: seq<Op<Value>>, gops: seq<Op<()>>, pc: nat)
    requires ConvertVerifyToGather(ops) == Ok(gops)
    ensures VerifyIsGather(vm, m, ops, gops, pc)
    decreases |ops| - pc
  {
    ConvertedSteps(vm, m, ops, gops, pc);
    if pc >= |ops| {
    } else {
      var step := Step(vm, m, ops[pc]);
      if step.Some? {
        VerifyFrom(vm, step.value.m, ops, gops, pc + 1 + step.value.skipped);
        OneStepBack(vm, m, ops, gops, pc, step.value);
      }
    }
  }

  // Re-gathering a transcript decides exactly what verifying it decides.
  lemma VerifyIffGatherReadsTheRecord(vm: Vm, m: Machine, ops: seq<Op<Value>>)
    requires ConvertVerifyToGather(ops).Ok?
    ensures var g := RunGather(vm, m, ConvertVerifyToGather(ops).value, 0);
      && (RunVerify(vm, m, ops, 0).Some? <==> g.Some? && g.value.1 == Recorded(vm, m, ops, 0))
      && (RunVerify(vm, m, ops, 0).Some? ==> RunVerify(vm, m, ops, 0).value == g.value.0)
  {
    VerifyFrom(vm, m, ops, ConvertVerifyToGather(ops).value, 0);
  }

  // ---------------------------------------------------------- one program, many queries

  // How a query enters and leaves the VM: the base stack it builds from the pooled data,
  // and the data it takes from the final stack.
  datatype Query = Query(vm: Vm, base: Data -> Machine, result: Machine -> Data)

  function RunQuery(q: Query, d: Data, p: seq<Op<()>>): Option<(Data, seq<Value>)> {
    match RunGather(q.vm, q.base(d), p, 0)
    case Some((m, log)) => Some((q.result(m), log))
    case None => None
  }

  function PoolVm(q: Query): HandlePool.Vm {
    (d, p) => RunQuery(q, d, p)
  }

  // No jump of the chunk can land beyond its end.
  predicate Closed(p: seq<Op<()>>) {
    forall i :: 0 <= i < |p| ==> i + 1 + SkipOf(p[i]) <= |p|
  }

  // Started on d, every chunk is closed and leaves nothing on the machine but the base
  // stack of its resulting data.
  predicate WellChunked(q: Query, d: Data, chunks: seq<seq<Op<()>>>)
    decreases |chunks|
  {
    chunks == [] || (
      && Closed(chunks[0])
      && match RunGather(q.vm, q.base(d), chunks[0], 0)
         case None => true
         case Some((m, _)) => m == q.base(q.result(m)) && WellChunked(q, q.result(m), chunks[1..]))
  }

  function Flatten(chunks: seq<seq<Op<()>>>): seq<Op<()>> {
    if chunks == [] then [] else chunks[0] + Flatten(chunks[1..])
  }

  // One pool query per chunk, stopping at the first that fails.
  function Threaded(q: Query, g: HandlePool.Shared, h: HandlePool.Handle, chunks: seq<seq<Op<()>>>)
    : (HandlePool.Shared, Option<seq<Value>>)
    decreases |chunks|
  {
    if chunks == [] then (g, Some([]))
    else
      var (g1, log) := HandlePool.QueryOnce(PoolVm(q), g, h, chunks[0]);
      if log.None? then (g1, None)
      else
        var (g2, rest) := Threaded(q, g1, h, chunks[1..]);
        (g2, if rest.Some? then Some(log.value + rest.value) else None)
  }

  lemma {:induction false} RunSuffix(vm: Vm, m: Machine, a: seq<Op<()>>, b: seq<Op<()>>, pc: nat)
    ensures RunGather(vm, m, a + b, |a| + pc) == RunGather(vm, m, b, pc)
    decreases |b| - pc
  {
    if pc >= |b| {
    } else {
      assert (a + b)[|a| + pc] == b[pc];
      var step := Step(vm, m, b[pc]);
      if step.Some? {
        RunSuffix(vm, step.value.m, a, b, pc + 1 + step.value.skipped);
      }
    }
  }

  // A closed program followed by another one runs as the two in sequence.
  lemma {:induction false} RunConcat(vm: Vm, m: Machine, a: seq<Op<()>>, b: seq<Op<()>>, pc: nat)
    requires Closed(a) && pc <= |a|
    ensures RunGather(vm, m, a + b, pc)
         == match RunGather(vm, m, a, pc)
            case None => None
            case Some((m', log)) =>
              match RunGather(vm, m', b, 0)
              case None => None
              case Some((end, more)) => Some((end, log + more))
    decreases |a| - pc
  {
    if pc == |a| {
      RunSuffix(vm, m, a, b, 0);
      var r := RunGather(vm, m, b, 0);
      if r.Some? {
        assert [] + r.value.1 == r.value.1;
      }
    } else {
      assert (a + b)[pc] == a[pc];
      var step := Step(vm, m, a[pc]);
      if step.Some? {
        var s := step.value;
        var next := pc + 1 + s.skipped;
        RunConcat(vm, s.m, a, b, next);
        var ra := RunGather(vm, s.m, a, next);
        if ra.Some? && s.read.Some? {
          var rb := RunGather(vm, ra.value.0, b, 0);
          if rb.Some? {
            assert [s.read.value] + (ra.value.1 + rb.value.1) == [s.read.value] + ra.value.1 + rb.value.1;
          }
        }
      }
    }
  }

  // Querying chunk by chunk with write-back reads the same values and leaves the same pool
  // as one query of the whole program; it fails iff the whole program fails, and then the
  // single query leaves the pool untouched.
  lemma {:induction false} ThreadingEqualsOneQuery(
      q: Query, g: HandlePool.Shared, h: HandlePool.Handle, chunks: seq<seq<Op<()>>>)
    requires h in g.pool && WellChunked(q, g.pool[h].data, chunks)
    requires forall d :: q.result(q.base(d)) == d
    ensures var one := HandlePool.QueryOnce(PoolVm(q), g, h, Flatten(chunks));
      var many := Threaded(q, g, h, chunks);
      && many.1 == one.1
      && (one.1.Some? ==> many.0 == one.0)
      && (one.1.None? ==> one.0 == g)
    decreases |chunks|
  {
    var state := g.pool[h];
    if chunks == [] {
      assert g.pool[h := state.(data := state.data)] == g.pool;
    } else {
      var m0 := q.base(state.data);
      RunConcat(q.vm, m0, chunks[0], Flatten(chunks[1..]), 0);
      var first := RunGather(q.vm, m0, chunks[0], 0);
      if first.Some? {
        var d1 := q.result(first.value.0);
        var g1 := HandlePool.Insert(g, h, state.(data := d1));
        assert HandlePool.QueryOnce(PoolVm(q), g, h, chunks[0]) == (g1, Some(first.value.1));
        ThreadingEqualsOneQuery(q, g1, h, chunks[1..]);
        var rest := RunQuery(q, d1, Flatten(chunks[1..]));
        if rest.Some? {
          var final := state.(data := rest.value.0);
          assert g1.pool[h := final] == g.pool[h := final];
        }
      }
    }
  }

  // The chunks before k complete, chunk k fails on what they left, and that is what stays.
  predicate FailsAt(q: Query, g: HandlePool.Shared, h: HandlePool.Handle, chunks: seq<seq<Op<()>>>, k: nat)
    requires k < |chunks|
  {
    && Threaded(q, g, h, chunks[..k]).1.Some?
    && Threaded(q, g, h, chunks).0 == Threaded(q, g, h, chunks[..k]).0
    && HandlePool.QueryOnce(PoolVm(q), Threaded(q, g, h, chunks[..k]).0, h, chunks[k]).1.None?
  }

  // When threading fails, the pool keeps the effect of exactly the chunks before the
  // failing one: threading is not atomic, the single query is.
  lemma {:induction false} FailedThreadingKeepsCompletedChunks(
      q: Query, g: HandlePool.Shared, h: HandlePool.Handle, chunks: seq<seq<Op<()>>>)
    requires Threaded(q, g, h, chunks).1.None?
    ensures exists k :: 0 <= k < |chunks| && FailsAt(q, g, h, chunks, k)
    decreases |chunks|
  {
    var (g1, log) := HandlePool.QueryOnce(PoolVm(q), g, h, chunks[0]);
    if log.None? {
      assert chunks[..0] == [];
      assert FailsAt(q, g, h, chunks, 0);
    } else {
      var rest := chunks[1..];
      FailedThreadingKeepsCompletedChunks(q, g1, h, rest);
      var k :| 0 <= k < |rest| && FailsAt(q, g1, h, rest, k);
      assert chunks[..k + 1][0] == chunks[0] && chunks[..k + 1][1..] == rest[..k];
      assert chunks[k + 1] == rest[k];
      assert FailsAt(q, g, h, chunks, k + 1);
    }
  }
}
