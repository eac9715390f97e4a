// The on-chain VM's op list as the crate handles it, in both result modes, and the VM
// itself as far as control flow goes.  What a single op does to the machine is not part
// of this crate and stays a parameter.
module Ops {
  import opened Common

  type Value(==, !new)    // an aligned value
  type Data(==, !new)     // a charged contract state
  type Node(==, !new)     // a state value pushed by an op
  type Key(==, !new)      // one step of an index path
  type Machine(==, !new)  // the VM's stack and accumulated effects

  // `Op<ResultModeVerify>` is Op<Value>, `Op<ResultModeGather>` is Op<()>.  Other stands
  // for a variant a newer ledger may add.
  datatype Op<+R> =
    | Dup(n: nat)
    | Pop
    | Popeq(cached: bool, result: R)
    | Push(storage: bool, node: Node)
    | Idx(cached: bool, pushPath: bool, path: seq<Key>)
    | Ins(cached: bool, n: nat)
    | Lt
    | Eq
    | Add
    | Sub
    | Neg
    | And
    | Or
    | Type
    | Size
    | New
    | Log
    | Root
    | Member
    | Ckpt
    | Noop(n: nat)
    | Branch(skip: nat)
    | Jmp(skip: nat)
    | Concat(cached: bool, n: nat)
    | Swap(n: nat)
    | Rem(cached: bool)
    | Addi(immediate: nat)
    | Subi(immediate: nat)
    | Other(code: nat)

  // What the VM is shown of an op: its opcode and operands, never the recorded result.
  datatype Operand = Num(n: nat) | Flag(b: bool) | Tree(node: Node) | Path(path: seq<Key>)

  datatype Instr = Instr(opcode: nat, operands: seq<Operand>)

  function Wire<R>(op: Op<R>): Instr {
    match op
    case Dup(n) => Instr(0, [Num(n)])
    case Pop => Instr(1, [])
    case Popeq(cached, _) => Instr(2, [Flag(cached)])
    case Push(storage, node) => Instr(3, [Flag(storage), Tree(node)])
    case Idx(cached, pushPath, path) => Instr(4, [Flag(cached), Flag(pushPath), Path(path)])
    case Ins(cached, n) => Instr(5, [Flag(cached), Num(n)])
    case Lt => Instr(6, [])
    case Eq => Instr(7, [])
    case Add => Instr(8, [])
    case Sub => Instr(9, [])
    case Neg => Instr(10, [])
    case And => Instr(11, [])
    case Or => Instr(12, [])
    case Type => Instr(13, [])
    case Size => Instr(14, [])
    case New => Instr(15, [])
    case Log => Instr(16, [])
    case Root => Instr(17, [])
    case Member => Instr(18, [])
    case Ckpt => Instr(19, [])
    case Noop(n) => Instr(20, [Num(n)])
    case Branch(skip) => Instr(21, [Num(skip)])
    case Jmp(skip) => Instr(22, [Num(skip)])
    case Concat(cached, n) => Instr(23, [Flag(cached), Num(n)])
    case Swap(n) => Instr(24, [Num(n)])
    case Rem(cached) => Instr(25, [Flag(cached)])
    case Addi(immediate) => Instr(26, [Num(immediate)])
    case Subi(immediate) => Instr(27, [Num(immediate)])
    case Other(code) => Instr(28 + code, [])
  }

  // exec: one op that reads nothing; the flag says whether a branch or jump is taken.
  // read: one popeq; the value the machine yields.
  // strictEnd: whether landing beyond the last op is an error.
  datatype Vm = Vm(
    exec: (Machine, Instr) -> Option<(Machine, bool)>,
    read: (Machine, Instr) -> Option<(Machine, Value)>,
    strictEnd: bool)

  // One step: the machine after it, the ops skipped, and the value read, if any.
  datatype Stepped = Stepped(m: Machine, skipped: nat, read: Option<Value>)

  function SkipOf<R>(op: Op<R>): nat {
    match op
    case Branch(skip) => skip
    case Jmp(skip) => skip
    case _ => 0
  }

  function Step<R>(vm: Vm, m: Machine, op: Op<R>): Option<Stepped> {
    if op.Popeq? then
      match vm.read(m, Wire(op))
      case Some((m', v)) => Some(Stepped(m', 0, Some(v)))
      case None => None
    else
      match vm.exec(m, Wire(op))
      case Some((m', taken)) => Some(Stepped(m', if taken then SkipOf(op) else 0, None))
      case None => None
  }

  function Prepend(read: Option<Value>, log: seq<Value>): seq<Value> {
    if read.Some? then [read.value] + log else log
  }

  // Gather mode: run from pc, collecting the values read.
  function RunGather(vm: Vm, m: Machine, ops: seq<Op<()>>, pc: nat): Option<(Machine, seq<Value>)>
    decreases |ops| - pc
  {
    if pc > |ops| && vm.strictEnd then None
    else if pc >= |ops| then Some((m, []))
    else
      match Step(vm, m, ops[pc])
      case None => None
      case Some(s) =>
        match RunGather(vm, s.m, ops, pc + 1 + s.skipped)
        case None => None
        case Some((end, log)) => Some((end, Prepend(s.read, log)))
  }

  // Verify mode: the same run, failing as soon as a value read differs from the recorded one.
  function RunVerify(vm: Vm, m: Machine, ops: seq<Op<Value>>, pc: nat): Option<Machine>
    decreases |ops| - pc
  {
    if pc > |ops| && vm.strictEnd then None
    else if pc >= |ops| then Some(m)
    else
      match Step(vm, m, ops[pc])
      case None => None
      case Some(s) =>
        if ops[pc].Popeq? && s.read != Some(ops[pc].result) then None
        else RunVerify(vm, s.m, ops, pc + 1 + s.skipped)
  }

  // The recorded results of the popeqs a run reaches, in execution order.
  function Recorded(vm: Vm, m: Machine, ops: seq<Op<Value>>, pc: nat): seq<Value>
    decreases |ops| - pc
  {
    if pc >= |ops| then []
    else
      match Step(vm, m, ops[pc])
      case None => []
      case Some(s) =>
        (if ops[pc].Popeq? then [ops[pc].result] else []) + Recorded(vm, s.m, ops, pc + 1 + s.skipped)
  }
}
