/** The finsh virtual machine: the operations of finsh_ops.c on the DWORD stack
    and the fetch/execute loop of finsh_vm.c. */
module FinshVm {
  import opened FinshLang

  const TEXT_MAX := 128
  const STACK_MAX := 64

  datatype Op =
    | Nop | BinDword(op: BinOp) | BwDword
    | LdDword | LdValueDword | LdValueDwordStack | StDword | PopOp
    | OtherOp

  /** The rows of op_table that work on double words; every other row is OtherOp. */
  function OpTable(b: Byte): Op {
    if b == 0 then Nop
    else if b == 3 then BinDword(Add)
    else if b == 6 then BinDword(Sub)
    else if b == 9 then BinDword(Div)
    else if b == 12 then BinDword(Mod)
    else if b == 15 then BinDword(Mul)
    else if b == 18 then BinDword(And)
    else if b == 21 then BinDword(Or)
    else if b == 24 then BinDword(Xor)
    else if b == 27 then BwDword
    else if b == 30 then BinDword(Shl)
    else if b == 33 then BinDword(Shr)
    else if b == 36 then LdDword
    else if b == 39 then LdValueDword
    else if b == 42 then StDword
    else if b == 43 then PopOp
    else if b == 47 then LdValueDwordStack
    else OtherOp
  }

  /** Machine state: program counter, the live part of the stack, memory. */
  datatype State = State(pc: nat, stack: seq<Word>, mem: Memory)

  function Push(s: seq<Word>, w: Word): Option<seq<Word>> {
    if |s| < STACK_MAX then Some(s + [w]) else None
  }

  function Immediate(text: seq<Byte>, pc: nat): Option<Word> {
    if pc + 4 <= |text| then Some(Get32(text[pc], text[pc + 1], text[pc + 2], text[pc + 3])) else None
  }

  /** One instruction. None when it would read or write outside the stack, the
      text segment or mapped memory, divide by zero, or leave the fragment. */
  function Step(text: seq<Byte>, st: State): (r: Option<State>)
    requires st.pc < |text|
    ensures r.Some? ==> st.pc < r.value.pc <= |text| && |r.value.stack| <= |st.stack| + 1
  {
    var n, pc := |st.stack|, st.pc + 1;
    match OpTable(text[st.pc])
    case Nop => Some(st.(pc := pc))
    case BinDword(op) =>
      if n < 2 then None else
      var w :- Apply(op, st.stack[n - 2], st.stack[n - 1]);
      Some(State(pc, st.stack[..n - 2] + [w], st.mem))
    case BwDword =>
      if n < 1 then None else
      Some(State(pc, st.stack[..n - 1] + [Complement(st.stack[n - 1])], st.mem))
    case LdDword =>
      var w :- Immediate(text, pc);
      var s :- Push(st.stack, w);
      Some(State(pc + 4, s, st.mem))
    case LdValueDword =>
      var a :- Immediate(text, pc);
      var w :- Load(st.mem, a);
      var s :- Push(st.stack, w);
      Some(State(pc + 4, s, st.mem))
    case LdValueDwordStack =>
      if n < 1 then None else
      var w :- Load(st.mem, st.stack[n - 1]);
      Some(State(pc, st.stack[..n - 1] + [w], st.mem))
    case StDword =>
      if n < 2 then None else
      var m :- Store(st.mem, st.stack[n - 2], st.stack[n - 1]);
      Some(State(pc, st.stack[..n - 1], m))
    case PopOp =>
      if n < 1 then None else
      Some(State(pc, st.stack[..n - 1], st.mem))
    case OtherOp => None
  }

  /** Executes until the program counter reaches `stop`. */
  function RunUntil(text: seq<Byte>, st: State, stop: nat): Option<State>
    requires stop <= |text|
    decreases stop - st.pc
  {
    if st.pc >= stop then Some(st)
    else var next :- Step(text, st); RunUntil(text, next, stop)
  }

  lemma {:induction false} RunSplit(text: seq<Byte>, st: State, mid: nat, stop: nat)
    requires mid <= stop <= |text|
    requires RunUntil(text, st, mid).Some?
    ensures RunUntil(text, st, stop) == RunUntil(text, RunUntil(text, st, mid).value, stop)
    decreases mid - st.pc
  {
    if st.pc < mid {
      RunSplit(text, Step(text, st).value, mid, stop);
    }
  }

  /** Cleared text after the program is a run of no-ops. */
  lemma {:induction false} RunNops(text: seq<Byte>, st: State, stop: nat)
    requires st.pc <= stop <= |text|
    requires forall i :: st.pc <= i < stop ==> text[i] == 0
    ensures RunUntil(text, st, stop) == Some(st.(pc := stop))
    decreases stop - st.pc
  {
    if st.pc < stop {
      RunNops(text, st.(pc := st.pc + 1), stop);
    }
  }

  class Machine {
    const text: array<Byte>
    const slots: array<Word>
    var sp: nat
    var pc: nat
    var mem: Memory

    constructor ()
      ensures Valid() && fresh(text) && fresh(slots)
      ensures Now() == State(0, [], map[]) && forall i :: 0 <= i < TEXT_MAX ==> text[i] == 0
    {
      text := new Byte[TEXT_MAX](_ => 0);
      slots := new Word[STACK_MAX](_ => 0);
      sp, pc, mem := 0, 0, map[];
    }

    ghost predicate Valid()
      reads this
    {
      text.Length == TEXT_MAX && slots.Length == STACK_MAX && sp <= STACK_MAX
    }

    ghost function Now(): State
      reads this, text, slots
      requires Valid()
    {
      State(pc, slots[..sp], mem)
    }

    /** Reads the operand at pc and moves past it. */
    method Fetch32() returns (ok: bool, w: Word)
      requires Valid()
      modifies this`pc
      ensures ok == Immediate(text[..], old(pc)).Some?
      ensures ok ==> w == Immediate(text[..], old(pc)).value && pc == old(pc) + 4
    {
      ok, w := pc + 4 <= text.Length, 0;
      if ok {
        w := Get32(text[pc], text[pc + 1], text[pc + 2], text[pc + 3]);
        pc := pc + 4;
      }
    }

    method PushWord(w: Word) returns (ok: bool)
      requires Valid()
      modifies this`sp, slots
      ensures Valid()
      ensures ok == Push(old(slots[..sp]), w).Some?
      ensures ok ==> slots[..sp] == Push(old(slots[..sp]), w).value
    {
      ok := sp < slots.Length;
      if ok {
        slots[sp] := w;
        sp := sp + 1;
      }
    }

    /** Replaces the top `drop` slots by one word. */
    method Replace(drop: nat, w: Word)
      requires Valid() && 1 <= drop <= sp
      modifies this`sp, slots
      ensures Valid()
      ensures slots[..sp] == old(slots[..sp - drop]) + [w]
    {
      slots[sp - drop] := w;
      sp := sp - drop + 1;
    }

    /** op_table[op](): ok is false exactly where Step faults. */
    method Execute() returns (ok: bool)
      requires Valid() && pc < TEXT_MAX
      modifies this, slots
      ensures Valid()
      ensures ok == Step(text[..], old(Now())).Some?
      ensures ok ==> Now() == Step(text[..], old(Now())).value
    {
      hide Apply, Load, Store, Get32, Complement;
      ghost var t, st := text[..], Now();
      var op := OpTable(text[pc]);
      pc := pc + 1;
      ok := true;
      match op {
        case Nop =>
        case BinDword(o) =>
          if sp < 2 { return false; }
          var r := Apply(o, slots[sp - 2], slots[sp - 1]);
          if r.None? { return false; }
          Replace(2, r.value);
        case BwDword =>
          if sp < 1 { return false; }
          Replace(1, Complement(slots[sp - 1]));
        case LdDword =>
          var w;
          ok, w := Fetch32();
          if ok { ok := PushWord(w); }
        case LdValueDword =>
          var a;
          ok, a := Fetch32();
          if ok {
            var w := Load(mem, a);
            if w.None? { return false; }
            ok := PushWord(w.value);
          }
        case LdValueDwordStack =>
          if sp < 1 { return false; }
          var w := Load(mem, slots[sp - 1]);
          if w.None? { return false; }
          Replace(1, w.value);
        case StDword =>
          if sp < 2 { return false; }
          var m := Store(mem, slots[sp - 2], slots[sp - 1]);
          if m.None? { return false; }
          mem := m.value;
          sp := sp - 1;
        case PopOp =>
          if sp < 1 { return false; }
          sp := sp - 1;
        case OtherOp =>
          ok := false;
      }
    }

    /** finsh_vm_run: from an empty stack, to the end of the text segment. */
    method Run() returns (ok: bool)
      requires Valid()
      modifies this, slots
      ensures Valid()
      ensures ok == RunUntil(text[..], State(0, [], old(mem)), TEXT_MAX).Some?
      ensures ok ==> Now() == RunUntil(text[..], State(0, [], old(mem)), TEXT_MAX).value
    {
      sp, pc := 0, 0;
      ghost var t, start := text[..], State(0, [], mem);
      while pc < TEXT_MAX
        invariant Valid() && text[..] == t
        invariant RunUntil(t, Now(), TEXT_MAX) == RunUntil(t, start, TEXT_MAX)
        decreases TEXT_MAX - pc
      {
        ghost var st := Now();
        ok := Execute();
        if !ok { return; }
      }
      ok := true;
    }
  }
}
