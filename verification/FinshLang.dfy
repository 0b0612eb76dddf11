/** The DWORD fragment of the finsh expression language: 32-bit words, the byte
    memory that variables live in, and direct evaluation of expressions. This is
    the reference meaning that compiled code is compared with. */
module FinshLang {
  import opened Words
  import opened Bits

  datatype Option<+T> = None | Some(value: T) {
    predicate IsFailure() { None? }
    function PropagateFailure<U>(): Option<U> requires None? { None }
    function Extract(): T requires Some? { value }
  }

  type Byte = x: int | 0 <= x < 0x100
  type Word = x: int | 0 <= x < 0x1_0000_0000

  // ----- words -----

  /** The value of a word read as a C long on a 32-bit target. */
  function Signed(w: Word): int {
    if w < 0x8000_0000 then w else w - TWO32
  }

  function Wrap(x: int): Word {
    x % TWO32
  }

  /** C division: the quotient is truncated toward zero. */
  function TruncDiv(a: int, b: int): int
    requires b != 0
  {
    if (a < 0) == (b < 0) then Abs(a) / Abs(b) else -(Abs(a) / Abs(b))
  }

  function Abs(x: int): nat {
    if x < 0 then -x else x
  }

  datatype BinOp = Add | Sub | Mul | Div | Mod | And | Or | Xor | Shl | Shr

  /** A C operator on two longs. Results wrap to 32 bits; None for a division by
      zero and for a shift by 32 or more, which have no result. */
  function Apply(op: BinOp, a: Word, b: Word): Option<Word> {
    match op
    case Add => Some(Wrap(a + b))
    case Sub => Some(Wrap(a - b))
    case Mul => Some(Wrap(a * b))
    case Div => if b == 0 then None else Some(Wrap(TruncDiv(Signed(a), Signed(b))))
    case Mod => if b == 0 then None
                else Some(Wrap(Signed(a) - TruncDiv(Signed(a), Signed(b)) * Signed(b)))
    case And => Some(Bitwise32(AND, a, b))
    case Or => Some(Bitwise32(OR, a, b))
    case Xor => Some(Bitwise32(XOR, a, b))
    case Shl => if b >= 32 then None else Some(Wrap(a * Pow2(b)))
    case Shr => if b >= 32 then None else Some(ShiftRight(a, b))
  }

  function Bitwise32(g: Gate, a: Word, b: Word): Word {
    Powers();
    Bitwise(g, a, b, 32)
  }

  /** Arithmetic shift: division by a power of two, rounded down. */
  function ShiftRight(a: Word, n: nat): Word {
    Wrap(FloorDiv(Signed(a), n))
  }

  function FloorDiv(x: int, n: nat): int
    decreases n
  {
    if n == 0 then x else FloorDiv(x / 2, n - 1)
  }

  /** One's complement of a word. */
  function Complement(w: Word): Word {
    TWO32 - 1 - w
  }

  // ----- little-endian bytes (FINSH_SET32 and FINSH_GET32) -----

  function Set32(w: Word): (s: seq<Byte>)
    ensures |s| == 4
  {
    [w % 0x100, (w / 0x100) % 0x100, (w / 0x1_0000) % 0x100, w / 0x100_0000]
  }

  function Get32(b0: Byte, b1: Byte, b2: Byte, b3: Byte): Word {
    b0 + 0x100 * b1 + 0x1_0000 * b2 + 0x100_0000 * b3
  }

  lemma Get32Set32(w: Word)
    ensures var s := Set32(w); Get32(s[0], s[1], s[2], s[3]) == w
  {
    var q1, q2 := w / 0x100, w / 0x1_0000;
    assert q1 == 0x100 * (q1 / 0x100) + q1 % 0x100;
    assert q1 / 0x100 == q2 && q2 / 0x100 == w / 0x100_0000;
  }

  // ----- memory -----

  /** Mapped bytes; an access that touches an unmapped byte faults. */
  type Memory = map<int, Byte>

  predicate Mapped(m: Memory, a: Word) {
    a in m && a + 1 in m && a + 2 in m && a + 3 in m
  }

  function Load(m: Memory, a: Word): Option<Word> {
    if Mapped(m, a) then Some(Get32(m[a], m[a + 1], m[a + 2], m[a + 3])) else None
  }

  function Store(m: Memory, a: Word, w: Word): Option<Memory> {
    if Mapped(m, a)
    then var s := Set32(w); Some(m[a := s[0]][a + 1 := s[1]][a + 2 := s[2]][a + 3 := s[3]])
    else None
  }

  lemma LoadAfterStore(m: Memory, a: Word, w: Word)
    requires Store(m, a, w).Some?
    ensures Load(Store(m, a, w).value, a) == Some(w)
  {
    Get32Set32(w);
  }

  // ----- expressions -----

  /** A variable is known by the address of its value cell: names are resolved
      before compilation. Deref is the `*` operator, AddrOf is `&`. */
  datatype Expr =
    | Const(value: Word)
    | Var(addr: Word)
    | Bin(op: BinOp, left: Expr, right: Expr)
    | Compl(arg: Expr)
    | Deref(arg: Expr)
    | AddrOf(place: Expr)
    | Assign(place: Expr, rhs: Expr)
    | PreStep(step: BinOp, addr: Word)
    | PostStep(step: BinOp, addr: Word)

  predicate Place(e: Expr) {
    e.Var? || e.Deref?
  }

  /** `=` and `&` take a place; `++` is a step by Add and `--` by Sub. */
  predicate WellFormed(e: Expr) {
    match e
    case Const(_) => true
    case Var(_) => true
    case Bin(_, l, r) => WellFormed(l) && WellFormed(r)
    case Compl(a) => WellFormed(a)
    case Deref(a) => WellFormed(a)
    case AddrOf(p) => Place(p) && WellFormed(p)
    case Assign(p, r) => Place(p) && WellFormed(p) && WellFormed(r)
    case PreStep(s, _) => s == Add || s == Sub
    case PostStep(s, _) => s == Add || s == Sub
  }

  /** The address a place denotes. */
  function EvalPlace(e: Expr, m: Memory): Option<(Word, Memory)>
    requires Place(e) && WellFormed(e)
    decreases e, 0
  {
    if e.Var? then Some((e.addr, m)) else Eval(e.arg, m)
  }

  /** Direct evaluation, left operand first; None on a fault. */
  function Eval(e: Expr, m: Memory): Option<(Word, Memory)>
    requires WellFormed(e)
    decreases e, 1
  {
    match e
    case Const(v) => Some((v, m))
    case Var(a) => var v :- Load(m, a); Some((v, m))
    case Bin(op, l, r) =>
      var (a, m1) :- Eval(l, m);
      var (b, m2) :- Eval(r, m1);
      var v :- Apply(op, a, b);
      Some((v, m2))
    case Compl(x) =>
      var (a, m1) :- Eval(x, m);
      Some((Complement(a), m1))
    case Deref(x) =>
      var (a, m1) :- Eval(x, m);
      var v :- Load(m1, a);
      Some((v, m1))
    case AddrOf(p) => EvalPlace(p, m)
    case Assign(p, r) =>
      var (a, m1) :- EvalPlace(p, m);
      var (v, m2) :- Eval(r, m1);
      var m3 :- Store(m2, a, v);
      Some((v, m3))
    case PreStep(s, x) =>
      var before :- Load(m, x);
      var v :- Apply(s, before, 1);
      var m1 :- Store(m, x, v);
      Some((v, m1))
    case PostStep(s, x) =>
      var before :- Load(m, x);
      var v :- Apply(s, before, 1);
      var m1 :- Store(m, x, v);
      Some((before, m1))
  }

  /** A statement list: the value of the last one, after the effects of all. */
  function EvalAll(es: seq<Expr>, m: Memory): Option<(Word, Memory)>
    requires |es| > 0
    requires forall e <- es :: WellFormed(e)
  {
    var (v, m1) :- Eval(es[0], m);
    if |es| == 1 then Some((v, m1)) else EvalAll(es[1..], m1)
  }

  /** How many finsh nodes the parser uses for an expression. */
  function Nodes(e: Expr): nat {
    match e
    case Const(_) => 1
    case Var(_) => 1
    case Bin(_, l, r) => 1 + Nodes(l) + Nodes(r)
    case Compl(a) => 1 + Nodes(a)
    case Deref(a) => 1 + Nodes(a)
    case AddrOf(p) => 1 + Nodes(p)
    case Assign(p, r) => 1 + Nodes(p) + Nodes(r)
    case PreStep(_, _) => 2
    case PostStep(_, _) => 2
  }

  function NodesAll(es: seq<Expr>): nat {
    if es == [] then 0 else Nodes(es[0]) + NodesAll(es[1..])
  }
}
