/** Compiler correctness: compiled finsh code, run by the virtual machine, does
    what direct evaluation does. */
module FinshCorrect {
  import opened Words
  import opened FinshLang
  import opened FinshVm
  import opened FinshCompiler

  // ----- the tree of an expression -----

  predicate DwordVar(v: VarType) {
    v.TInt? || v.TUInt? || v.TLong? || v.TULong? || v.TCharP? || v.TShortP? || v.TIntP? || v.TLongP?
  }

  predicate Plain(t: Tree, typ: NodeType) {
    t.Node? && t.attr.typ == typ && t.attr.idClass.NoId? && !t.attr.address
  }

  /** t's only child is c, which has no sibling. */
  predicate One(t: Tree) {
    t.Node? && t.child.Node? && t.child.sibling.Null?
  }

  predicate Two(t: Tree) {
    t.Node? && t.child.Node? && t.child.sibling.Node? && t.child.sibling.sibling.Null?
  }

  function StepType(pre: bool, step: BinOp): NodeType {
    if pre then (if step.Add? then SYS_PREINC else SYS_PREDEC)
    else if step.Add? then SYS_INC else SYS_DEC
  }

  /** t (without its siblings) is the parser's tree of e, before attributes. */
  predicate Encodes(t: Tree, e: Expr) {
    match e
    case Const(v) =>
      && (Plain(t, VALUE_INT) || Plain(t, VALUE_LONG)) && t.attr.value == v && t.child.Null?
    case Var(a) =>
      && t.Node? && t.attr.typ.ID? && t.attr.idClass.IdVar? && !t.attr.address
      && DwordVar(t.attr.vtype) && t.attr.target == a && t.child.Null?
    case Bin(op, l, r) =>
      Plain(t, SYS_BIN(op)) && Two(t) && Encodes(t.child, l) && Encodes(t.child.sibling, r)
    case Compl(a) => Plain(t, SYS_BITWISE) && One(t) && Encodes(t.child, a)
    case Deref(a) => Plain(t, SYS_GETVALUE) && One(t) && Encodes(t.child, a)
    case AddrOf(p) => Plain(t, SYS_GETADDR) && One(t) && Encodes(t.child, p)
    case Assign(p, r) =>
      Plain(t, SYS_ASSIGN) && Two(t) && Encodes(t.child, p) && Encodes(t.child.sibling, r)
    case PreStep(s, a) => Plain(t, StepType(true, s)) && One(t) && Encodes(t.child, Var(a))
    case PostStep(s, a) => Plain(t, StepType(false, s)) && One(t) && Encodes(t.child, Var(a))
  }

  /** The siblings starting at t are the trees of a statement list. */
  predicate EncodesAll(t: Tree, es: seq<Expr>) {
    if es == [] then t.Null?
    else t.Node? && Encodes(t, es[0]) && EncodesAll(t.sibling, es[1..])
  }

  // ----- what is emitted for an expression -----

  function Opcode(op: BinOp): Byte { OpBase(op) + 2 }

  function GenPlace(e: Expr): seq<Byte>
    requires Place(e)
    decreases e, 0
  {
    if e.Var? then CodeLd(e.addr) else Gen(e.arg)
  }

  function Gen(e: Expr): seq<Byte>
    decreases e, 1
  {
    match e
    case Const(v) => CodeLd(v)
    case Var(a) => CodeLdValue(a)
    case Bin(op, l, r) => Gen(l) + Gen(r) + [Opcode(op)]
    case Compl(a) => Gen(a) + [0x1B]
    case Deref(a) => Gen(a) + [0x2F]
    case AddrOf(p) => if Place(p) then GenPlace(p) else []
    case Assign(p, r) => if Place(p) then GenPlace(p) + Gen(r) + [0x2A, 0x2F] else []
    case PreStep(s, a) => CodeLd(a) + CodeLdValue(a) + CodeLd(1) + [Opcode(s), 0x2A, 0x2F]
    case PostStep(s, a) =>
      CodeLdValue(a) + CodeLd(a) + CodeLdValue(a) + CodeLd(1) + [Opcode(s), 0x2A, 0x2B]
  }

  lemma CodeOfOne(t: Tree)
    requires One(t)
    ensures Body(t) == Body(t.child) + Own(t.attr, Some(t.child.attr), 0)
  {
    assert Code(t.child) == Body(t.child) + Code(Null) == Body(t.child);
  }

  lemma CodeOfTwo(t: Tree)
    requires Two(t)
    ensures Body(t) == Body(t.child) + Body(t.child.sibling) + Own(t.attr, Some(t.child.attr), 1)
  {
    hide Own;
    var s := t.child.sibling;
    assert Code(s) == Body(s) + Code(Null) == Body(s);
    assert Code(t.child) == Body(t.child) + Body(s);
    assert Siblings(s) == 1 + Siblings(Null) == 1;
  }

  lemma Annotated(t: Tree, isAddr: bool)
    requires t.Node?
    ensures var a := Annotate(t, isAddr);
      && a.Node? && a.child == Annotate(t.child, ChildAddr(t.attr.typ, isAddr))
      && a.sibling == Annotate(t.sibling, false)
      && a.attr.typ == t.attr.typ && a.attr.target == t.attr.target
      && (!t.attr.idClass.IdSyscall? ==> a.attr.address == (t.attr.address || isAddr))
      && (t.child.Node? ==> a.child.Node? && a.attr.dataType == a.child.attr.dataType)
    ensures Annotate(Null, false) == Null
  {
  }

  /** The attribute pass gives every node of the fragment the double-word type
      and marks exactly the places that are wanted as addresses, so that code
      generation emits Gen, or GenPlace when an address is asked for. */
  lemma {:induction false} EmittedCode(t: Tree, e: Expr)
    requires Encodes(t, e) && WellFormed(e)
    ensures Annotate(t, false).attr.dataType == 3
    ensures Body(Annotate(t, false)) == Gen(e)
    decreases e, 1
  {
    hide Own, Annotate, Mark, Body;
    var a := Annotate(t, false);
    Annotated(t, false);
    if t.child.Node? {
      Annotated(t.child, ChildAddr(t.attr.typ, false));
      if t.child.sibling.Node? { Annotated(t.child.sibling, false); }
    }
    match e
    case Const(_) => LeafCode(t, e);
    case Var(_) => LeafCode(t, e);
    case Bin(op, l, r) =>
      EmittedCode(t.child, l);
      EmittedCode(t.child.sibling, r);
      CodeOfTwo(a);
      OwnBin(a.attr, op, a.child.attr);
    case Compl(x) =>
      EmittedCode(t.child, x);
      CodeOfOne(a);
      OwnUnary(a.attr, a.child.attr);
    case Deref(x) =>
      EmittedCode(t.child, x);
      CodeOfOne(a);
      OwnUnary(a.attr, a.child.attr);
    case AddrOf(p) =>
      EmittedPlace(t.child, p);
      CodeOfOne(a);
      OwnUnary(a.attr, a.child.attr);
    case Assign(p, r) =>
      EmittedPlace(t.child, p);
      EmittedCode(t.child.sibling, r);
      CodeOfTwo(a);
      OwnAssign(a.attr, a.child.attr);
    case PreStep(s, x) =>
      LeafCode(t.child, Var(x));
      CodeOfOne(a);
      OwnStep(a.attr, a.child.attr, true, s);
    case PostStep(s, x) =>
      LeafCode(t.child, Var(x));
      CodeOfOne(a);
      OwnStep(a.attr, a.child.attr, false, s);
  }

  lemma {:induction false} EmittedPlace(t: Tree, e: Expr)
    requires Encodes(t, e) && WellFormed(e) && Place(e)
    ensures Annotate(t, true).attr.dataType == 3
    ensures Annotate(t, true).attr.typ == t.attr.typ && Annotate(t, true).attr.target == t.attr.target
    ensures Body(Annotate(t, true)) == GenPlace(e)
    decreases e, 0
  {
    hide Own;
    if e.Deref? {
      EmittedCode(t.child, e.arg);
      CodeOfOne(Annotate(t, true));
      OwnUnary(Annotate(t, true).attr, Annotate(t, true).child.attr);
    } else {
      LeafCode(t, e);
    }
  }

  lemma LeafCode(t: Tree, e: Expr)
    requires Encodes(t, e) && (e.Const? || e.Var?)
    ensures Annotate(t, false).attr.dataType == 3
    ensures Body(Annotate(t, false)) == Gen(e)
    ensures e.Var? ==> Annotate(t, true).attr.dataType == 3 && Body(Annotate(t, true)) == GenPlace(e)
  {
    assert Annotate(t.child, false) == Null == Annotate(t.child, true);
  }

  lemma OwnBin(a: Attr, op: BinOp, c: Attr)
    requires a.typ == SYS_BIN(op) && a.dataType == 3
    ensures Own(a, Some(c), 1) == [Opcode(op)]
  {
  }

  lemma OwnUnary(a: Attr, c: Attr)
    requires a.dataType == 3
    ensures a.typ.SYS_BITWISE? ==> Own(a, Some(c), 0) == [0x1B]
    ensures a.typ.SYS_GETVALUE? ==> Own(a, Some(c), 0) == if a.address then [] else [0x2F]
    ensures a.typ.SYS_GETADDR? ==> Own(a, Some(c), 0) == []
  {
  }

  lemma OwnAssign(a: Attr, c: Attr)
    requires a.typ.SYS_ASSIGN? && c.dataType == 3 && (c.typ.ID? || c.typ.SYS_GETVALUE?)
    ensures Own(a, Some(c), 1) == [0x2A, 0x2F]
  {
  }

  lemma OwnStep(a: Attr, c: Attr, pre: bool, s: BinOp)
    requires a.typ == StepType(pre, s) && a.dataType == 3 && c.typ.ID? && (s.Add? || s.Sub?)
    ensures Own(a, Some(c), 0) ==
      if pre then CodeLdValue(c.target) + CodeLd(1) + [Opcode(s), 0x2A, 0x2F]
      else CodeLd(c.target) + CodeLdValue(c.target) + CodeLd(1) + [Opcode(s), 0x2A, 0x2B]
  {
    var x := c.target;
    assert [0x27] + Set32(x) == CodeLdValue(x);
    if pre {
      assert Own(a, Some(c), 0) == PreCode(s.Add?, 3, x);
    } else {
      assert Own(a, Some(c), 0) == PostCode(s.Add?, 3, x);
    }
  }

  // ----- running it -----

  /** `text` holds `code` at position p. */
  predicate At(text: seq<Byte>, p: nat, code: seq<Byte>) {
    p + |code| <= |text| && text[p..p + |code|] == code
  }

  lemma AtParts(text: seq<Byte>, p: nat, a: seq<Byte>, b: seq<Byte>)
    requires At(text, p, a + b)
    ensures At(text, p, a) && At(text, p + |a|, b)
  {
    var c := text[p..p + |a + b|];
    assert text[p..p + |a|] == c[..|a|] == a;
    assert text[p + |a|..p + |a| + |b|] == c[|a|..] == b;
  }

  /** Running from p over n bytes turns (s, m) into (s2, m2). */
  predicate Runs(text: seq<Byte>, p: nat, n: nat, s: seq<Word>, m: Memory, s2: seq<Word>, m2: Memory) {
    p + n <= |text| && RunUntil(text, State(p, s, m), p + n) == Some(State(p + n, s2, m2))
  }

  lemma RunsThen(text: seq<Byte>, p: nat, n: nat, k: nat, s: seq<Word>, m: Memory,
                 s1: seq<Word>, m1: Memory, s2: seq<Word>, m2: Memory)
    requires Runs(text, p, n, s, m, s1, m1) && Runs(text, p + n, k, s1, m1, s2, m2)
    ensures Runs(text, p, n + k, s, m, s2, m2)
  {
    RunSplit(text, State(p, s, m), p + n, p + n + k);
  }

  lemma RunsOp(text: seq<Byte>, p: nat, s: seq<Word>, m: Memory)
    requires p < |text|
    requires Step(text, State(p, s, m)).Some? && Step(text, State(p, s, m)).value.pc == p + 1
    ensures var st := Step(text, State(p, s, m)).value; Runs(text, p, 1, s, m, st.stack, st.mem)
  {
    assert RunUntil(text, Step(text, State(p, s, m)).value, p + 1) == Step(text, State(p, s, m));
  }

  lemma RunsLdDword(text: seq<Byte>, p: nat, w: Word, s: seq<Word>, m: Memory)
    requires At(text, p, CodeLd(w)) && |s| < STACK_MAX
    ensures Runs(text, p, 5, s, m, s + [w], m)
  {
    var c := text[p..p + 5];
    assert c == CodeLd(w);
    assert text[p] == c[0] && text[p + 1] == c[1] && text[p + 2] == c[2] && text[p + 3] == c[3] && text[p + 4] == c[4];
    Get32Set32(w);
    assert Step(text, State(p, s, m)) == Some(State(p + 5, s + [w], m));
    assert RunUntil(text, State(p + 5, s + [w], m), p + 5) == Some(State(p + 5, s + [w], m));
  }

  lemma RunsLdValue(text: seq<Byte>, p: nat, a: Word, s: seq<Word>, m: Memory)
    requires At(text, p, CodeLdValue(a)) && |s| < STACK_MAX && Load(m, a).Some?
    ensures Runs(text, p, 5, s, m, s + [Load(m, a).value], m)
  {
    var c, w := text[p..p + 5], Load(m, a).value;
    assert c == CodeLdValue(a);
    assert text[p] == c[0] && text[p + 1] == c[1] && text[p + 2] == c[2] && text[p + 3] == c[3] && text[p + 4] == c[4];
    Get32Set32(a);
    assert Immediate(text, p + 1) == Some(a);
    assert Step(text, State(p, s, m)) == Some(State(p + 5, s + [w], m));
    assert RunUntil(text, State(p + 5, s + [w], m), p + 5) == Some(State(p + 5, s + [w], m));
  }

  lemma RunsBin(text: seq<Byte>, p: nat, op: BinOp, s: seq<Word>, a: Word, b: Word, m: Memory)
    requires At(text, p, [Opcode(op)]) && Apply(op, a, b).Some?
    ensures Runs(text, p, 1, s + [a] + [b], m, s + [Apply(op, a, b).value], m)
  {
    hide Apply;
    assert text[p] == text[p..p + 1][0];
    assert OpTable(Opcode(op)) == BinDword(op);
    var st := s + [a] + [b];
    assert st[..|st| - 2] == s;
    RunsOp(text, p, st, m);
  }

  /** Store the top word at the address below it, and drop the word. */
  lemma RunsStore(text: seq<Byte>, p: nat, s: seq<Word>, a: Word, v: Word, m: Memory)
    requires At(text, p, [0x2A]) && Store(m, a, v).Some?
    ensures Runs(text, p, 1, s + [a] + [v], m, s + [a], Store(m, a, v).value)
  {
    hide Store;
    assert text[p] == text[p..p + 1][0];
    var st := s + [a] + [v];
    assert st[..|st| - 1] == s + [a] && st[|st| - 2] == a;
    RunsOp(text, p, st, m);
  }

  lemma RunsLoadTop(text: seq<Byte>, p: nat, s: seq<Word>, a: Word, m: Memory)
    requires At(text, p, [0x2F]) && Load(m, a).Some?
    ensures Runs(text, p, 1, s + [a], m, s + [Load(m, a).value], m)
  {
    assert text[p] == text[p..p + 1][0];
    assert (s + [a])[..|s|] == s;
    RunsOp(text, p, s + [a], m);
  }

  lemma RunsPop(text: seq<Byte>, p: nat, s: seq<Word>, a: Word, m: Memory)
    requires At(text, p, [0x2B])
    ensures Runs(text, p, 1, s + [a], m, s, m)
  {
    assert text[p] == text[p..p + 1][0];
    assert (s + [a])[..|s|] == s;
    RunsOp(text, p, s + [a], m);
  }

  lemma RunsCompl(text: seq<Byte>, p: nat, s: seq<Word>, a: Word, m: Memory)
    requires At(text, p, [0x1B])
    ensures Runs(text, p, 1, s + [a], m, s + [Complement(a)], m)
  {
    assert text[p] == text[p..p + 1][0];
    assert (s + [a])[..|s|] == s;
    RunsOp(text, p, s + [a], m);
  }

  /** The stack slots an expression's code needs above its starting point. */
  function Depth(e: Expr): nat {
    match e
    case Const(_) => 1
    case Var(_) => 1
    case Bin(_, l, r) => Max(Depth(l), 1 + Depth(r))
    case Compl(a) => Depth(a)
    case Deref(a) => Depth(a)
    case AddrOf(p) => Depth(p)
    case Assign(p, r) => Max(Depth(p), 1 + Depth(r))
    case PreStep(_, _) => 3
    case PostStep(_, _) => 4
  }

  lemma {:induction false} DepthBound(e: Expr)
    ensures 1 <= Depth(e) <= Nodes(e) + 2
  {
    match e
    case Const(_) =>
    case Var(_) =>
    case Bin(_, l, r) => DepthBound(l); DepthBound(r);
    case Compl(a) => DepthBound(a);
    case Deref(a) => DepthBound(a);
    case AddrOf(p) => DepthBound(p);
    case Assign(p, r) => DepthBound(p); DepthBound(r);
    case PreStep(_, _) =>
    case PostStep(_, _) =>
  }

  /** The compiler theorem for one expression: from any stack, the emitted code
      leaves that stack plus the expression's value, and the memory that direct
      evaluation leaves. */
  lemma {:induction false} GenRuns(text: seq<Byte>, p: nat, e: Expr, s: seq<Word>, m: Memory)
    requires WellFormed(e) && At(text, p, Gen(e))
    requires |s| + Depth(e) <= STACK_MAX
    requires Eval(e, m).Some?
    ensures var (v, m1) := Eval(e, m).value; Runs(text, p, |Gen(e)|, s, m, s + [v], m1)
    decreases e, 1
  {
    hide Step, Apply, Runs, At, RunUntil;
    DepthBound(e);
    match e
    case Const(v) => RunsLdDword(text, p, v, s, m);
    case Var(a) => RunsLdValue(text, p, a, s, m);
    case Bin(op, l, r) => GenRunsBin(text, p, op, l, r, s, m);
    case Compl(x) =>
      var (a, m1) := Eval(x, m).value;
      AtParts(text, p, Gen(x), [0x1B]);
      GenRuns(text, p, x, s, m);
      RunsCompl(text, p + |Gen(x)|, s, a, m1);
      RunsThen(text, p, |Gen(x)|, 1, s, m, s + [a], m1, s + [Complement(a)], m1);
    case Deref(x) =>
      var (a, m1) := Eval(x, m).value;
      AtParts(text, p, Gen(x), [0x2F]);
      GenRuns(text, p, x, s, m);
      RunsLoadTop(text, p + |Gen(x)|, s, a, m1);
      RunsThen(text, p, |Gen(x)|, 1, s, m, s + [a], m1, s + [Load(m1, a).value], m1);
    case AddrOf(q) => GenRunsPlace(text, p, q, s, m);
    case Assign(q, r) => GenRunsAssign(text, p, q, r, s, m);
    case PreStep(o, x) => PreRuns(text, p, o, x, s, m);
    case PostStep(o, x) => PostRuns(text, p, o, x, s, m);
  }

  lemma {:induction false} GenRunsPlace(text: seq<Byte>, p: nat, e: Expr, s: seq<Word>, m: Memory)
    requires WellFormed(e) && Place(e) && At(text, p, GenPlace(e))
    requires |s| + Depth(e) <= STACK_MAX
    requires EvalPlace(e, m).Some?
    ensures var (v, m1) := EvalPlace(e, m).value; Runs(text, p, |GenPlace(e)|, s, m, s + [v], m1)
    decreases e, 0
  {
    if e.Var? {
      RunsLdDword(text, p, e.addr, s, m);
    } else {
      GenRuns(text, p, e.arg, s, m);
    }
  }

  lemma {:induction false} GenRunsBin(text: seq<Byte>, p: nat, op: BinOp, l: Expr, r: Expr, s: seq<Word>, m: Memory)
    requires var e := Bin(op, l, r);
      WellFormed(e) && At(text, p, Gen(e)) && |s| + Depth(e) <= STACK_MAX && Eval(e, m).Some?
    ensures var (v, m1) := Eval(Bin(op, l, r), m).value;
      Runs(text, p, |Gen(Bin(op, l, r))|, s, m, s + [v], m1)
    decreases Bin(op, l, r), 0
  {
    hide Step, Apply, Runs, At, RunUntil;
    var (a, m1) := Eval(l, m).value;
    var (b, m2) := Eval(r, m1).value;
    var n, k := |Gen(l)|, |Gen(r)|;
    AtParts(text, p, Gen(l) + Gen(r), [Opcode(op)]);
    AtParts(text, p, Gen(l), Gen(r));
    GenRuns(text, p, l, s, m);
    GenRuns(text, p + n, r, s + [a], m1);
    RunsThen(text, p, n, k, s, m, s + [a], m1, s + [a] + [b], m2);
    RunsBin(text, p + n + k, op, s, a, b, m2);
    RunsThen(text, p, n + k, 1, s, m, s + [a] + [b], m2, s + [Apply(op, a, b).value], m2);
  }

  lemma {:induction false} GenRunsAssign(text: seq<Byte>, p: nat, q: Expr, r: Expr, s: seq<Word>, m: Memory)
    requires var e := Assign(q, r);
      WellFormed(e) && At(text, p, Gen(e)) && |s| + Depth(e) <= STACK_MAX && Eval(e, m).Some?
    ensures var (v, m1) := Eval(Assign(q, r), m).value;
      Runs(text, p, |Gen(Assign(q, r))|, s, m, s + [v], m1)
    decreases Assign(q, r), 0
  {
    hide Step, Apply, Runs, At, RunUntil, Store, Load;
    var (a, m1) := EvalPlace(q, m).value;
    var (v, m2) := Eval(r, m1).value;
    var m3 := Store(m2, a, v).value;
    var n, k := |GenPlace(q)|, |Gen(r)|;
    AtParts(text, p, GenPlace(q) + Gen(r), [0x2A, 0x2F]);
    AtParts(text, p, GenPlace(q), Gen(r));
    GenRunsPlace(text, p, q, s, m);
    GenRuns(text, p + n, r, s + [a], m1);
    RunsThen(text, p, n, k, s, m, s + [a], m1, s + [a] + [v], m2);
    StoreReload(text, p + n + k, s, a, v, m2);
    RunsThen(text, p, n + k, 2, s, m, s + [a] + [v], m2, s + [v], m3);
  }

  lemma StoreReload(text: seq<Byte>, p: nat, s: seq<Word>, a: Word, v: Word, m: Memory)
    requires At(text, p, [0x2A, 0x2F]) && Store(m, a, v).Some?
    ensures Runs(text, p, 2, s + [a] + [v], m, s + [v], Store(m, a, v).value)
  {
    hide Step, Runs, At, RunUntil, Store, Load;
    var m3 := Store(m, a, v).value;
    assert [0x2A, 0x2F] == [0x2A] + [0x2F];
    AtParts(text, p, [0x2A], [0x2F]);
    RunsStore(text, p, s, a, v, m);
    LoadAfterStore(m, a, v);
    RunsLoadTop(text, p + 1, s, a, m3);
    RunsThen(text, p, 1, 1, s + [a] + [v], m, s + [a], m3, s + [v], m3);
  }

  /** `ld_value x; ld 1; op` on top of s. */
  lemma StepValue(text: seq<Byte>, p: nat, o: BinOp, x: Word, s: seq<Word>, m: Memory)
    requires At(text, p, CodeLdValue(x) + CodeLd(1) + [Opcode(o)])
    requires |s| + 2 <= STACK_MAX && Load(m, x).Some? && Apply(o, Load(m, x).value, 1).Some?
    ensures Runs(text, p, 11, s, m, s + [Apply(o, Load(m, x).value, 1).value], m)
  {
    hide Step, Apply, Runs, At, RunUntil, Load;
    var b := Load(m, x).value;
    AtParts(text, p, CodeLdValue(x) + CodeLd(1), [Opcode(o)]);
    AtParts(text, p, CodeLdValue(x), CodeLd(1));
    RunsLdValue(text, p, x, s, m);
    RunsLdDword(text, p + 5, 1, s + [b], m);
    RunsThen(text, p, 5, 5, s, m, s + [b], m, s + [b] + [1], m);
    RunsBin(text, p + 10, o, s, b, 1, m);
    RunsThen(text, p, 10, 1, s, m, s + [b] + [1], m, s + [Apply(o, b, 1).value], m);
  }

  lemma PreRuns(text: seq<Byte>, p: nat, o: BinOp, x: Word, s: seq<Word>, m: Memory)
    requires var e := PreStep(o, x);
      WellFormed(e) && At(text, p, Gen(e)) && |s| + Depth(e) <= STACK_MAX && Eval(e, m).Some?
    ensures var (v, m1) := Eval(PreStep(o, x), m).value;
      Runs(text, p, |Gen(PreStep(o, x))|, s, m, s + [v], m1)
  {
    hide Step, Apply, Runs, At, RunUntil, Load, Store;
    var v := Apply(o, Load(m, x).value, 1).value;
    var body := CodeLdValue(x) + CodeLd(1) + [Opcode(o)];
    assert Gen(PreStep(o, x)) == CodeLd(x) + body + [0x2A, 0x2F];
    AtParts(text, p, CodeLd(x) + body, [0x2A, 0x2F]);
    AtParts(text, p, CodeLd(x), body);
    RunsLdDword(text, p, x, s, m);
    StepValue(text, p + 5, o, x, s + [x], m);
    RunsThen(text, p, 5, 11, s, m, s + [x], m, s + [x] + [v], m);
    StoreReload(text, p + 16, s, x, v, m);
    RunsThen(text, p, 16, 2, s, m, s + [x] + [v], m, s + [v], Store(m, x, v).value);
  }

  lemma PostRuns(text: seq<Byte>, p: nat, o: BinOp, x: Word, s: seq<Word>, m: Memory)
    requires var e := PostStep(o, x);
      WellFormed(e) && At(text, p, Gen(e)) && |s| + Depth(e) <= STACK_MAX && Eval(e, m).Some?
    ensures var (v, m1) := Eval(PostStep(o, x), m).value;
      Runs(text, p, |Gen(PostStep(o, x))|, s, m, s + [v], m1)
  {
    hide Step, Apply, Runs, At, RunUntil, Load, Store;
    var b := Load(m, x).value;
    var v := Apply(o, b, 1).value;
    var m1 := Store(m, x, v).value;
    var body := CodeLdValue(x) + CodeLd(1) + [Opcode(o)];
    var front := CodeLdValue(x) + CodeLd(x);
    assert Gen(PostStep(o, x)) == front + body + ([0x2A] + [0x2B]);
    AtParts(text, p, front + body, [0x2A] + [0x2B]);
    AtParts(text, p, front, body);
    AtParts(text, p, CodeLdValue(x), CodeLd(x));
    AtParts(text, p + 21, [0x2A], [0x2B]);
    RunsLdValue(text, p, x, s, m);
    RunsLdDword(text, p + 5, x, s + [b], m);
    RunsThen(text, p, 5, 5, s, m, s + [b], m, s + [b] + [x], m);
    StepValue(text, p + 10, o, x, s + [b] + [x], m);
    RunsThen(text, p, 10, 11, s, m, s + [b] + [x], m, s + [b] + [x] + [v], m);
    RunsStore(text, p + 21, s + [b], x, v, m);
    RunsThen(text, p, 21, 1, s, m, s + [b] + [x] + [v], m, s + [b] + [x], m1);
    RunsPop(text, p + 22, s + [b], x, m1);
    RunsThen(text, p, 22, 1, s, m, s + [b] + [x], m1, s + [b], m1);
  }

  // ----- statement lists -----

  /** The statements of a list run in order, each value but the last popped. */
  lemma {:induction false} ProgramRuns(text: seq<Byte>, p: nat, t: Tree, es: seq<Expr>, m: Memory)
    requires es != [] && EncodesAll(t, es) && forall e <- es :: WellFormed(e)
    requires At(text, p, Program(Annotate(t, false)))
    requires forall e <- es :: Depth(e) <= STACK_MAX
    requires EvalAll(es, m).Some?
    ensures var (v, m1) := EvalAll(es, m).value;
      Runs(text, p, |Program(Annotate(t, false))|, [], m, [v], m1)
    decreases |es|
  {
    hide Step, Runs, At, RunUntil, Own, Annotate, Eval, Encodes, Gen, WellFormed, Depth;
    var a, e := Annotate(t, false), es[0];
    Annotated(t, false);
    EmittedCode(t, e);
    AtParts(text, p, Statement(a), Program(a.sibling));
    if |es| == 1 {
      assert Program(a) == Gen(e) + [] == Gen(e);
      GenRuns(text, p, e, [], m);
      assert [] + [Eval(e, m).value.0] == [Eval(e, m).value.0];
    } else {
      var m1 := Eval(e, m).value.1;
      var (w, m2) := EvalAll(es[1..], m1).value;
      Annotated(t.sibling, false);
      StatementRuns(text, p, e, m);
      ProgramRuns(text, p + |Gen(e)| + 1, t.sibling, es[1..], m1);
      RunsThen(text, p, |Gen(e)| + 1, |Program(a.sibling)|, [], m, [], m1, [w], m2);
    }
  }

  lemma StatementRuns(text: seq<Byte>, p: nat, e: Expr, m: Memory)
    requires WellFormed(e) && At(text, p, Gen(e) + [0x2B])
    requires Depth(e) <= STACK_MAX && Eval(e, m).Some?
    ensures Runs(text, p, |Gen(e)| + 1, [], m, [], Eval(e, m).value.1)
  {
    hide Step, Runs, At, RunUntil, Gen, Eval, WellFormed, Depth;
    var (v, m1) := Eval(e, m).value;
    AtParts(text, p, Gen(e), [0x2B]);
    GenRuns(text, p, e, [], m);
    RunsPop(text, p + |Gen(e)|, [], v, m1);
    RunsThen(text, p, |Gen(e)|, 1, [], m, [] + [v], m1, [], m1);
  }

  lemma {:induction false} NodesBound(es: seq<Expr>, e: Expr)
    requires e in es
    ensures Nodes(e) <= NodesAll(es)
  {
    if e != es[0] { NodesBound(es[1..], e); }
  }

  const NODE_MAX := 16

  /** A line of finsh input, end to end: the parser's tree is compiled into the
      machine's text segment and run. Whenever direct evaluation is defined, the
      run does not fault, in particular never leaves the stack or the text, and
      ends with the last statement's value alone on the stack and the memory of
      direct evaluation. */
  method Interpret(nodes: array<NodeRec>, root: int, vm: Machine, ghost t: Tree, ghost es: seq<Expr>)
    returns (ok: bool)
    requires vm.Valid()
    requires Holds(nodes[..], root, t) && Distinct(t)
    requires es != [] && EncodesAll(t, es) && forall e <- es :: WellFormed(e)
    requires NodesAll(es) <= NODE_MAX
    requires |Program(Annotate(t, false))| <= TEXT_MAX
    requires EvalAll(es, vm.mem).Some?
    modifies nodes, vm, vm.text, vm.slots
    ensures vm.Valid() && ok
    ensures vm.Now().stack == [EvalAll(es, old(vm.mem)).value.0]
    ensures vm.mem == EvalAll(es, old(vm.mem)).value.1
  {
    hide Own, Mark, Step, Program, Annotate, Holds, Distinct;
    var c := new Compiler(nodes, vm.text);
    c.CompilerRun(root, t);
    ok := vm.Run();
    forall e <- es ensures Depth(e) <= STACK_MAX { DepthBound(e); NodesBound(es, e); }
    ghost var text, n := vm.text[..], c.pc;
    assert text[0..n] == vm.text[..n];
    ProgramRuns(text, 0, t, es, old(vm.mem));
    ghost var (v, m1) := EvalAll(es, old(vm.mem)).value;
    RunSplit(text, State(0, [], old(vm.mem)), n, TEXT_MAX);
    RunNops(text, State(n, [v], m1), TEXT_MAX);
  }

  /** The node limit alone does not bound the code: eight statements `++x` use
      exactly the sixteen nodes and emit more than the text segment holds. */
  lemma TextCanOverflow(x: Word)
    ensures exists es: seq<Expr> ::
      && NodesAll(es) == NODE_MAX
      && (forall e <- es :: WellFormed(e))
      && CodeLength(es) > TEXT_MAX
  {
    var e := PreStep(Add, x);
    var es := Copies(e, 8);
    assert Nodes(e) == 2 && |Gen(e)| == 18;
    CopiesCost(e, 8);
  }

  function Copies(e: Expr, n: nat): (es: seq<Expr>)
    ensures forall x <- es :: x == e
  {
    if n == 0 then [] else [e] + Copies(e, n - 1)
  }

  lemma {:induction false} CopiesCost(e: Expr, n: nat)
    requires Nodes(e) == 2 && |Gen(e)| == 18
    ensures NodesAll(Copies(e, n)) == 2 * n
    ensures n > 0 ==> CodeLength(Copies(e, n)) == 19 * n - 1
  {
    hide Nodes, Gen;
    if n > 0 {
      CopiesCost(e, n - 1);
      assert Copies(e, n)[1..] == Copies(e, n - 1);
      assert n > 1 ==> Copies(e, n - 1) != [];
    }
  }

  /** The length of the code of a statement list. */
  function CodeLength(es: seq<Expr>): nat {
    if es == [] then 0
    else |Gen(es[0])| + (if |es| == 1 then 0 else 1 + CodeLength(es[1..]))
  }

  lemma {:induction false} ProgramLength(t: Tree, es: seq<Expr>)
    requires EncodesAll(t, es) && forall e <- es :: WellFormed(e)
    ensures |Program(Annotate(t, false))| == CodeLength(es)
    decreases |es|
  {
    hide Own, Mark;
    if es != [] {
      EmittedCode(t, es[0]);
      ProgramLength(t.sibling, es[1..]);
    }
  }
}
