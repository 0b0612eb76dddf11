/** The finsh compiler: attribute pass (finsh_type_check), code generation
    (finsh_compile) and the statement loop (finsh_compiler_run), over the node
    table in which the parser leaves its left-child/right-sibling tree. */
module FinshCompiler {
  import opened FinshLang

  datatype NodeType =
    | UNKNOWN | ID
    | VALUE_CHAR | VALUE_INT | VALUE_LONG | VALUE_STRING | VALUE_NULL
    | SYS_BIN(op: BinOp) | SYS_BITWISE
    | SYS_FUNC | SYS_ASSIGN | SYS_CAST
    | SYS_PREINC | SYS_PREDEC | SYS_INC | SYS_DEC
    | SYS_GETVALUE | SYS_GETADDR | SYS_NULL

  datatype VarType =
    | TUnknown | TVoid | TVoidP | TChar | TUChar | TCharP | TShort | TUShort | TShortP
    | TInt | TUInt | TIntP | TLong | TULong | TLongP

  datatype IdClass = NoId | IdVar | IdSysvar | IdSyscall

  /** 0 void, 1 byte, 2 word, 3 double word. */
  type DataType = x: int | 0 <= x <= 3

  /** What a node holds besides its links. `address` is the FINSH_IDTYPE_ADDRESS
      bit; `target` is the address of the variable or function an ID stands for. */
  datatype Attr = Attr(typ: NodeType, idClass: IdClass, vtype: VarType, value: Word, target: Word,
                       dataType: DataType, address: bool)

  /** An entry of the node table; -1 is the null link. */
  datatype NodeRec = NodeRec(attr: Attr, child: int, sibling: int)

  /** The tree that hangs from a table entry. */
  datatype Tree = Null | Node(id: nat, attr: Attr, child: Tree, sibling: Tree)

  ghost function Ids(t: Tree): set<nat> {
    if t.Null? then {} else {t.id} + Ids(t.child) + Ids(t.sibling)
  }

  ghost predicate Distinct(t: Tree) {
    t.Node? ==>
      && t.id !in Ids(t.child) && t.id !in Ids(t.sibling) && Ids(t.child) !! Ids(t.sibling)
      && Distinct(t.child) && Distinct(t.sibling)
  }

  /** Entry p of the table is the root of tree t. */
  ghost predicate Holds(table: seq<NodeRec>, p: int, t: Tree)
    decreases t
  {
    match t
    case Null => p == -1
    case Node(id, attr, child, sibling) =>
      && p == id < |table| && table[p].attr == attr
      && Holds(table, table[p].child, child) && Holds(table, table[p].sibling, sibling)
  }

  lemma {:induction false} HoldsFrame(a: seq<NodeRec>, b: seq<NodeRec>, p: int, t: Tree)
    requires Holds(a, p, t) && |a| == |b|
    requires forall i :: i in Ids(t) && i < |a| ==> a[i] == b[i]
    ensures Holds(b, p, t)
    decreases t
  {
    if t.Node? {
      HoldsFrame(a, b, a[p].child, t.child);
      HoldsFrame(a, b, a[p].sibling, t.sibling);
    }
  }

  // ----- finsh_type_check -----

  /** The is_addr flag a node passes to its first child. */
  function ChildAddr(typ: NodeType, isAddr: bool): bool {
    if typ.SYS_ASSIGN? || typ.SYS_PREINC? || typ.SYS_PREDEC? || typ.SYS_GETADDR? then true
    else if typ.SYS_GETVALUE? && isAddr then false
    else isAddr
  }

  function TypeOfVar(v: VarType, otherwise: DataType): DataType {
    match v
    case TVoid => 0
    case TChar => 1 case TUChar => 1
    case TShort => 2 case TUShort => 2
    case TUnknown => otherwise
    case _ => 3
  }

  function LeafType(a: Attr): DataType {
    match a.typ
    case ID => if a.idClass.IdVar? || a.idClass.IdSysvar? then TypeOfVar(a.vtype, a.dataType) else a.dataType
    case VALUE_CHAR => 1
    case VALUE_INT => 3 case VALUE_LONG => 3 case VALUE_STRING => 3 case VALUE_NULL => 3
    case _ => a.dataType
  }

  /** The node's own attributes once its child (if any) has its data type. */
  function Mark(a: Attr, isAddr: bool, childType: Option<DataType>): Attr {
    var a1 := if a.idClass.IdSyscall? then a else a.(address := a.address || isAddr);
    a1.(dataType := if childType.Some? then childType.value else LeafType(a1))
  }

  function TypeOf(t: Tree): Option<DataType> {
    if t.Null? then None else Some(t.attr.dataType)
  }

  function Annotate(t: Tree, isAddr: bool): Tree {
    match t
    case Null => Null
    case Node(id, attr, child, sibling) =>
      var c := Annotate(child, ChildAddr(attr.typ, isAddr));
      Node(id, Mark(attr, isAddr, TypeOf(c)), c, Annotate(sibling, false))
  }

  lemma {:induction false} AnnotateIds(t: Tree, isAddr: bool)
    ensures Ids(Annotate(t, isAddr)) == Ids(t)
    ensures Distinct(t) ==> Distinct(Annotate(t, isAddr))
  {
    if t.Node? {
      AnnotateIds(t.child, ChildAddr(t.attr.typ, isAddr));
      AnnotateIds(t.sibling, false);
    }
  }

  // ----- finsh_compile -----

  function CodeLd(w: Word): (s: seq<Byte>) ensures |s| == 5 { [0x24] + Set32(w) }
  function CodeLdValue(w: Word): (s: seq<Byte>) ensures |s| == 5 { [0x27] + Set32(w) }

  /** Opcode of the byte form; the word and double-word forms follow it. */
  function OpBase(op: BinOp): Byte {
    match op
    case Add => 0x01 case Sub => 0x04 case Div => 0x07 case Mod => 0x0A case Mul => 0x0D
    case And => 0x10 case Or => 0x13 case Xor => 0x16 case Shl => 0x1C case Shr => 0x1F
  }

  /** The opcode for a width, or nothing for void. */
  function Sized(base: Byte, d: DataType): seq<Byte>
    requires base < 0xF0
  {
    if d == 0 then [] else [base + d - 1]
  }

  function IdCode(a: Attr): seq<Byte> {
    if a.idClass.IdSyscall? then CodeLd(a.target)
    else if a.vtype.TUnknown? || a.vtype.TVoid? || a.vtype.TVoidP? then []
    else if a.address then CodeLd(a.target)
    else [0x24 + TypeOfVar(a.vtype, 0)] + Set32(a.target)
  }

  function LoadOne(d: DataType): seq<Byte> {
    if d == 1 then [0x22, 1] else if d == 2 then [0x23, 1, 0] else CodeLd(1)
  }

  function StepOp(up: bool, d: DataType): seq<Byte> {
    Sized(OpBase(if up then Add else Sub), d)
  }

  function PreCode(up: bool, d: DataType, x: Word): seq<Byte> {
    if d == 0 then []
    else [0x24 + d] + Set32(x) + LoadOne(d) + StepOp(up, d) + [0x27 + d, 0x2F]
  }

  function PostCode(up: bool, d: DataType, x: Word): seq<Byte> {
    if d == 0 then []
    else CodeLd(x) + [0x24 + d] + Set32(x) + LoadOne(d) + StepOp(up, d) + [0x27 + d, 0x2B]
  }

  /** The bytes emitted for a node itself, after those of its child. `args`
      counts the siblings of the first child. */
  function Own(a: Attr, child: Option<Attr>, args: nat): seq<Byte> {
    var idChild := child.Some? && child.value.typ.ID?;
    match a.typ
    case ID => IdCode(a)
    case VALUE_CHAR => [0x22, a.value % 0x100]
    case VALUE_INT => CodeLd(a.value)
    case VALUE_LONG => CodeLd(a.value)
    case VALUE_STRING => CodeLd(a.value)
    case VALUE_NULL => CodeLd(a.value)
    case SYS_BIN(op) => Sized(OpBase(op), a.dataType)
    case SYS_BITWISE => Sized(0x19, a.dataType)
    case SYS_FUNC => if child.Some? then [0x2C, args % 0x100] else []
    case SYS_ASSIGN =>
      if idChild || (child.Some? && child.value.typ.SYS_GETVALUE?)
      then Sized(0x28, child.value.dataType) + Sized(0x2D, child.value.dataType) else []
    case SYS_PREINC => if idChild then PreCode(true, a.dataType, child.value.target) else []
    case SYS_PREDEC => if idChild then PreCode(false, a.dataType, child.value.target) else []
    case SYS_INC => if idChild then PostCode(true, a.dataType, child.value.target) else []
    case SYS_DEC => if idChild then PostCode(false, a.dataType, child.value.target) else []
    case SYS_NULL => Set32(0)
    case SYS_GETVALUE => if a.address then [] else Sized(0x2D, a.dataType)
    case SYS_GETADDR => []
    case UNKNOWN => []
    case SYS_CAST => []
  }

  function AttrOf(t: Tree): Option<Attr> {
    if t.Null? then None else Some(t.attr)
  }

  function Siblings(t: Tree): nat {
    if t.Null? then 0 else 1 + Siblings(t.sibling)
  }

  function Args(child: Tree): nat {
    if child.Null? then 0 else Siblings(child.sibling)
  }

  /** Code of a node without its siblings. */
  function Body(t: Tree): seq<Byte>
    requires t.Node?
    decreases t, 0
  {
    Code(t.child) + Own(t.attr, AttrOf(t.child), Args(t.child))
  }

  function Code(t: Tree): seq<Byte>
    decreases t, 1
  {
    if t.Null? then [] else Body(t) + Code(t.sibling)
  }

  lemma CodeParts(t: Tree)
    ensures t.Null? ==> Code(t) == []
    ensures t.Node? ==>
      Code(t) == Code(t.child) + Own(t.attr, AttrOf(t.child), Args(t.child)) + Code(t.sibling)
  {
    hide Own;
  }

  // ----- finsh_compiler_run -----

  /** Each statement's code, with its value popped when another one follows. */
  function Statement(t: Tree): seq<Byte>
    requires t.Node?
  {
    if t.sibling.Null? then Body(t) else Body(t) + [0x2B]
  }

  function Program(t: Tree): seq<Byte> {
    if t.Null? then [] else Statement(t) + Program(t.sibling)
  }

  /** `after` is `before` with the bytes bs written at `at`. */
  ghost predicate Wrote(before: seq<Byte>, after: seq<Byte>, at: nat, bs: seq<Byte>) {
    && at + |bs| <= |before| == |after|
    && after[at..at + |bs|] == bs
    && (forall i :: 0 <= i < |before| && !(at <= i < at + |bs|) ==> after[i] == before[i])
  }

  lemma WroteNothing(a: seq<Byte>, at: nat)
    requires at <= |a|
    ensures Wrote(a, a, at, [])
  {
    assert a[at..at] == [];
  }

  lemma WroteThen(a: seq<Byte>, b: seq<Byte>, c: seq<Byte>, at: nat, x: seq<Byte>, y: seq<Byte>)
    requires Wrote(a, b, at, x) && Wrote(b, c, at + |x|, y)
    ensures Wrote(a, c, at, x + y)
  {
    assert c[at..at + |x + y|] == c[at..at + |x|] + c[at + |x|..at + |x| + |y|];
    assert c[at..at + |x|] == b[at..at + |x|];
  }

  /** A statement cut loose from its sibling compiles to its own body. */
  lemma CutCode(t: Tree)
    requires t.Node?
    ensures Code(t.(sibling := Null)) == Body(t)
  {
    assert Code(t.(sibling := Null)) == Body(t) + Code(Null) == Body(t);
  }

  class Compiler {
    const nodes: array<NodeRec>
    const text: array<Byte>
    var pc: nat

    constructor (nodes: array<NodeRec>, text: array<Byte>)
      ensures this.nodes == nodes && this.text == text && pc == 0
    {
      this.nodes, this.text, pc := nodes, text, 0;
    }

    method TypeCheck(p: int, isAddr: bool, ghost t: Tree)
      requires Holds(nodes[..], p, t) && Distinct(t)
      modifies nodes
      ensures Holds(nodes[..], p, Annotate(t, isAddr))
      ensures forall i :: 0 <= i < nodes.Length && i !in Ids(t) ==> nodes[i] == old(nodes[i])
      ensures forall i :: 0 <= i < nodes.Length ==>
        nodes[i].child == old(nodes[i].child) && nodes[i].sibling == old(nodes[i].sibling)
      decreases t
    {
      hide Mark, ChildAddr;
      if p != -1 {
        var child, sibling, typ := nodes[p].child, nodes[p].sibling, nodes[p].attr.typ;
        TypeCheck(child, ChildAddr(typ, isAddr), t.child);
        ghost var c := Annotate(t.child, ChildAddr(typ, isAddr));
        ghost var n1 := nodes[..];
        HoldsFrame(old(nodes[..]), n1, sibling, t.sibling);
        TypeCheck(sibling, false, t.sibling);
        ghost var n2 := nodes[..];
        AnnotateIds(t.child, ChildAddr(typ, isAddr));
        AnnotateIds(t.sibling, false);
        HoldsFrame(n1, n2, child, c);
        var childType := if child == -1 then None else Some(nodes[child].attr.dataType);
        nodes[p] := nodes[p].(attr := Mark(nodes[p].attr, isAddr, childType));
        HoldsFrame(n2, nodes[..], child, c);
        HoldsFrame(n2, nodes[..], sibling, Annotate(t.sibling, false));
      }
    }

    method CodeBytes(bs: seq<Byte>)
      requires pc + |bs| <= text.Length
      modifies this`pc, text
      ensures pc == old(pc) + |bs|
      ensures Wrote(old(text[..]), text[..], old(pc), bs)
    {
      var start, i := pc, 0;
      while i < |bs|
        invariant 0 <= i <= |bs| && pc == start + i
        invariant Wrote(old(text[..]), text[..], start, bs[..i])
      {
        text[pc] := bs[i];
        pc := pc + 1;
        i := i + 1;
      }
      assert bs[..i] == bs;
    }

    method EmitOwn(a: Attr, child: Option<Attr>, args: nat)
      requires pc + |Own(a, child, args)| <= text.Length
      modifies this`pc, text
      ensures pc == old(pc) + |Own(a, child, args)|
      ensures Wrote(old(text[..]), text[..], old(pc), Own(a, child, args))
    {
      CodeBytes(Own(a, child, args));
    }

    method ClearText()
      modifies text
      ensures forall i :: 0 <= i < text.Length ==> text[i] == 0
    {
      for k := 0 to text.Length
        invariant forall i :: 0 <= i < k ==> text[i] == 0
      {
        text[k] := 0;
      }
    }

    method CountSiblings(p: int, ghost t: Tree) returns (n: nat)
      requires Holds(nodes[..], p, t)
      ensures n == Siblings(t)
    {
      var q := p;
      ghost var u := t;
      n := 0;
      while q != -1
        invariant Holds(nodes[..], q, u)
        invariant n + Siblings(u) == Siblings(t)
        decreases u
      {
        n := n + 1;
        q := nodes[q].sibling;
        u := u.sibling;
      }
    }

    /** finsh_compile: writes exactly Code(t) at pc and nothing else. */
    method Compile(p: int, ghost t: Tree)
      requires Holds(nodes[..], p, t)
      requires pc + |Code(t)| <= text.Length
      modifies this`pc, text
      ensures pc == old(pc) + |Code(t)|
      ensures Wrote(old(text[..]), text[..], old(pc), Code(t))
      decreases t
    {
      hide Own, Wrote;
      CodeParts(t);
      if p != -1 {
        var n := nodes[p];
        var childAttr, args := None, 0;
        ghost var t0 := text[..];
        ghost var own := Own(t.attr, AttrOf(t.child), Args(t.child));
        Compile(n.child, t.child);
        if n.child != -1 {
          childAttr := Some(nodes[n.child].attr);
          args := CountSiblings(nodes[n.child].sibling, t.child.sibling);
        }
        ghost var t1 := text[..];
        EmitOwn(n.attr, childAttr, args);
        ghost var t2 := text[..];
        WroteThen(t0, t1, t2, old(pc), Code(t.child), own);
        Compile(n.sibling, t.sibling);
        WroteThen(t0, t2, text[..], old(pc), Code(t.child) + own, Code(t.sibling));
      } else {
        WroteNothing(text[..], pc);
      }
    }

    /** finsh_compiler_run: attributes, a cleared text segment, then the
        statements, each cut loose from its sibling before it is compiled. */
    method CompilerRun(root: int, ghost t: Tree)
      requires Holds(nodes[..], root, t) && Distinct(t)
      requires |Program(Annotate(t, false))| <= text.Length
      modifies this`pc, text, nodes
      ensures pc == |Program(Annotate(t, false))| <= text.Length
      ensures text[..pc] == Program(Annotate(t, false))
      ensures forall i :: pc <= i < text.Length ==> text[i] == 0
    {
      hide Program, Annotate, Holds, Distinct;
      TypeCheck(root, false, t);
      AnnotateIds(t, false);
      ClearText();
      pc := 0;
      CompileStatements(root, Annotate(t, false));
    }

    method CompileStatements(root: int, ghost t: Tree)
      requires Holds(nodes[..], root, t) && Distinct(t)
      requires pc + |Program(t)| <= text.Length
      modifies this`pc, text, nodes
      ensures pc == old(pc) + |Program(t)|
      ensures Wrote(old(text[..]), text[..], old(pc), Program(t))
    {
      hide Own, Body, Wrote, Statement;
      var p := root;
      WroteNothing(text[..], pc);
      ghost var u, done := t, [];
      while p != -1
        invariant Holds(nodes[..], p, u) && Distinct(u)
        invariant pc == old(pc) + |done| && Wrote(old(text[..]), text[..], old(pc), done)
        invariant done + Program(u) == Program(t)
        decreases u
      {
        ghost var t0 := text[..];
        assert done + Program(u) == done + Statement(u) + Program(u.sibling);
        p := CompileStatement(p, u);
        WroteThen(old(text[..]), t0, text[..], old(pc), done, Statement(u));
        done, u := done + Statement(u), u.sibling;
      }
      assert done + Program(u) == done;
    }

    /** One turn of the statement loop. */
    method CompileStatement(p: int, ghost t: Tree) returns (next: int)
      requires p != -1 && Holds(nodes[..], p, t) && Distinct(t)
      requires pc + |Statement(t)| <= text.Length
      modifies this`pc, text, nodes
      ensures Holds(nodes[..], next, t.sibling)
      ensures pc == old(pc) + |Statement(t)|
      ensures Wrote(old(text[..]), text[..], old(pc), Statement(t))
    {
      hide Body, Own, Wrote;
      next := nodes[p].sibling;
      ghost var cut := t.(sibling := Null);
      ghost var before := nodes[..];
      nodes[p] := nodes[p].(sibling := -1);
      HoldsFrame(before, nodes[..], nodes[p].child, t.child);
      HoldsFrame(before, nodes[..], next, t.sibling);
      CutCode(t);
      ghost var t0 := text[..];
      Compile(p, cut);
      if next != -1 {
        ghost var t1 := text[..];
        CodeBytes([0x2B]);
        WroteThen(t0, t1, text[..], old(pc), Body(t), [0x2B]);
      }
    }
  }
}
