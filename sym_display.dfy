/** The three `Display` impls of src/sym/value.rs: prefix text of a symbolic
    tree. `sizeT` stands for `std::mem::size_of::<T>()`, the byte size of the
    phantom element type. A render is `None` where the source panics on an
    operand index out of range. */
module SymDisplay {
  import opened Decimal
  import opened SymValue
  import opened SymShape

  datatype Option<T> = None | Some(value: T)

  /** `Display` for a variable: `<name:size>`. */
  function RenderVariable(v: SymbolicVariable, sizeT: nat): (r: string)
  {
    "<" + v.name + ":" + NatToDecimal(sizeT) + ">"
  }

  /** `Display` for `SymbolicData`: prints its payload. */
  function Render(d: SymbolicData, sizeT: nat): (r: Option<string>)
  {
    match d
    case Equation(e) => RenderEquation(e, sizeT)
    case Variable(v) => Some(RenderVariable(v, sizeT))
  }

  /** `Display` for an equation: a VAR equation prints as its first operand, a
      sum as `(ADD first second)`; any further operands are not printed. */
  function RenderEquation(e: SymbolicEquation, sizeT: nat): (r: Option<string>)
  {
    match e.op
    case VAR =>
      if |e.operands| < 1 then None else Render(e.operands[0], sizeT)
    case ADD =>
      if |e.operands| < 2 then None
      else
        match (Render(e.operands[0], sizeT), Render(e.operands[1], sizeT))
        case (Some(l), Some(r)) => Some("(ADD " + l + " " + r + ")")
        case _ => None
  }

  /** The name and the size can be read back from a rendered variable. */
  lemma RenderVariableReadable(v: SymbolicVariable, sizeT: nat)
    ensures var s := RenderVariable(v, sizeT);
      var k := |v.name|;
      |s| >= k + 4 && s[0] == '<' && s[1..k + 1] == v.name && s[k + 1] == ':' && s[|s| - 1] == '>' &&
      (forall i :: k + 2 <= i < |s| - 1 ==> IsDigit(s[i])) &&
      DecimalValue(s[k + 2..|s| - 1]) == sizeT
  {
    var s := RenderVariable(v, sizeT);
    var k := |v.name|;
    assert s[k + 2..|s| - 1] == NatToDecimal(sizeT);
    DecimalRoundTrip(sizeT);
  }

  /** A VAR equation from `new_from_var` prints exactly as its variable. */
  lemma RenderNewFromVar(v: SymbolicVariable, sizeT: nat)
    ensures RenderEquation(NewFromVar(v), sizeT) == Some(RenderVariable(v, sizeT))
  {
  }

  /** `Variable + Variable` prints both variables, left one first. */
  lemma RenderAddVarVar(a: SymbolicVariable, b: SymbolicVariable, sizeT: nat)
    ensures RenderEquation(AddVarVar(a, b), sizeT)
         == Some("(ADD " + RenderVariable(a, sizeT) + " " + RenderVariable(b, sizeT) + ")")
  {
    RenderNewFromVar(a, sizeT);
    RenderNewFromVar(b, sizeT);
  }

  /** A VAR equation without operands, or a sum with fewer than two, makes the
      operand indexing panic. */
  lemma ShortEquationPanics(e: SymbolicEquation, sizeT: nat)
    requires e.op == VAR ==> |e.operands| == 0
    requires e.op == ADD ==> |e.operands| < 2
    ensures RenderEquation(e, sizeT) == None
  {
  }

  /** A leaf operand of a built sum prints as its variable. */
  lemma RenderLeafOperand(d: SymbolicData, sizeT: nat)
    requires IsLeafOperand(d)
    ensures Leaves(d) == [LeafVariable(d)]
    ensures Render(d, sizeT) == Some(RenderVariable(LeafVariable(d), sizeT))
  {
    if d.Equation? {
      var ops := d.equation.operands;
      assert ops[1..] == [];
      assert LeavesOf(ops) == Leaves(ops[0]) + LeavesOf(ops[1..]);
      assert Render(d, sizeT) == RenderEquation(d.equation, sizeT) == Render(ops[0], sizeT);
    }
  }

  function LeafVariable(d: SymbolicData): (v: SymbolicVariable)
    requires IsLeafOperand(d)
  {
    if d.Variable? then d.variable else d.equation.operands[0].variable
  }

  /** What `new_from_var` and `+` build never makes the printer panic. */
  lemma RenderWellFormed(e: SymbolicEquation, sizeT: nat)
    requires WellFormed(e)
    ensures RenderEquation(e, sizeT).Some?
  {
    if e.op == ADD {
      RenderLeafOperand(e.operands[0], sizeT);
      RenderLeafOperand(e.operands[1], sizeT);
    }
  }

  /** A sum prints the same whatever follows its second operand. */
  lemma RenderIgnoresExtraOperands(e: SymbolicEquation, rest: seq<SymbolicData>, sizeT: nat)
    requires e.op == ADD && |e.operands| >= 2
    ensures RenderEquation(SymbolicEquation(ADD, e.operands + rest), sizeT) == RenderEquation(e, sizeT)
    ensures RenderEquation(e, sizeT) == RenderEquation(SymbolicEquation(ADD, e.operands[..2]), sizeT)
  {
    var ops := e.operands + rest;
    assert ops[0] == e.operands[0] && ops[1] == e.operands[1];
  }

  /** `(x + y) + z` prints as `(ADD <z:..> <x:..>)`: the variable added on the
      right comes first, and `y` is not printed at all. */
  lemma RenderDropsThirdVariable(x: SymbolicVariable, y: SymbolicVariable, z: SymbolicVariable, sizeT: nat)
    ensures Leaves(Equation(AddEqVar(AddVarVar(x, y), z))) == [z, x, y]
    ensures RenderEquation(AddEqVar(AddVarVar(x, y), z), sizeT)
         == Some("(ADD " + RenderVariable(z, sizeT) + " " + RenderVariable(x, sizeT) + ")")
  {
    AddVarVarShape(x, y);
    AddEqVarShape(AddVarVar(x, y), z);
    RenderNewFromVar(x, sizeT);
  }

  /** With a one-byte element type, `x + y` prints as `(ADD <x:1> <y:1>)`. */
  lemma RenderOneByteSum()
    ensures RenderEquation(AddVarVar(SymbolicVariable("x"), SymbolicVariable("y")), 1)
         == Some("(ADD <x:1> <y:1>)")
  {
    RenderAddVarVar(SymbolicVariable("x"), SymbolicVariable("y"), 1);
    assert NatToDecimal(1) == [DigitChar(1)] == "1";
    assert RenderVariable(SymbolicVariable("x"), 1) == "<x:1>";
    assert RenderVariable(SymbolicVariable("y"), 1) == "<y:1>";
    assert "(ADD " + "<x:1>" + " " + "<y:1>" + ")" == "(ADD <x:1> <y:1>)";
  }
}
