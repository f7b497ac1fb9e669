/** A printer for equations that shows every operand of a sum, next to the
    printer of src/sym/value.rs, which shows only the first two. Because `+`
    flattens sums, a sum of three or more variables holds them all as operands,
    and the printer as written leaves all but two out of the text. */
module SymDisplayFull {
  import opened Decimal
  import opened SymValue
  import opened SymShape
  import opened SymDisplay

  /** The variables printed one after another, each after a space. */
  function Joined(vs: seq<SymbolicVariable>, sizeT: nat): (r: string)
  {
    if vs == [] then "" else " " + RenderVariable(vs[0], sizeT) + Joined(vs[1..], sizeT)
  }

  /** `Display` with every operand of a sum printed: `(ADD a b c ...)`. */
  function RenderFull(d: SymbolicData, sizeT: nat): (r: Option<string>)
  {
    match d
    case Equation(e) => RenderFullEquation(e, sizeT)
    case Variable(v) => Some(RenderVariable(v, sizeT))
  }

  function RenderFullEquation(e: SymbolicEquation, sizeT: nat): (r: Option<string>)
  {
    match e.op
    case VAR =>
      if |e.operands| < 1 then None else RenderFull(e.operands[0], sizeT)
    case ADD =>
      if |e.operands| < 2 then None
      else
        match RenderFullAll(e.operands, sizeT)
        case Some(s) => Some("(ADD" + s + ")")
        case None => None
  }

  /** Each operand printed after a space, in order. */
  function RenderFullAll(ds: seq<SymbolicData>, sizeT: nat): (r: Option<string>)
  {
    if ds == [] then Some("")
    else
      match (RenderFull(ds[0], sizeT), RenderFullAll(ds[1..], sizeT))
      case (Some(a), Some(b)) => Some(" " + a + b)
      case _ => None
  }

  /** Trees in which every sum has exactly two operands. */
  predicate Binary(d: SymbolicData)
  {
    match d
    case Variable(_) => true
    case Equation(e) =>
      (e.op == ADD ==> |e.operands| == 2) &&
      forall i :: 0 <= i < |e.operands| ==> Binary(e.operands[i])
  }

  /** On trees whose sums are all binary, the two printers agree: the
      correction changes nothing but the printing of longer sums. */
  lemma {:induction false} FullAgreesOnBinary(d: SymbolicData, sizeT: nat)
    requires Binary(d)
    ensures RenderFull(d, sizeT) == Render(d, sizeT)
    decreases d
  {
    match d
    case Variable(_) =>
    case Equation(e) =>
      var ops := e.operands;
      if e.op == VAR {
        if |ops| >= 1 {
          FullAgreesOnBinary(ops[0], sizeT);
        }
      } else {
        FullAgreesOnBinary(ops[0], sizeT);
        FullAgreesOnBinary(ops[1], sizeT);
        var tail := ops[1..];
        assert tail[0] == ops[1] && tail[1..] == [];
        assert RenderFullAll(tail[1..], sizeT) == Some("");
        var a, b := Render(ops[0], sizeT), Render(ops[1], sizeT);
        if a.Some? && b.Some? {
          assert RenderFullAll(tail, sizeT) == Some(" " + b.value + "");
          assert RenderFullAll(ops, sizeT) == Some(" " + a.value + (" " + b.value + ""));
          assert "(ADD" + (" " + a.value + (" " + b.value + "")) + ")"
              == "(ADD " + a.value + " " + b.value + ")";
        } else {
          assert RenderFullAll(ops, sizeT) == None;
        }
      }
  }

  lemma RenderFullLeafOperand(d: SymbolicData, sizeT: nat)
    requires IsLeafOperand(d)
    ensures RenderFull(d, sizeT) == Some(RenderVariable(LeafVariable(d), sizeT))
  {
    if d.Equation? {
      var ops := d.equation.operands;
      assert RenderFull(d, sizeT) == RenderFullEquation(d.equation, sizeT) == RenderFull(ops[0], sizeT);
    }
  }

  /** A list of leaf operands prints, in full, as its variables in order. */
  lemma {:induction false} FullRenderLeafOperands(ds: seq<SymbolicData>, sizeT: nat)
    requires forall i :: 0 <= i < |ds| ==> IsLeafOperand(ds[i])
    ensures RenderFullAll(ds, sizeT) == Some(Joined(LeavesOf(ds), sizeT))
    decreases |ds|
  {
    if ds != [] {
      var v := LeafVariable(ds[0]);
      RenderLeafOperand(ds[0], sizeT);
      RenderFullLeafOperand(ds[0], sizeT);
      FullRenderLeafOperands(ds[1..], sizeT);
      var vs := LeavesOf(ds);
      assert vs == [v] + LeavesOf(ds[1..]);
      assert vs[0] == v && vs[1..] == LeavesOf(ds[1..]);
    }
  }

  /** The corrected printer shows every variable of a built equation, in
      order: a VAR equation as its variable, a sum as `(ADD` followed by each
      of its variables after a space, then `)`. */
  lemma FullRenderShowsEveryVariable(e: SymbolicEquation, sizeT: nat)
    requires WellFormed(e)
    ensures e.op == VAR ==>
      |Leaves(Equation(e))| == 1 &&
      RenderFullEquation(e, sizeT) == Some(RenderVariable(Leaves(Equation(e))[0], sizeT))
    ensures e.op == ADD ==>
      RenderFullEquation(e, sizeT) == Some("(ADD" + Joined(Leaves(Equation(e)), sizeT) + ")")
  {
    var ops := e.operands;
    if e.op == VAR {
      var v := ops[0].variable;
      assert ops[1..] == [];
      assert Leaves(Equation(e)) == Leaves(ops[0]) + LeavesOf(ops[1..]) == [v];
    } else {
      FullRenderLeafOperands(ops, sizeT);
    }
  }

  /** The printer as written shows only the first two variables of a built
      sum, however many the sum holds. */
  lemma WrittenRenderShowsTwoVariables(e: SymbolicEquation, sizeT: nat)
    requires WellFormed(e) && e.op == ADD
    ensures |Leaves(Equation(e))| >= 2
    ensures RenderEquation(e, sizeT)
         == Some("(ADD " + RenderVariable(Leaves(Equation(e))[0], sizeT) + " "
                 + RenderVariable(Leaves(Equation(e))[1], sizeT) + ")")
  {
    var ops := e.operands;
    SumOperandsAreVariables(e);
    var v0, v1 := LeafVariable(ops[0]), LeafVariable(ops[1]);
    RenderLeafOperand(ops[0], sizeT);
    RenderLeafOperand(ops[1], sizeT);
    assert ops[1..][0] == ops[1];
    assert LeavesOf(ops) == [v0] + LeavesOf(ops[1..]);
    assert LeavesOf(ops[1..]) == [v1] + LeavesOf(ops[1..][1..]);
    assert Leaves(Equation(e))[0] == v0 && Leaves(Equation(e))[1] == v1;
  }

  /** `(x + y) + z` printed in full keeps `y`. */
  lemma FullRenderThreeVariables(x: SymbolicVariable, y: SymbolicVariable, z: SymbolicVariable, sizeT: nat)
    ensures RenderFullEquation(AddEqVar(AddVarVar(x, y), z), sizeT)
         == Some("(ADD " + RenderVariable(z, sizeT) + " " + RenderVariable(x, sizeT)
                 + " " + RenderVariable(y, sizeT) + ")")
  {
    var e := AddEqVar(AddVarVar(x, y), z);
    var ops := e.operands;
    var a, b, c := RenderVariable(z, sizeT), RenderVariable(x, sizeT), RenderVariable(y, sizeT);
    RenderFullLeafOperand(ops[0], sizeT);
    RenderFullLeafOperand(ops[1], sizeT);
    RenderFullLeafOperand(ops[2], sizeT);
    var t1 := ops[1..];
    var t2 := t1[1..];
    assert t1[0] == ops[1] && t2[0] == ops[2] && t2[1..] == [];
    assert RenderFullAll(t2[1..], sizeT) == Some("");
    assert RenderFullAll(t2, sizeT) == Some(" " + c + "");
    assert RenderFullAll(t1, sizeT) == Some(" " + b + (" " + c + ""));
    assert RenderFullAll(ops, sizeT) == Some(" " + a + (" " + b + (" " + c + "")));
    assert "(ADD" + (" " + a + (" " + b + (" " + c + ""))) + ")" == "(ADD " + a + " " + b + " " + c + ")";
  }
}
