/** The shape of the trees that the `+` combinations of src/sym/value.rs build:
    which variables they hold and in what order, how many operands a sum has,
    and that sums never nest. */
module SymShape {
  import opened SymValue

  /** Every variable of a tree, left to right. */
  function Leaves(d: SymbolicData): (vs: seq<SymbolicVariable>)
  {
    match d
    case Variable(v) => [v]
    case Equation(e) => LeavesOf(e.operands)
  }

  function LeavesOf(ds: seq<SymbolicData>): (vs: seq<SymbolicVariable>)
  {
    if ds == [] then [] else Leaves(ds[0]) + LeavesOf(ds[1..])
  }

  /** An operand a built sum holds: a variable, or a variable wrapped by `new_from_var`. */
  predicate IsLeafOperand(d: SymbolicData) {
    d.Variable? ||
    (d.equation.op == VAR && |d.equation.operands| == 1 && d.equation.operands[0].Variable?)
  }

  /** The equations that `new_from_var` and the `+` combinations can produce:
      a VAR equation around exactly one variable, or a sum of at least two
      leaf operands. */
  predicate WellFormed(e: SymbolicEquation) {
    match e.op
    case VAR => |e.operands| == 1 && e.operands[0].Variable?
    case ADD =>
      |e.operands| >= 2 && forall i :: 0 <= i < |e.operands| ==> IsLeafOperand(e.operands[i])
  }

  lemma {:induction false} LeavesOfConcat(s: seq<SymbolicData>, t: seq<SymbolicData>)
    ensures LeavesOf(s + t) == LeavesOf(s) + LeavesOf(t)
    decreases |s|
  {
    if s == [] {
      assert s + t == t;
    } else {
      assert (s + t)[0] == s[0];
      assert (s + t)[1..] == s[1..] + t;
      LeavesOfConcat(s[1..], t);
    }
  }

  /** A list of leaf operands holds exactly one variable per operand. */
  lemma {:induction false} LeavesOfLeafOperands(ds: seq<SymbolicData>)
    requires forall i :: 0 <= i < |ds| ==> IsLeafOperand(ds[i])
    ensures |LeavesOf(ds)| == |ds|
    decreases |ds|
  {
    if ds != [] {
      var d := ds[0];
      if d.Equation? {
        var ops := d.equation.operands;
        assert ops[1..] == [];
        assert LeavesOf(ops) == Leaves(ops[0]) + LeavesOf(ops[1..]);
      }
      assert |Leaves(d)| == 1;
      LeavesOfLeafOperands(ds[1..]);
    }
  }

  lemma NewFromVarShape(v: SymbolicVariable)
    ensures WellFormed(NewFromVar(v))
    ensures Leaves(Equation(NewFromVar(v))) == [v]
  {
    var ops := NewFromVar(v).operands;
    assert ops[1..] == [];
    assert LeavesOf(ops) == Leaves(ops[0]) + LeavesOf(ops[1..]);
  }

  lemma AddVarVarShape(a: SymbolicVariable, b: SymbolicVariable)
    ensures WellFormed(AddVarVar(a, b))
    ensures Leaves(Equation(AddVarVar(a, b))) == [a, b]
  {
    var r := AddVarVar(a, b);
    NewFromVarShape(a);
    NewFromVarShape(b);
    LeavesOfConcat([r.operands[0]], [r.operands[1]]);
    assert r.operands == [r.operands[0]] + [r.operands[1]];
    assert [r.operands[1]][1..] == [];
  }

  /** `Variable + Equation` keeps the shape, puts the variable first and has at
      least two operands. */
  lemma AddVarEqShape(v: SymbolicVariable, e: SymbolicEquation)
    requires WellFormed(e)
    ensures WellFormed(AddVarEq(v, e))
    ensures Leaves(Equation(AddVarEq(v, e))) == [v] + Leaves(Equation(e))
  {
    var r := AddVarEq(v, e);
    assert r.operands == [Variable(v)] + e.operands;
    LeavesOfConcat([Variable(v)], e.operands);
    assert [Variable(v)][1..] == [];
  }

  /** `Equation + Equation` keeps the shape and concatenates the variables. */
  lemma AddEqEqShape(a: SymbolicEquation, b: SymbolicEquation)
    requires WellFormed(a) && WellFormed(b)
    ensures WellFormed(AddEqEq(a, b))
    ensures Leaves(Equation(AddEqEq(a, b))) == Leaves(Equation(a)) + Leaves(Equation(b))
  {
    var r := AddEqEq(a, b);
    assert r.operands == a.operands + b.operands;
    LeavesOfConcat(a.operands, b.operands);
    forall i | 0 <= i < |r.operands|
      ensures IsLeafOperand(r.operands[i])
    {
      if i < |a.operands| {
        assert r.operands[i] == a.operands[i];
      } else {
        assert r.operands[i] == b.operands[i - |a.operands|];
      }
    }
  }

  /** `Equation + Variable` keeps the shape and puts the variable first. */
  lemma AddEqVarShape(e: SymbolicEquation, v: SymbolicVariable)
    requires WellFormed(e)
    ensures WellFormed(AddEqVar(e, v))
    ensures Leaves(Equation(AddEqVar(e, v))) == [v] + Leaves(Equation(e))
  {
    AddVarEqShape(v, e);
  }

  /** A built sum has one operand per variable: flattening never nests sums. */
  lemma SumOperandsAreVariables(e: SymbolicEquation)
    requires WellFormed(e) && e.op == ADD
    ensures |Leaves(Equation(e))| == |e.operands| >= 2
  {
    LeavesOfLeafOperands(e.operands);
  }

  /** Flattening makes `Equation + Equation` associative. */
  lemma AddEqEqAssociative(a: SymbolicEquation, b: SymbolicEquation, c: SymbolicEquation)
    ensures AddEqEq(AddEqEq(a, b), c) == AddEqEq(a, AddEqEq(b, c))
  {
    assert (a.operands + b.operands) + c.operands == a.operands + (b.operands + c.operands);
  }

  /** Adding a variable on the right of an equation is not the same as adding
      its VAR equation on the right: the results agree only when every operand
      of the equation is that very variable. */
  lemma {:induction false} AddEqVarOrder(e: SymbolicEquation, v: SymbolicVariable)
    ensures AddEqVar(e, v) == AddEqEq(e, NewFromVar(v))
        <==> forall i :: 0 <= i < |e.operands| ==> e.operands[i] == Variable(v)
  {
    var s := e.operands;
    var x := Variable(v);
    if [x] + s == s + [x] {
      forall i | 0 <= i < |s|
        ensures s[i] == x
      {
        RotationFixedAt(s, x, i);
      }
    }
    if forall i :: 0 <= i < |s| ==> s[i] == x {
      assert forall k :: 0 <= k < |s| + 1 ==> ([x] + s)[k] == x == (s + [x])[k];
      assert [x] + s == s + [x];
    }
  }

  lemma {:induction false} RotationFixedAt(s: seq<SymbolicData>, x: SymbolicData, i: nat)
    requires [x] + s == s + [x]
    requires i < |s|
    ensures s[i] == x
    decreases i
  {
    if i == 0 {
      assert ([x] + s)[0] == (s + [x])[0];
    } else {
      RotationFixedAt(s, x, i - 1);
      assert ([x] + s)[i] == (s + [x])[i];
    }
  }

  /** A term of builder calls: how user code can make an equation from
      variables with `new_from_var` and the four `+` combinations. */
  datatype Build =
    | FromVar(v: SymbolicVariable)
    | VarPlusVar(a: SymbolicVariable, b: SymbolicVariable)
    | VarPlusEq(v: SymbolicVariable, rhs: Build)
    | EqPlusEq(lhs: Build, rhs: Build)
    | EqPlusVar(lhs: Build, v: SymbolicVariable)

  function Eval(b: Build): (e: SymbolicEquation)
  {
    match b
    case FromVar(v) => NewFromVar(v)
    case VarPlusVar(x, y) => AddVarVar(x, y)
    case VarPlusEq(v, r) => AddVarEq(v, Eval(r))
    case EqPlusEq(l, r) => AddEqEq(Eval(l), Eval(r))
    case EqPlusVar(l, v) => AddEqVar(Eval(l), v)
  }

  /** The variables of a builder term in the order they are written. */
  function Written(b: Build): (vs: seq<SymbolicVariable>)
  {
    match b
    case FromVar(v) => [v]
    case VarPlusVar(x, y) => [x, y]
    case VarPlusEq(v, r) => [v] + Written(r)
    case EqPlusEq(l, r) => Written(l) + Written(r)
    case EqPlusVar(l, v) => Written(l) + [v]
  }

  /** Whether a term ever adds a variable on the right of an equation. */
  predicate UsesEqPlusVar(b: Build)
  {
    match b
    case FromVar(_) => false
    case VarPlusVar(_, _) => false
    case VarPlusEq(_, r) => UsesEqPlusVar(r)
    case EqPlusEq(l, r) => UsesEqPlusVar(l) || UsesEqPlusVar(r)
    case EqPlusVar(_, _) => true
  }

  /** Whatever is built from variables with `new_from_var` and `+` is well
      formed: every sum has at least two operands, none of them a sum, and
      the tree holds exactly the variables written, each once; they keep the
      written order unless a variable was added on the right of an equation. */
  lemma {:induction false} BuiltIsWellFormed(b: Build)
    ensures WellFormed(Eval(b))
    ensures multiset(Leaves(Equation(Eval(b)))) == multiset(Written(b))
    ensures !UsesEqPlusVar(b) ==> Leaves(Equation(Eval(b))) == Written(b)
  {
    match b
    case FromVar(v) =>
      NewFromVarShape(v);
    case VarPlusVar(x, y) =>
      AddVarVarShape(x, y);
    case VarPlusEq(v, r) =>
      BuiltIsWellFormed(r);
      AddVarEqShape(v, Eval(r));
    case EqPlusEq(l, r) =>
      BuiltIsWellFormed(l);
      BuiltIsWellFormed(r);
      AddEqEqShape(Eval(l), Eval(r));
    case EqPlusVar(l, v) =>
      BuiltIsWellFormed(l);
      AddEqVarShape(Eval(l), v);
  }
}
