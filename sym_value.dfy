/** The symbolic data of src/sym/value.rs: a tree whose nodes are equations
    (an operation tag over a list of operands) and whose leaves are named
    variables, with the four `+` combinations that build it.

    The element type `T` of the source is a phantom: it is never stored and
    only its byte size is ever observed, when a variable is printed (module
    SymDisplay). It is therefore not a type parameter here.

    `SymbolicVariable::new(name)` and `SymbolicEquation::new(op, operands)`
    only fill in their fields; they are the datatype constructors
    `SymbolicVariable(name)` and `SymbolicEquation(op, operands)`. */
module SymValue {

  /** The tag of an equation: a variable wrapped as an equation, or a sum. */
  datatype Operation = VAR | ADD

  /** A named unknown. */
  datatype SymbolicVariable = SymbolicVariable(name: string)

  /** An operation over an ordered, unbounded list of operands. */
  datatype SymbolicEquation = SymbolicEquation(op: Operation, operands: seq<SymbolicData>)

  /** A node of the tree: either an equation or a variable. */
  datatype SymbolicData =
    | Equation(equation: SymbolicEquation)
    | Variable(variable: SymbolicVariable)

  /** `SymbolicEquation::new_from_var`: a variable seen as a one-operand VAR equation. */
  function NewFromVar(v: SymbolicVariable): (r: SymbolicEquation)
    ensures r.op == VAR
    ensures |r.operands| == 1 && r.operands[0] == Variable(v)
  {
    SymbolicEquation(VAR, [Variable(v)])
  }

  /** `Variable + Variable`: a sum of the two variables, each wrapped as a VAR equation. */
  function AddVarVar(lhs: SymbolicVariable, rhs: SymbolicVariable): (r: SymbolicEquation)
    ensures r.op == ADD && |r.operands| == 2
    ensures r.operands[0] == Equation(NewFromVar(lhs))
    ensures r.operands[1] == Equation(NewFromVar(rhs))
  {
    SymbolicEquation(ADD, [Equation(NewFromVar(lhs)), Equation(NewFromVar(rhs))])
  }

  /** `Variable + Equation`: the variable, then the equation's operands; the
      equation's own tag is not kept. */
  function AddVarEq(lhs: SymbolicVariable, rhs: SymbolicEquation): (r: SymbolicEquation)
    ensures r.op == ADD
    ensures |r.operands| == 1 + |rhs.operands|
    ensures r.operands[0] == Variable(lhs)
    ensures forall i :: 0 <= i < |rhs.operands| ==> r.operands[1 + i] == rhs.operands[i]
  {
    SymbolicEquation(ADD, [Variable(lhs)] + rhs.operands)
  }

  /** `Equation + Equation`: the operands of both, left ones first; both tags
      are dropped, so sums are flattened rather than nested. */
  function AddEqEq(lhs: SymbolicEquation, rhs: SymbolicEquation): (r: SymbolicEquation)
    ensures r.op == ADD
    ensures |r.operands| == |lhs.operands| + |rhs.operands|
    ensures r.operands[..|lhs.operands|] == lhs.operands
    ensures r.operands[|lhs.operands|..] == rhs.operands
  {
    SymbolicEquation(ADD, lhs.operands + rhs.operands)
  }

  /** `Equation + Variable` is defined as `Variable + Equation`: the variable
      comes first although it was written on the right. */
  function AddEqVar(lhs: SymbolicEquation, rhs: SymbolicVariable): (r: SymbolicEquation)
    ensures r.op == ADD
    ensures |r.operands| == 1 + |lhs.operands|
    ensures r.operands[0] == Variable(rhs)
    ensures r.operands[1..] == lhs.operands
  {
    AddVarEq(rhs, lhs)
  }

  /** `Vec::extend`: appends the items to the buffer one at a time, in order. */
  method Extend(buffer: seq<SymbolicData>, items: seq<SymbolicData>) returns (grown: seq<SymbolicData>)
    ensures grown == buffer + items
  {
    grown := buffer;
    var i := 0;
    while i < |items|
      invariant 0 <= i <= |items|
      invariant grown == buffer + items[..i]
    {
      grown := grown + [items[i]];
      i := i + 1;
    }
    assert items[..i] == items;
  }

  /** `Variable + Equation` as the source runs it: a new operand list holding
      the variable, extended with the equation's operands. */
  method BuildAddVarEq(lhs: SymbolicVariable, rhs: SymbolicEquation) returns (r: SymbolicEquation)
    ensures r == AddVarEq(lhs, rhs)
  {
    var newOperands := [Variable(lhs)];
    newOperands := Extend(newOperands, rhs.operands);
    r := SymbolicEquation(ADD, newOperands);
  }

  /** `Equation + Equation` as the source runs it: an empty operand list
      extended with the left operands, then with the right ones. */
  method BuildAddEqEq(lhs: SymbolicEquation, rhs: SymbolicEquation) returns (r: SymbolicEquation)
    ensures r == AddEqEq(lhs, rhs)
  {
    var newOperands: seq<SymbolicData> := [];
    newOperands := Extend(newOperands, lhs.operands);
    newOperands := Extend(newOperands, rhs.operands);
    r := SymbolicEquation(ADD, newOperands);
  }

  /** `Equation + Variable` as the source runs it: by delegating to `Variable + Equation`. */
  method BuildAddEqVar(lhs: SymbolicEquation, rhs: SymbolicVariable) returns (r: SymbolicEquation)
    ensures r == AddEqVar(lhs, rhs)
  {
    r := BuildAddVarEq(rhs, lhs);
  }
}
