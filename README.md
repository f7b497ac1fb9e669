# Symbolic values of rsym, in Dafny

This project models the symbolic-value core of rsym (`src/sym/value.rs`). The core is a tree of
`SymbolicData`. Each node is either an `Equation` or a `Variable`. An equation is an
`Operation` tag (`VAR` or `ADD`) over a list of operands. Four `+` combinations build sums, and
three `Display` impls print a tree as prefix text. The project proves what the combinations build
and what the printer shows.

Modules:

- `SymValue` (`sym_value.dfy`) holds the datatypes, `new_from_var` and the four `+` combinations.
  Each combination is a pure function that states the operand layout.
  `Variable + Equation` and `Equation + Equation` grow a mutable `Vec` with `extend`. They are also
  methods (`BuildAddVarEq`, `BuildAddEqEq`) that do the same through a loop. Each method is proved
  equal to its function.
  `SymbolicVariable::new` and `SymbolicEquation::new` only fill in fields, so they are the datatype
  constructors `SymbolicVariable(name)` and `SymbolicEquation(op, operands)`.
- `SymShape` (`sym_shape.dfy`) describes the trees that can be built: which variables they hold and
  in what order. It proves that every sum has at least two operands and that no sum nests inside
  another. `Build` is a term of builder calls, and `BuiltIsWellFormed` covers every such term.
- `SymDisplay` (`sym_display.dfy`) is the printer as written. `sizeT` stands for
  `std::mem::size_of::<T>()`, the byte size of the phantom element type `T`. A render is `None`
  where the source would panic on an operand index out of range.
- `Decimal` (`decimal.dfy`) prints `sizeT` in decimal, the way `{}` prints a `usize`. A round trip
  proves that the printed size can be read back.
- `SymDisplayFull` (`sym_display_full.dfy`) is a printer that shows every operand of a sum.
  It is compared with the printer as written (see Findings). Both are described by their exact printed text.

The design description of this system disagrees with the code in several places. The model
follows the code in each:

- The design has a `Concrete` variant with constant folding and seven operators. The code has
  only `Variable`, `Equation` and the tags `VAR` and `ADD`.
- The design describes strictly binary equations. The code keeps operands in a `Vec`, and adding
  two equations flattens their operand lists.
- The design keeps operand order. The code puts the variable first in `Equation + Variable`.
- The design prints a variable's width in bits. The code prints `size_of::<T>()`, a byte count.

## Model

| member | source | states |
|---|---|---|
| `SymValue.NewFromVar` | src/sym/value.rs:35-39 | the result has tag VAR and exactly one operand, `Variable(v)` |
| `SymValue.AddVarVar` | src/sym/value.rs:66-75 | the result is a sum with exactly two operands: the VAR equation of the left variable, then the VAR equation of the right one |
| `SymValue.AddVarEq` | src/sym/value.rs:77-85 | the result is a sum whose first operand is the variable and whose remaining operands are the equation's, in order; it has 1 + n operands; the equation's tag is dropped |
| `SymValue.AddEqEq` | src/sym/value.rs:88-97 | the result is a sum whose operands are the left equation's followed by the right equation's, both in order; both tags are dropped |
| `SymValue.AddEqVar` | src/sym/value.rs:99-105 | the result is a sum with the variable first, then the equation's operands, even though the variable was on the right |
| `SymValue.Extend` | src/sym/value.rs:92-94 | extending a buffer with items, one at a time, leaves the buffer followed by all the items in order |
| `SymValue.BuildAddVarEq` | src/sym/value.rs:80-84 | growing `[Variable(lhs)]` by the equation's operands gives exactly `AddVarEq` |
| `SymValue.BuildAddEqEq` | src/sym/value.rs:91-96 | growing an empty list by both operand lists gives exactly `AddEqEq` |
| `SymValue.BuildAddEqVar` | src/sym/value.rs:102-105 | delegating to `Variable + Equation` gives exactly `AddEqVar` |
| `Decimal.NatToDecimal` | src/sym/value.rs:53 | the printed size is non-empty, all decimal digits, and has no leading zero unless it is "0" |
| `Decimal.DecimalRoundTrip` | src/sym/value.rs:53 | reading the printed size back gives the size |
| `Decimal.DecimalInjective` | src/sym/value.rs:53 | different sizes print differently |
| `SymShape.NewFromVarShape` | src/sym/value.rs:35-39 | `new_from_var` gives a well-formed equation that holds exactly its variable |
| `SymShape.AddVarVarShape` | src/sym/value.rs:69-74 | `Variable + Variable` is well formed and holds exactly the two variables, left first |
| `SymShape.AddVarEqShape` | src/sym/value.rs:80-84 | `Variable + Equation` keeps well-formedness and holds the variable, then the equation's variables |
| `SymShape.AddEqEqShape` | src/sym/value.rs:91-96 | `Equation + Equation` keeps well-formedness and holds the left equation's variables, then the right's |
| `SymShape.AddEqVarShape` | src/sym/value.rs:102-105 | `Equation + Variable` keeps well-formedness and holds the variable first, then the equation's variables |
| `SymShape.SumOperandsAreVariables` | src/sym/value.rs:69-96 | a built sum has at least two operands and exactly one variable per operand, so sums never nest |
| `SymShape.AddEqEqAssociative` | src/sym/value.rs:91-96 | because of flattening, `(a + b) + c` and `a + (b + c)` build the same equation |
| `SymShape.AddEqVarOrder` | src/sym/value.rs:99-105 | `e + v` equals `e + new_from_var(v)` if and only if every operand of `e` is `v` itself: adding a variable on the right of an equation puts it first, while adding `new_from_var(v)` on the right keeps written order |
| `SymShape.BuiltIsWellFormed` | src/sym/value.rs:35-105 | anything built from variables with `new_from_var` and `+` is well formed; every sum has at least two operands; it holds the written variables with the same multiplicities; they stay in written order unless a variable is added on the right of an equation |
| `SymDisplay.RenderVariableReadable` | src/sym/value.rs:51-55 | a variable prints as `<`, its name, `:`, the decimal byte size and `>`; the name and the size can be read back |
| `SymDisplay.RenderNewFromVar` | src/sym/value.rs:57-63 | a VAR equation prints exactly as its variable |
| `SymDisplay.RenderAddVarVar` | src/sym/value.rs:57-74 | `a + b` prints as `(ADD <a:n> <b:n>)` |
| `SymDisplay.ShortEquationPanics` | src/sym/value.rs:59-62 | a VAR equation without operands, or a sum with fewer than two, makes the printer panic |
| `SymDisplay.RenderLeafOperand` | src/sym/value.rs:42-63 | an operand of a built sum, either a variable or a VAR equation, holds one variable and prints as it |
| `SymDisplay.RenderWellFormed` | src/sym/value.rs:57-63 | a well-formed equation never makes the printer panic |
| `SymDisplay.RenderIgnoresExtraOperands` | src/sym/value.rs:61 | a sum prints the same whatever operands follow its second one |
| `SymDisplay.RenderDropsThirdVariable` | src/sym/value.rs:57-105 | `(x + y) + z` holds `[z, x, y]` but prints as `(ADD <z:n> <x:n>)` |
| `SymDisplay.RenderOneByteSum` | src/sym/value.rs:51-74 | with a one-byte `T`, `x + y` prints as `(ADD <x:1> <y:1>)` |
| `SymDisplayFull.WrittenRenderShowsTwoVariables` | src/sym/value.rs:61 | any built sum holds at least two variables, and the printer as written prints it as `(ADD <first:n> <second:n>)`: exactly its first two variables, whatever the names |
| `SymDisplayFull.FullRenderShowsEveryVariable` | src/sym/value.rs:57-63 | the corrected printer prints a built VAR equation as its single variable, and a built sum as `(ADD` followed by every one of its variables in order, each after a space, then `)`, whatever the names |
| `SymDisplayFull.FullAgreesOnBinary` | src/sym/value.rs:57-63 | on trees whose sums all have exactly two operands, the corrected printer and the printer as written agree |
| `SymDisplayFull.FullRenderThreeVariables` | src/sym/value.rs:61 | the corrected printer shows `(x + y) + z` as `(ADD <z:n> <x:n> <y:n>)` |

## Left out

- `src/z3/z3.rs`: an unsafe wrapper over the Z3 library. It creates a configuration, a context and a solver, reads a file, and maps Z3's verdict to SAT, UNSAT or UNDEF. All of its behaviour is in foreign code.
- `src/main.rs`: a driver that prints one value. It calls `get_concrete`, `get_symbolic`, `^` and `*`, and none of these exist in `src/sym/value.rs`. So concrete values, constant folding, XOR and MUL are not modelled.
- The `MathOperators` trait and its blanket impl: these are compile-time bounds only. `T` is never inspected at run time, so it is not a type parameter of the model. Its byte size is the parameter `sizeT`.
- `std::fmt::Formatter`: the model renders to a string directly. The formatter's error result is not modelled, because writing to a string never fails.
- Panics: a panic from out-of-range operand indexing is modelled as `None`. The unwinding itself is not modelled.
- Ownership and moves: the model does not show that `+` consumes its operands. Values in the model are immutable, and no value is shared or mutated.
- `Vec` capacity and reallocation in `extend`: only the resulting contents are modelled.

## Findings

| source | as written | input that shows it | evidently intended | confidence | as-written member | corrected member |
|---|---|---|---|---|---|---|
| src/sym/value.rs:61 | a sum prints only `operands[0]` and `operands[1]`, but `+` flattens sums, so a sum can hold any number of operands | `(x + y) + z` holds `[z, x, y]` and prints `(ADD <z:n> <x:n>)`, so `y` is missing | every operand of a sum is printed: `(ADD <z:n> <x:n> <y:n>)` | medium; not executed | `SymDisplay.RenderDropsThirdVariable` | `SymDisplayFull.FullRenderShowsEveryVariable` |
