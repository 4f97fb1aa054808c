# deppy `input.Variable` in Dafny

deppy resolves interdependent choices by turning them into boolean
variables that carry typed constraints and handing those to a SAT-based
solver. Variable sources build the variables with the `input` package's
`Variable` container. A variable holds an identifier and an ordered list of
constraints. It is created by `NewVariable(id, constraints...)` and read
through `Identifier()` and `Constraints()`. While a source is still
assembling it, `AddConstraint(c)` appends to it in place through a pointer
receiver.

This project models that container in one module, `Input` (`input.dfy`):

- `Variable<Id, C>` is the value of a variable. `Id` and `C` are type
  parameters standing for `deppy.Identifier` and `deppy.Constraint`. Their
  implementations are outside this model, so nothing about them is assumed.
  The Go constraint slice becomes a `seq<C>`.
- `Identifier`, `Constraints`, `AddConstraint` and `AddConstraints` are pure
  functions on that value. `AddConstraints` appends a whole sequence one
  constraint at a time, the way a variable source does in a loop.
- `VariableRef` is the `*Variable` pointer. Its methods read or replace the
  referenced state in place, and each is defined through the pure function.

Proved properties:

- The constructor followed by either getter returns exactly what was passed in.
- `AddConstraint` keeps the identifier and every earlier constraint at its
  index. It adds exactly one constraint, at the end.
- Starting without constraints and appending `c1 … cn` gives the same
  variable as `NewVariable(id, c1, …, cn)`. This holds both for the
  recursive `AddConstraints` and for `Assemble`, which loops over a
  `VariableRef` as a variable source does.
- Two variables built by the constructor are equal exactly when their
  identifiers and constraint sequences are equal.

## Model

| member | source | states |
|---|---|---|
| `Input.Variable.Identifier` | pkg/deppy/input/variable_source.go:20-22 | the value getter for the identifier; its round trip with the constructor is stated by `Input.NewVariable` |
| `Input.Variable.Constraints` | pkg/deppy/input/variable_source.go:24-26 | the value getter for the constraints; its round trip with the constructor is stated by `Input.NewVariable` |
| `Input.NewVariable` | pkg/deppy/input/variable_source.go:32-37 | the new variable's `Identifier()` is exactly the given id and its `Constraints()` are exactly the given constraints, in order |
| `Input.NewVariableWithoutConstraints` | pkg/deppy/input/variable_source.go:32-37 | a variable built with no constraints reports an empty constraint sequence (Go's nil slice) |
| `Input.NewVariableEquality` | pkg/deppy/solver/solver_test.go:87-90 | two constructed variables are equal if and only if their ids and constraint sequences are equal, which is how selected variables are compared with freshly built ones |
| `Input.Variable.AddConstraint` | pkg/deppy/input/variable_source.go:28-30 | appending keeps the identifier, grows the constraints by exactly one, keeps each earlier constraint at its index and puts the new one last |
| `Input.AddConstraintDetermined` | pkg/deppy/input/variable_source.go:28-30 | any variable meeting the four facts of `AddConstraint`'s contract (same id, one more constraint, earlier constraints in place, `c` last) is the variable with the same id and constraints `old + [c]`, so that contract fixes the append completely |
| `Input.Variable.AddConstraints` | pkg/deppy/input/variable_source.go:28-30 | a helper standing for one `AddConstraint` call per element of `cs`, in order; it keeps the id and adds exactly as many constraints as `cs` has |
| `Input.AddConstraintsAppends` | pkg/deppy/input/variable_source.go:28-30 | appending a sequence one constraint at a time concatenates it after the existing constraints and keeps the id |
| `Input.AddConstraintsThenOne` | pkg/deppy/input/variable_source.go:28-30 | appending `cs` and then `c` is the same as appending `cs + [c]` |
| `Input.IncrementalEqualsVariadic` | pkg/deppy/input/variable_source.go:28-37 | `NewVariable(id)` followed by `AddConstraint(c1) … AddConstraint(cn)` equals `NewVariable(id, c1, …, cn)` |
| `Input.Assemble` | pkg/deppy/input/variable_source.go:28-37 | building through the pointer, `NewVariable(id)` and then `AddConstraint` once per constraint in a loop, returns a newly allocated reference, distinct from every existing variable, holding exactly `NewVariable(id, cs)` |
| `Input.VariableRef.constructor` | pkg/deppy/input/variable_source.go:32-37 | the fresh reference's state is `NewVariable(id, cs)`, as `NewVariable` returns `&Variable{...}` |
| `Input.VariableRef.Identifier` | pkg/deppy/input/variable_source.go:20-22 | the getter returns the identifier of the referenced variable |
| `Input.VariableRef.Constraints` | pkg/deppy/input/variable_source.go:24-26 | the getter returns the referenced variable's constraints |
| `Input.VariableRef.AddConstraint` | pkg/deppy/input/variable_source.go:28-30 | the in-place append through the pointer replaces the referenced state by its appended value and leaves the identifier unchanged |

## Left out

- Go's nil slice and empty slice are both modelled as `[]`. `reflect.DeepEqual`, which the tests' `Equal` matcher uses, tells them apart. So `NewVariable(id)` and `NewVariable(id, []deppy.Constraint{}...)` are equal here but not under that matcher.
- Slice aliasing is not modelled, and sequences here are values. Go passes a slice given as `cs...` to `NewVariable` without copying it, whatever its capacity (pkg/deppy/input/variable_source.go:35). So a caller that later writes `cs[i]` changes what `Constraints()` returns. `Constraints()` hands out the same underlying slice, so writes through it show up in the variable too. The slice's spare capacity decides whether the `append` at line 29 writes into that shared array. If two variables were built from one slice with spare capacity, an `AddConstraint` on one can change the constraints of the other. In the model `VariableRef.AddConstraint` only modifies its own reference, so appending to one variable never changes another.
- A nil `*Variable` is not modelled. In Go, `Identifier`, `Constraints` and `AddConstraint` called on a nil pointer panic (pkg/deppy/input/variable_source.go:21,25,29). `VariableRef` is a non-null reference type, so that case cannot arise in the model.
- `VariableSource.GetVariables` (pkg/deppy/input/variable_source.go:9-11) is the I/O and cancellation boundary through `context.Context`. It only declares an interface.
- The constraint kinds (Mandatory, Prohibited, Dependency, Conflict, AtMost, Or), their clause compilation and their rendered explanations are not part of this model. Their implementation is in packages outside this model, so `C` is left opaque.
- The SAT search, the minimisation of the selection and the `deppy/solver` orchestrator are not part of this model. Building a `Solution` and separating peripheral errors from resolution errors also happen there. They lie outside the container modelled here; the solver tests exercise them only through their outcomes.
- The `v2` package's `Solve` only forwards errors from `GetVariables` and from `sat.NewSolver`, then delegates to the `sat` package, which is not part of this model. Its `api.go` holds only type and interface declarations.
- The OLM constraint generators and the entity querier mocks belong to the domain adapter. Their source is not part of this model.
