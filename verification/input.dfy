/** The `Variable` container of deppy's `input` package: an identifier together
    with the ordered list of constraints that a variable source attached to it.

    The identifier and constraint types are opaque here: `Id` stands for
    `deppy.Identifier` and `C` for `deppy.Constraint`, whose implementations
    are not part of this model. Go's `[]deppy.Constraint` becomes `seq<C>`,
    with the nil slice of a constraint-free variable written `[]`.
 */
module Input {

  /** The state of one variable, as a value. Two variables are equal exactly
      when their identifiers and constraint sequences are equal, which is how
      the solver tests compare selected variables with freshly built ones. */
  datatype Variable<Id, C> = Variable(id: Id, constraints: seq<C>) {

    /** The identifier the variable was built with. */
    function Identifier(): (r: Id) {
      id
    }

    /** The constraints, in the order they were supplied or appended. */
    function Constraints(): (r: seq<C>) {
      constraints
    }

    /** The variable after appending one constraint: the identifier is kept,
        every earlier constraint stays at its index, and `c` is the new last one. */
    function AddConstraint(c: C): (w: Variable<Id, C>)
      ensures w.Identifier() == Identifier()
      ensures |w.Constraints()| == |Constraints()| + 1
      ensures forall i :: 0 <= i < |Constraints()| ==> w.Constraints()[i] == Constraints()[i]
      ensures w.Constraints()[|Constraints()|] == c
    {
      this.(constraints := constraints + [c])
    }

    /** The variable after appending `cs` one constraint at a time, first to
        last: `|cs|` successive `AddConstraint` calls. Each call keeps the
        identifier and adds one constraint. */
    function AddConstraints(cs: seq<C>): (r: Variable<Id, C>)
      ensures r.Identifier() == Identifier()
      ensures |r.Constraints()| == |Constraints()| + |cs|
      decreases |cs|
    {
      if cs == [] then this else AddConstraint(cs[0]).AddConstraints(cs[1..])
    }
  }

  /** A new variable with identifier `id` and the constraints `cs`, in the order given. */
  function NewVariable<Id, C>(id: Id, cs: seq<C>): (v: Variable<Id, C>)
    ensures v.Identifier() == id
    ensures v.Constraints() == cs
  {
    Variable(id, cs)
  }

  /** Building two variables gives equal values exactly when the identifiers
      and the constraint sequences are equal. */
  lemma NewVariableEquality<Id, C>(a: Id, xs: seq<C>, b: Id, ys: seq<C>)
    ensures NewVariable(a, xs) == NewVariable(b, ys) <==> a == b && xs == ys
  {
  }

  /** A variable built without constraints has none. */
  lemma NewVariableWithoutConstraints<Id, C>(id: Id)
    ensures NewVariable<Id, C>(id, []).Constraints() == []
  {
  }

  /** The contract of `AddConstraint` fixes its result completely: any
      variable with the same identifier, one more constraint, the earlier
      constraints at their indices and `c` last is the appended variable. */
  lemma AddConstraintDetermined<Id, C>(v: Variable<Id, C>, c: C, w: Variable<Id, C>)
    requires w.Identifier() == v.Identifier()
    requires |w.Constraints()| == |v.Constraints()| + 1
    requires forall i :: 0 <= i < |v.Constraints()| ==> w.Constraints()[i] == v.Constraints()[i]
    requires w.Constraints()[|v.Constraints()|] == c
    ensures w == Variable(v.Identifier(), v.Constraints() + [c])
    ensures w == v.AddConstraint(c)
  {
    assert w.Constraints() == v.Constraints() + [c];
  }

  /** Appending a sequence of constraints one by one concatenates it to the
      constraints already there and keeps the identifier. */
  lemma {:induction false} AddConstraintsAppends<Id, C>(v: Variable<Id, C>, cs: seq<C>)
    ensures v.AddConstraints(cs) == Variable(v.Identifier(), v.Constraints() + cs)
    decreases |cs|
  {
    if cs != [] {
      AddConstraintsAppends(v.AddConstraint(cs[0]), cs[1..]);
      assert v.Constraints() + [cs[0]] + cs[1..] == v.Constraints() + cs;
    }
  }

  /** Appending `cs` and then `c` is the same as appending `cs + [c]`. */
  lemma {:induction false} AddConstraintsThenOne<Id, C>(v: Variable<Id, C>, cs: seq<C>, c: C)
    ensures v.AddConstraints(cs + [c]) == v.AddConstraints(cs).AddConstraint(c)
  {
    AddConstraintsAppends(v, cs + [c]);
    AddConstraintsAppends(v, cs);
    assert v.Constraints() + (cs + [c]) == (v.Constraints() + cs) + [c];
  }

  /** Starting from a constraint-free variable and appending `cs` one by one
      yields the same variable as passing `cs` to the constructor. */
  lemma {:induction false} IncrementalEqualsVariadic<Id, C>(id: Id, cs: seq<C>)
    ensures NewVariable(id, []).AddConstraints(cs) == NewVariable(id, cs)
  {
    AddConstraintsAppends(NewVariable(id, []), cs);
    assert [] + cs == cs;
  }

  /** A `*Variable` as the Go code hands it around: a reference whose
      methods read or replace the variable's state in place. */
  class VariableRef<Id, C> {
    var state: Variable<Id, C>

    /** `NewVariable` returns a pointer to a freshly built variable. */
    constructor(id: Id, cs: seq<C>)
      ensures state == NewVariable(id, cs)
    {
      state := NewVariable(id, cs);
    }

    method Identifier() returns (id: Id)
      ensures id == state.Identifier()
    {
      id := state.Identifier();
    }

    method Constraints() returns (cs: seq<C>)
      ensures cs == state.Constraints()
    {
      cs := state.Constraints();
    }

    /** The pointer-receiver append: only the constraints change. */
    method AddConstraint(c: C)
      modifies this
      ensures state == old(state).AddConstraint(c)
      ensures state.Identifier() == old(state.Identifier())
    {
      state := state.AddConstraint(c);
    }
  }

  /** The way a variable source assembles a variable through the pointer:
      `NewVariable(id)`, then one `AddConstraint` per constraint. The result
      is a new reference, shared with no existing variable, holding the
      variable `NewVariable(id, cs...)` would have built. */
  method Assemble<Id, C>(id: Id, cs: seq<C>) returns (r: VariableRef<Id, C>)
    ensures fresh(r)
    ensures r.state == NewVariable(id, cs)
  {
    r := new VariableRef(id, []);
    var i := 0;
    while i < |cs|
      invariant 0 <= i <= |cs|
      invariant r.state == NewVariable(id, []).AddConstraints(cs[..i])
    {
      r.AddConstraint(cs[i]);
      AddConstraintsThenOne(NewVariable(id, []), cs[..i], cs[i]);
      assert cs[..i + 1] == cs[..i] + [cs[i]];
      i := i + 1;
    }
    assert cs[..i] == cs;
    IncrementalEqualsVariadic(id, cs);
  }
}
