/** The mixed-integer linear program the optimizer hands to its solver: variables,
    a cost objective to minimise, and linear constraints. A solution is any assignment
    of values to the variables; what the solver does to find one is not modelled. */
module Milp {
  import opened Tables
  import opened PyDict

  /** The two variables of an offer: the order quantity `x` (continuous, lower bound 0)
      and the activation flag `y` (binary). */
  datatype Kind = Quantity | Activation

  /** A decision variable, identified by its kind and the offer's key. */
  datatype Var = Var(kind: Kind, key: Key)

  /** `coef * v` */
  datatype Term = Term(coef: real, v: Var)

  datatype Relation = AtLeast | AtMost

  /** `sum(terms) >= rhs` or `sum(terms) <= rhs`. A constraint written with variables on
      both sides, such as `x >= moq * y`, is kept in this form as `x - moq * y >= 0`. */
  datatype Constraint = Constraint(terms: seq<Term>, rel: Relation, rhs: real)

  /** The variable maps `x` and `y` (both keyed by offer), the objective terms and the
      constraints, in the order they were added. */
  datatype Model = Model(
    x: Dict<Key, Var>,
    y: Dict<Key, Var>,
    objective: seq<Term>,
    constraints: seq<Constraint>)

  /** The values the solver reports: one value for every variable. */
  type Assignment = Var -> real

  /** The value of a sum of terms under an assignment. */
  function Value(ts: seq<Term>, a: Assignment): real {
    if ts == [] then 0.0 else Value(ts[..|ts| - 1], a) + ts[|ts| - 1].coef * a(ts[|ts| - 1].v)
  }

  /** The value of a concatenation is the sum of the values of its parts. */
  lemma {:induction false} ValueConcat(s: seq<Term>, t: seq<Term>, a: Assignment)
    ensures Value(s + t, a) == Value(s, a) + Value(t, a)
  {
    if t == [] {
      assert s + t == s;
    } else {
      var init := t[..|t| - 1];
      assert (s + t)[..|s + t| - 1] == s + init;
      ValueConcat(s, init, a);
    }
  }

  predicate Holds(c: Constraint, a: Assignment) {
    match c.rel
    case AtLeast => Value(c.terms, a) >= c.rhs
    case AtMost => Value(c.terms, a) <= c.rhs
  }

  /** The declared domain of a variable: `lowBound=0` for `x`, `cat="Binary"` for `y`. */
  predicate InDomain(v: Var, a: Assignment) {
    match v.kind
    case Quantity => a(v) >= 0.0
    case Activation => a(v) == 0.0 || a(v) == 1.0
  }

  /** A feasible point of the model: every declared variable lies in its domain and
      every constraint holds. */
  ghost predicate Satisfies(m: Model, a: Assignment) {
    && (forall k | k in m.x.entries :: InDomain(m.x.entries[k], a))
    && (forall k | k in m.y.entries :: InDomain(m.y.entries[k], a))
    && (forall i | 0 <= i < |m.constraints| :: Holds(m.constraints[i], a))
  }
}
