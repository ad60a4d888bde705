/** `build_model`: the variables, the cost objective, one demand constraint per
    component of the demand map and the two MOQ / Big-M constraints per offer. */
module Formulation {
  import opened Tables
  import opened PyDict
  import opened Milp

  /** `BigM = 10000`: the upper bound on any single offer's quantity. */
  const BigM: real := 10000.0

  /** The offer keys of the rows, in row order, repeats included. */
  function OfferKeys(offers: seq<SupplierRow>): (ks: seq<Key>)
    ensures |ks| == |offers|
    ensures forall i :: 0 <= i < |offers| ==> ks[i] == offers[i].OfferKey()
  {
    seq(|offers|, i requires 0 <= i < |offers| => offers[i].OfferKey())
  }

  /** The assignments `x[key] = ...` (or `y[key] = ...`) of the first loop, in order. */
  function KeyedVars(offers: seq<SupplierRow>, kind: Kind): (ps: seq<(Key, Var)>)
    ensures |ps| == |offers|
    ensures forall i :: 0 <= i < |offers| ==>
              ps[i].0 == offers[i].OfferKey() && ps[i].1 == Var(kind, offers[i].OfferKey())
  {
    seq(|offers|, i requires 0 <= i < |offers| => (offers[i].OfferKey(), Var(kind, offers[i].OfferKey())))
  }

  /** The variable map `x` (kind `Quantity`) or `y` (kind `Activation`). */
  function VarDict(offers: seq<SupplierRow>, kind: Kind): (d: Dict<Key, Var>)
    ensures d.Valid()
  {
    FromPairs(KeyedVars(offers, kind))
  }

  /** Every row's key maps to that row's variable of the given kind. */
  ghost predicate Declares(d: Dict<Key, Var>, offers: seq<SupplierRow>, kind: Kind) {
    forall i | 0 <= i < |offers| ::
      offers[i].OfferKey() in d.entries && d.entries[offers[i].OfferKey()] == Var(kind, offers[i].OfferKey())
  }

  /** The variable map has a key for every feasible row and no other, and maps each key
      to that offer's variable of its kind. */
  lemma VarDictFacts(offers: seq<SupplierRow>, kind: Kind)
    ensures Declares(VarDict(offers, kind), offers, kind)
    ensures forall k | k in VarDict(offers, kind).entries ::
              exists i :: 0 <= i < |offers| && offers[i].OfferKey() == k
    ensures forall k | k in VarDict(offers, kind).entries :: VarDict(offers, kind).entries[k] == Var(kind, k)
  {
    var ps := KeyedVars(offers, kind);
    var d := VarDict(offers, kind);
    assert d.entries.Keys == KeySet(ps);
    forall i | 0 <= i < |offers| ensures offers[i].OfferKey() in d.entries {
      assert ps[i].0 == offers[i].OfferKey();
    }
    forall k | k in d.entries
      ensures (exists i :: 0 <= i < |offers| && offers[i].OfferKey() == k) && d.entries[k] == Var(kind, k)
    {
      VarDictEntry(offers, kind, k);
    }
  }

  lemma VarDictEntry(offers: seq<SupplierRow>, kind: Kind, k: Key)
    requires k in VarDict(offers, kind).entries
    ensures exists i :: 0 <= i < |offers| && offers[i].OfferKey() == k
    ensures VarDict(offers, kind).entries[k] == Var(kind, k)
  {
    var ps := KeyedVars(offers, kind);
    FromPairsValueOrigin(ps, k);
    var i := LastIndex(ps, k);
    assert ps[i].0 == offers[i].OfferKey() && ps[i].1 == Var(kind, offers[i].OfferKey());
  }

  /** When no two rows share a key, the variable map lists one key per row, in row order. */
  lemma VarDictKeysInRowOrder(offers: seq<SupplierRow>, kind: Kind)
    requires forall i, j :: 0 <= i < j < |offers| ==> offers[i].OfferKey() != offers[j].OfferKey()
    ensures VarDict(offers, kind).keys == OfferKeys(offers)
  {
    var ps := KeyedVars(offers, kind);
    FromDistinctPairsKeys(ps);
    assert KeysOf(ps) == OfferKeys(offers);
  }

  /** The objective `lpSum(row.unit_cost * x[key] for each row)`. */
  function Objective(offers: seq<SupplierRow>): (obj: seq<Term>)
    // one term per feasible row, on that row's quantity, weighted by its unit cost
    ensures |obj| == |offers|
    ensures forall i :: 0 <= i < |offers| ==>
              obj[i].coef == offers[i].unitCost && obj[i].v == Var(Quantity, offers[i].OfferKey())
  {
    seq(|offers|, i requires 0 <= i < |offers| => Term(offers[i].unitCost, Var(Quantity, offers[i].OfferKey())))
  }

  /** The procurement cost of an assignment: every row's unit cost times the quantity
      ordered under that row's key. */
  function TotalCost(offers: seq<SupplierRow>, a: Assignment): real {
    if offers == [] then 0.0
    else
      var o := offers[|offers| - 1];
      TotalCost(offers[..|offers| - 1], a) + o.unitCost * a(Var(Quantity, o.OfferKey()))
  }

  lemma {:induction false} ObjectiveIsTotalCost(offers: seq<SupplierRow>, a: Assignment)
    ensures Value(Objective(offers), a) == TotalCost(offers, a)
  {
    if offers != [] {
      var init := offers[..|offers| - 1];
      ObjectiveIsTotalCost(init, a);
      assert Objective(offers)[..|offers| - 1] == Objective(init);
    }
  }

  /** The quantity of component `c` ordered under an assignment, summed over the rows
      that offer `c`. */
  function Supply(offers: seq<SupplierRow>, c: string, a: Assignment): real {
    if offers == [] then 0.0
    else
      var o := offers[|offers| - 1];
      Supply(offers[..|offers| - 1], c, a) + (if o.component == c then a(Var(Quantity, o.OfferKey())) else 0.0)
  }

  /** `lpSum(x[key] for each row if row.component == comp)` */
  function DemandTerms(offers: seq<SupplierRow>, c: string): (ts: seq<Term>)
    ensures |ts| <= |offers|
  {
    if offers == [] then []
    else
      var o := offers[|offers| - 1];
      DemandTerms(offers[..|offers| - 1], c) + (if o.component == c then [Term(1.0, Var(Quantity, o.OfferKey()))] else [])
  }

  /** The sum of a demand constraint ranges over the quantity variables of exactly the
      rows that offer the component, each with coefficient 1. */
  lemma {:induction false} DemandTermsShape(offers: seq<SupplierRow>, c: string)
    // only quantities of rows that offer c, each with coefficient 1 ...
    ensures forall t | t in DemandTerms(offers, c) :: t.coef == 1.0 && t.v.kind == Quantity && t.v.key.component == c
    ensures forall t | t in DemandTerms(offers, c) ::
              exists i :: 0 <= i < |offers| && offers[i].OfferKey() == t.v.key
    // ... and the quantity of every such row
    ensures forall i | 0 <= i < |offers| && offers[i].component == c ::
              Term(1.0, Var(Quantity, offers[i].OfferKey())) in DemandTerms(offers, c)
    // a component nobody offers gets the empty sum
    ensures (forall i | 0 <= i < |offers| :: offers[i].component != c) ==> DemandTerms(offers, c) == []
  {
    if offers != [] {
      var init := offers[..|offers| - 1];
      DemandTermsShape(init, c);
      assert forall i | 0 <= i < |init| :: init[i] == offers[i];
    }
  }

  lemma {:induction false} DemandTermsValue(offers: seq<SupplierRow>, c: string, a: Assignment)
    ensures Value(DemandTerms(offers, c), a) == Supply(offers, c, a)
  {
    if offers != [] {
      var init := offers[..|offers| - 1];
      var o := offers[|offers| - 1];
      DemandTermsValue(init, c, a);
      var tail := if o.component == c then [Term(1.0, Var(Quantity, o.OfferKey()))] else [];
      ValueConcat(DemandTerms(init, c), tail, a);
      assert tail != [] ==> tail[..0] == [];
    }
  }

  /** `lpSum(...) >= demand_dict[comp]` */
  function DemandConstraint(offers: seq<SupplierRow>, c: string, demand: real): Constraint {
    Constraint(DemandTerms(offers, c), AtLeast, demand)
  }

  /** A demand constraint holds exactly when the rows offering the component supply
      at least its demand. */
  lemma DemandConstraintMeaning(offers: seq<SupplierRow>, c: string, demand: real, a: Assignment)
    ensures Holds(DemandConstraint(offers, c, demand), a) <==> Supply(offers, c, a) >= demand
  {
    DemandTermsValue(offers, c, a);
  }

  /** A component that no feasible row offers cannot meet a positive demand. */
  lemma UnofferedComponentInfeasible(offers: seq<SupplierRow>, c: string, demand: real, a: Assignment)
    requires forall i | 0 <= i < |offers| :: offers[i].component != c
    requires demand > 0.0
    ensures !Holds(DemandConstraint(offers, c, demand), a)
  {
    DemandTermsShape(offers, c);
  }

  /** One demand constraint per key of the demand map, in the map's order. */
  function DemandConstraints(offers: seq<SupplierRow>, demand: Dict<string, real>): (cs: seq<Constraint>)
    requires demand.Valid()
    ensures |cs| == |demand.keys|
    ensures forall j :: 0 <= j < |cs| ==>
              cs[j] == DemandConstraint(offers, demand.keys[j], demand.entries[demand.keys[j]])
  {
    seq(|demand.keys|, j requires 0 <= j < |demand.keys| =>
      DemandConstraint(offers, demand.keys[j], demand.entries[demand.keys[j]]))
  }

  /** `x[key] >= row.moq * y[key]`, kept as `x - moq * y >= 0`. */
  function MoqFloor(o: SupplierRow): Constraint {
    Constraint([Term(1.0, Var(Quantity, o.OfferKey())), Term(-o.moq, Var(Activation, o.OfferKey()))], AtLeast, 0.0)
  }

  /** `x[key] <= BigM * y[key]`, kept as `x - BigM * y <= 0`. */
  function MoqCap(o: SupplierRow): Constraint {
    Constraint([Term(1.0, Var(Quantity, o.OfferKey())), Term(-BigM, Var(Activation, o.OfferKey()))], AtMost, 0.0)
  }

  /** The MOQ constraints of the last loop, two per row in row order. */
  function MoqConstraints(offers: seq<SupplierRow>): (cs: seq<Constraint>)
    ensures |cs| == 2 * |offers|
  {
    if offers == [] then []
    else MoqConstraints(offers[..|offers| - 1]) + [MoqFloor(offers[|offers| - 1]), MoqCap(offers[|offers| - 1])]
  }

  /** Row `i` contributes exactly the constraints at positions `2i` and `2i + 1`. */
  lemma {:induction false} MoqConstraintsAt(offers: seq<SupplierRow>, i: nat)
    requires i < |offers|
    ensures |MoqConstraints(offers)| == 2 * |offers|
    ensures MoqConstraints(offers)[2 * i] == MoqFloor(offers[i])
    ensures MoqConstraints(offers)[2 * i + 1] == MoqCap(offers[i])
  {
    var init := offers[..|offers| - 1];
    if i < |init| {
      MoqConstraintsAt(init, i);
      assert offers[i] == init[i];
    } else {
      if init != [] { MoqConstraintsAt(init, 0); }
    }
  }

  /** The floor holds exactly when `x[key] >= row.moq * y[key]`. */
  lemma MoqFloorMeaning(o: SupplierRow, a: Assignment)
    ensures Holds(MoqFloor(o), a) <==>
              a(Var(Quantity, o.OfferKey())) >= o.moq * a(Var(Activation, o.OfferKey()))
  {
    ValueOfPair(Term(1.0, Var(Quantity, o.OfferKey())), Term(-o.moq, Var(Activation, o.OfferKey())), a);
  }

  /** The cap holds exactly when `x[key] <= BigM * y[key]`. */
  lemma MoqCapMeaning(o: SupplierRow, a: Assignment)
    ensures Holds(MoqCap(o), a) <==>
              a(Var(Quantity, o.OfferKey())) <= BigM * a(Var(Activation, o.OfferKey()))
  {
    ValueOfPair(Term(1.0, Var(Quantity, o.OfferKey())), Term(-BigM, Var(Activation, o.OfferKey())), a);
  }

  lemma ValueOfPair(t0: Term, t1: Term, a: Assignment)
    ensures Value([t0, t1], a) == t0.coef * a(t0.v) + t1.coef * a(t1.v)
  {
    assert [t0, t1][..1] == [t0];
    assert [t0][..0] == [];
    assert Value([t0], a) == t0.coef * a(t0.v);
  }

  /** The Big-M linearisation is sound: with a binary activation flag, the two MOQ
      constraints of an offer leave its quantity either 0 or between the MOQ and Big-M. */
  lemma MoqLinearisationSound(o: SupplierRow, a: Assignment)
    requires InDomain(Var(Activation, o.OfferKey()), a)
    requires Holds(MoqFloor(o), a) && Holds(MoqCap(o), a)
    ensures var q := a(Var(Quantity, o.OfferKey()));
            q == 0.0 || o.moq <= q <= BigM
  {
    var xv, yv := Var(Quantity, o.OfferKey()), Var(Activation, o.OfferKey());
    ValueOfPair(Term(1.0, xv), Term(-o.moq, yv), a);
    ValueOfPair(Term(1.0, xv), Term(-BigM, yv), a);
  }

  /** ... and complete: a quantity that is 0, or between the MOQ and Big-M, meets both
      constraints once the flag is set exactly when the quantity is non-zero. */
  lemma MoqLinearisationComplete(o: SupplierRow, a: Assignment)
    requires var q := a(Var(Quantity, o.OfferKey()));
             q == 0.0 || o.moq <= q <= BigM
    requires a(Var(Activation, o.OfferKey())) == if a(Var(Quantity, o.OfferKey())) == 0.0 then 0.0 else 1.0
    ensures Holds(MoqFloor(o), a) && Holds(MoqCap(o), a)
  {
    var xv, yv := Var(Quantity, o.OfferKey()), Var(Activation, o.OfferKey());
    ValueOfPair(Term(1.0, xv), Term(-o.moq, yv), a);
    ValueOfPair(Term(1.0, xv), Term(-BigM, yv), a);
  }

  /** The model `build_model` returns, stated as a value. */
  function Formulate(demand: Dict<string, real>, offers: seq<SupplierRow>): Model
    requires demand.Valid()
  {
    Model(
      VarDict(offers, Quantity),
      VarDict(offers, Activation),
      Objective(offers),
      Constraints(demand, offers))
  }

  /** All constraints, in the order `build_model` adds them. */
  function Constraints(demand: Dict<string, real>, offers: seq<SupplierRow>): (cs: seq<Constraint>)
    requires demand.Valid()
    ensures |cs| == |demand.keys| + 2 * |offers|
  {
    DemandConstraints(offers, demand) + MoqConstraints(offers)
  }

  /** The constraints of the model begin with one demand constraint per key of the
      demand map, in the map's order, ... */
  lemma FormulateDemandAt(demand: Dict<string, real>, offers: seq<SupplierRow>, j: nat)
    requires demand.Valid()
    requires j < |demand.keys|
    ensures Constraints(demand, offers)[j] ==
              DemandConstraint(offers, demand.keys[j], demand.entries[demand.keys[j]])
  {
  }

  /** ... followed by the floor and the cap of each row, in row order. */
  lemma FormulateMoqAt(demand: Dict<string, real>, offers: seq<SupplierRow>, i: nat)
    requires demand.Valid()
    requires i < |offers|
    ensures Constraints(demand, offers)[|demand.keys| + 2 * i] == MoqFloor(offers[i])
    ensures Constraints(demand, offers)[|demand.keys| + 2 * i + 1] == MoqCap(offers[i])
  {
    var dcs := DemandConstraints(offers, demand);
    var mcs := MoqConstraints(offers);
    MoqConstraintsAt(offers, i);
    assert (dcs + mcs)[|dcs| + 2 * i] == mcs[2 * i];
    assert (dcs + mcs)[|dcs| + 2 * i + 1] == mcs[2 * i + 1];
  }

  /** What a feasible point of the model means for the procurement: every component of
      the demand map is supplied at least its demand, ... */
  lemma FormulateMeetsDemand(demand: Dict<string, real>, offers: seq<SupplierRow>, a: Assignment, c: string)
    requires demand.Valid()
    requires Satisfies(Formulate(demand, offers), a)
    requires c in demand.entries
    ensures Supply(offers, c, a) >= demand.entries[c]
  {
    var cs := Formulate(demand, offers).constraints;
    assert cs == Constraints(demand, offers);
    var j :| 0 <= j < |demand.keys| && demand.keys[j] == c;
    FormulateDemandAt(demand, offers, j);
    assert Holds(cs[j], a);
    DemandConstraintMeaning(offers, c, demand.entries[c], a);
  }

  /** ... every row's quantity is non-negative and its flag is 0 or 1, ... */
  lemma FormulateRespectsDomains(demand: Dict<string, real>, offers: seq<SupplierRow>, a: Assignment, i: nat)
    requires demand.Valid()
    requires Satisfies(Formulate(demand, offers), a)
    requires i < |offers|
    ensures a(Var(Quantity, offers[i].OfferKey())) >= 0.0
    ensures a(Var(Activation, offers[i].OfferKey())) == 0.0 || a(Var(Activation, offers[i].OfferKey())) == 1.0
  {
    var m := Formulate(demand, offers);
    var k := offers[i].OfferKey();
    VarDictFacts(offers, Quantity);
    VarDictFacts(offers, Activation);
    assert InDomain(m.x.entries[k], a);
    assert InDomain(m.y.entries[k], a);
  }

  /** ... and every row's quantity is either 0 or between its MOQ and Big-M. */
  lemma FormulateRespectsMoq(demand: Dict<string, real>, offers: seq<SupplierRow>, a: Assignment, i: nat)
    requires demand.Valid()
    requires Satisfies(Formulate(demand, offers), a)
    requires i < |offers|
    ensures var q := a(Var(Quantity, offers[i].OfferKey()));
            q == 0.0 || offers[i].moq <= q <= BigM
  {
    var m := Formulate(demand, offers);
    var n := |demand.keys| + 2 * i;
    FormulateMoqAt(demand, offers, i);
    assert m.constraints == Constraints(demand, offers);
    assert Holds(m.constraints[n], a);
    assert Holds(m.constraints[n + 1], a);
    VarDictFacts(offers, Activation);
    assert offers[i].OfferKey() in m.y.entries;
    MoqLinearisationSound(offers[i], a);
  }

  /** Position `p` of the MOQ block belongs to row `p / 2`. */
  lemma Halve(p: nat, k: nat)
    requires p < 2 * k
    ensures p / 2 < k && (p == 2 * (p / 2) || p == 2 * (p / 2) + 1)
  {
  }

  /** Conversely, every procurement that meets all demands, orders a non-negative
      quantity under each key that is 0 or between the row's MOQ and Big-M, and sets
      each flag exactly when its quantity is non-zero, is a feasible point of the model. */
  lemma FormulateComplete(demand: Dict<string, real>, offers: seq<SupplierRow>, a: Assignment)
    requires demand.Valid()
    requires forall c | c in demand.entries :: Supply(offers, c, a) >= demand.entries[c]
    requires forall i | 0 <= i < |offers| ::
               var q := a(Var(Quantity, offers[i].OfferKey()));
               q >= 0.0 && (q == 0.0 || offers[i].moq <= q <= BigM)
    requires forall i | 0 <= i < |offers| ::
               a(Var(Activation, offers[i].OfferKey())) ==
                 if a(Var(Quantity, offers[i].OfferKey())) == 0.0 then 0.0 else 1.0
    ensures Satisfies(Formulate(demand, offers), a)
  {
    FormulateDomainsHold(demand, offers, a);
    FormulateDemandsHold(demand, offers, a);
    FormulateMoqsHold(demand, offers, a);
  }

  lemma FormulateDomainsHold(demand: Dict<string, real>, offers: seq<SupplierRow>, a: Assignment)
    requires demand.Valid()
    requires forall i | 0 <= i < |offers| :: a(Var(Quantity, offers[i].OfferKey())) >= 0.0
    requires forall i | 0 <= i < |offers| ::
               a(Var(Activation, offers[i].OfferKey())) ==
                 if a(Var(Quantity, offers[i].OfferKey())) == 0.0 then 0.0 else 1.0
    ensures forall k | k in Formulate(demand, offers).x.entries :: InDomain(Formulate(demand, offers).x.entries[k], a)
    ensures forall k | k in Formulate(demand, offers).y.entries :: InDomain(Formulate(demand, offers).y.entries[k], a)
  {
    var m := Formulate(demand, offers);
    VarDictFacts(offers, Quantity);
    VarDictFacts(offers, Activation);
    forall k | k in m.x.entries ensures InDomain(m.x.entries[k], a) {
      var i :| 0 <= i < |offers| && offers[i].OfferKey() == k;
    }
    forall k | k in m.y.entries ensures InDomain(m.y.entries[k], a) {
      var i :| 0 <= i < |offers| && offers[i].OfferKey() == k;
    }
  }

  lemma FormulateDemandsHold(demand: Dict<string, real>, offers: seq<SupplierRow>, a: Assignment)
    requires demand.Valid()
    requires forall c | c in demand.entries :: Supply(offers, c, a) >= demand.entries[c]
    ensures forall j | 0 <= j < |demand.keys| :: Holds(Constraints(demand, offers)[j], a)
  {
    var cs := Constraints(demand, offers);
    forall j | 0 <= j < |demand.keys| ensures Holds(cs[j], a) {
      var c := demand.keys[j];
      FormulateDemandAt(demand, offers, j);
      DemandConstraintMeaning(offers, c, demand.entries[c], a);
    }
  }

  lemma FormulateMoqsHold(demand: Dict<string, real>, offers: seq<SupplierRow>, a: Assignment)
    requires demand.Valid()
    requires forall i | 0 <= i < |offers| ::
               var q := a(Var(Quantity, offers[i].OfferKey()));
               q == 0.0 || offers[i].moq <= q <= BigM
    requires forall i | 0 <= i < |offers| ::
               a(Var(Activation, offers[i].OfferKey())) ==
                 if a(Var(Quantity, offers[i].OfferKey())) == 0.0 then 0.0 else 1.0
    ensures forall n | |demand.keys| <= n < |Constraints(demand, offers)| :: Holds(Constraints(demand, offers)[n], a)
  {
    var dcs := DemandConstraints(offers, demand);
    var mcs := MoqConstraints(offers);
    var cs := Constraints(demand, offers);
    MoqConstraintsHold(offers, a);
    forall n | |dcs| <= n < |cs| ensures Holds(cs[n], a) {
      assert cs[n] == mcs[n - |dcs|];
    }
  }

  /** Under the same conditions every MOQ constraint holds, whichever row it comes from. */
  lemma MoqConstraintsHold(offers: seq<SupplierRow>, a: Assignment)
    requires forall i | 0 <= i < |offers| ::
               var q := a(Var(Quantity, offers[i].OfferKey()));
               q == 0.0 || offers[i].moq <= q <= BigM
    requires forall i | 0 <= i < |offers| ::
               a(Var(Activation, offers[i].OfferKey())) ==
                 if a(Var(Quantity, offers[i].OfferKey())) == 0.0 then 0.0 else 1.0
    ensures forall p | 0 <= p < |MoqConstraints(offers)| :: Holds(MoqConstraints(offers)[p], a)
  {
    forall p | 0 <= p < |MoqConstraints(offers)| ensures Holds(MoqConstraints(offers)[p], a) {
      var i := p / 2;
      Halve(p, |offers|);
      MoqConstraintsAt(offers, i);
      MoqLinearisationComplete(offers[i], a);
    }
  }

  /** `build_model` as the program runs it: the variable loop, the objective, the
      demand loops and the MOQ loop, each appending to what the earlier ones built. The
      result is exactly the model `Formulate` describes. */
  method BuildModel(demand: Dict<string, real>, offers: seq<SupplierRow>) returns (m: Model)
    requires demand.Valid()
    ensures m == Formulate(demand, offers)
  {
    var x, y := DeclareVariables(offers);
    VarDictFacts(offers, Quantity);
    VarDictFacts(offers, Activation);
    var objective := BuildObjective(offers, x);
    var constraints := BuildDemandConstraints(demand, offers, x);
    constraints := AddMoqConstraints(constraints, offers, x, y);
    m := Model(x, y, objective, constraints);
  }

  /** The first loop: `x[key]` and `y[key]` for every row, in row order. */
  method DeclareVariables(offers: seq<SupplierRow>) returns (x: Dict<Key, Var>, y: Dict<Key, Var>)
    ensures x == VarDict(offers, Quantity) && y == VarDict(offers, Activation)
  {
    x, y := Empty(), Empty();
    for i := 0 to |offers|
      invariant x == VarDict(offers[..i], Quantity)
      invariant y == VarDict(offers[..i], Activation)
    {
      var key := offers[i].OfferKey();
      VarDictSnoc(offers, i, Quantity);
      VarDictSnoc(offers, i, Activation);
      x := Put(x, key, Var(Quantity, key));
      y := Put(y, key, Var(Activation, key));
    }
    assert offers[..|offers|] == offers;
  }

  /** The objective: one `unit_cost * x[key]` term per row, looked up in `x`. */
  method BuildObjective(offers: seq<SupplierRow>, x: Dict<Key, Var>) returns (objective: seq<Term>)
    requires Declares(x, offers, Quantity)
    ensures objective == Objective(offers)
  {
    objective := [];
    for i := 0 to |offers|
      invariant objective == Objective(offers)[..i]
    {
      var key := offers[i].OfferKey();
      objective := objective + [Term(offers[i].unitCost, x.entries[key])];
      assert Objective(offers)[..i + 1] == Objective(offers)[..i] + [Objective(offers)[i]];
    }
    assert Objective(offers)[..|offers|] == Objective(offers);
  }

  /** The generator inside one demand constraint: `x[key]` for each row offering `comp`. */
  method CollectDemandTerms(offers: seq<SupplierRow>, comp: string, x: Dict<Key, Var>) returns (terms: seq<Term>)
    requires Declares(x, offers, Quantity)
    ensures terms == DemandTerms(offers, comp)
  {
    terms := [];
    for k := 0 to |offers|
      invariant terms == DemandTerms(offers[..k], comp)
    {
      var row := offers[k];
      DemandTermsSnoc(offers, k, comp);
      assert x.entries[row.OfferKey()] == Var(Quantity, row.OfferKey());
      if row.component == comp {
        terms := terms + [Term(1.0, x.entries[row.OfferKey()])];
      }
    }
    assert offers[..|offers|] == offers;
  }

  /** The demand loop: one constraint per key of the demand map, in the map's order. */
  method BuildDemandConstraints(demand: Dict<string, real>, offers: seq<SupplierRow>, x: Dict<Key, Var>)
    returns (constraints: seq<Constraint>)
    requires demand.Valid() && Declares(x, offers, Quantity)
    ensures constraints == DemandConstraints(offers, demand)
  {
    constraints := [];
    for j := 0 to |demand.keys|
      invariant constraints == DemandConstraints(offers, demand)[..j]
    {
      var comp := demand.keys[j];
      var terms := CollectDemandTerms(offers, comp, x);
      constraints := constraints + [Constraint(terms, AtLeast, demand.entries[comp])];
      assert DemandConstraints(offers, demand)[..j + 1] ==
             DemandConstraints(offers, demand)[..j] + [DemandConstraints(offers, demand)[j]];
    }
    assert DemandConstraints(offers, demand)[..|demand.keys|] == DemandConstraints(offers, demand);
  }

  /** The MOQ loop: the two Big-M constraints of every row, appended in row order. */
  method AddMoqConstraints(prior: seq<Constraint>, offers: seq<SupplierRow>, x: Dict<Key, Var>, y: Dict<Key, Var>)
    returns (constraints: seq<Constraint>)
    requires Declares(x, offers, Quantity) && Declares(y, offers, Activation)
    ensures constraints == prior + MoqConstraints(offers)
  {
    constraints := prior;
    for i := 0 to |offers|
      invariant constraints == prior + MoqConstraints(offers[..i])
    {
      var key := offers[i].OfferKey();
      MoqConstraintsSnoc(offers, i);
      constraints := constraints + [
        Constraint([Term(1.0, x.entries[key]), Term(-offers[i].moq, y.entries[key])], AtLeast, 0.0),
        Constraint([Term(1.0, x.entries[key]), Term(-BigM, y.entries[key])], AtMost, 0.0)];
    }
    assert offers[..|offers|] == offers;
  }

  lemma DemandTermsSnoc(offers: seq<SupplierRow>, k: nat, comp: string)
    requires k < |offers|
    ensures DemandTerms(offers[..k + 1], comp) == DemandTerms(offers[..k], comp) +
              (if offers[k].component == comp then [Term(1.0, Var(Quantity, offers[k].OfferKey()))] else [])
  {
    assert offers[..k + 1][..k] == offers[..k];
  }

  lemma MoqConstraintsSnoc(offers: seq<SupplierRow>, i: nat)
    requires i < |offers|
    ensures MoqConstraints(offers[..i + 1]) == MoqConstraints(offers[..i]) + [MoqFloor(offers[i]), MoqCap(offers[i])]
  {
    assert offers[..i + 1][..i] == offers[..i];
  }

  lemma VarDictSnoc(offers: seq<SupplierRow>, i: nat, kind: Kind)
    requires i < |offers|
    ensures VarDict(offers[..i + 1], kind) ==
              Put(VarDict(offers[..i], kind), offers[i].OfferKey(), Var(kind, offers[i].OfferKey()))
  {
    var ps := KeyedVars(offers[..i + 1], kind);
    KeyedVarsSnoc(offers, i, kind);
    assert ps[..|ps| - 1] == KeyedVars(offers[..i], kind);
  }

  /** Adding row `i` to the first `i` rows adds its assignment as the last one. */
  lemma KeyedVarsSnoc(offers: seq<SupplierRow>, i: nat, kind: Kind)
    requires i < |offers|
    ensures KeyedVars(offers[..i + 1], kind)[..i] == KeyedVars(offers[..i], kind)
    ensures KeyedVars(offers[..i + 1], kind)[i] == (offers[i].OfferKey(), Var(kind, offers[i].OfferKey()))
  {
  }
}
