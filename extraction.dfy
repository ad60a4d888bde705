/** The end of `solve_and_export`: walking the variable map `x` in its key order and
    turning every quantity the solver set above zero into a line of the procurement plan. */
module Extraction {
  import opened Tables
  import opened PyDict
  import opened Milp
  import opened Formulation
  import opened Preprocessing

  /** A line of the procurement plan: `Component`, `Supplier`, `OrderQty`. */
  datatype PlanRow = PlanRow(component: string, supplier: string, orderQty: real)

  /** The plan lines for the keys `keys` of `x`, in key order: one line per key whose
      variable has a positive value. */
  function Plan(keys: seq<Key>, x: map<Key, Var>, a: Assignment): (rows: seq<PlanRow>)
    requires forall i | 0 <= i < |keys| :: keys[i] in x
    ensures |rows| <= |keys|
    ensures forall r | r in rows :: r.orderQty > 0.0
  {
    if keys == [] then []
    else
      var k := keys[|keys| - 1];
      var qty := a(x[k]);
      Plan(keys[..|keys| - 1], x, a) + (if qty > 0.0 then [PlanRow(k.component, k.supplier, qty)] else [])
  }

  /** The plan of a list of keys is the plans of its parts, one after the other: the
      lines follow the key order, each key contributing on its own. */
  lemma {:induction false} PlanConcat(k1: seq<Key>, k2: seq<Key>, x: map<Key, Var>, a: Assignment)
    requires forall i | 0 <= i < |k1| :: k1[i] in x
    requires forall i | 0 <= i < |k2| :: k2[i] in x
    ensures forall i | 0 <= i < |k1 + k2| :: (k1 + k2)[i] in x
    ensures Plan(k1 + k2, x, a) == Plan(k1, x, a) + Plan(k2, x, a)
  {
    if k2 == [] {
      assert k1 + k2 == k1;
    } else {
      var init := k2[..|k2| - 1];
      assert (k1 + k2)[..|k1 + k2| - 1] == k1 + init;
      PlanConcat(k1, init, x, a);
    }
  }

  /** A single key yields one line when its value is positive and none otherwise. */
  lemma PlanOfKey(k: Key, x: map<Key, Var>, a: Assignment)
    requires k in x
    ensures Plan([k], x, a) ==
              if a(x[k]) > 0.0 then [PlanRow(k.component, k.supplier, a(x[k]))] else []
  {
    assert [k][..0] == [];
  }

  /** The loop over `x.items()`. */
  method Extract(x: Dict<Key, Var>, a: Assignment) returns (results: seq<PlanRow>)
    requires x.Valid()
    ensures results == Plan(x.keys, x.entries, a)
  {
    results := [];
    for i := 0 to |x.keys|
      invariant results == Plan(x.keys[..i], x.entries, a)
    {
      var key := x.keys[i];
      var v := x.entries[key];
      assert x.keys[..i + 1][..i] == x.keys[..i];
      if a(v) > 0.0 {
        var qty := a(v);
        results := results + [PlanRow(key.component, key.supplier, qty)];
      }
    }
    assert x.keys[..|x.keys|] == x.keys;
  }

  /** A line is in the plan exactly when some key's variable has that positive value. */
  lemma {:induction false} PlanMembership(keys: seq<Key>, x: map<Key, Var>, a: Assignment, r: PlanRow)
    requires forall i | 0 <= i < |keys| :: keys[i] in x
    ensures r in Plan(keys, x, a) <==>
              exists i :: 0 <= i < |keys| && a(x[keys[i]]) > 0.0 &&
                r == PlanRow(keys[i].component, keys[i].supplier, a(x[keys[i]]))
  {
    if keys != [] {
      var init := keys[..|keys| - 1];
      var k := keys[|keys| - 1];
      PlanMembership(init, x, a, r);
      if r in Plan(keys, x, a) && r !in Plan(init, x, a) {
        assert a(x[k]) > 0.0 && r == PlanRow(k.component, k.supplier, a(x[k]));
      }
      if exists i :: 0 <= i < |keys| && a(x[keys[i]]) > 0.0 &&
                     r == PlanRow(keys[i].component, keys[i].supplier, a(x[keys[i]])) {
        var i :| 0 <= i < |keys| && a(x[keys[i]]) > 0.0 &&
                 r == PlanRow(keys[i].component, keys[i].supplier, a(x[keys[i]]));
        if i < |init| {
          assert init[i] == keys[i];
        }
      }
    }
  }

  /** The quantity of component `c` that the plan orders. */
  function PlanSupply(rows: seq<PlanRow>, c: string): real {
    if rows == [] then 0.0
    else
      var r := rows[|rows| - 1];
      PlanSupply(rows[..|rows| - 1], c) + (if r.component == c then r.orderQty else 0.0)
  }

  lemma {:induction false} PlanSupplyConcat(s: seq<PlanRow>, t: seq<PlanRow>, c: string)
    ensures PlanSupply(s + t, c) == PlanSupply(s, c) + PlanSupply(t, c)
  {
    if t == [] {
      assert s + t == s;
    } else {
      assert (s + t)[..|s + t| - 1] == s + t[..|t| - 1];
      PlanSupplyConcat(s, t[..|t| - 1], c);
    }
  }

  /** Over the keys of the rows, with no negative quantity, the plan orders of each
      component exactly what the rows supply: the lines it drops are the zero ones. */
  lemma {:induction false} PlanSupplyIsSupply(offers: seq<SupplierRow>, x: map<Key, Var>, a: Assignment, c: string)
    requires forall i | 0 <= i < |offers| ::
               offers[i].OfferKey() in x && x[offers[i].OfferKey()] == Var(Quantity, offers[i].OfferKey())
    requires forall i | 0 <= i < |offers| :: a(Var(Quantity, offers[i].OfferKey())) >= 0.0
    ensures forall i | 0 <= i < |OfferKeys(offers)| :: OfferKeys(offers)[i] in x
    ensures PlanSupply(Plan(OfferKeys(offers), x, a), c) == Supply(offers, c, a)
  {
    if offers != [] {
      var init := offers[..|offers| - 1];
      var o := offers[|offers| - 1];
      var ks := OfferKeys(offers);
      assert ks[..|ks| - 1] == OfferKeys(init);
      PlanSupplyIsSupply(init, x, a, c);
      var qty := a(x[o.OfferKey()]);
      var tail := if qty > 0.0 then [PlanRow(o.component, o.supplier, qty)] else [];
      assert ks[|ks| - 1] == o.OfferKey();
      assert Plan(ks, x, a) == Plan(OfferKeys(init), x, a) + tail;
      PlanSupplyConcat(Plan(OfferKeys(init), x, a), tail, c);
      assert tail != [] ==> tail[..0] == [];
    }
  }

  /** With no two rows naming the same component and supplier, the plan read from a
      feasible point of the model orders at least the demand of every component of the
      demand map. */
  lemma PlanMeetsDemand(demand: Dict<string, real>, offers: seq<SupplierRow>, a: Assignment, c: string)
    requires demand.Valid()
    requires forall i, j :: 0 <= i < j < |offers| ==> offers[i].OfferKey() != offers[j].OfferKey()
    requires Satisfies(Formulate(demand, offers), a)
    requires c in demand.entries
    ensures PlanSupply(Plan(Formulate(demand, offers).x.keys, Formulate(demand, offers).x.entries, a), c)
              >= demand.entries[c]
  {
    var x := Formulate(demand, offers).x;
    VarDictKeysInRowOrder(offers, Quantity);
    VarDictFacts(offers, Quantity);
    forall i | 0 <= i < |offers| ensures a(Var(Quantity, offers[i].OfferKey())) >= 0.0 {
      assert InDomain(x.entries[offers[i].OfferKey()], a);
    }
    PlanSupplyIsSupply(offers, x.entries, a, c);
    FormulateMeetsDemand(demand, offers, a, c);
  }

  /** Every line of the plan read from a feasible point of the model names an offered
      component and supplier, and orders between the MOQ and Big-M of each row with that
      key. */
  lemma PlanRespectsMoq(demand: Dict<string, real>, offers: seq<SupplierRow>, a: Assignment, r: PlanRow)
    requires demand.Valid()
    requires Satisfies(Formulate(demand, offers), a)
    requires r in Plan(Formulate(demand, offers).x.keys, Formulate(demand, offers).x.entries, a)
    ensures exists i :: 0 <= i < |offers| && offers[i].OfferKey() == Key(r.component, r.supplier)
    ensures forall i | 0 <= i < |offers| && offers[i].OfferKey() == Key(r.component, r.supplier) ::
              offers[i].moq <= r.orderQty <= BigM
  {
    var x := Formulate(demand, offers).x;
    VarDictFacts(offers, Quantity);
    PlanMembership(x.keys, x.entries, a, r);
    var j :| 0 <= j < |x.keys| && a(x.entries[x.keys[j]]) > 0.0 &&
             r == PlanRow(x.keys[j].component, x.keys[j].supplier, a(x.entries[x.keys[j]]));
    var k := x.keys[j];
    assert k == Key(r.component, r.supplier);
    assert r.orderQty == a(Var(Quantity, k));
    forall i | 0 <= i < |offers| && offers[i].OfferKey() == k ensures offers[i].moq <= r.orderQty <= BigM {
      FormulateRespectsMoq(demand, offers, a, i);
    }
  }

  /** From the tables to the plan: when preprocessing succeeds and the solver returns a
      feasible point of the model built from its output, every line of the plan orders,
      from a supplier row that meets the assembly start day, at least that row's MOQ. */
  lemma PlanUsesTimelyOffers(bom: seq<BomRow>, suppliers: seq<SupplierRow>, program: seq<ProgramRow>,
                             a: Assignment, r: PlanRow)
    requires Preprocess(bom, suppliers, program).Ok?
    requires var p := Preprocess(bom, suppliers, program).value;
             p.demand.Valid() && Satisfies(Formulate(p.demand, p.offers), a)
    requires var p := Preprocess(bom, suppliers, program).value;
             p.demand.Valid() && r in Plan(Formulate(p.demand, p.offers).x.keys, Formulate(p.demand, p.offers).x.entries, a)
    ensures exists o :: o in suppliers && o.OfferKey() == Key(r.component, r.supplier) &&
                        o.leadTimeDays <= program[0].assemblyStartDay && o.moq <= r.orderQty
  {
    var p := Preprocess(bom, suppliers, program).value;
    var day := program[0].assemblyStartDay;
    PlanRespectsMoq(p.demand, p.offers, a, r);
    var i :| 0 <= i < |p.offers| && p.offers[i].OfferKey() == Key(r.component, r.supplier);
    var o := p.offers[i];
    assert o.moq <= r.orderQty;
    assert o in FeasibleOffers(suppliers, day);
    FeasibleOffersMembers(suppliers, day);
    assert o in suppliers && o.leadTimeDays <= day;
  }
}
