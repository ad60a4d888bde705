/** `preprocess_data`: the demand map and the lead-time filter. */
module Preprocessing {
  import opened Tables
  import opened PyDict

  datatype PreprocessError =
    | MissingProgramRow      // `program.loc[0, ...]` on a table with no row 0
    | NoFeasibleSuppliers    // "No feasible suppliers available."

  datatype Result<T> = Ok(value: T) | Err(error: PreprocessError)

  /** What `preprocess_data` returns: the demand map and the feasible supplier rows. */
  datatype Prepared = Prepared(demand: Dict<string, real>, offers: seq<SupplierRow>)

  /** The `total_demand` column: `qty_per_sat * num_sats`. */
  function TotalDemand(row: BomRow, numSats: int): real {
    row.qtyPerSat * numSats as real
  }

  /** The two zipped columns `component` and `total_demand`. */
  function TotalDemands(bom: seq<BomRow>, numSats: int): (ps: seq<(string, real)>)
    ensures |ps| == |bom|
    ensures forall i :: 0 <= i < |bom| ==> ps[i].0 == bom[i].component && ps[i].1 == TotalDemand(bom[i], numSats)
  {
    seq(|bom|, i requires 0 <= i < |bom| => (bom[i].component, TotalDemand(bom[i], numSats)))
  }

  /** `dict(zip(bom.component, bom.total_demand))` */
  function DemandMap(bom: seq<BomRow>, numSats: int): (d: Dict<string, real>)
    ensures d.Valid()
    // exactly one key per distinct BOM component
    ensures d.entries.Keys == set i | 0 <= i < |bom| :: bom[i].component
  {
    var ps := TotalDemands(bom, numSats);
    assert KeySet(ps) == set i | 0 <= i < |bom| :: bom[i].component by {
      forall c | c in set i | 0 <= i < |bom| :: bom[i].component ensures c in KeySet(ps) {
        var i :| 0 <= i < |bom| && bom[i].component == c;
        assert ps[i].0 == c;
      }
    }
    FromPairs(ps)
  }

  /** A component's demand is its last BOM row's per-satellite quantity times the
      number of satellites; earlier rows for the same component are overwritten. */
  lemma {:induction false} DemandOfLastRow(bom: seq<BomRow>, numSats: int, i: nat)
    requires i < |bom|
    requires forall j :: i < j < |bom| ==> bom[j].component != bom[i].component
    ensures bom[i].component in DemandMap(bom, numSats).entries
    ensures DemandMap(bom, numSats).entries[bom[i].component] == bom[i].qtyPerSat * numSats as real
  {
    var ps := TotalDemands(bom, numSats);
    assert DemandMap(bom, numSats) == FromPairs(ps);
    assert ps[i] == (bom[i].component, TotalDemand(bom[i], numSats));
    forall j | i < j < |ps| ensures ps[j].0 != ps[i].0 {
      assert ps[j].0 == bom[j].component;
    }
    FromPairsLastWins(ps, i);
  }

  /** The demand constraints follow the order in which each component first appears
      in the BOM. */
  lemma {:induction false} DemandMapOrder(bom: seq<BomRow>, numSats: int, a: nat, b: nat)
    requires a < b < |DemandMap(bom, numSats).keys|
    ensures exists i :: 0 <= i < |bom| && bom[i].component == DemandMap(bom, numSats).keys[a] &&
                        forall j :: 0 <= j <= i ==> bom[j].component != DemandMap(bom, numSats).keys[b]
  {
    var ps := TotalDemands(bom, numSats);
    var d := FromPairs(ps);
    assert DemandMap(bom, numSats) == d;
    FromPairsFirstOccurrenceOrder(ps, a, b);
    var ka, kb := d.keys[a], d.keys[b];
    var i := FirstIndex(ps, ka);
    var k := FirstIndex(ps, kb);
    assert bom[i].component == ka;
    forall j | 0 <= j <= i ensures bom[j].component != kb {
      assert ps[j].0 == bom[j].component;
    }
  }

  /** `suppliers[suppliers["lead_time_days"] <= assembly_start]` */
  function FeasibleOffers(suppliers: seq<SupplierRow>, assemblyStart: int): (r: seq<SupplierRow>)
    ensures |r| <= |suppliers|
  {
    if suppliers == [] then []
    else
      (if suppliers[0].leadTimeDays <= assemblyStart then [suppliers[0]] else [])
      + FeasibleOffers(suppliers[1..], assemblyStart)
  }

  /** The filter keeps exactly the rows whose lead time meets the assembly start day,
      each as often as it occurs, and invents none. */
  lemma {:induction false} FeasibleOffersMembers(suppliers: seq<SupplierRow>, assemblyStart: int)
    ensures forall o :: o in FeasibleOffers(suppliers, assemblyStart) <==>
                          o in suppliers && o.leadTimeDays <= assemblyStart
    ensures multiset(FeasibleOffers(suppliers, assemblyStart)) <= multiset(suppliers)
    ensures forall o :: multiset(FeasibleOffers(suppliers, assemblyStart))[o] ==
                          if o.leadTimeDays <= assemblyStart then multiset(suppliers)[o] else 0
  {
    if suppliers != [] {
      var rest := suppliers[1..];
      var head := if suppliers[0].leadTimeDays <= assemblyStart then [suppliers[0]] else [];
      FeasibleOffersMembers(rest, assemblyStart);
      assert suppliers == [suppliers[0]] + rest;
      assert multiset(suppliers) == multiset([suppliers[0]]) + multiset(rest);
      assert multiset(FeasibleOffers(suppliers, assemblyStart)) ==
             multiset(head) + multiset(FeasibleOffers(rest, assemblyStart));
    }
  }

  /** The filter keeps the rows in their original order: filtering a concatenation
      concatenates the filtered parts. */
  lemma {:induction false} FeasibleOffersConcat(s: seq<SupplierRow>, t: seq<SupplierRow>, assemblyStart: int)
    ensures FeasibleOffers(s + t, assemblyStart) == FeasibleOffers(s, assemblyStart) + FeasibleOffers(t, assemblyStart)
  {
    if s == [] {
      assert s + t == t;
    } else {
      var head := if s[0].leadTimeDays <= assemblyStart then [s[0]] else [];
      calc {
        FeasibleOffers(s + t, assemblyStart);
        { FeasibleOffersCons(s + t, assemblyStart);
          assert (s + t)[0] == s[0] && (s + t)[1..] == s[1..] + t; }
        head + FeasibleOffers(s[1..] + t, assemblyStart);
        { FeasibleOffersConcat(s[1..], t, assemblyStart); }
        head + (FeasibleOffers(s[1..], assemblyStart) + FeasibleOffers(t, assemblyStart));
        (head + FeasibleOffers(s[1..], assemblyStart)) + FeasibleOffers(t, assemblyStart);
        { FeasibleOffersCons(s, assemblyStart); }
        FeasibleOffers(s, assemblyStart) + FeasibleOffers(t, assemblyStart);
      }
    }
  }

  lemma FeasibleOffersCons(s: seq<SupplierRow>, assemblyStart: int)
    requires s != []
    ensures FeasibleOffers(s, assemblyStart) ==
              (if s[0].leadTimeDays <= assemblyStart then [s[0]] else []) + FeasibleOffers(s[1..], assemblyStart)
  {
  }

  /** An earlier assembly start keeps a sub-list of the offers a later one keeps: what
      survives the earlier deadline is exactly what survives it among the offers that
      survive the later one. */
  lemma {:induction false} FeasibleOffersMonotone(s: seq<SupplierRow>, earlier: int, later: int)
    requires earlier <= later
    ensures FeasibleOffers(FeasibleOffers(s, later), earlier) == FeasibleOffers(s, earlier)
    ensures multiset(FeasibleOffers(s, earlier)) <= multiset(FeasibleOffers(s, later))
  {
    if s != [] {
      FeasibleOffersMonotone(s[1..], earlier, later);
      var head := if s[0].leadTimeDays <= later then [s[0]] else [];
      FeasibleOffersConcat(head, FeasibleOffers(s[1..], later), earlier);
    }
  }

  /** `preprocess_data(bom, suppliers, program)` */
  function Preprocess(bom: seq<BomRow>, suppliers: seq<SupplierRow>, program: seq<ProgramRow>): (r: Result<Prepared>)
    ensures program == [] ==> r == Err(MissingProgramRow)
    // it fails for want of offers exactly when no supplier row meets the deadline
    ensures program != [] ==>
      (r.Err? <==> forall o :: o in suppliers ==> o.leadTimeDays > program[0].assemblyStartDay)
    ensures r.Err? ==> program == [] || r.error == NoFeasibleSuppliers
    ensures r.Ok? ==> && r.value.offers != []
                      && r.value.offers == FeasibleOffers(suppliers, program[0].assemblyStartDay)
                      && r.value.demand == DemandMap(bom, program[0].numSatellites)
  {
    if program == [] then Err(MissingProgramRow)
    else
      var numSats := program[0].numSatellites;
      var assemblyStart := program[0].assemblyStartDay;
      var demand := DemandMap(bom, numSats);
      var offers := FeasibleOffers(suppliers, assemblyStart);
      FeasibleOffersMembers(suppliers, assemblyStart);
      if offers == [] then Err(NoFeasibleSuppliers)
      else
        assert offers[0] in offers;
        Ok(Prepared(demand, offers))
  }
}
