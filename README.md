# CubeSat procurement optimizer: a Dafny model

The optimizer plans how to buy the components for a batch of CubeSats. It reads three
tables:

- a bill of materials, giving the quantity of each component per satellite;
- the supplier offers, each with a unit cost, a lead time in days and a minimum order quantity (MOQ);
- a program row, giving the number of satellites and the day assembly starts.

The optimizer then works in four steps:

1. It computes the total demand of each component.
2. It drops every offer whose lead time misses the assembly start day. If no offer survives, it fails.
3. It builds a mixed-integer linear program. For each offer there is an order quantity `x`
   and an activation flag `y`. The program minimises the total cost. It requires each
   component's demand to be covered, and it forces each quantity to be either 0 or
   between the offer's MOQ and a Big-M bound of 10000.
4. After the solver runs, it writes one line `(component, supplier, quantity)` for every
   quantity above zero.

The model has six modules:

- `PyDict` (dict.dfy): the insertion-ordered dictionary that the program builds and walks.
- `Tables` (tables.dfy): the records of the three tables, with columns already renamed.
- `Preprocessing` (preprocessing.dfy): `preprocess_data`, as pure functions with a `Result` error path.
- `Milp` (milp.dfy): variables, linear terms, constraints, and what it means for an assignment to satisfy a model.
- `Formulation` (formulation.dfy): `build_model`.
  - `Formulate` states the resulting model as a value.
  - `BuildModel` and its loop methods build it step by step, as the program does.
  - Lemmas give the model's meaning: a feasible point covers every demand and respects every MOQ (soundness). Conversely, every procurement that does so is a feasible point (completeness).
- `Extraction` (extraction.dfy): the result loop of `solve_and_export`.
  - `Extract` is the loop; `Plan` is its specification.
  - Lemmas carry the model's guarantees over to the written plan.

The solver is not modelled. Its answer is a parameter, an arbitrary `Assignment` giving every variable a value. Every property of the plan is proved for any assignment that satisfies the model.

Behaviour of the code that the model keeps as it is:

- The code reads the plan whatever status the solver reports; it does not stop on a non-optimal status. `Extract` has no status input.
- The code keeps a line when the quantity is exactly `> 0`, with no tolerance. `Plan` does the same.
- Duplicate component rows in the bill of materials are not summed. The last row's demand overwrites the earlier ones (`DemandOfLastRow`), because the demand map is built with `dict(zip(...))`.
- An empty program table makes `program.loc[0, ...]` fail. This is modelled as the error `MissingProgramRow`.

## Model

| member | source | states |
|---|---|---|
| PyDict.Empty | main.py:81 | `x, y = {}, {}` starts from well-formed dicts with no keys and no entries |
| PyDict.Put | main.py:87-95 | assigning to a dict key keeps the dict well formed and maps the key to the new value; every other entry is unchanged; an existing key keeps its position and a new key is appended last |
| PyDict.FromPairs | main.py:50 | `dict(zip(...))` yields a well-formed dict whose keys are exactly the keys named by the pairs |
| PyDict.FromPairsLastWins | main.py:50 | a key takes the value of the last pair that names it |
| PyDict.FromPairsValueOrigin | main.py:50 | every value in the dict comes from the last pair naming its key |
| PyDict.FromDistinctPairsKeys | main.py:83-95 | when no key repeats, the dict lists its keys exactly in the order of the pairs |
| PyDict.FromPairsFirstOccurrenceOrder | main.py:50 | the dict's keys are ordered by the position where each key first appears |
| Preprocessing.TotalDemands | main.py:49-50 | each BOM row yields the pair (component, qty_per_sat times num_sats, as `TotalDemand` computes it), row for row |
| Preprocessing.DemandMap | main.py:49-50 | the demand map is well formed and has exactly one entry per distinct BOM component |
| Preprocessing.DemandOfLastRow | main.py:49-50 | a component's demand is its last BOM row's qty_per_sat times num_sats |
| Preprocessing.DemandMapOrder | main.py:50 | the components of the demand map, and so the demand constraints, follow their first appearance in the BOM |
| Preprocessing.FeasibleOffers | main.py:62-64 | the lead-time filter never yields more rows than it is given |
| Preprocessing.FeasibleOffersMembers | main.py:62-64 | an offer survives the filter `FeasibleOffers` if and only if it is a supplier row whose lead time is at most the assembly start day; each timely row is kept exactly as many times as it occurs, and every late row is dropped |
| Preprocessing.FeasibleOffersConcat | main.py:62-64 | the filter works row by row and keeps the row order: filtering a concatenation concatenates the filtered parts |
| Preprocessing.FeasibleOffersMonotone | main.py:62-64 | an earlier deadline keeps exactly what it would keep from the offers that meet a later one |
| Preprocessing.Preprocess | main.py:37-69 | an empty program table is an error. Otherwise preprocessing fails with "no feasible suppliers" exactly when every supplier row misses the assembly start day. On success, the offers are the non-empty filtered rows and the demand is the demand map |
| Formulation.KeyedVars | main.py:83-95 | the first loop assigns `x[key]` (or `y[key]`) once per offer row, in row order, with that row's key and variable |
| Formulation.VarDict | main.py:81-95 | each variable map is a well-formed dict |
| Formulation.VarDictFacts | main.py:83-95 | every feasible row's key maps to its own variable of the right kind, and every key of the map comes from some feasible row |
| Formulation.VarDictKeysInRowOrder | main.py:83-95 | with distinct offer keys, the map `x` lists one key per row, in row order (the order `x.items()` later walks) |
| Formulation.Objective | main.py:98-101 | the objective has one term per offer, on that offer's quantity, weighted by its unit cost |
| Formulation.ObjectiveIsTotalCost | main.py:98-101 | the objective's value under any assignment is the total procurement cost |
| Formulation.DemandTerms | main.py:106-109 | a demand sum has at most one term per offer row |
| Formulation.DemandTermsShape | main.py:106-110 | a demand sum contains only quantities of rows offering the component, each with coefficient 1, and contains the quantity of every such row; a component nobody offers gets the empty sum |
| Formulation.DemandTermsValue | main.py:106-110 | the demand sum evaluates to the total quantity ordered of the component |
| Formulation.DemandConstraintMeaning | main.py:106-110 | the demand constraint `DemandConstraint` holds if and only if the offers of the component supply at least its demand |
| Formulation.UnofferedComponentInfeasible | main.py:104-110 | a component with positive demand and no feasible offer makes its constraint unsatisfiable, whatever the assignment |
| Formulation.DemandConstraints | main.py:104-110 | one demand constraint per key of the demand map, in the map's order, with that key's demand on the right |
| Formulation.MoqConstraints | main.py:115-120 | two MOQ constraints per offer |
| Formulation.MoqFloorMeaning | main.py:119 | the floor constraint `MoqFloor` holds exactly when `x[key] >= moq * y[key]` |
| Formulation.MoqCapMeaning | main.py:120 | the cap constraint `MoqCap` holds exactly when `x[key] <= BigM * y[key]`, with BigM = 10000 |
| Formulation.MoqConstraintsAt | main.py:115-120 | offer `i` contributes the floor `x >= moq*y` at position `2i` and the cap `x <= BigM*y` at `2i+1` |
| Formulation.MoqLinearisationSound | main.py:113-120 | with a binary flag, an offer's two MOQ constraints force its quantity to be 0 or between its MOQ and BigM = 10000 |
| Formulation.MoqLinearisationComplete | main.py:113-120 | a quantity that is 0, or between the MOQ and BigM, meets both constraints once the flag is set exactly when the quantity is non-zero |
| Formulation.MoqConstraintsHold | main.py:113-120 | under those conditions every MOQ constraint of every offer holds |
| Formulation.Constraints | main.py:103-120 | the model has one constraint per demand-map key plus two per offer |
| Formulation.FormulateDemandAt | main.py:103-110 | the constraint at position `j` is the demand constraint of the `j`-th demand-map key |
| Formulation.FormulateMoqAt | main.py:112-120 | after the demand constraints come each offer's floor and cap, in row order |
| Formulation.FormulateRespectsDomains | main.py:87-95 | in every feasible point of `Formulate`, each row's `x` meets its domain `InDomain` for `lowBound=0` (non-negative) and its `y` meets it for `cat="Binary"` (0 or 1) |
| Formulation.FormulateMeetsDemand | main.py:74-122 | in every feasible point of the model, each demand-map component is supplied at least its demand |
| Formulation.FormulateRespectsMoq | main.py:74-122 | in every feasible point, each offer's quantity is 0 or between its MOQ and BigM |
| Formulation.FormulateComplete | main.py:74-122 | for the model value `Formulate`: every non-negative procurement that covers all demands, keeps every quantity at 0 or between MOQ and BigM, and sets each flag exactly when its quantity is non-zero, is a feasible point |
| Formulation.FormulateDomainsHold | main.py:87-95 | such a procurement keeps every `x` non-negative and every `y` binary |
| Formulation.FormulateDemandsHold | main.py:104-110 | such a procurement meets every demand constraint |
| Formulation.FormulateMoqsHold | main.py:113-120 | such a procurement meets every MOQ constraint |
| Formulation.BuildModel | main.py:74-122 | the model built step by step is exactly `Formulate(demand, offers)` |
| Formulation.DeclareVariables | main.py:81-95 | the first loop leaves `x` and `y` equal to the variable maps |
| Formulation.BuildObjective | main.py:98-101 | the objective loop produces exactly the objective terms |
| Formulation.CollectDemandTerms | main.py:106-109 | the generator collects exactly the demand sum of the component |
| Formulation.BuildDemandConstraints | main.py:104-110 | the demand loop produces exactly the demand constraints, in demand-map order |
| Formulation.AddMoqConstraints | main.py:113-120 | the MOQ loop appends exactly the MOQ constraints of every row |
| Extraction.Plan | main.py:135-142 | the plan has no more lines than `x` has keys, and every line's quantity is positive |
| Extraction.PlanConcat | main.py:137-142 | the plan of a key list is the plan of its first part followed by the plan of the rest: lines follow the key order of `x`, each key contributing independently |
| Extraction.PlanOfKey | main.py:139-142 | a single key contributes the line (component, supplier, value) when its value is positive and no line otherwise, so at most one line per key |
| Extraction.Extract | main.py:135-142 | the result loop over `x.items()` produces exactly the plan |
| Extraction.PlanMembership | main.py:137-142 | a line is in the plan if and only if some key of `x` has that positive value, with that component and supplier |
| Extraction.PlanSupplyIsSupply | main.py:137-142 | over the rows' keys, the plan orders of each component exactly the rows' total supply, since the dropped lines are the zero ones |
| Extraction.PlanMeetsDemand | main.py:135-142 | with distinct offer keys, the plan read from a feasible point orders at least each component's demand |
| Extraction.PlanRespectsMoq | main.py:135-142 | every plan line names an offered key and orders between the MOQ and BigM of each row with that key |
| Extraction.PlanUsesTimelyOffers | main.py:165-170 | from tables to plan: every line of the plan orders from a supplier row that meets the assembly start day, at least that row's MOQ |

## Left out

- Loading the CSV files, stripping whitespace from column names and renaming columns (main.py:21-32, 42-59). These are file I/O and pandas plumbing; the records start from the renamed columns.
- Missing columns, non-numeric cells and NaN values. The record types always have every field.
- The solver call, its status, and printing the status and total cost (main.py:129-133). The solver is an external program; its answer is the `Assignment` parameter.
- Minimisation. The lemmas hold for every feasible point, not only for an optimal one.
- The variable names (`x_{component}_{supplier}`) and the problem's name. A variable is identified by its kind and key instead.
- Printing each plan line, and writing `procurement_plan.csv` (main.py:144-158). This is I/O; `Extract` returns the lines instead.
- Floating point. Quantities, costs and demands are exact reals, so rounding in the solver or in pandas is not captured.
- Extraction.Extract: does not branch on the solver status, because the code does not.
- Extraction.PlanMeetsDemand: requires that no two offer rows share a component and supplier. With such duplicates, both rows name the same `x` variable, and the demand constraint counts it twice. A plan can then fall short of the demand.
