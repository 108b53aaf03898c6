# NEO close-approach filters in Dafny

This project models the query-criteria engine of a near-Earth-object (NEO)
explorer. The engine lives in `filters.py`:

- **Attribute filters.** Each filter pairs a comparator (`eq`, `ge` or `le`)
  and a reference value with an accessor. The accessor picks one attribute of
  a close approach: its calendar date, distance or velocity, or the linked
  NEO's diameter or hazard flag. Evaluating a filter on an approach means
  `op(get(approach), value)`. The base class `AttributeFilter` has no accessor
  and raises `UnsupportedCriterionError`.
- **`create_filters`.** A factory that turns ten optional criteria into an
  ordered collection of filters. A query applies them with AND semantics.
- **`limit`.** Truncates a result sequence. A cap that is `None` or `0` means
  "no cap".

Files and modules:

- `wrappers.dfy`, module `Wrappers`: `Option` (Python's `None`) and `Result`
  (an operation that can raise).
- `approaches.dfy`, module `Approaches`: the `NearEarthObject` and
  `CloseApproach` records the filters read. A date-time is a count of seconds
  from midnight of day 0. `DateOf` is its calendar day.
- `filters.dfy`, module `Filters`: the comparators, with Python's semantics
  for mixed types. Also the accessors (`Get`), evaluation (`Call`) and the
  composed "every filter accepts" predicate (`AcceptsAll`).
- `create_filters.dfy`, module `FilterFactory`:
  - `CreateFilters` is the imperative factory. Like the source, it appends to a
    list under ten `if` guards, and its parameters default to `None`.
  - `FiltersFrom` is the reference definition of the factory: each given
    criterion's filter appended in parameter order. `CreateFilters` is proved
    equal to it. `Collected` is a second, table-driven definition over the
    columns parameter, accessor and comparator, and the two are proved equal.
  - The lemmas state which filters appear, in what order, with which
    comparator, and what an approach must satisfy to pass them all.
- `limit.dfy`, module `Limiting`: `limit` over finite sequences.

A worked query: with `distance_max=0.4, hazardous=True` the factory builds a
Distance `le 0.4` filter and a Hazardous `eq True` filter. Of a hazardous
approach at 0.1 au, a harmless one at 0.5 au and a hazardous one at 0.3 au,
the first and third pass and the second fails (`DistanceAndHazardExample`).

Modelling choices:

- A criterion value keeps its Python type as a `Value`: a calendar day, a
  float (`real`) or a bool.
- Comparison follows Python. A `bool` is a number (0 or 1). `==` between a
  date and a number is false. `>=` and `<=` between them raise `TypeError`,
  modelled as `Incomparable`. The factory's own filters are always well typed,
  so they never raise (`FiltersFromNeverRaise`).
- `limit` with a negative cap raises `ValueError` from `itertools.islice`. The
  model returns `Failure(NegativeCount)` for it instead of requiring a
  non-negative cap.

## Model

| member | source | states |
|---|---|---|
| `Approaches.DateOfWithin` | filters.py:113 | `time.date()` gives day `d` exactly when the time lies from midnight of `d` up to, but not including, the next midnight |
| `Approaches.DateOf` | filters.py:113 | `approach.time.date()`: the day returned is the one whose midnight is at or before the time, with the next midnight after it |
| `Filters.Compare` | filters.py:64 | `op(left, right)`: raises exactly for `ge`/`le` on incomparable types (date against number); `eq` never raises; `eq` on values of one type is equality; `eq` on incomparable values is false |
| `Filters.Get` | filters.py:66-213 | the accessor raises `UnsupportedCriterion` exactly for the base class; every subclass accessor returns a value of its attribute's type |
| `Filters.Call` | filters.py:52-64 | evaluating a base-class filter always raises `UnsupportedCriterion`; a well-typed filter never raises; an `eq` filter of a subclass never raises |
| `Filters.DateEqualsWholeDay` | filters.py:113 | `date == d` accepts an approach exactly when its time falls anywhere within day `d` |
| `Filters.DateOnOrAfter` | filters.py:254-255 | the `start_date` filter (`ge`) accepts exactly the approaches from midnight of the start day on |
| `Filters.DateOnOrBefore` | filters.py:256-257 | the `end_date` filter (`le`) accepts exactly the approaches before midnight after the end day |
| `Filters.SameDaySameVerdict` | filters.py:113 | two approaches on the same calendar day get the same verdict from any Date filter, whatever their times of day |
| `Filters.NeoFiltersReadOnlyTheNeo` | filters.py:174-213 | Diameter and Hazardous filters read only the linked NEO: approaches of the same NEO get the same verdict |
| `Filters.EqIsGeAndLe` | filters.py:64 | for a well-typed filter, `eq` accepts exactly when both `ge` and `le` accept, and at least one of `ge` and `le` always accepts |
| `Filters.AcceptsAll` | filters.py:234-236 | a filter collection matches an approach exactly when every filter in it accepts the approach (AND); stated over membership, so order and repeats do not matter |
| `Filters.EmptyAcceptsAll` | filters.py:234-236 | the empty filter collection matches every approach |
| `Filters.AcceptsAllMember` | filters.py:234-236 | an approach that matches a filter collection passes each filter in it |
| `Filters.AcceptsAllConcat` | filters.py:234-236 | matching the concatenation of two collections is matching both (AND) |
| `Filters.AcceptsAllOrderIndependent` | filters.py:234-236 | two collections holding the same filters, in any order and with any repeats, match the same approaches |
| `FilterFactory.FiltersFrom` | filters.py:251-272 | the reference definition of `create_filters`: each given criterion's filter appended in parameter order; at most one filter per parameter, so at most ten |
| `FilterFactory.CreateFilters` | filters.py:216-272 | the imperative factory returns exactly the reference collection `FiltersFrom` of its ten arguments |
| `FilterFactory.FiltersFromIsCollected` | filters.py:251-272 | the criterion-by-criterion reference (each given criterion appended in parameter order) equals the table-driven one over the parameter, accessor and comparator columns |
| `FilterFactory.FiltersFromMembership` | filters.py:252-271 | a filter is in the output exactly when its parameter was given, with the filter's value as the argument |
| `FilterFactory.NoCriteriaNoFilters` | filters.py:251-272 | the output is empty exactly when every criterion is absent |
| `FilterFactory.OneFilterPerCriterion` | filters.py:252-271 | the number of filters equals the number of criteria that are not `None`; each given criterion's filter is present |
| `FilterFactory.FiltersInParameterOrder` | filters.py:252-271 | every filter comes from a given criterion; filters come in strictly increasing parameter order (date, start, end, distance min/max, velocity min/max, diameter min/max, hazardous), so no criterion contributes twice |
| `FilterFactory.FilterOrigin` | filters.py:252-271 | in the criteria's own names: a filter is in the output exactly when it is `date`→Date/eq, `start_date`→Date/ge, `end_date`→Date/le, `*_min`→ge, `*_max`→le, `hazardous`→Hazardous/eq, each holding its argument unchanged |
| `FilterFactory.HazardousFalseIsNotAbsent` | filters.py:270-271 | `hazardous=False` yields a Hazardous filter `eq False`, and no other or second Hazardous filter; `hazardous=None` yields no Hazardous filter; the two outputs differ |
| `FilterFactory.FiltersFromNeverRaise` | filters.py:252-271 | every filter the factory builds is well typed, so evaluating it never raises |
| `FilterFactory.FiltersFromMeaning` | filters.py:237-246 | an approach passes every filter built from the criteria exactly when it meets each given criterion: on the date, on or after the start, on or before the end, distance/velocity/diameter within the given bounds, and hazard flag as given |
| `FilterFactory.GivenCriteriaPresent` | filters.py:252-271 | each criterion that is not `None` puts its filter, with its comparator and its argument, into the output |
| `FilterFactory.CriteriaMetWhenAccepted` | filters.py:237-246 | an approach that passes every filter built from the criteria meets each given criterion |
| `FilterFactory.DateCriteriaMet` | filters.py:252-257 | when the date filters are in the collection, passing all its filters implies the approach's date equals `date`, is on or after `start_date` and on or before `end_date`, where given |
| `FilterFactory.ApproachCriteriaMet` | filters.py:258-265 | when those filters are in the collection, passing all its filters implies distance and velocity lie within the given minimum and maximum |
| `FilterFactory.NeoCriteriaMet` | filters.py:266-271 | when those filters are in the collection, passing all its filters implies the NEO's diameter lies within the given bounds and its hazard flag is as given |
| `FilterFactory.AcceptedByCriteria` | filters.py:237-246 | each filter built from the criteria accepts every approach that meets them |
| `FilterFactory.ContradictoryBoundsMatchNothing` | filters.py:238-245 | a start after the end, or a minimum above the maximum, is not an error; no approach passes |
| `FilterFactory.DistanceAndHazardExample` | filters.py:258-271 | `distance_max=0.4, hazardous=True` gives `[Distance le 0.4, Hazardous eq True]`; the hazardous approaches at 0.1 and 0.3 au pass and the harmless one at 0.5 au fails |
| `Limiting.Limit` | filters.py:274-295 | a negative cap raises; a cap of `None` or `0` returns the input unchanged; otherwise the result is a prefix of the input of length `min(n, len)` |
| `Limiting.ZeroIsNotEmpty` | filters.py:293-294 | a cap of zero means unlimited, not empty: it equals no cap and keeps a non-empty input non-empty |
| `Limiting.LargeCapKeepsAll` | filters.py:295 | a cap at least the input's length returns the whole input |
| `Limiting.LimitKeepsOrder` | filters.py:295 | item `i` of a capped result is item `i` of the input |
| `Limiting.LimitTwice` | filters.py:295 | for positive `n` and `m`, capping with `n` and then `m` equals capping once with `min(n, m)` (a cap of 0 means no cap, so it is excluded) |
| `Limiting.LimitKeepsMatches` | filters.py:274-295 | capping a sequence of matches keeps only matches |

## Left out

- `AttributeFilter.__repr__` (filters.py:83-88) builds a diagnostic string only. Its second line is a separate string literal that is never used, so the output is cut short. It has no bearing on filtering.
- `Limit`: the model works on finite sequences. It does not model that `itertools.islice` is lazy, that it pulls no item past the cap, or that it works on infinite iterators. `limit` returning the very same iterator object for `n` of `None` or `0` is modelled as returning an equal sequence.
- `Limit`: a cap larger than `sys.maxsize`, which `islice` also refuses, is not modelled, because integers here are unbounded.
- Floating point: distances, velocities and diameters are `real`. NaN, including an unknown diameter, and rounding are not modelled, so every comparison is a plain total order.
- A date-time is a count of seconds. Python's microsecond resolution and timezones are not modelled; the source's date-times are timezone-naive.
- The criteria have typed options (day, real, bool). A caller passing a criterion of the wrong Python type is not modelled. Filters built by hand may still mix types, and `Compare` handles that case.
- The store's query traversal (`NEODatabase.query`) and the record construction in `models.py` are not part of this model. The composed meaning of a filter collection is given as the predicate `AcceptsAll`. How the store handles an exception raised while evaluating a filter is not modelled.
- `extract.py` and `write.py` are CSV/JSON file input and output with no filtering logic. They are not part of this model.
