/**
 * The filter factory `create_filters`: it turns ten optional criteria into
 * the ordered collection of filters that a query applies with AND
 * semantics. An absent criterion contributes no filter; a present one
 * contributes exactly one, in parameter order.
 */
module FilterFactory {
  import opened Wrappers
  import opened Approaches
  import opened Filters

  /**
   * The criteria of one query, in parameter order. `None` means the
   * criterion was not given; `hazardous := Some(false)` is a real criterion.
   */
  datatype Criteria = Criteria(
    date: Option<int> := None,
    startDate: Option<int> := None,
    endDate: Option<int> := None,
    distanceMin: Option<real> := None,
    distanceMax: Option<real> := None,
    velocityMin: Option<real> := None,
    velocityMax: Option<real> := None,
    diameterMin: Option<real> := None,
    diameterMax: Option<real> := None,
    hazardous: Option<bool> := None)

  /** The number of criteria `create_filters` takes. */
  const Arity: nat := 10

  /** Parameter by parameter: the filter class each criterion selects ... */
  const Kinds: seq<Kind> :=
    [Date, Date, Date, Distance, Distance, Velocity, Velocity, Diameter, Diameter, Hazardous]

  /** ... and its comparator: exact criteria use `eq`, `start_date` and `*_min` use `ge`, `end_date` and `*_max` use `le`. */
  const Ops: seq<Op> :=
    [Eq, Ge, Le, Ge, Le, Ge, Le, Ge, Le, Eq]

  function DateArgument(o: Option<int>): Option<Value>
  {
    match o
    case None => None
    case Some(d) => Some(DateValue(d))
  }

  function NumberArgument(o: Option<real>): Option<Value>
  {
    match o
    case None => None
    case Some(x) => Some(Number(x))
  }

  function FlagArgument(o: Option<bool>): Option<Value>
  {
    match o
    case None => None
    case Some(b) => Some(Flag(b))
  }

  /** The ten criteria as filter values, in parameter order. */
  function Arguments(c: Criteria): (args: seq<Option<Value>>)
    ensures |args| == Arity
  {
    [ DateArgument(c.date), DateArgument(c.startDate), DateArgument(c.endDate),
      NumberArgument(c.distanceMin), NumberArgument(c.distanceMax),
      NumberArgument(c.velocityMin), NumberArgument(c.velocityMax),
      NumberArgument(c.diameterMin), NumberArgument(c.diameterMax),
      FlagArgument(c.hazardous) ]
  }

  /** `filters` extended by the filter of one parameter, when that parameter was given. */
  function Append(filters: seq<Filter>, arg: Option<Value>, kind: Kind, op: Op): seq<Filter>
  {
    if arg.Some? then filters + [Filter(kind, op, arg.value)] else filters
  }

  /** The filters contributed by the first `k` parameters, in parameter order. */
  function Collected(args: seq<Option<Value>>, k: nat): seq<Filter>
    requires |args| == Arity && k <= Arity
  {
    if k == 0 then [] else Append(Collected(args, k - 1), args[k - 1], Kinds[k - 1], Ops[k - 1])
  }

  /** Reference definition of `create_filters`: each present criterion, in parameter order, as its filter. */
  function FiltersFrom(c: Criteria): (filters: seq<Filter>)
    ensures |filters| <= Arity
  {
    var s1 := Append([], DateArgument(c.date), Date, Eq);
    var s2 := Append(s1, DateArgument(c.startDate), Date, Ge);
    var s3 := Append(s2, DateArgument(c.endDate), Date, Le);
    var s4 := Append(s3, NumberArgument(c.distanceMin), Distance, Ge);
    var s5 := Append(s4, NumberArgument(c.distanceMax), Distance, Le);
    var s6 := Append(s5, NumberArgument(c.velocityMin), Velocity, Ge);
    var s7 := Append(s6, NumberArgument(c.velocityMax), Velocity, Le);
    var s8 := Append(s7, NumberArgument(c.diameterMin), Diameter, Ge);
    var s9 := Append(s8, NumberArgument(c.diameterMax), Diameter, Le);
    Append(s9, FlagArgument(c.hazardous), Hazardous, Eq)
  }

  /** The parameter-by-parameter definition and the table-driven one agree. */
  lemma FiltersFromIsCollected(c: Criteria)
    ensures FiltersFrom(c) == Collected(Arguments(c), Arity)
  {
    var args := Arguments(c);
    assert Collected(args, 1) == Append([], DateArgument(c.date), Date, Eq);
    assert Collected(args, 2) == Append(Collected(args, 1), DateArgument(c.startDate), Date, Ge);
    assert Collected(args, 3) == Append(Collected(args, 2), DateArgument(c.endDate), Date, Le);
    assert Collected(args, 4) == Append(Collected(args, 3), NumberArgument(c.distanceMin), Distance, Ge);
    assert Collected(args, 5) == Append(Collected(args, 4), NumberArgument(c.distanceMax), Distance, Le);
    assert Collected(args, 6) == Append(Collected(args, 5), NumberArgument(c.velocityMin), Velocity, Ge);
    assert Collected(args, 7) == Append(Collected(args, 6), NumberArgument(c.velocityMax), Velocity, Le);
    assert Collected(args, 8) == Append(Collected(args, 7), NumberArgument(c.diameterMin), Diameter, Ge);
    assert Collected(args, 9) == Append(Collected(args, 8), NumberArgument(c.diameterMax), Diameter, Le);
    assert Collected(args, 10) == Append(Collected(args, 9), FlagArgument(c.hazardous), Hazardous, Eq);
  }

  /** The parameter a filter of the factory comes from (-1 for a filter the factory never builds). */
  function Position(f: Filter): int
  {
    match (f.kind, f.op)
    case (Date, Eq) => 0
    case (Date, Ge) => 1
    case (Date, Le) => 2
    case (Distance, Ge) => 3
    case (Distance, Le) => 4
    case (Velocity, Ge) => 5
    case (Velocity, Le) => 6
    case (Diameter, Ge) => 7
    case (Diameter, Le) => 8
    case (Hazardous, Eq) => 9
    case _ => -1
  }

  /**
   * What an approach must satisfy to pass the filters built from `c`, stated
   * directly on its attributes: every given criterion holds of it.
   */
  predicate MeetsCriteria(c: Criteria, a: CloseApproach)
  {
    && (c.date.Some? ==> DateOf(a.time) == c.date.value)
    && (c.startDate.Some? ==> DateOf(a.time) >= c.startDate.value)
    && (c.endDate.Some? ==> DateOf(a.time) <= c.endDate.value)
    && (c.distanceMin.Some? ==> a.distance >= c.distanceMin.value)
    && (c.distanceMax.Some? ==> a.distance <= c.distanceMax.value)
    && (c.velocityMin.Some? ==> a.velocity >= c.velocityMin.value)
    && (c.velocityMax.Some? ==> a.velocity <= c.velocityMax.value)
    && (c.diameterMin.Some? ==> a.neo.diameter >= c.diameterMin.value)
    && (c.diameterMax.Some? ==> a.neo.diameter <= c.diameterMax.value)
    && (c.hazardous.Some? ==> a.neo.hazardous == c.hazardous.value)
  }

  /** `Position` inverts the parameter table: parameter `p`'s filter has position `p`, and only it. */
  lemma PositionOfParameter(p: nat, f: Filter)
    requires p < Arity
    ensures Position(f) == p <==> f.kind == Kinds[p] && f.op == Ops[p]
  {
  }

  /** A filter with a position has that parameter's kind and comparator. */
  lemma ParameterOfPosition(f: Filter)
    requires Position(f) >= 0
    ensures Position(f) < Arity && f.kind == Kinds[Position(f)] && f.op == Ops[Position(f)]
  {
  }

  /** Every filter of the first `k` parameters comes from a given parameter among them, in increasing parameter order. */
  lemma {:induction false} CollectedPositions(args: seq<Option<Value>>, k: nat)
    requires |args| == Arity && k <= Arity
    ensures forall i :: 0 <= i < |Collected(args, k)| ==>
      var f := Collected(args, k)[i];
      0 <= Position(f) < k && args[Position(f)] == Some(f.value)
    ensures forall i, j :: 0 <= i < j < |Collected(args, k)| ==>
      Position(Collected(args, k)[i]) < Position(Collected(args, k)[j])
  {
    if k > 0 {
      CollectedPositions(args, k - 1);
      if args[k - 1].Some? {
        PositionOfParameter(k - 1, Filter(Kinds[k - 1], Ops[k - 1], args[k - 1].value));
      }
    }
  }

  /** Every given parameter among the first `k` contributes its filter, holding the argument unchanged. */
  lemma {:induction false} CollectedComplete(args: seq<Option<Value>>, k: nat)
    requires |args| == Arity && k <= Arity
    ensures forall p :: 0 <= p < k && args[p].Some? ==>
      Filter(Kinds[p], Ops[p], args[p].value) in Collected(args, k)
  {
    if k > 0 {
      CollectedComplete(args, k - 1);
    }
  }

  /** The given parameters among the first `k`. */
  ghost function GivenAmong(args: seq<Option<Value>>, k: nat): set<int>
    requires |args| == Arity && k <= Arity
  {
    set p | 0 <= p < k && args[p].Some?
  }

  /** The parameters given a value. */
  ghost function Specified(c: Criteria): set<int>
  {
    GivenAmong(Arguments(c), Arity)
  }

  /** Parameter `k - 1` joins the given parameters exactly when it is given. */
  lemma GivenAmongStep(args: seq<Option<Value>>, k: nat)
    requires |args| == Arity && 0 < k <= Arity
    ensures k - 1 !in GivenAmong(args, k - 1)
    ensures GivenAmong(args, k) == GivenAmong(args, k - 1) + (if args[k - 1].Some? then {k - 1} else {})
  {
  }

  /** The first `k` parameters contribute as many filters as of them are given. */
  lemma {:induction false} CollectedCount(args: seq<Option<Value>>, k: nat)
    requires |args| == Arity && k <= Arity
    ensures |Collected(args, k)| == |GivenAmong(args, k)|
  {
    if k == 0 {
      assert GivenAmong(args, k) == {};
    } else {
      CollectedCount(args, k - 1);
      GivenAmongStep(args, k);
    }
  }

  /** A filter belongs to the factory's output exactly when its parameter was given with the filter's value. */
  lemma FiltersFromMembership(c: Criteria, f: Filter)
    ensures f in FiltersFrom(c) <==> 0 <= Position(f) < Arity && Arguments(c)[Position(f)] == Some(f.value)
  {
    FiltersFromIsCollected(c);
    var args := Arguments(c);
    CollectedPositions(args, Arity);
    CollectedComplete(args, Arity);
    if 0 <= Position(f) < Arity && args[Position(f)] == Some(f.value) {
      ParameterOfPosition(f);
      assert f == Filter(Kinds[Position(f)], Ops[Position(f)], args[Position(f)].value);
    }
  }

  /** With every criterion absent the factory returns no filter, and only then. */
  lemma NoCriteriaNoFilters(c: Criteria)
    ensures FiltersFrom(c) == [] <==> c == Criteria()
  {
    FiltersFromIsCollected(c);
    CollectedCount(Arguments(c), Arity);
    if FiltersFrom(c) == [] {
      assert Specified(c) == {};
      forall p | 0 <= p < Arity
        ensures Arguments(c)[p].None?
      {
        assert p !in Specified(c);
      }
      assert Arguments(c)[0].None? && Arguments(c)[1].None? && Arguments(c)[2].None?;
      assert Arguments(c)[3].None? && Arguments(c)[4].None? && Arguments(c)[5].None?;
      assert Arguments(c)[6].None? && Arguments(c)[7].None? && Arguments(c)[8].None?;
      assert Arguments(c)[9].None?;
    }
    if c == Criteria() {
      assert Specified(c) == {};
    }
  }

  /** Each given criterion contributes exactly one filter: there are as many filters as given criteria. */
  lemma OneFilterPerCriterion(c: Criteria)
    ensures |FiltersFrom(c)| == |Specified(c)|
    ensures forall p :: p in Specified(c) ==>
      Filter(Kinds[p], Ops[p], Arguments(c)[p].value) in FiltersFrom(c)
  {
    FiltersFromIsCollected(c);
    CollectedCount(Arguments(c), Arity);
    CollectedComplete(Arguments(c), Arity);
  }

  /**
   * The filters come in parameter order (date, start, end, distance min and
   * max, velocity min and max, diameter min and max, hazardous), each from
   * a different given criterion.
   */
  lemma FiltersInParameterOrder(c: Criteria)
    ensures forall i :: 0 <= i < |FiltersFrom(c)| ==> Position(FiltersFrom(c)[i]) in Specified(c)
    ensures forall i, j :: 0 <= i < j < |FiltersFrom(c)| ==>
      Position(FiltersFrom(c)[i]) < Position(FiltersFrom(c)[j])
  {
    FiltersFromIsCollected(c);
    CollectedPositions(Arguments(c), Arity);
  }

  /**
   * The comparator table in the criteria's own names: `date` and
   * `hazardous` give `eq` filters, `start_date` and `*_min` give `ge`,
   * `end_date` and `*_max` give `le`, and each filter holds the argument as
   * given.
   */
  lemma FilterOrigin(c: Criteria, f: Filter)
    ensures f in FiltersFrom(c) <==>
      || (c.date.Some? && f == Filter(Date, Eq, DateValue(c.date.value)))
      || (c.startDate.Some? && f == Filter(Date, Ge, DateValue(c.startDate.value)))
      || (c.endDate.Some? && f == Filter(Date, Le, DateValue(c.endDate.value)))
      || (c.distanceMin.Some? && f == Filter(Distance, Ge, Number(c.distanceMin.value)))
      || (c.distanceMax.Some? && f == Filter(Distance, Le, Number(c.distanceMax.value)))
      || (c.velocityMin.Some? && f == Filter(Velocity, Ge, Number(c.velocityMin.value)))
      || (c.velocityMax.Some? && f == Filter(Velocity, Le, Number(c.velocityMax.value)))
      || (c.diameterMin.Some? && f == Filter(Diameter, Ge, Number(c.diameterMin.value)))
      || (c.diameterMax.Some? && f == Filter(Diameter, Le, Number(c.diameterMax.value)))
      || (c.hazardous.Some? && f == Filter(Hazardous, Eq, Flag(c.hazardous.value)))
  {
    FiltersFromMembership(c, f);
  }

  /**
   * `hazardous=False` is a criterion: it yields exactly one Hazardous filter,
   * `eq False`, whereas an absent `hazardous` yields no Hazardous filter.
   */
  lemma HazardousFalseIsNotAbsent(c: Criteria)
    ensures Filter(Hazardous, Eq, Flag(false)) in FiltersFrom(c.(hazardous := Some(false)))
    ensures forall f :: f in FiltersFrom(c.(hazardous := Some(false))) && f.kind == Hazardous ==>
      f == Filter(Hazardous, Eq, Flag(false))
    ensures forall i, j :: 0 <= i < j < |FiltersFrom(c.(hazardous := Some(false)))| ==>
      FiltersFrom(c.(hazardous := Some(false)))[i].kind != Hazardous ||
      FiltersFrom(c.(hazardous := Some(false)))[j].kind != Hazardous
    ensures forall f :: f in FiltersFrom(c.(hazardous := None)) ==> f.kind != Hazardous
    ensures FiltersFrom(c.(hazardous := Some(false))) != FiltersFrom(c.(hazardous := None))
  {
    var withFalse, absent := c.(hazardous := Some(false)), c.(hazardous := None);
    FiltersInParameterOrder(withFalse);
    forall i, j | 0 <= i < j < |FiltersFrom(withFalse)|
      ensures FiltersFrom(withFalse)[i].kind != Hazardous || FiltersFrom(withFalse)[j].kind != Hazardous
    {
      FilterOrigin(withFalse, FiltersFrom(withFalse)[i]);
      FilterOrigin(withFalse, FiltersFrom(withFalse)[j]);
    }
    FilterOrigin(withFalse, Filter(Hazardous, Eq, Flag(false)));
    forall f | f in FiltersFrom(withFalse) && f.kind == Hazardous
      ensures f == Filter(Hazardous, Eq, Flag(false))
    {
      FilterOrigin(withFalse, f);
    }
    forall f | f in FiltersFrom(absent)
      ensures f.kind != Hazardous
    {
      FilterOrigin(absent, f);
    }
  }

  /** The factory's filters are well typed, so evaluating them never raises. */
  lemma FiltersFromNeverRaise(c: Criteria, a: CloseApproach)
    ensures forall i :: 0 <= i < |FiltersFrom(c)| ==> WellTyped(FiltersFrom(c)[i])
    ensures forall i :: 0 <= i < |FiltersFrom(c)| ==> Call(FiltersFrom(c)[i], a).Success?
  {
    forall i | 0 <= i < |FiltersFrom(c)|
      ensures WellTyped(FiltersFrom(c)[i])
    {
      FilterOrigin(c, FiltersFrom(c)[i]);
    }
  }

  /**
   * The composed meaning of the factory's filters: an approach passes all of
   * them exactly when it meets every given criterion.
   */
  lemma FiltersFromMeaning(c: Criteria, a: CloseApproach)
    ensures AcceptsAll(FiltersFrom(c), a) <==> MeetsCriteria(c, a)
  {
    if AcceptsAll(FiltersFrom(c), a) {
      CriteriaMetWhenAccepted(c, a);
    }
    if MeetsCriteria(c, a) {
      forall i | 0 <= i < |FiltersFrom(c)|
        ensures Accepts(FiltersFrom(c)[i], a)
      {
        AcceptedByCriteria(c, a, FiltersFrom(c)[i]);
      }
    }
  }

  /** Each given criterion of `c` puts its filter into the factory's output. */
  lemma GivenCriteriaPresent(c: Criteria)
    ensures c.date.Some? ==> Filter(Date, Eq, DateValue(c.date.value)) in FiltersFrom(c)
    ensures c.startDate.Some? ==> Filter(Date, Ge, DateValue(c.startDate.value)) in FiltersFrom(c)
    ensures c.endDate.Some? ==> Filter(Date, Le, DateValue(c.endDate.value)) in FiltersFrom(c)
    ensures c.distanceMin.Some? ==> Filter(Distance, Ge, Number(c.distanceMin.value)) in FiltersFrom(c)
    ensures c.distanceMax.Some? ==> Filter(Distance, Le, Number(c.distanceMax.value)) in FiltersFrom(c)
    ensures c.velocityMin.Some? ==> Filter(Velocity, Ge, Number(c.velocityMin.value)) in FiltersFrom(c)
    ensures c.velocityMax.Some? ==> Filter(Velocity, Le, Number(c.velocityMax.value)) in FiltersFrom(c)
    ensures c.diameterMin.Some? ==> Filter(Diameter, Ge, Number(c.diameterMin.value)) in FiltersFrom(c)
    ensures c.diameterMax.Some? ==> Filter(Diameter, Le, Number(c.diameterMax.value)) in FiltersFrom(c)
    ensures c.hazardous.Some? ==> Filter(Hazardous, Eq, Flag(c.hazardous.value)) in FiltersFrom(c)
  {
    if c.date.Some? {
      FiltersFromMembership(c, Filter(Date, Eq, DateValue(c.date.value)));
    }
    if c.startDate.Some? {
      FiltersFromMembership(c, Filter(Date, Ge, DateValue(c.startDate.value)));
    }
    if c.endDate.Some? {
      FiltersFromMembership(c, Filter(Date, Le, DateValue(c.endDate.value)));
    }
    if c.distanceMin.Some? {
      FiltersFromMembership(c, Filter(Distance, Ge, Number(c.distanceMin.value)));
    }
    if c.distanceMax.Some? {
      FiltersFromMembership(c, Filter(Distance, Le, Number(c.distanceMax.value)));
    }
    if c.velocityMin.Some? {
      FiltersFromMembership(c, Filter(Velocity, Ge, Number(c.velocityMin.value)));
    }
    if c.velocityMax.Some? {
      FiltersFromMembership(c, Filter(Velocity, Le, Number(c.velocityMax.value)));
    }
    if c.diameterMin.Some? {
      FiltersFromMembership(c, Filter(Diameter, Ge, Number(c.diameterMin.value)));
    }
    if c.diameterMax.Some? {
      FiltersFromMembership(c, Filter(Diameter, Le, Number(c.diameterMax.value)));
    }
    if c.hazardous.Some? {
      FiltersFromMembership(c, Filter(Hazardous, Eq, Flag(c.hazardous.value)));
    }
  }

  /** An approach that passes every filter built from `c` meets each given criterion of `c`. */
  lemma CriteriaMetWhenAccepted(c: Criteria, a: CloseApproach)
    requires AcceptsAll(FiltersFrom(c), a)
    ensures MeetsCriteria(c, a)
  {
    GivenCriteriaPresent(c);
    DateCriteriaMet(c, a);
    ApproachCriteriaMet(c, a);
    NeoCriteriaMet(c, a);
  }

  /** An approach that passes every filter built from `c` meets the calendar-date criteria of `c`. */
  lemma DateCriteriaMet(c: Criteria, a: CloseApproach)
    requires AcceptsAll(FiltersFrom(c), a)
    requires c.date.Some? ==> Filter(Date, Eq, DateValue(c.date.value)) in FiltersFrom(c)
    requires c.startDate.Some? ==> Filter(Date, Ge, DateValue(c.startDate.value)) in FiltersFrom(c)
    requires c.endDate.Some? ==> Filter(Date, Le, DateValue(c.endDate.value)) in FiltersFrom(c)
    ensures c.date.Some? ==> DateOf(a.time) == c.date.value
    ensures c.startDate.Some? ==> DateOf(a.time) >= c.startDate.value
    ensures c.endDate.Some? ==> DateOf(a.time) <= c.endDate.value
  {
    if c.date.Some? {
      AcceptsAllMember(FiltersFrom(c), Filter(Date, Eq, DateValue(c.date.value)), a);
    }
    if c.startDate.Some? {
      AcceptsAllMember(FiltersFrom(c), Filter(Date, Ge, DateValue(c.startDate.value)), a);
    }
    if c.endDate.Some? {
      AcceptsAllMember(FiltersFrom(c), Filter(Date, Le, DateValue(c.endDate.value)), a);
    }
  }

  /** An approach that passes every filter built from `c` meets the distance and velocity criteria of `c`. */
  lemma ApproachCriteriaMet(c: Criteria, a: CloseApproach)
    requires AcceptsAll(FiltersFrom(c), a)
    requires c.distanceMin.Some? ==> Filter(Distance, Ge, Number(c.distanceMin.value)) in FiltersFrom(c)
    requires c.distanceMax.Some? ==> Filter(Distance, Le, Number(c.distanceMax.value)) in FiltersFrom(c)
    requires c.velocityMin.Some? ==> Filter(Velocity, Ge, Number(c.velocityMin.value)) in FiltersFrom(c)
    requires c.velocityMax.Some? ==> Filter(Velocity, Le, Number(c.velocityMax.value)) in FiltersFrom(c)
    ensures c.distanceMin.Some? ==> a.distance >= c.distanceMin.value
    ensures c.distanceMax.Some? ==> a.distance <= c.distanceMax.value
    ensures c.velocityMin.Some? ==> a.velocity >= c.velocityMin.value
    ensures c.velocityMax.Some? ==> a.velocity <= c.velocityMax.value
  {
    if c.distanceMin.Some? {
      AcceptsAllMember(FiltersFrom(c), Filter(Distance, Ge, Number(c.distanceMin.value)), a);
    }
    if c.distanceMax.Some? {
      AcceptsAllMember(FiltersFrom(c), Filter(Distance, Le, Number(c.distanceMax.value)), a);
    }
    if c.velocityMin.Some? {
      AcceptsAllMember(FiltersFrom(c), Filter(Velocity, Ge, Number(c.velocityMin.value)), a);
    }
    if c.velocityMax.Some? {
      AcceptsAllMember(FiltersFrom(c), Filter(Velocity, Le, Number(c.velocityMax.value)), a);
    }
  }

  /** An approach that passes every filter built from `c` meets the criteria on the linked NEO (diameter and hazard flag) of `c`. */
  lemma NeoCriteriaMet(c: Criteria, a: CloseApproach)
    requires AcceptsAll(FiltersFrom(c), a)
    requires c.diameterMin.Some? ==> Filter(Diameter, Ge, Number(c.diameterMin.value)) in FiltersFrom(c)
    requires c.diameterMax.Some? ==> Filter(Diameter, Le, Number(c.diameterMax.value)) in FiltersFrom(c)
    requires c.hazardous.Some? ==> Filter(Hazardous, Eq, Flag(c.hazardous.value)) in FiltersFrom(c)
    ensures c.diameterMin.Some? ==> a.neo.diameter >= c.diameterMin.value
    ensures c.diameterMax.Some? ==> a.neo.diameter <= c.diameterMax.value
    ensures c.hazardous.Some? ==> a.neo.hazardous == c.hazardous.value
  {
    if c.diameterMin.Some? {
      AcceptsAllMember(FiltersFrom(c), Filter(Diameter, Ge, Number(c.diameterMin.value)), a);
    }
    if c.diameterMax.Some? {
      AcceptsAllMember(FiltersFrom(c), Filter(Diameter, Le, Number(c.diameterMax.value)), a);
    }
    if c.hazardous.Some? {
      AcceptsAllMember(FiltersFrom(c), Filter(Hazardous, Eq, Flag(c.hazardous.value)), a);
    }
  }

  /** A filter built from `c` accepts every approach that meets the criteria of `c`. */
  lemma AcceptedByCriteria(c: Criteria, a: CloseApproach, f: Filter)
    requires MeetsCriteria(c, a)
    requires f in FiltersFrom(c)
    ensures Accepts(f, a)
  {
    FilterOrigin(c, f);
    match f.kind
    case Date =>
      var d := DateOf(a.time);
      assert Get(Date, a) == Success(DateValue(d));
    case Distance =>
      assert Get(Distance, a) == Success(Number(a.distance));
    case Velocity =>
      assert Get(Velocity, a) == Success(Number(a.velocity));
    case Diameter =>
      assert Get(Diameter, a) == Success(Number(a.neo.diameter));
    case Hazardous =>
      assert Get(Hazardous, a) == Success(Flag(a.neo.hazardous));
    case Base =>
  }

  /** Contradictory bounds are no error: they simply match no approach. */
  lemma ContradictoryBoundsMatchNothing(c: Criteria, a: CloseApproach)
    requires || (c.startDate.Some? && c.endDate.Some? && c.startDate.value > c.endDate.value)
             || (c.distanceMin.Some? && c.distanceMax.Some? && c.distanceMin.value > c.distanceMax.value)
             || (c.velocityMin.Some? && c.velocityMax.Some? && c.velocityMin.value > c.velocityMax.value)
             || (c.diameterMin.Some? && c.diameterMax.Some? && c.diameterMin.value > c.diameterMax.value)
    ensures !AcceptsAll(FiltersFrom(c), a)
  {
    FiltersFromMeaning(c, a);
  }

  /**
   * A worked query: `distance_max=0.4, hazardous=True` gives a Distance `le`
   * filter and a Hazardous `eq` filter, in that order; of a hazardous
   * approach at 0.1 au, a harmless one at 0.5 au and a hazardous one at
   * 0.3 au, the first and third pass and the second fails.
   */
  lemma DistanceAndHazardExample(a: CloseApproach, b: CloseApproach, cc: CloseApproach)
    requires a.distance == 0.1 && a.neo.hazardous
    requires b.distance == 0.5 && !b.neo.hazardous
    requires cc.distance == 0.3 && cc.neo.hazardous
    ensures FiltersFrom(Criteria(distanceMax := Some(0.4), hazardous := Some(true)))
         == [Filter(Distance, Le, Number(0.4)), Filter(Hazardous, Eq, Flag(true))]
    ensures AcceptsAll(FiltersFrom(Criteria(distanceMax := Some(0.4), hazardous := Some(true))), a)
    ensures !AcceptsAll(FiltersFrom(Criteria(distanceMax := Some(0.4), hazardous := Some(true))), b)
    ensures AcceptsAll(FiltersFrom(Criteria(distanceMax := Some(0.4), hazardous := Some(true))), cc)
  {
    var c := Criteria(distanceMax := Some(0.4), hazardous := Some(true));
    FiltersFromMeaning(c, a);
    FiltersFromMeaning(c, b);
    FiltersFromMeaning(c, cc);
  }

  /**
   * `create_filters`: starts from an empty list and appends one filter per
   * criterion that is not `None`, in parameter order.
   */
  method CreateFilters(
    date: Option<int> := None, startDate: Option<int> := None, endDate: Option<int> := None,
    distanceMin: Option<real> := None, distanceMax: Option<real> := None,
    velocityMin: Option<real> := None, velocityMax: Option<real> := None,
    diameterMin: Option<real> := None, diameterMax: Option<real> := None,
    hazardous: Option<bool> := None)
    returns (filters: seq<Filter>)
    ensures filters == FiltersFrom(Criteria(date, startDate, endDate, distanceMin, distanceMax,
                                            velocityMin, velocityMax, diameterMin, diameterMax, hazardous))
  {
    filters := [];
    ghost var before0 := filters;
    if date.Some? {
      filters := filters + [Filter(Date, Eq, DateValue(date.value))];
    }
    assert filters == Append(before0, DateArgument(date), Date, Eq);
    ghost var before1 := filters;
    if startDate.Some? {
      filters := filters + [Filter(Date, Ge, DateValue(startDate.value))];
    }
    assert filters == Append(before1, DateArgument(startDate), Date, Ge);
    ghost var before2 := filters;
    if endDate.Some? {
      filters := filters + [Filter(Date, Le, DateValue(endDate.value))];
    }
    assert filters == Append(before2, DateArgument(endDate), Date, Le);
    ghost var before3 := filters;
    if distanceMin.Some? {
      filters := filters + [Filter(Distance, Ge, Number(distanceMin.value))];
    }
    assert filters == Append(before3, NumberArgument(distanceMin), Distance, Ge);
    ghost var before4 := filters;
    if distanceMax.Some? {
      filters := filters + [Filter(Distance, Le, Number(distanceMax.value))];
    }
    assert filters == Append(before4, NumberArgument(distanceMax), Distance, Le);
    ghost var before5 := filters;
    if velocityMin.Some? {
      filters := filters + [Filter(Velocity, Ge, Number(velocityMin.value))];
    }
    assert filters == Append(before5, NumberArgument(velocityMin), Velocity, Ge);
    ghost var before6 := filters;
    if velocityMax.Some? {
      filters := filters + [Filter(Velocity, Le, Number(velocityMax.value))];
    }
    assert filters == Append(before6, NumberArgument(velocityMax), Velocity, Le);
    ghost var before7 := filters;
    if diameterMin.Some? {
      filters := filters + [Filter(Diameter, Ge, Number(diameterMin.value))];
    }
    assert filters == Append(before7, NumberArgument(diameterMin), Diameter, Ge);
    ghost var before8 := filters;
    if diameterMax.Some? {
      filters := filters + [Filter(Diameter, Le, Number(diameterMax.value))];
    }
    assert filters == Append(before8, NumberArgument(diameterMax), Diameter, Le);
    ghost var before9 := filters;
    if hazardous.Some? {
      filters := filters + [Filter(Hazardous, Eq, Flag(hazardous.value))];
    }
    assert filters == Append(before9, FlagArgument(hazardous), Hazardous, Eq);
  }
}
