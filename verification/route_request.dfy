/** The matrix of a planning attempt: one location for the traveller and one for
    each remaining activity, and a table for each travel mode they need. */
module RouteRequests {
  import opened Domain
  import opened Grids
  import opened Proposals
  import opened TripEvents
  import opened TripStates
  import opened PlanningInputAssembly

  datatype RouteRequest = RouteRequest(locations: seq<Location>, modes: seq<TravelMode>)

  function ActivityOf(activities: seq<Activity>, segment: Segment): Activity
    requires Has(activities, segment.id)
  {
    activities[ActivityIndex(activities, segment.id).value]
  }

  function LocationsOf(activities: seq<Activity>, segments: seq<Segment>): seq<Location>
    requires AllHave(activities, segments)
  {
    seq(|segments|, i requires 0 <= i < |segments| && Has(activities, segments[i].id) => ActivityOf(activities, segments[i]).location)
  }

  function ModesOf(activities: seq<Activity>, segments: seq<Segment>): seq<TravelMode>
    requires AllHave(activities, segments)
  {
    seq(|segments|, i requires 0 <= i < |segments| && Has(activities, segments[i].id) => ActivityOf(activities, segments[i]).inboundMode)
  }

  function MakeRequest(s: TripState): Option<RouteRequest> {
    var k, segments := PreservedCount(s), s.plan.segments;
    if k > |segments| then None
    else if k == |segments| then Some(RouteRequest([s.observation.location.GetOr(Location(0.0, 0.0))], []))
    else if s.observation.location.None? || !AllHave(s.activities, segments[k..]) then None
    else Some(RouteRequest([s.observation.location.value] + LocationsOf(s.activities, segments[k..]),
                           ModesOf(s.activities, segments[k..])))
  }

  /** `make_route_request`. */
  method MakeRouteRequest(s: TripState) returns (r: Option<RouteRequest>)
    ensures r == MakeRequest(s)
  {
    var preserved := s.prefix;
    if s.current.Some? {
      preserved := preserved + 1;
    }
    if preserved > |s.plan.segments| {
      return None;
    }
    if preserved == |s.plan.segments| {
      return Some(RouteRequest([s.observation.location.GetOr(Location(0.0, 0.0))], []));
    }
    if s.observation.location.None? {
      return None;
    }
    var locations, modes := [s.observation.location.value], [];
    var rest := s.plan.segments[preserved..];
    for i := 0 to |rest|
      invariant AllHave(s.activities, rest[..i])
      invariant locations == [s.observation.location.value] + LocationsOf(s.activities, rest[..i])
      invariant modes == ModesOf(s.activities, rest[..i])
    {
      var index := ActivityIndex(s.activities, rest[i].id);
      if index.None? {
        return None;
      }
      locations := locations + [s.activities[index.value].location];
      modes := modes + [s.activities[index.value].inboundMode];
      assert rest[..i + 1] == rest[..i] + [rest[i]];
    }
    assert rest[..|rest|] == rest;
    r := Some(RouteRequest(locations, modes));
  }

  /** A valid state always gives a request of the right size, except that it
      must know where the traveller is if anything remains. */
  lemma {:induction false} RequestFits(s: TripState)
    requires s.Valid()
    ensures MakeRequest(s).Some? <==> PreservedCount(s) == |s.plan.segments| || s.observation.location.Some?
    ensures MakeRequest(s).Some? ==>
      var r := MakeRequest(s).value;
      |r.locations| == |r.modes| + 1 && |r.modes| + PreservedCount(s) == |s.plan.segments|
  {
    ValidStateFacts(s);
  }

  // ----- the provider's tables -----

  datatype Lookup = Table(matrix: Matrix, stale: bool) | NoTable

  type Provider = (seq<Location>, TravelMode) -> Lookup

  /** The provider gives a table of the right size for a mode the request needs. */
  predicate Serves(provider: Provider, r: RouteRequest, mode: TravelMode) {
    mode in r.modes ==>
      var table := provider(r.locations, mode); table.Table? && table.matrix.count == |r.locations|
  }

  predicate ServesAll(provider: Provider, r: RouteRequest) {
    Serves(provider, r, Walking) && Serves(provider, r, Driving)
  }

  predicate StaleFor(provider: Provider, r: RouteRequest, mode: TravelMode) {
    mode in r.modes && provider(r.locations, mode).Table? && provider(r.locations, mode).stale
  }

  /** Nothing leads back to the start; everything else is by the mode in which
      the destination is reached. */
  function RouteCell(provider: Provider, r: RouteRequest): (nat, nat) -> RouteEstimate {
    (o: nat, d: nat) =>
      if d == 0 then RouteEstimate(0, 0, o == 0)
      else if o < |r.locations| && d < |r.locations| && d <= |r.modes| && ServesAll(provider, r)
      then ModeCell(provider, r, r.modes[d - 1], o, d)
      else RouteEstimate(0, 0, false)
  }

  function ModeCell(provider: Provider, r: RouteRequest, mode: TravelMode, o: nat, d: nat): (e: RouteEstimate)
    requires ServesAll(provider, r) && mode in r.modes && o < |r.locations| && d < |r.locations|
    ensures e.Valid()
  {
    assert Serves(provider, r, mode) by { assert mode == Walking || mode == Driving; }
    provider(r.locations, mode).matrix.At(o, d)
  }

  predicate IsEstimate(e: RouteEstimate) { e.Valid() }

  function Combined(provider: Provider, r: RouteRequest): Matrix {
    var n := |r.locations|;
    RowMajorHolds(RouteCell(provider, r), n, n, IsEstimate);
    RawMatrix(n, RowMajor(RouteCell(provider, r), n, n))
  }

  datatype Acquired = Acquired(matrix: Matrix, quality: RoutingQuality)

  const HERE: RouteEstimate := RouteEstimate(0, 0, true)

  function AcquireMatrix(s: TripState, provider: Provider): Option<Acquired> {
    var r := MakeRequest(s);
    if r.None? then None
    else if |r.value.locations| == 1 then Some(Acquired(RawMatrix(1, [HERE]), Fresh))
    else if !ServesAll(provider, r.value) then None
    else Some(Acquired(Combined(provider, r.value),
                       if StaleFor(provider, r.value, Walking) || StaleFor(provider, r.value, Driving) then StaleCache else Fresh))
  }

  /** What is acquired has one location more than there are activities left. */
  lemma {:induction false} AcquiredFits(s: TripState, provider: Provider)
    requires s.Valid()
    ensures AcquireMatrix(s, provider).Some? <==>
      PreservedCount(s) == |s.plan.segments|
      || (s.observation.location.Some? && ServesAll(provider, MakeRequest(s).value))
    ensures AcquireMatrix(s, provider).Some? ==>
      AcquireMatrix(s, provider).value.matrix.count + PreservedCount(s) == |s.plan.segments| + 1
  {
    RequestFits(s);
  }

  /** Each leg of the combined matrix is the one of its destination's mode. */
  lemma {:induction false} CombinedAt(provider: Provider, r: RouteRequest, o: nat, d: nat)
    requires ServesAll(provider, r) && |r.locations| == |r.modes| + 1 && o < |r.locations| && d < |r.locations|
    ensures Combined(provider, r).At(o, d)
         == if d == 0 then RouteEstimate(0, 0, o == 0) else ModeCell(provider, r, r.modes[d - 1], o, d)
  {
    RowMajorAt(RouteCell(provider, r), |r.locations|, |r.locations|, o, d);
  }

  // ----- the loops -----

  /** Asks for one mode's table; the second part is whether the attempt may go on. */
  method AskFor(provider: Provider, r: RouteRequest, mode: TravelMode) returns (table: Lookup, ok: bool)
    ensures ok <==> Serves(provider, r, mode)
    ensures ok && mode in r.modes ==> table == provider(r.locations, mode)
    ensures mode !in r.modes ==> table.NoTable?
  {
    table, ok := NoTable, true;
    if mode in r.modes {
      table := provider(r.locations, mode);
      ok := table.Table? && table.matrix.count == |r.locations|;
    }
  }

  method CombineRow(provider: Provider, r: RouteRequest, walking: Lookup, driving: Lookup, o: nat) returns (row: seq<RouteEstimate>)
    requires ServesAll(provider, r) && |r.locations| == |r.modes| + 1 && o < |r.locations|
    requires Walking in r.modes ==> walking == provider(r.locations, Walking)
    requires Driving in r.modes ==> driving == provider(r.locations, Driving)
    ensures row == Row(RouteCell(provider, r), o, |r.locations|)
  {
    row := [];
    for d := 0 to |r.locations|
      invariant row == Row(RouteCell(provider, r), o, d)
    {
      if d == 0 {
        row := row + [RouteEstimate(0, 0, o == 0)];
      } else {
        var mode := r.modes[d - 1];
        var source := if mode.Walking? then walking else driving;
        row := row + [source.matrix.At(o, d)];
      }
    }
  }

  /** `acquire_matrix`, without its clock and its failure codes. */
  method Acquire(s: TripState, provider: Provider) returns (r: Option<Acquired>)
    ensures r == AcquireMatrix(s, provider)
  {
    var request := MakeRouteRequest(s);
    if request.None? {
      return None;
    }
    var n := |request.value.locations|;
    if n == 1 {
      return Some(Acquired(RawMatrix(1, [HERE]), Fresh));
    }
    var walking, served := AskFor(provider, request.value, Walking);
    if !served {
      return None;
    }
    var driving;
    driving, served := AskFor(provider, request.value, Driving);
    if !served {
      return None;
    }
    var estimates := [];
    for o := 0 to n
      invariant estimates == RowMajor(RouteCell(provider, request.value), o, n)
    {
      var row := CombineRow(provider, request.value, walking, driving, o);
      estimates := estimates + row;
    }
    var quality := if (walking.Table? && walking.stale) || (driving.Table? && driving.stale) then StaleCache else Fresh;
    assert RawMatrix(n, estimates) == Combined(provider, request.value);
    r := Some(Acquired(RawMatrix(n, estimates), quality));
  }
}
