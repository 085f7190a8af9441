/** A travel-time matrix assembled from fresh cache hits and one fetched grid. */
module MatrixAssembly {
  import opened Domain
  import opened Grids
  import opened RouteCacheTable
  import opened RouteCacheShard

  /** A location rounded for the cache. */
  datatype Cell = Cell(latitude: int32, longitude: int32)

  /** What a lookup is made for: the provider's dataset, the mode and the moment. */
  datatype Query = Query(mode: TravelMode, provider: uint32, now: int)

  function KeyFor(q: Query, origin: Cell, destination: Cell): CacheKey {
    CacheKey(origin.latitude, origin.longitude, destination.latitude, destination.longitude, 0, q.mode, q.provider)
  }

  datatype ProviderError = Unavailable | TooLarge | Exhausted | CancelledError | DeadlineError | InternalError

  datatype Fetched = Grid(rows: nat, columns: nat, estimates: seq<RouteEstimate>) | FetchFailed(error: ProviderError) {
    function At(row: nat, column: nat): RouteEstimate
      requires Grid? && row < rows && column < columns && |estimates| == rows * columns
    {
      GridIndex(row, column, rows, columns);
      estimates[row * columns + column]
    }
  }

  datatype MatrixResult = Found(matrix: RawMatrix, stale: bool) | NotFound(error: ProviderError)

  // ----- the cells of a matrix -----

  /** The cache's answer for each pair. */
  function CachedCell(contents: map<CacheKey, Entry>, q: Query, cells: seq<Cell>, stale: bool): (nat, nat) -> Option<RouteEstimate> {
    (o: nat, d: nat) => if o < |cells| && d < |cells| then Answer(contents, KeyFor(q, cells[o], cells[d]), q.now, stale) else None
  }

  /** The provider's answer for each pair. */
  function TravelCell(travel: (Cell, Cell) -> RouteEstimate, cells: seq<Cell>): (nat, nat) -> RouteEstimate {
    (o: nat, d: nat) => if o < |cells| && d < |cells| then travel(cells[o], cells[d]) else RouteEstimate(0, 0, false)
  }

  /** The table one request for every pair would give. */
  function FullTable(travel: (Cell, Cell) -> RouteEstimate, cells: seq<Cell>): RawMatrix {
    RawMatrix(|cells|, RowMajor(TravelCell(travel, cells), |cells|, |cells|))
  }

  function CellIndex(cells: seq<Cell>, c: Cell): (r: nat)
    ensures r <= |cells| && (r < |cells| ==> cells[r] == c) && (r == |cells| <==> c !in cells)
  {
    if cells == [] then 0
    else if cells[0] == c then 0
    else CellIndex(cells[1..], c) + 1
  }

  // ----- looking everything up -----

  /** A pair the cache does not answer has its cells on the lists to fetch. */
  predicate Listed(f: (nat, nat) -> Option<RouteEstimate>, cells: seq<Cell>, sources: seq<Cell>, destinations: seq<Cell>,
                   o: nat, d: nat)
  {
    o < |cells| && d < |cells| && f(o, d).None? ==> cells[o] in sources && cells[d] in destinations
  }

  function Included(list: seq<Cell>, c: Cell): (r: seq<Cell>)
    ensures c in r && (forall x | x in list :: x in r) && (forall x | x in r :: x in list || x == c)
    ensures Distinct(list) ==> Distinct(r)
  {
    if CellIndex(list, c) == |list| then list + [c] else list
  }

  /** The lists cover the first `d` pairs of a row. */
  predicate RowListed(f: (nat, nat) -> Option<RouteEstimate>, cells: seq<Cell>, lists: (seq<Cell>, seq<Cell>), o: nat, d: nat) {
    forall j | 0 <= j < d :: Listed(f, cells, lists.0, lists.1, o, j)
  }

  /** The lists only grow, and hold each cell once. */
  predicate Grown(before: (seq<Cell>, seq<Cell>), after: (seq<Cell>, seq<Cell>)) {
    && Distinct(after.0) && Distinct(after.1)
    && (forall x | x in before.0 :: x in after.0) && (forall x | x in before.1 :: x in after.1)
  }

  lemma {:induction false} GrownStaysListed(f: (nat, nat) -> Option<RouteEstimate>, cells: seq<Cell>,
                                            before: (seq<Cell>, seq<Cell>), after: (seq<Cell>, seq<Cell>), o: nat, d: nat)
    requires Grown(before, after) && RowListed(f, cells, before, o, d)
    ensures RowListed(f, cells, after, o, d)
  {
    forall j | 0 <= j < d ensures Listed(f, cells, after.0, after.1, o, j) {
      assert Listed(f, cells, before.0, before.1, o, j);
    }
  }

  method NoteMiss(ghost f: (nat, nat) -> Option<RouteEstimate>, cells: seq<Cell>, lists: (seq<Cell>, seq<Cell>), o: nat, d: nat,
                  miss: bool)
    returns (after: (seq<Cell>, seq<Cell>))
    requires Grown(lists, lists) && RowListed(f, cells, lists, o, d) && o < |cells| && d < |cells| && miss == f(o, d).None?
    ensures Grown(lists, after) && RowListed(f, cells, after, o, d + 1)
  {
    after := lists;
    if miss {
      after := (Included(lists.0, cells[o]), Included(lists.1, cells[d]));
      GrownStaysListed(f, cells, lists, after, o, d);
    }
  }

  method LookUpRow(cache: Shard, q: Query, cells: seq<Cell>, o: nat, lists: (seq<Cell>, seq<Cell>))
    returns (row: seq<Option<RouteEstimate>>, after: (seq<Cell>, seq<Cell>))
    requires cache.Valid() && o < |cells| && Grown(lists, lists)
    modifies cache.slots
    ensures cache.Valid() && cache.Map() == old(cache.Map())
    ensures row == Row(CachedCell(cache.Map(), q, cells, false), o, |cells|)
    ensures Grown(lists, after) && RowListed(CachedCell(cache.Map(), q, cells, false), cells, after, o, |cells|)
  {
    ghost var f := CachedCell(cache.Map(), q, cells, false);
    row, after := [], lists;
    for d := 0 to |cells|
      invariant cache.Valid() && cache.Map() == old(cache.Map())
      invariant row == Row(f, o, d)
      invariant Grown(lists, after) && RowListed(f, cells, after, o, d)
    {
      var hit := cache.Lookup(KeyFor(q, cells[o], cells[d]), q.now, false);
      row := row + [hit];
      after := NoteMiss(f, cells, after, o, d, hit.None?);
    }
  }

  /** Everything the cache has, and the cells of what it has not. */
  method LookUpAll(cache: Shard, q: Query, cells: seq<Cell>)
    returns (assembled: seq<Option<RouteEstimate>>, lists: (seq<Cell>, seq<Cell>))
    requires cache.Valid()
    modifies cache.slots
    ensures cache.Valid() && cache.Map() == old(cache.Map())
    ensures assembled == RowMajor(CachedCell(cache.Map(), q, cells, false), |cells|, |cells|)
    ensures Grown(lists, lists)
    ensures forall o | 0 <= o < |cells| :: RowListed(CachedCell(cache.Map(), q, cells, false), cells, lists, o, |cells|)
  {
    ghost var f := CachedCell(cache.Map(), q, cells, false);
    assembled, lists := [], ([], []);
    for o := 0 to |cells|
      invariant cache.Valid() && cache.Map() == old(cache.Map())
      invariant assembled == RowMajor(f, o, |cells|)
      invariant Grown(lists, lists)
      invariant forall i | 0 <= i < o :: RowListed(f, cells, lists, i, |cells|)
    {
      ghost var before := lists;
      var row;
      row, lists := LookUpRow(cache, q, cells, o, lists);
      forall i | 0 <= i < o ensures RowListed(f, cells, lists, i, |cells|) {
        GrownStaysListed(f, cells, before, lists, i, |cells|);
      }
      assembled := assembled + row;
    }
  }

  // ----- the one request -----

  function Pick(cells: seq<Cell>, indexes: seq<nat>): seq<Cell>
    requires forall i | 0 <= i < |indexes| :: indexes[i] < |cells|
  {
    seq(|indexes|, i requires 0 <= i < |indexes| => cells[indexes[i]])
  }

  /** A request names the cells once and the sources and destinations by position. */
  method BuildRequest(lists: (seq<Cell>, seq<Cell>)) returns (combined: seq<Cell>, sources: seq<nat>, destinations: seq<nat>)
    requires Distinct(lists.0)
    ensures Distinct(combined)
    ensures (forall i | 0 <= i < |sources| :: sources[i] < |combined|) && Pick(combined, sources) == lists.0
    ensures (forall i | 0 <= i < |destinations| :: destinations[i] < |combined|) && Pick(combined, destinations) == lists.1
  {
    combined := lists.0;
    for i := 0 to |lists.1|
      invariant Distinct(combined) && (forall x | x in lists.0 :: x in combined)
      invariant forall j | 0 <= j < i :: lists.1[j] in combined
    {
      combined := Included(combined, lists.1[i]);
    }
    sources := Positions(combined, lists.0);
    destinations := Positions(combined, lists.1);
  }

  method Positions(combined: seq<Cell>, part: seq<Cell>) returns (indexes: seq<nat>)
    requires forall i | 0 <= i < |part| :: part[i] in combined
    ensures (forall i | 0 <= i < |indexes| :: indexes[i] < |combined|) && Pick(combined, indexes) == part
  {
    indexes := [];
    for i := 0 to |part|
      invariant |indexes| == i && forall j | 0 <= j < i :: indexes[j] < |combined| && combined[indexes[j]] == part[j]
    {
      indexes := indexes + [CellIndex(combined, part[i])];
    }
  }

  /** The response has the shape that was asked for. */
  predicate Shaped(g: Fetched, rows: nat, columns: nat) {
    g.Grid? ==>
      && g.rows == rows && g.columns == columns && |g.estimates| == rows * columns
      && forall k | 0 <= k < |g.estimates| :: g.estimates[k].Valid()
  }

  type Fetch = (seq<Cell>, seq<nat>, seq<nat>) -> Fetched

  ghost predicate WellShaped(fetch: Fetch) {
    forall cells, sources, destinations :: Shaped(fetch(cells, sources, destinations), |sources|, |destinations|)
  }

  /** A grid whose entries are a function of the two cells. */
  ghost predicate GridOf(g: Fetched, travel: (Cell, Cell) -> RouteEstimate, sources: seq<Cell>, destinations: seq<Cell>)
    requires Shaped(g, |sources|, |destinations|)
  {
    g.Grid? ==> forall s, d | 0 <= s < |sources| && 0 <= d < |destinations| :: g.At(s, d) == travel(sources[s], destinations[d])
  }

  ghost predicate FixedProvider(fetch: Fetch, travel: (Cell, Cell) -> RouteEstimate)
    requires WellShaped(fetch)
  {
    forall cells, sources: seq<nat>, destinations: seq<nat>
      | (forall i | 0 <= i < |sources| :: sources[i] < |cells|) && (forall i | 0 <= i < |destinations| :: destinations[i] < |cells|)
      :: GridOf(fetch(cells, sources, destinations), travel, Pick(cells, sources), Pick(cells, destinations))
  }

  // ----- remembering what was fetched -----

  /** What the cache holds for the query's dataset and mode is what the provider answers. */
  ghost predicate Trusted(contents: map<CacheKey, Entry>, q: Query, travel: (Cell, Cell) -> RouteEstimate) {
    forall a, b | KeyFor(q, a, b) in contents :: contents[KeyFor(q, a, b)].estimate == travel(a, b)
  }

  lemma {:induction false} TrustGrows(contents: map<CacheKey, Entry>, q: Query, travel: (Cell, Cell) -> RouteEstimate,
                                      gone: set<CacheKey>, a: Cell, b: Cell, estimate: RouteEstimate)
    requires Trusted(contents, q, travel) && estimate == travel(a, b)
    ensures Trusted((contents - gone)[KeyFor(q, a, b) := Entry(estimate, q.now)], q, travel)
  {
  }

  method Remember(cache: Shard, q: Query, lists: (seq<Cell>, seq<Cell>), grid: Fetched, ghost travel: (Cell, Cell) -> RouteEstimate)
    requires cache.Valid() && grid.Grid? && Shaped(grid, |lists.0|, |lists.1|)
    modifies cache`hand, cache`entries, cache`latest, cache.slots
    ensures cache.Valid()
    ensures GridOf(grid, travel, lists.0, lists.1) && Trusted(old(cache.Map()), q, travel) ==> Trusted(cache.Map(), q, travel)
  {
    ghost var sound := GridOf(grid, travel, lists.0, lists.1) && Trusted(cache.Map(), q, travel);
    for s := 0 to |lists.0|
      invariant cache.Valid() && (sound ==> Trusted(cache.Map(), q, travel))
    {
      for d := 0 to |lists.1|
        invariant cache.Valid() && (sound ==> Trusted(cache.Map(), q, travel))
      {
        RememberOne(cache, q, lists.0[s], lists.1[d], grid.At(s, d), travel, sound);
      }
    }
  }

  method RememberOne(cache: Shard, q: Query, a: Cell, b: Cell, estimate: RouteEstimate,
                     ghost travel: (Cell, Cell) -> RouteEstimate, ghost sound: bool)
    requires cache.Valid() && (sound ==> Trusted(cache.Map(), q, travel) && estimate == travel(a, b))
    modifies cache`hand, cache`entries, cache`latest, cache.slots
    ensures cache.Valid() && (sound ==> Trusted(cache.Map(), q, travel))
  {
    ghost var before := cache.Map();
    ghost var gone := cache.Insert(KeyFor(q, a, b), estimate, q.now);
    if sound {
      TrustGrows(before, q, travel, if gone.Some? then {gone.value} else {}, a, b, estimate);
    }
  }

  // ----- filling the table -----

  /** The cached answer, or the grid's. */
  function FilledCell(f: (nat, nat) -> Option<RouteEstimate>, cells: seq<Cell>, lists: (seq<Cell>, seq<Cell>), grid: Fetched)
    : (nat, nat) -> Option<RouteEstimate>
    requires grid.Grid? && Shaped(grid, |lists.0|, |lists.1|)
  {
    (o: nat, d: nat) =>
      if f(o, d).Some? then f(o, d)
      else if o < |cells| && d < |cells| && CellIndex(lists.0, cells[o]) < |lists.0| && CellIndex(lists.1, cells[d]) < |lists.1|
      then Some(grid.At(CellIndex(lists.0, cells[o]), CellIndex(lists.1, cells[d])))
      else None
  }

  method FillRow(ghost f: (nat, nat) -> Option<RouteEstimate>, assembled: seq<Option<RouteEstimate>>, cells: seq<Cell>,
                 lists: (seq<Cell>, seq<Cell>), grid: Fetched, o: nat)
    returns (row: seq<Option<RouteEstimate>>)
    requires grid.Grid? && Shaped(grid, |lists.0|, |lists.1|) && o < |cells|
    requires assembled == RowMajor(f, |cells|, |cells|) && RowListed(f, cells, lists, o, |cells|)
    ensures row == Row(FilledCell(f, cells, lists, grid), o, |cells|)
    ensures forall d | 0 <= d < |row| :: row[d].Some?
  {
    row := [];
    for d := 0 to |cells|
      invariant row == Row(FilledCell(f, cells, lists, grid), o, d)
      invariant forall j | 0 <= j < d :: row[j].Some?
    {
      RowMajorAt(f, |cells|, |cells|, o, d);
      assert Listed(f, cells, lists.0, lists.1, o, d);
      var known := assembled[o * |cells| + d];
      if known.Some? {
        row := row + [known];
      } else {
        row := row + [Some(grid.At(CellIndex(lists.0, cells[o]), CellIndex(lists.1, cells[d])))];
      }
    }
  }

  method Fill(ghost f: (nat, nat) -> Option<RouteEstimate>, assembled: seq<Option<RouteEstimate>>, cells: seq<Cell>,
              lists: (seq<Cell>, seq<Cell>), grid: Fetched)
    returns (filled: seq<Option<RouteEstimate>>)
    requires grid.Grid? && Shaped(grid, |lists.0|, |lists.1|)
    requires assembled == RowMajor(f, |cells|, |cells|)
    requires forall o | 0 <= o < |cells| :: RowListed(f, cells, lists, o, |cells|)
    ensures filled == RowMajor(FilledCell(f, cells, lists, grid), |cells|, |cells|)
    ensures forall k | 0 <= k < |filled| :: filled[k].Some?
  {
    filled := [];
    for o := 0 to |cells|
      invariant filled == RowMajor(FilledCell(f, cells, lists, grid), o, |cells|)
      invariant forall k | 0 <= k < |filled| :: filled[k].Some?
    {
      var row := FillRow(f, assembled, cells, lists, grid, o);
      filled := filled + row;
    }
  }

  function Unwrapped(s: seq<Option<RouteEstimate>>): seq<RouteEstimate> {
    seq(|s|, k requires 0 <= k < |s| => s[k].GetOr(RouteEstimate(0, 0, false)))
  }

  /** The estimates, or nothing if one is missing. */
  method Collect(assembled: seq<Option<RouteEstimate>>) returns (r: Option<seq<RouteEstimate>>)
    ensures r.Some? <==> forall k | 0 <= k < |assembled| :: assembled[k].Some?
    ensures r.Some? ==> r.value == Unwrapped(assembled)
  {
    var estimates := [];
    for k := 0 to |assembled|
      invariant estimates == Unwrapped(assembled[..k])
      invariant forall j | 0 <= j < k :: assembled[j].Some?
    {
      if assembled[k].None? {
        return None;
      }
      estimates := estimates + [assembled[k].value];
    }
    assert assembled[..|assembled|] == assembled;
    r := Some(estimates);
  }

  // ----- falling back on stale entries -----

  /** The fresh answer, or else the stale one. */
  function EitherCell(contents: map<CacheKey, Entry>, q: Query, cells: seq<Cell>): (nat, nat) -> Option<RouteEstimate> {
    (o: nat, d: nat) =>
      if CachedCell(contents, q, cells, false)(o, d).Some? then CachedCell(contents, q, cells, false)(o, d)
      else CachedCell(contents, q, cells, true)(o, d)
  }

  method StaleRow(cache: Shard, q: Query, cells: seq<Cell>, assembled: seq<Option<RouteEstimate>>, o: nat)
    returns (row: seq<Option<RouteEstimate>>, complete: bool)
    requires cache.Valid() && o < |cells|
    requires assembled == RowMajor(CachedCell(cache.Map(), q, cells, false), |cells|, |cells|)
    modifies cache.slots
    ensures cache.Valid() && cache.Map() == old(cache.Map())
    ensures complete <==> forall d | 0 <= d < |cells| :: EitherCell(cache.Map(), q, cells)(o, d).Some?
    ensures complete ==> row == Row(EitherCell(cache.Map(), q, cells), o, |cells|)
  {
    ghost var g := EitherCell(cache.Map(), q, cells);
    row, complete := [], true;
    for d := 0 to |cells|
      invariant cache.Valid() && cache.Map() == old(cache.Map())
      invariant row == Row(g, o, d) && forall j | 0 <= j < d :: g(o, j).Some?
    {
      var known := StaleCell(cache, q, cells, assembled, o, d, g);
      if known.None? {
        return row, false;
      }
      row := row + [known];
    }
  }

  /** A cell that has no fresh answer is looked up again for a stale one. */
  method StaleCell(cache: Shard, q: Query, cells: seq<Cell>, assembled: seq<Option<RouteEstimate>>, o: nat, d: nat,
                   ghost g: (nat, nat) -> Option<RouteEstimate>)
    returns (r: Option<RouteEstimate>)
    requires cache.Valid() && o < |cells| && d < |cells| && g == EitherCell(cache.Map(), q, cells)
    requires assembled == RowMajor(CachedCell(cache.Map(), q, cells, false), |cells|, |cells|)
    modifies cache.slots
    ensures cache.Valid() && cache.Map() == old(cache.Map()) && r == g(o, d)
  {
    RowMajorAt(CachedCell(cache.Map(), q, cells, false), |cells|, |cells|, o, d);
    r := assembled[o * |cells| + d];
    if r.None? {
      r := cache.Lookup(KeyFor(q, cells[o], cells[d]), q.now, true);
    }
  }

  method FillStale(cache: Shard, q: Query, cells: seq<Cell>, assembled: seq<Option<RouteEstimate>>)
    returns (r: Option<seq<Option<RouteEstimate>>>)
    requires cache.Valid() && assembled == RowMajor(CachedCell(cache.Map(), q, cells, false), |cells|, |cells|)
    modifies cache.slots
    ensures cache.Valid() && cache.Map() == old(cache.Map())
    ensures r.Some? <==> forall o, d | 0 <= o < |cells| && 0 <= d < |cells| :: EitherCell(cache.Map(), q, cells)(o, d).Some?
    ensures r.Some? ==> r.value == RowMajor(EitherCell(cache.Map(), q, cells), |cells|, |cells|)
    ensures r.Some? ==> forall k | 0 <= k < |r.value| :: r.value[k].Some?
  {
    ghost var g := EitherCell(cache.Map(), q, cells);
    var filled := [];
    for o := 0 to |cells|
      invariant cache.Valid() && cache.Map() == old(cache.Map())
      invariant filled == RowMajor(g, o, |cells|) && (forall k | 0 <= k < |filled| :: filled[k].Some?)
      invariant forall i, d | 0 <= i < o && 0 <= d < |cells| :: g(i, d).Some?
    {
      var row, complete := StaleRow(cache, q, cells, assembled, o);
      if !complete {
        return None;
      }
      filled := filled + row;
    }
    r := Some(filled);
  }

  // ----- the whole lookup -----

  function SomeCell(f: (nat, nat) -> RouteEstimate): (nat, nat) -> Option<RouteEstimate> {
    (o: nat, d: nat) => Some(f(o, d))
  }

  lemma {:induction false} UnwrappedRows(f: (nat, nat) -> RouteEstimate, rows: nat, n: nat)
    ensures Unwrapped(RowMajor(SomeCell(f), rows, n)) == RowMajor(f, rows, n)
  {
    if rows > 0 {
      UnwrappedRows(f, rows - 1, n);
      assert Unwrapped(Row(SomeCell(f), rows - 1, n)) == Row(f, rows - 1, n);
    }
  }

  /** A table whose every cell is the provider's answer is the full table. */
  lemma {:induction false} TableIsFull(h: (nat, nat) -> Option<RouteEstimate>, travel: (Cell, Cell) -> RouteEstimate, cells: seq<Cell>)
    requires forall o, d | 0 <= o < |cells| && 0 <= d < |cells| :: h(o, d) == Some(travel(cells[o], cells[d]))
    ensures RawMatrix(|cells|, Unwrapped(RowMajor(h, |cells|, |cells|))) == FullTable(travel, cells)
  {
    RowMajorAgrees(h, SomeCell(TravelCell(travel, cells)), |cells|, |cells|);
    UnwrappedRows(TravelCell(travel, cells), |cells|, |cells|);
  }

  lemma {:induction false} TrustedHit(contents: map<CacheKey, Entry>, q: Query, cells: seq<Cell>, travel: (Cell, Cell) -> RouteEstimate,
                                      stale: bool, o: nat, d: nat)
    requires Trusted(contents, q, travel) && o < |cells| && d < |cells|
    ensures var hit := CachedCell(contents, q, cells, stale)(o, d); hit.Some? ==> hit.value == travel(cells[o], cells[d])
  {
  }

  /** Fresh hits plus the grid make the full table. */
  lemma {:induction false} FilledIsFull(contents: map<CacheKey, Entry>, q: Query, cells: seq<Cell>, lists: (seq<Cell>, seq<Cell>),
                                        grid: Fetched, travel: (Cell, Cell) -> RouteEstimate)
    requires Trusted(contents, q, travel) && grid.Grid? && Shaped(grid, |lists.0|, |lists.1|)
    requires GridOf(grid, travel, lists.0, lists.1)
    requires forall o | 0 <= o < |cells| :: RowListed(CachedCell(contents, q, cells, false), cells, lists, o, |cells|)
    ensures RawMatrix(|cells|, Unwrapped(RowMajor(FilledCell(CachedCell(contents, q, cells, false), cells, lists, grid), |cells|, |cells|)))
            == FullTable(travel, cells)
  {
    var f := CachedCell(contents, q, cells, false);
    var h := FilledCell(f, cells, lists, grid);
    forall o, d | 0 <= o < |cells| && 0 <= d < |cells| ensures h(o, d) == Some(travel(cells[o], cells[d])) {
      TrustedHit(contents, q, cells, travel, false, o, d);
      assert RowListed(f, cells, lists, o, |cells|);
      assert Listed(f, cells, lists.0, lists.1, o, d);
    }
    TableIsFull(h, travel, cells);
  }

  lemma {:induction false} HitsAreFull(contents: map<CacheKey, Entry>, q: Query, cells: seq<Cell>, travel: (Cell, Cell) -> RouteEstimate)
    requires Trusted(contents, q, travel)
    requires forall k | 0 <= k < |cells| * |cells| :: RowMajor(CachedCell(contents, q, cells, false), |cells|, |cells|)[k].Some?
    ensures RawMatrix(|cells|, Unwrapped(RowMajor(CachedCell(contents, q, cells, false), |cells|, |cells|))) == FullTable(travel, cells)
  {
    var f := CachedCell(contents, q, cells, false);
    forall o, d | 0 <= o < |cells| && 0 <= d < |cells| ensures f(o, d) == Some(travel(cells[o], cells[d])) {
      TrustedHit(contents, q, cells, travel, false, o, d);
      RowMajorAt(f, |cells|, |cells|, o, d);
    }
    TableIsFull(f, travel, cells);
  }

  /** One grid request for the missing pairs, its answer remembered. */
  method FetchMissing(cache: Shard, q: Query, cells: seq<Cell>, lists: (seq<Cell>, seq<Cell>), assembled: seq<Option<RouteEstimate>>,
                      grid: Fetched, ghost travel: (Cell, Cell) -> RouteEstimate)
    returns (r: MatrixResult)
    requires cache.Valid() && grid.Grid? && Shaped(grid, |lists.0|, |lists.1|)
    requires assembled == RowMajor(CachedCell(cache.Map(), q, cells, false), |cells|, |cells|)
    requires forall o | 0 <= o < |cells| :: RowListed(CachedCell(cache.Map(), q, cells, false), cells, lists, o, |cells|)
    modifies cache`hand, cache`entries, cache`latest, cache.slots
    ensures cache.Valid() && r.Found? && !r.stale
    ensures GridOf(grid, travel, lists.0, lists.1) && Trusted(old(cache.Map()), q, travel) ==>
      Trusted(cache.Map(), q, travel) && r.matrix == FullTable(travel, cells)
  {
    ghost var contents := cache.Map();
    ghost var f := CachedCell(contents, q, cells, false);
    Remember(cache, q, lists, grid, travel);
    var filled := Fill(f, assembled, cells, lists, grid);
    var estimates := Collect(filled);
    if estimates.None? {
      return NotFound(Unavailable);
    }
    if GridOf(grid, travel, lists.0, lists.1) && Trusted(contents, q, travel) {
      FilledIsFull(contents, q, cells, lists, grid, travel);
    }
    r := Found(RawMatrix(|cells|, estimates.value), false);
  }

  /** `get_matrix_cached`.  For a provider that is a function of the two cells,
      and a cache that holds only its answers, the assembled matrix is the full
      table and the cache still holds only its answers.  Once a grid arrives no
      cell is missing.  When the provider is unavailable the stale entries stand
      in, if there is one for every pair without a fresh one. */
  method GetMatrixCached(cache: Shard, q: Query, cells: seq<Cell>, fetch: Fetch, ghost travel: (Cell, Cell) -> RouteEstimate)
    returns (r: MatrixResult, ghost fetched: Option<Fetched>)
    requires cache.Valid() && WellShaped(fetch)
    modifies cache`hand, cache`entries, cache`latest, cache.slots
    ensures cache.Valid()
    ensures FixedProvider(fetch, travel) && Trusted(old(cache.Map()), q, travel) ==>
      Trusted(cache.Map(), q, travel) && (r.Found? && !r.stale ==> r.matrix == FullTable(travel, cells))
    ensures fetched.None? || fetched.value.Grid? ==> r.Found? && !r.stale
    ensures fetched.Some? && fetched.value.FetchFailed? ==>
      if fetched.value.error != Unavailable then r == NotFound(fetched.value.error)
      else if forall o, d | 0 <= o < |cells| && 0 <= d < |cells| :: EitherCell(old(cache.Map()), q, cells)(o, d).Some?
      then r == Found(RawMatrix(|cells|, Unwrapped(RowMajor(EitherCell(old(cache.Map()), q, cells), |cells|, |cells|))), true)
      else r == NotFound(Unavailable)
  {
    ghost var contents := cache.Map();
    fetched := None;
    var assembled, lists := LookUpAll(cache, q, cells);
    var hits := Collect(assembled);
    if hits.Some? {
      if Trusted(contents, q, travel) { HitsAreFull(contents, q, cells, travel); }
      return Found(RawMatrix(|cells|, hits.value), false), fetched;
    }
    var combined, sources, destinations := BuildRequest(lists);
    var answer := fetch(combined, sources, destinations);
    assert Shaped(answer, |sources|, |destinations|) && |sources| == |lists.0| && |destinations| == |lists.1|;
    fetched := Some(answer);
    if answer.FetchFailed? {
      if answer.error != Unavailable {
        return NotFound(answer.error), fetched;
      }
      var stale := FillStale(cache, q, cells, assembled);
      if stale.None? {
        return NotFound(answer.error), fetched;
      }
      var estimates := Collect(stale.value);
      return Found(RawMatrix(|cells|, estimates.value), true), fetched;
    }
    r := FetchMissing(cache, q, cells, lists, assembled, answer, travel);
  }
}
