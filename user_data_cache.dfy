/** The client-side cache of the signed-in user's data: four kinds of
    resource, each with the instant of its last successful fetch, a
    five-minute time to live and a loading flag per kind. The request itself
    is an injected outcome, and `now` is a parameter. */
module Cache {
  import opened Domain

  /** Time to live of a cached value, in milliseconds (five minutes). */
  const CacheDuration: int := 5 * 60 * 1000

  datatype Kind = StatsKind | GoalsKind | ProgressKind | AnalyticsKind

  /** A cached value, one variant per kind. `S`, `G` and `A` are the shapes
      of the stats record, of one goal and of the analytics object; an absent
      stats or analytics object is `None` (the `null` of the cache). */
  datatype Data<S, G, A> =
    | StatsData(stats: Option<S>)
    | GoalsData(goals: seq<G>)
    | ProgressData(progress: map<string, bool>)
    | AnalyticsData(analytics: Option<A>)

  /** The body of a successful response; a goals body that is not an array
      is `GoalsBody(None)`. */
  datatype Body<S, G, A> =
    | StatsBody(stats: Option<S>)
    | GoalsBody(goals: Option<seq<G>>)
    | ProgressBody(progress: map<string, bool>)
    | AnalyticsBody(analytics: Option<A>)

  /** What a request came back with: an ok response and its body, a response
      that is not ok, or an exception. */
  datatype Outcome<T> = Delivered(body: T) | NotOk | Thrown

  function KindOf<S, G, A>(d: Data<S, G, A>): Kind
  {
    match d
    case StatsData(_) => StatsKind
    case GoalsData(_) => GoalsKind
    case ProgressData(_) => ProgressKind
    case AnalyticsData(_) => AnalyticsKind
  }

  function BodyKind<S, G, A>(b: Body<S, G, A>): Kind
  {
    match b
    case StatsBody(_) => StatsKind
    case GoalsBody(_) => GoalsKind
    case ProgressBody(_) => ProgressKind
    case AnalyticsBody(_) => AnalyticsKind
  }

  /** Whether a cached value counts as present: a stats or analytics object,
      a goals list with at least one goal, a progress map with at least one
      key. */
  predicate NonEmpty<S, G, A>(d: Data<S, G, A>)
  {
    match d
    case StatsData(s) => s.Some?
    case GoalsData(g) => |g| > 0
    case ProgressData(p) => |p| > 0
    case AnalyticsData(a) => a.Some?
  }

  /** The value stored for a response body: a goals body that is not an
      array is stored as the empty list, every other body as it is. */
  function Stored<S, G, A>(b: Body<S, G, A>): (d: Data<S, G, A>)
    ensures KindOf(d) == BodyKind(b)
    ensures b.GoalsBody? ==> d == GoalsData(if b.goals.Some? then b.goals.value else [])
    ensures b.StatsBody? ==> d == StatsData(b.stats)
    ensures b.ProgressBody? ==> d == ProgressData(b.progress)
    ensures b.AnalyticsBody? ==> d == AnalyticsData(b.analytics)
  {
    match b
    case StatsBody(s) => StatsData(s)
    case GoalsBody(g) => GoalsData(if g.Some? then g.value else [])
    case ProgressBody(p) => ProgressData(p)
    case AnalyticsBody(a) => AnalyticsData(a)
  }

  /** A cached value is served without a request iff it is present and was
      fetched less than `CacheDuration` ago. */
  predicate Fresh<S, G, A>(d: Data<S, G, A>, lastFetch: int, now: int)
  {
    NonEmpty(d) && now - lastFetch < CacheDuration
  }

  /** An empty goals list or progress map is never served from the cache,
      however recent its fetch. */
  lemma EmptyIsNeverFresh<S, G, A>(d: Data<S, G, A>, lastFetch: int, now: int)
    requires d == GoalsData([]) || d == ProgressData(map[])
    ensures !Fresh(d, lastFetch, now)
  {
  }

  /** A goals body that is not an array leaves an empty, hence never fresh,
      goals list. */
  lemma NonArrayGoalsRefetched<S, G, A>(lastFetch: int, now: int)
    ensures var d: Data<S, G, A> := Stored(GoalsBody(None)); d == GoalsData([]) && !Fresh(d, lastFetch, now)
  {
  }

  /** Zeroing a kind's last-fetch instant bypasses the time to live for every
      instant from `CacheDuration` on (wall-clock instants are far past it). */
  lemma ZeroedStampIsStale<S, G, A>(d: Data<S, G, A>, now: int)
    ensures Fresh(d, 0, now) <==> NonEmpty(d) && now < CacheDuration
  {
  }

  /** A present value stored by an ok response at `fetched` is served from
      the cache for exactly the next `CacheDuration` milliseconds. */
  lemma StoredServedUntilExpiry<S, G, A>(b: Body<S, G, A>, fetched: int, now: int)
    requires NonEmpty(Stored(b)) && fetched <= now
    ensures Fresh(Stored(b), fetched, now) <==> now < fetched + CacheDuration
  {
  }

  /** One entry per kind. */
  datatype PerKind<T> = PerKind(stats: T, goals: T, progress: T, analytics: T)
  {
    function Get(k: Kind): T
    {
      match k
      case StatsKind => stats
      case GoalsKind => goals
      case ProgressKind => progress
      case AnalyticsKind => analytics
    }

    /** The entry of `k` replaced by `v`, every other entry kept. */
    function Set(k: Kind, v: T): (r: PerKind<T>)
      ensures r.Get(k) == v
    {
      match k
      case StatsKind => this.(stats := v)
      case GoalsKind => this.(goals := v)
      case ProgressKind => this.(progress := v)
      case AnalyticsKind => this.(analytics := v)
    }
  }

  /** Replacing one entry leaves every other entry as it was. */
  lemma SetKeepsOthers<T>(p: PerKind<T>, k: Kind, v: T, j: Kind)
    requires j != k
    ensures p.Set(k, v).Get(j) == p.Get(j)
  {
  }

  function All<T>(v: T): (r: PerKind<T>)
    ensures forall k: Kind :: r.Get(k) == v
  {
    PerKind(v, v, v, v)
  }

  /** Each entry holds a value of its own kind. */
  predicate WellKinded<S, G, A>(values: PerKind<Data<S, G, A>>)
  {
    values.stats.StatsData? && values.goals.GoalsData? && values.progress.ProgressData?
    && values.analytics.AnalyticsData?
  }

  lemma WellKindedGet<S, G, A>(values: PerKind<Data<S, G, A>>, k: Kind)
    requires WellKinded(values)
    ensures KindOf(values.Get(k)) == k
  {
  }

  /** The value after a request with outcome `o`: the stored body of an ok
      response, the old value otherwise. */
  function Refetched<S, G, A>(d: Data<S, G, A>, o: Outcome<Body<S, G, A>>): Data<S, G, A>
  {
    if o.Delivered? then Stored(o.body) else d
  }

  /** The stamp after a request with outcome `o` issued at `now`. */
  function Restamped<T>(t: int, o: Outcome<T>, now: int): int
  {
    if o.Delivered? then now else t
  }

  /** The cache values after requests for the kinds in `mask`. */
  function FetchedValues<S, G, A>(values: PerKind<Data<S, G, A>>, outcomes: PerKind<Outcome<Body<S, G, A>>>,
                                  mask: PerKind<bool>): PerKind<Data<S, G, A>>
  {
    PerKind(if mask.stats then Refetched(values.stats, outcomes.stats) else values.stats,
            if mask.goals then Refetched(values.goals, outcomes.goals) else values.goals,
            if mask.progress then Refetched(values.progress, outcomes.progress) else values.progress,
            if mask.analytics then Refetched(values.analytics, outcomes.analytics) else values.analytics)
  }

  /** The stamps after requests for the kinds in `mask`, issued at `now`. */
  function FetchedStamps<T>(stamps: PerKind<int>, outcomes: PerKind<Outcome<T>>, mask: PerKind<bool>, now: int): PerKind<int>
  {
    PerKind(if mask.stats then Restamped(stamps.stats, outcomes.stats, now) else stamps.stats,
            if mask.goals then Restamped(stamps.goals, outcomes.goals, now) else stamps.goals,
            if mask.progress then Restamped(stamps.progress, outcomes.progress, now) else stamps.progress,
            if mask.analytics then Restamped(stamps.analytics, outcomes.analytics, now) else stamps.analytics)
  }

  /** The loading flags after requests for the kinds in `mask` settled. */
  function Settled(loading: PerKind<bool>, mask: PerKind<bool>): PerKind<bool>
  {
    PerKind(!mask.stats && loading.stats, !mask.goals && loading.goals, !mask.progress && loading.progress,
            !mask.analytics && loading.analytics)
  }

  /** The kinds whose cached value is empty. */
  function EmptyKinds<S, G, A>(values: PerKind<Data<S, G, A>>): PerKind<bool>
  {
    PerKind(!NonEmpty(values.stats), !NonEmpty(values.goals), !NonEmpty(values.progress), !NonEmpty(values.analytics))
  }

  /** Entry by entry: a kind in the mask is refetched, restamped and no
      longer loading; every other kind keeps its value, stamp and flag; the
      mask of empty kinds holds exactly the kinds without a present value. */
  lemma MaskedEntries<S, G, A>(values: PerKind<Data<S, G, A>>, stamps: PerKind<int>, loading: PerKind<bool>,
                               outcomes: PerKind<Outcome<Body<S, G, A>>>, mask: PerKind<bool>, now: int, k: Kind)
    ensures FetchedValues(values, outcomes, mask).Get(k)
      == if mask.Get(k) then Refetched(values.Get(k), outcomes.Get(k)) else values.Get(k)
    ensures FetchedStamps(stamps, outcomes, mask, now).Get(k)
      == if mask.Get(k) then Restamped(stamps.Get(k), outcomes.Get(k), now) else stamps.Get(k)
    ensures Settled(loading, mask).Get(k) == (!mask.Get(k) && loading.Get(k))
    ensures EmptyKinds(values).Get(k) == !NonEmpty(values.Get(k))
  {
  }

  /** The values after the initial effect's step for `k`: refetched iff empty. */
  function FillIfEmpty<S, G, A>(values: PerKind<Data<S, G, A>>, k: Kind, o: Outcome<Body<S, G, A>>): PerKind<Data<S, G, A>>
  {
    values.Set(k, if NonEmpty(values.Get(k)) then values.Get(k) else Refetched(values.Get(k), o))
  }

  /** The stamps after the initial effect's step for `k`. */
  function StampIfEmpty<S, G, A>(stamps: PerKind<int>, values: PerKind<Data<S, G, A>>, k: Kind,
                                 o: Outcome<Body<S, G, A>>, now: int): PerKind<int>
  {
    stamps.Set(k, if NonEmpty(values.Get(k)) then stamps.Get(k) else Restamped(stamps.Get(k), o, now))
  }

  /** The loading flags after the initial effect's step for `k`. */
  function SettleIfEmpty<S, G, A>(loading: PerKind<bool>, values: PerKind<Data<S, G, A>>, k: Kind): PerKind<bool>
  {
    loading.Set(k, NonEmpty(values.Get(k)) && loading.Get(k))
  }

  /** The four steps of the initial effect, one kind after another, refetch
      exactly the kinds that were empty before the first step. */
  lemma FilledValues<S, G, A>(v0: PerKind<Data<S, G, A>>, v1: PerKind<Data<S, G, A>>, v2: PerKind<Data<S, G, A>>,
                              v3: PerKind<Data<S, G, A>>, v4: PerKind<Data<S, G, A>>,
                              outcomes: PerKind<Outcome<Body<S, G, A>>>)
    requires v1 == FillIfEmpty(v0, StatsKind, outcomes.Get(StatsKind))
    requires v2 == FillIfEmpty(v1, GoalsKind, outcomes.Get(GoalsKind))
    requires v3 == FillIfEmpty(v2, ProgressKind, outcomes.Get(ProgressKind))
    requires v4 == FillIfEmpty(v3, AnalyticsKind, outcomes.Get(AnalyticsKind))
    ensures v4 == FetchedValues(v0, outcomes, EmptyKinds(v0))
  {
  }

  /** The stamps of the four steps are those of the kinds empty at the start. */
  lemma FilledStamps<S, G, A>(v0: PerKind<Data<S, G, A>>, v1: PerKind<Data<S, G, A>>, v2: PerKind<Data<S, G, A>>,
                              v3: PerKind<Data<S, G, A>>, t0: PerKind<int>, t1: PerKind<int>, t2: PerKind<int>,
                              t3: PerKind<int>, t4: PerKind<int>, outcomes: PerKind<Outcome<Body<S, G, A>>>, now: int)
    requires v1 == FillIfEmpty(v0, StatsKind, outcomes.Get(StatsKind))
    requires v2 == FillIfEmpty(v1, GoalsKind, outcomes.Get(GoalsKind))
    requires v3 == FillIfEmpty(v2, ProgressKind, outcomes.Get(ProgressKind))
    requires t1 == StampIfEmpty(t0, v0, StatsKind, outcomes.Get(StatsKind), now)
    requires t2 == StampIfEmpty(t1, v1, GoalsKind, outcomes.Get(GoalsKind), now)
    requires t3 == StampIfEmpty(t2, v2, ProgressKind, outcomes.Get(ProgressKind), now)
    requires t4 == StampIfEmpty(t3, v3, AnalyticsKind, outcomes.Get(AnalyticsKind), now)
    ensures t4 == FetchedStamps(t0, outcomes, EmptyKinds(v0), now)
  {
  }

  /** The loading flags of the four steps are cleared for the kinds empty at
      the start. */
  lemma FilledLoading<S, G, A>(v0: PerKind<Data<S, G, A>>, v1: PerKind<Data<S, G, A>>, v2: PerKind<Data<S, G, A>>,
                               v3: PerKind<Data<S, G, A>>, l0: PerKind<bool>, l1: PerKind<bool>, l2: PerKind<bool>,
                               l3: PerKind<bool>, l4: PerKind<bool>, outcomes: PerKind<Outcome<Body<S, G, A>>>)
    requires v1 == FillIfEmpty(v0, StatsKind, outcomes.Get(StatsKind))
    requires v2 == FillIfEmpty(v1, GoalsKind, outcomes.Get(GoalsKind))
    requires v3 == FillIfEmpty(v2, ProgressKind, outcomes.Get(ProgressKind))
    requires l1 == SettleIfEmpty(l0, v0, StatsKind)
    requires l2 == SettleIfEmpty(l1, v1, GoalsKind)
    requires l3 == SettleIfEmpty(l2, v2, ProgressKind)
    requires l4 == SettleIfEmpty(l3, v3, AnalyticsKind)
    ensures l4 == Settled(l0, EmptyKinds(v0))
  {
  }

  /** The module-level cache together with the hook's loading flags and the
      signed-in user. */
  class UserDataCache<S, G, A> {
    var userId: Option<string>
    var values: PerKind<Data<S, G, A>>
    var lastFetch: PerKind<int>
    var loading: PerKind<bool>

    ghost predicate Valid()
      reads this
    {
      WellKinded(values)
    }

    /** The cache as first loaded: no stats, no goals, no progress, no
        analytics, every last-fetch instant 0, every kind loading. */
    constructor (user: Option<string>)
      ensures Valid() && userId == user
      ensures values == PerKind(StatsData(None), GoalsData([]), ProgressData(map[]), AnalyticsData(None))
      ensures lastFetch == All(0) && loading == All(true)
    {
      userId := user;
      values := PerKind(StatsData(None), GoalsData([]), ProgressData(map[]), AnalyticsData(None));
      lastFetch := All(0);
      loading := All(true);
    }

    /** A component mounts the hook: the cache persists, the user is the one
        signed in, and each kind starts loading iff its cached value is
        empty. */
    method Mount(user: Option<string>)
      requires Valid()
      modifies this
      ensures Valid() && userId == user
      ensures values == old(values) && lastFetch == old(lastFetch)
      ensures forall k: Kind :: loading.Get(k) == !NonEmpty(values.Get(k))
    {
      userId := user;
      loading := PerKind(!NonEmpty(values.stats), !NonEmpty(values.goals), !NonEmpty(values.progress),
                         !NonEmpty(values.analytics));
    }

    /** The request is about to be issued: only that kind's flag turns on. */
    method StartRequest(k: Kind)
      requires Valid()
      modifies this
      ensures Valid() && loading == old(loading).Set(k, true)
      ensures userId == old(userId) && values == old(values) && lastFetch == old(lastFetch)
    {
      loading := loading.Set(k, true);
    }

    /** The request settled: an ok response replaces the value and stamps it
        with the instant read before the request; a response that is not ok
        or an exception leaves value and stamp alone. Either way only that
        kind's flag turns off. */
    method Settle(k: Kind, now: int, outcome: Outcome<Body<S, G, A>>) returns (r: Option<Data<S, G, A>>)
      requires Valid()
      requires outcome.Delivered? ==> BodyKind(outcome.body) == k
      modifies this
      ensures Valid() && userId == old(userId) && loading == old(loading).Set(k, false)
      ensures outcome.Delivered? ==>
        values == old(values).Set(k, Stored(outcome.body)) && lastFetch == old(lastFetch).Set(k, now)
        && r == Some(Stored(outcome.body))
      ensures !outcome.Delivered? ==> values == old(values) && lastFetch == old(lastFetch) && r == None
    {
      r := None;
      if outcome.Delivered? {
        var d := Stored(outcome.body);
        values := values.Set(k, d);
        lastFetch := lastFetch.Set(k, now);
        r := Some(d);
      }
      loading := loading.Set(k, false);
    }

    /** `fetchStats`, `fetchGoals`, `fetchProgress` and `fetchAnalytics`:
        nothing without a user; the cached value when it is fresh; otherwise
        a request whose outcome is `outcome`. The result is what the fetch
        resolves to (`None` for `undefined`). */
    method Fetch(k: Kind, now: int, outcome: Outcome<Body<S, G, A>>) returns (r: Option<Data<S, G, A>>)
      requires Valid()
      requires outcome.Delivered? ==> BodyKind(outcome.body) == k
      modifies this
      ensures Valid() && userId == old(userId)
      ensures old(userId).None? ==>
        r == None && values == old(values) && lastFetch == old(lastFetch) && loading == old(loading)
      ensures old(userId).Some? && Fresh(old(values).Get(k), old(lastFetch).Get(k), now) ==>
        r == Some(old(values).Get(k)) && values == old(values) && lastFetch == old(lastFetch)
        && loading == old(loading)
      ensures old(userId).Some? && !Fresh(old(values).Get(k), old(lastFetch).Get(k), now) ==>
        loading == old(loading).Set(k, false)
        && (outcome.Delivered? ==>
              values == old(values).Set(k, Stored(outcome.body)) && lastFetch == old(lastFetch).Set(k, now)
              && r == Some(Stored(outcome.body)))
        && (!outcome.Delivered? ==> values == old(values) && lastFetch == old(lastFetch) && r == None)
    {
      if userId.None? {
        return None;
      }
      if Fresh(values.Get(k), lastFetch.Get(k), now) {
        return Some(values.Get(k));
      }
      StartRequest(k);
      r := Settle(k, now, outcome);
    }

    /** `refreshData(kind)`: zero that kind's stamp and fetch it. */
    method RefreshOne(k: Kind, now: int, outcome: Outcome<Body<S, G, A>>) returns (r: Option<Data<S, G, A>>)
      requires Valid()
      requires outcome.Delivered? ==> BodyKind(outcome.body) == k
      modifies this
      ensures Valid() && userId == old(userId)
      ensures old(userId).None? ==>
        r == None && values == old(values) && lastFetch == old(lastFetch).Set(k, 0) && loading == old(loading)
      ensures old(userId).Some? && (now >= CacheDuration || !NonEmpty(old(values).Get(k))) ==>
        loading == old(loading).Set(k, false)
        && (outcome.Delivered? ==>
              values == old(values).Set(k, Stored(outcome.body)) && lastFetch == old(lastFetch).Set(k, now))
        && (!outcome.Delivered? ==> values == old(values) && lastFetch == old(lastFetch).Set(k, 0))
    {
      lastFetch := lastFetch.Set(k, 0);
      r := Fetch(k, now, outcome);
    }

    /** `refreshData()`: zero every stamp, then fetch the four kinds. The
        four fetches touch disjoint parts of the cache, so running them one
        after another gives the state their concurrent run gives. Once the
        clock is past `CacheDuration`, every kind is requested. */
    method RefreshAll(now: int, outcomes: PerKind<Outcome<Body<S, G, A>>>)
      requires Valid()
      requires forall k: Kind :: outcomes.Get(k).Delivered? ==> BodyKind(outcomes.Get(k).body) == k
      modifies this
      ensures Valid() && userId == old(userId)
      ensures old(userId).None? ==> values == old(values) && loading == old(loading) && lastFetch == All(0)
      ensures old(userId).Some? && now >= CacheDuration ==>
        values == FetchedValues(old(values), outcomes, All(true))
        && lastFetch == FetchedStamps(All(0), outcomes, All(true), now)
        && loading == Settled(old(loading), All(true))
    {
      lastFetch := All(0);
      FetchStep(StatsKind, now, outcomes.Get(StatsKind));
      FetchStep(GoalsKind, now, outcomes.Get(GoalsKind));
      FetchStep(ProgressKind, now, outcomes.Get(ProgressKind));
      FetchStep(AnalyticsKind, now, outcomes.Get(AnalyticsKind));
    }

    /** A fetch whose result is dropped, as in `refreshData()`. */
    method FetchStep(k: Kind, now: int, outcome: Outcome<Body<S, G, A>>)
      requires Valid()
      requires outcome.Delivered? ==> BodyKind(outcome.body) == k
      modifies this
      ensures Valid() && userId == old(userId)
      ensures old(userId).None? ==> values == old(values) && lastFetch == old(lastFetch) && loading == old(loading)
      ensures old(userId).Some? && !Fresh(old(values).Get(k), old(lastFetch).Get(k), now) ==>
        loading == old(loading).Set(k, false)
        && values == old(values).Set(k, Refetched(old(values).Get(k), outcome))
        && lastFetch == old(lastFetch).Set(k, Restamped(old(lastFetch).Get(k), outcome, now))
    {
      var _ := Fetch(k, now, outcome);
    }

    /** One step of the initial effect: fetch kind `k` iff its cached value
        is empty. */
    method FetchIfEmpty(k: Kind, now: int, outcome: Outcome<Body<S, G, A>>)
      requires Valid() && userId.Some?
      requires outcome.Delivered? ==> BodyKind(outcome.body) == k
      modifies this
      ensures Valid() && userId == old(userId)
      ensures values == FillIfEmpty(old(values), k, outcome)
      ensures lastFetch == StampIfEmpty(old(lastFetch), old(values), k, outcome, now)
      ensures loading == SettleIfEmpty(old(loading), old(values), k)
    {
      if !NonEmpty(values.Get(k)) {
        FetchStep(k, now, outcome);
      }
    }

    /** The initial effect: once the user is loaded and signed in, fetch
        exactly the kinds whose cached value is empty. */
    method InitialFetch(isLoaded: bool, now: int, outcomes: PerKind<Outcome<Body<S, G, A>>>)
      requires Valid()
      requires forall k: Kind :: outcomes.Get(k).Delivered? ==> BodyKind(outcomes.Get(k).body) == k
      modifies this
      ensures Valid() && userId == old(userId)
      ensures !isLoaded || old(userId).None? ==>
        values == old(values) && lastFetch == old(lastFetch) && loading == old(loading)
      ensures isLoaded && old(userId).Some? ==>
        var mask := EmptyKinds(old(values));
        values == FetchedValues(old(values), outcomes, mask)
        && lastFetch == FetchedStamps(old(lastFetch), outcomes, mask, now)
        && loading == Settled(old(loading), mask)
    {
      if isLoaded && userId.Some? {
        ghost var v0, t0, l0 := values, lastFetch, loading;
        FetchIfEmpty(StatsKind, now, outcomes.Get(StatsKind));
        ghost var v1, t1, l1 := values, lastFetch, loading;
        FetchIfEmpty(GoalsKind, now, outcomes.Get(GoalsKind));
        ghost var v2, t2, l2 := values, lastFetch, loading;
        FetchIfEmpty(ProgressKind, now, outcomes.Get(ProgressKind));
        ghost var v3, t3, l3 := values, lastFetch, loading;
        FetchIfEmpty(AnalyticsKind, now, outcomes.Get(AnalyticsKind));
        FilledValues(v0, v1, v2, v3, values, outcomes);
        FilledStamps(v0, v1, v2, v3, t0, t1, t2, t3, lastFetch, outcomes, now);
        FilledLoading(v0, v1, v2, v3, l0, l1, l2, l3, loading, outcomes);
      }
    }
  }
}
