/** Per-visitor impression caps: how often one visitor is shown one campaign while its counter lives. */
module FrequencyCap {
  import opened Books
  import opened VelocityCounter

  const DEFAULT_IMPRESSION_LIMIT := 1
  const DEFAULT_WINDOW_SECONDS := 86_400

  function ResolveLimit(limit: Option<int>): (n: int)
    ensures n > 0
  {
    if limit.Some? && limit.value > 0 then limit.value else DEFAULT_IMPRESSION_LIMIT
  }

  function ResolveWindow(window: Option<int>): (seconds: nat)
    ensures seconds > 0
  {
    if window.Some? && window.value > 0 then window.value else DEFAULT_WINDOW_SECONDS
  }

  /** What the cap needs to know of a campaign that could be shown. */
  datatype Offer = Offer(campaign: CampaignId, limit: Option<int>, window: Option<int>)

  /** The campaign has been shown to the visitor as often as its limit allows; without a visitor nothing is capped. */
  predicate Capped(s: Store, visitor: VisitorId, offer: Offer) {
    visitor != "" && Live(s, CapCount(offer.campaign, visitor)) >= ResolveLimit(offer.limit)
  }

  function UnderCap(s: Store, visitor: VisitorId, offers: seq<Offer>): (r: seq<Offer>)
    ensures forall offer | offer in r :: offer in offers && !Capped(s, visitor, offer)
  {
    if offers == [] then []
    else
      var n := |offers| - 1;
      UnderCap(s, visitor, offers[..n]) + if Capped(s, visitor, offers[n]) then [] else [offers[n]]
  }

  // --- the reference: what was shown, and which lifetimes that makes ---

  /** One impression: when it was shown, and the window and limit its campaign had then. */
  datatype Hit = Hit(at: nat, window: nat, limit: nat)

  /** The hit that began the lifetime of the last hit: a lifetime lasts the window of its first hit. */
  function Birth(hits: seq<Hit>): (b: nat)
    requires hits != []
    ensures b < |hits|
  {
    var n := |hits| - 1;
    if n == 0 then 0
    else
      var b := Birth(hits[..n]);
      if hits[n].at < hits[b].at + hits[b].window then b else n
  }

  /** How many hits, the last one included, fall in the lifetime of the last one. */
  function InLifetime(hits: seq<Hit>): nat {
    if hits == [] then 0 else |hits| - Birth(hits)
  }

  // --- the step system: requests served one at a time on a store without outages ---

  datatype World = World(store: Store, hits: map<Key, seq<Hit>>)

  datatype Step =
    | Serve(visitor: VisitorId, offers: seq<Offer>, pick: nat)  // `pick` stands for the auction
    | Wait(seconds: nat)

  function HitsOf(w: World, key: Key): seq<Hit> {
    if key in w.hits then w.hits[key] else []
  }

  /** The campaign a request is served, if any. */
  function Selected(w: World, visitor: VisitorId, offers: seq<Offer>, pick: nat): Option<Offer> {
    var under := UnderCap(w.store, visitor, offers);
    if under == [] then None else Some(under[pick % |under|])
  }

  function Shown(w: World, visitor: VisitorId, offer: Offer): World {
    if visitor == "" then w
    else
      var key := CapCount(offer.campaign, visitor);
      World(Incremented(w.store, key, ResolveWindow(offer.window), Up),
            w.hits[key := HitsOf(w, key) + [Hit(w.store.now, ResolveWindow(offer.window), ResolveLimit(offer.limit))]])
  }

  function Do(w: World, step: Step): World {
    match step
    case Serve(visitor, offers, pick) =>
      (match Selected(w, visitor, offers, pick)
       case None => w
       case Some(offer) => Shown(w, visitor, offer))
    case Wait(seconds) => w.(store := w.store.(now := w.store.now + seconds))
  }

  const START := World(Store(map[], 0), map[])

  function Run(steps: seq<Step>): World {
    if steps == [] then START else Do(Run(steps[..|steps| - 1]), steps[|steps| - 1])
  }

  /** The hits of hit `j`'s lifetime up to and including itself. */
  function NumberOf(hits: seq<Hit>, j: nat): nat
    requires j < |hits|
  {
    InLifetime(hits[..j + 1])
  }

  /** Each hit was within the limit that applied to it. */
  ghost predicate WithinLimits(hits: seq<Hit>) {
    forall j: nat | j < |hits| :: NumberOf(hits, j) <= hits[j].limit
  }

  ghost predicate InOrder(hits: seq<Hit>, now: nat) {
    && (forall i, j | 0 <= i < j < |hits| :: hits[i].at <= hits[j].at)
    && (forall i | 0 <= i < |hits| :: hits[i].at <= now && hits[i].window > 0)
  }

  /** The stored counter of a key is the number of hits in its current lifetime, and expires with it. */
  ghost predicate KeyFits(w: World, key: Key) {
    var hits := HitsOf(w, key);
    && (hits == [] ==> key !in w.store.cells)
    && (hits != [] ==>
          && key in w.store.cells
          && w.store.cells[key] == Cell(InLifetime(hits), Some(hits[Birth(hits)].at + hits[Birth(hits)].window)))
    && InOrder(hits, w.store.now)
    && WithinLimits(hits)
  }

  ghost predicate Fits(w: World) {
    forall key :: KeyFits(w, key)
  }

  lemma OneMoreBirth(hits: seq<Hit>, hit: Hit)
    ensures Birth(hits + [hit]) ==
            if hits != [] && hit.at < hits[Birth(hits)].at + hits[Birth(hits)].window then Birth(hits)
                                   else |hits|
  {
    assert (hits + [hit])[..|hits|] == hits;
  }

  lemma OneMoreWithinLimits(hits: seq<Hit>, hit: Hit)
    requires WithinLimits(hits) && InLifetime(hits + [hit]) <= hit.limit
    ensures WithinLimits(hits + [hit])
  {
    hide InLifetime;
    var longer := hits + [hit];
    forall j: nat | j < |longer| ensures NumberOf(longer, j) <= longer[j].limit {
      if j < |hits| {
        assert longer[..j + 1] == hits[..j + 1];
        assert NumberOf(hits, j) <= hits[j].limit;
      } else {
        assert longer[..j + 1] == longer;
      }
    }
  }

  /** What an impression does to its own key. */
  lemma ShownKeyFits(w: World, visitor: VisitorId, offer: Offer)
    requires visitor != "" && !Capped(w.store, visitor, offer) && KeyFits(w, CapCount(offer.campaign, visitor))
    ensures KeyFits(Shown(w, visitor, offer), CapCount(offer.campaign, visitor))
  {
    hide Birth;
    hide WithinLimits;
    var key := CapCount(offer.campaign, visitor);
    var hits, hit := HitsOf(w, key), Hit(w.store.now, ResolveWindow(offer.window), ResolveLimit(offer.limit));
    OneMoreBirth(hits, hit);
    OneMoreWithinLimits(hits, hit);
  }

  lemma OtherKeyFits(w: World, after: World, key: Key)
    requires KeyFits(w, key) && HitsOf(after, key) == HitsOf(w, key) && after.store.now >= w.store.now
    requires key in after.store.cells <==> key in w.store.cells
    requires key in w.store.cells ==> after.store.cells[key] == w.store.cells[key]
    ensures KeyFits(after, key)
  {
    hide Birth;
    hide WithinLimits;
  }

  lemma ShownFits(w: World, visitor: VisitorId, offer: Offer)
    requires Fits(w) && visitor != "" && !Capped(w.store, visitor, offer)
    ensures Fits(Shown(w, visitor, offer))
  {
    hide KeyFits;
    assert KeyFits(w, CapCount(offer.campaign, visitor));
    ShownKeyFits(w, visitor, offer);
    forall key ensures KeyFits(Shown(w, visitor, offer), key) {
      assert KeyFits(w, key);
      if key != CapCount(offer.campaign, visitor) {
        OtherKeyFits(w, Shown(w, visitor, offer), key);
      }
    }
  }

  lemma StepFits(w: World, step: Step)
    requires Fits(w)
    ensures Fits(Do(w, step))
  {
    match step
    case Serve(visitor, offers, pick) =>
      var selected := Selected(w, visitor, offers, pick);
      if selected.Some? && visitor != "" {
        ShownFits(w, visitor, selected.value);
      }
    case Wait(seconds) =>
      forall key ensures KeyFits(Do(w, step), key) {
        assert KeyFits(w, key);
        OtherKeyFits(w, Do(w, step), key);
      }
  }

  /** Main result: over any requests and waits the counter counts the current
      lifetime, and no lifetime goes over the limit. */
  lemma {:induction false} CapHolds(steps: seq<Step>)
    ensures Fits(Run(steps))
  {
    if steps != [] {
      CapHolds(steps[..|steps| - 1]);
      StepFits(Run(steps[..|steps| - 1]), steps[|steps| - 1]);
    }
  }

  // --- rolling windows ---

  /** The campaign kept its limit and its window. */
  predicate Steady(hits: seq<Hit>, limit: nat, window: nat) {
    forall i | 0 <= i < |hits| :: hits[i].limit == limit && hits[i].window == window
  }

  lemma {:induction false} BirthOfPrefix(hits: seq<Hit>, b: nat, j: nat)
    requires j < |hits| && b == Birth(hits[..j + 1])
    ensures b <= j
    ensures b > 0 ==> hits[b].at >= hits[Birth(hits[..b])].at + hits[Birth(hits[..b])].window
    decreases j
  {
    var upTo := hits[..j + 1];
    assert upTo[..j] == hits[..j];
    if b < j {
      BirthOfPrefix(hits, b, j - 1);
    }
  }

  /** Main result: in any stretch of one window length a visitor sees a campaign fewer than twice its limit times. */
  lemma RollingWindowBound(hits: seq<Hit>, limit: nat, window: nat, now: nat, i: nat, j: nat)
    requires Steady(hits, limit, window) && InOrder(hits, now) && WithinLimits(hits)
    requires i <= j < |hits| && hits[j].at < hits[i].at + window
    ensures j - i + 1 <= 2 * limit - 1
  {
    hide Birth;
    var b := Birth(hits[..j + 1]);
    assert NumberOf(hits, j) <= hits[j].limit;
    BirthOfPrefix(hits, b, j);
    if b > i {
      var earlier := Birth(hits[..b]);
      assert hits[..b] == hits[..b - 1 + 1];
      assert NumberOf(hits, b - 1) <= hits[b - 1].limit;
      assert earlier < i;
    }
  }

  /** The same for every run: with limit 1 the rolling cap holds, with a higher
      one up to twice the limit less one get through. */
  lemma RollingCapOfEveryRun(steps: seq<Step>, key: Key, limit: nat, window: nat, i: nat, j: nat)
    requires Steady(HitsOf(Run(steps), key), limit, window)
    requires i <= j < |HitsOf(Run(steps), key)|
    requires HitsOf(Run(steps), key)[j].at < HitsOf(Run(steps), key)[i].at + window
    ensures j - i + 1 <= 2 * limit - 1
  {
    CapHolds(steps);
    assert KeyFits(Run(steps), key);
    RollingWindowBound(HitsOf(Run(steps), key), limit, window, Run(steps).store.now, i, j);
  }

  // --- the bound is reached ---

  function Copies<T>(x: T, n: nat): seq<T> {
    if n == 0 then [] else Copies(x, n - 1) + [x]
  }

  lemma {:induction false} CopiesAreCopies<T>(x: T, n: nat)
    ensures |Copies(x, n)| == n && forall i | 0 <= i < n :: Copies(x, n)[i] == x
  {
    if n > 0 {
      CopiesAreCopies(x, n - 1);
    }
  }

  /** Where a run stands with one key: the time, the hits, the live count and when it expires. */
  ghost predicate At(w: World, key: Key, now: nat, hits: seq<Hit>, count: nat, deadline: Option<nat>) {
    && w.store.now == now && HitsOf(w, key) == hits
    && if deadline.None? then key !in w.store.cells && count == 0
       else key in w.store.cells && w.store.cells[key] == Cell(count, deadline) && count > 0
  }

  predicate Alive(now: nat, deadline: Option<nat>) {
    deadline.Some? && now < deadline.value
  }

  lemma AloneIsSelected(w: World, visitor: VisitorId, offer: Offer)
    requires !Capped(w.store, visitor, offer)
    ensures Selected(w, visitor, [offer], 0) == Some(offer)
  {
    assert [offer][..0] == [];
    assert UnderCap(w.store, visitor, [offer]) == [offer];
  }

  lemma ServeOnce(w: World, visitor: VisitorId, offer: Offer, now: nat, hits: seq<Hit>, count: nat,
      deadline: Option<nat>)
    requires visitor != "" && At(w, CapCount(offer.campaign, visitor), now, hits, count, deadline)
    requires Alive(now, deadline) ==> count < ResolveLimit(offer.limit)
    ensures var hit := Hit(now, ResolveWindow(offer.window), ResolveLimit(offer.limit));
            At(Do(w, Serve(visitor, [offer], 0)), CapCount(offer.campaign, visitor), now, hits + [hit],
               if Alive(now, deadline) then count + 1 else 1,
               if Alive(now, deadline) then deadline else Some(now + hit.window))
  {
    AloneIsSelected(w, visitor, offer);
    hide Selected;
  }

  /** Serving one offer `n` more times at once, within one lifetime. */
  lemma {:induction false} ServeMany(steps: seq<Step>, visitor: VisitorId, offer: Offer, n: nat,
                                     now: nat, hits: seq<Hit>, count: nat, deadline: nat)
    requires visitor != "" && At(Run(steps), CapCount(offer.campaign, visitor), now, hits, count, Some(deadline))
    requires now < deadline && 0 < count && count + n <= ResolveLimit(offer.limit)
    ensures At(Run(steps + Copies(Serve(visitor, [offer], 0), n)), CapCount(offer.campaign, visitor), now,
               hits + Copies(Hit(now, ResolveWindow(offer.window), ResolveLimit(offer.limit)), n),
                count + n, Some(deadline))
  {
    var serve, hit := Serve(visitor, [offer], 0), Hit(now, ResolveWindow(offer.window), ResolveLimit(offer.limit));
    if n == 0 {
      assert steps + Copies(serve, 0) == steps && hits + Copies(hit, 0) == hits;
    } else {
      ServeMany(steps, visitor, offer, n - 1, now, hits, count, deadline);
      var longer := steps + Copies(serve, n - 1);
      assert steps + Copies(serve, n) == longer + [serve];
      assert hits + Copies(hit, n) == hits + Copies(hit, n - 1) + [hit];
      ServeNext(longer, visitor, offer, now, hits + Copies(hit, n - 1), count + n - 1, Some(deadline));
    }
  }

  lemma ServeNext(steps: seq<Step>, visitor: VisitorId, offer: Offer, now: nat, hits: seq<Hit>, count: nat,
      deadline: Option<nat>)
    requires visitor != "" && At(Run(steps), CapCount(offer.campaign, visitor), now, hits, count, deadline)
    requires Alive(now, deadline) ==> count < ResolveLimit(offer.limit)
    ensures var hit := Hit(now, ResolveWindow(offer.window), ResolveLimit(offer.limit));
            At(Run(steps + [Serve(visitor, [offer], 0)]), CapCount(offer.campaign, visitor), now, hits + [hit],
               if Alive(now, deadline) then count + 1 else 1,
               if Alive(now, deadline) then deadline else Some(now + hit.window))
  {
    hide At;
    assert (steps + [Serve(visitor, [offer], 0)])[..|steps|] == steps;
    ServeOnce(Run(steps), visitor, offer, now, hits, count, deadline);
  }

  lemma WaitNext(steps: seq<Step>, seconds: nat, key: Key, now: nat, hits: seq<Hit>, count: nat, deadline: Option<nat>)
    requires At(Run(steps), key, now, hits, count, deadline)
    ensures At(Run(steps + [Wait(seconds)]), key, now + seconds, hits, count, deadline)
  {
    assert (steps + [Wait(seconds)])[..|steps|] == steps;
  }

  /** One impression, almost a window of waiting, the rest of the limit, and
      right after it the next lifetime's full limit. */
  lemma RollingBoundIsReached(limit: nat, window: nat)
    requires limit >= 1 && window >= 2
    ensures exists steps, i: nat, j: nat ::
              && i <= j < |HitsOf(Run(steps), CapCount(0, "v"))|
              && Steady(HitsOf(Run(steps), CapCount(0, "v")), limit, window)
              && HitsOf(Run(steps), CapCount(0, "v"))[j].at < HitsOf(Run(steps), CapCount(0, "v"))[i].at + window
              && j - i + 1 == 2 * limit - 1
  {
    hide Run;
    var steps := BurstAtTheSeam(limit, window);
    CopiesAreCopies(Hit(window - 1, window, limit), limit - 1);
    CopiesAreCopies(Hit(window, window, limit), limit - 1);
    var hits := HitsOf(Run(steps), CapCount(0, "v"));
    assert hits[2 * limit - 1].at == window && (limit > 1 ==> hits[1].at == window - 1);
    assert Steady(hits, limit, window);
  }

  lemma BurstAtTheSeam(limit: nat, window: nat) returns (steps: seq<Step>)
    requires limit >= 1 && window >= 2
    ensures HitsOf(Run(steps), CapCount(0, "v"))
         == [Hit(0, window, limit)] + Copies(Hit(window - 1, window, limit), limit - 1)
            + [Hit(window, window, limit)] + Copies(Hit(window, window, limit), limit - 1)
  {
    hide Do;
    hide Copies;
    var key, offer := CapCount(0, "v"), Offer(0, Some(limit), Some(window));
    var serve := Serve("v", [offer], 0);
    assert At(Run([]), key, 0, [], 0, None);
    ServeNext([], "v", offer, 0, [], 0, None);
    var hits := [] + [Hit(0, window, limit)];
    steps := [] + [serve];
    assert At(Run(steps), key, 0, hits, 1, Some(window));
    WaitNext(steps, window - 1, key, 0, hits, 1, Some(window));
    steps := steps + [Wait(window - 1)];
    ServeMany(steps, "v", offer, limit - 1, window - 1, hits, 1, window);
    hits := hits + Copies(Hit(window - 1, window, limit), limit - 1);
    steps := steps + Copies(serve, limit - 1);
    WaitNext(steps, 1, key, window - 1, hits, limit, Some(window));
    steps := steps + [Wait(1)];
    ServeNext(steps, "v", offer, window, hits, limit, Some(window));
    hits := hits + [Hit(window, window, limit)];
    steps := steps + [serve];
    ServeMany(steps, "v", offer, limit - 1, window, hits, 1, window + window);
    hits := hits + Copies(Hit(window, window, limit), limit - 1);
    steps := steps + Copies(serve, limit - 1);
    assert [] + [Hit(0, window, limit)] == [Hit(0, window, limit)];
  }

  /** Without a limit and a window of its own, or with ones that are not positive, a campaign that was just shown to a
      visitor for the first time is capped for exactly one day. */
  lemma DefaultCapsForADay(s: Store, visitor: VisitorId, offer: Offer, seconds: nat)
    requires visitor != "" && Live(s, CapCount(offer.campaign, visitor)) == 0
    requires (offer.limit.Some? ==> offer.limit.value <= 0) && (offer.window.Some? ==> offer.window.value <= 0)
    ensures var shown := Incremented(s, CapCount(offer.campaign, visitor), ResolveWindow(offer.window), Up);
            Capped(shown.(now := s.now + seconds), visitor, offer) <==> seconds < 86_400
  {
  }

  /** A campaign with a limit and a window of its own is not capped before it was shown, and after one showing for
      exactly its window if the limit is one, and not at all otherwise. */
  lemma OwnCapApplies(s: Store, visitor: VisitorId, offer: Offer, seconds: nat)
    requires visitor != "" && offer.limit.Some? && offer.limit.value > 0 && offer.window.Some? && offer.window.value > 0
    requires Live(s, CapCount(offer.campaign, visitor)) == 0
    ensures !Capped(s, visitor, offer)
    ensures var shown := Incremented(s, CapCount(offer.campaign, visitor), ResolveWindow(offer.window), Up);
            Capped(shown.(now := s.now + seconds), visitor, offer) <==>
              offer.limit.value == 1 && seconds < offer.window.value
  {
  }
}
