/**
 Runs of the relay selector: why a held choice may be handed out, that one connection attempt
 keeps one relay, that the pins stay bounded, and that round-robin is fair.
 */
module SelectorHistory {
  import opened Basics
  import opened Text
  import opened RouteTable
  import opened Choose
  import opened Selector
  import opened Arithmetic

  datatype Op =
    | DoPick(pa: IpAddr, pb: IpAddr, commit: bool)
    | DoSetLive(relays: seq<string>)
    | DoUseRelay(arg: Option<string>)
    | DoReloadRoutes(stamp: Stamp, rules: Option<seq<Rule>>)
    | DoReloadGeo(dbStamp: Stamp, db: Option<GeoDb>, locStamp: Stamp, loc: Option<Locations>)

  /** An operation and when it happened. */
  datatype Event = Event(now: nat, op: Op)

  function Apply(s: State, e: Event): State {
    match e.op
    case DoPick(pa, pb, commit) => PickState(s, pa, pb, commit, e.now)
    case DoSetLive(relays) => s.(live := relays)
    case DoUseRelay(arg) => UseRelayState(s, arg)
    case DoReloadRoutes(stamp, rules) => ReloadRoutesState(s, stamp, rules)
    case DoReloadGeo(dbStamp, db, locStamp, loc) => ReloadGeoState(s, dbStamp, db, locStamp, loc)
  }

  function Run(s: State, es: seq<Event>): State {
    if es == [] then s else Apply(Run(s, es[..|es| - 1]), es[|es| - 1])
  }

  /** The state before the i-th event. */
  function At(s: State, es: seq<Event>, i: nat): State
    requires i <= |es|
  {
    Run(s, es[..i])
  }

  lemma AtNext(s: State, es: seq<Event>, i: nat)
    requires i < |es|
    ensures At(s, es, i + 1) == Apply(At(s, es, i), es[i])
  {
    assert es[..i + 1][..i] == es[..i];
  }

  /** Is this a committed pick for this pair? */
  predicate Asks(e: Event, key: PinKey) {
    e.op.DoPick? && e.op.commit && KeyOf(e.op.pa, e.op.pb) == key
  }

  function AnswerTo(s: State, e: Event): Answer
    requires e.op.DoPick?
  {
    PickAnswer(s, e.op.pa, e.op.pb, e.op.commit, e.now)
  }

  /** A committed pick of this pair that was decided afresh, not from what was held. */
  predicate DecidesAfresh(s: State, e: Event, key: PinKey, relay: string) {
    && Asks(e, key)
    && AnswerTo(s, e).relay == relay
    && AnswerTo(s, e).reason in {Routes, Geo, RoutesAndGeo, RoundRobin}
  }

  /** A `use-relay` command, or a reload that took effect. */
  predicate Forgets(s: State, e: Event) {
    match e.op
    case DoPick(_, _, _) => false
    case DoSetLive(_) => false
    case DoUseRelay(_) => true
    case DoReloadRoutes(stamp, rules) => Reloads(s.table, stamp, rules)
    case DoReloadGeo(dbStamp, db, locStamp, loc) =>
      Reloads(s.db, dbStamp, db) || Reloads(s.locations, locStamp, loc)
  }

  lemma ForgettingDropsAll(s: State, e: Event)
    ensures Forgets(s, e) ==> Apply(s, e).pins == map[]
    ensures !Forgets(s, e) && !e.op.DoPick? ==> Apply(s, e).pins == s.pins
    ensures Apply(s, e).ttl == s.ttl
  {
    hide Find, KeyOf, Decide, WithRoom;
  }

  lemma FreshAnswer(s: State, pa: IpAddr, pb: IpAddr, now: nat)
    requires Chooses(s) && !Holds(s, KeyOf(pa, pb), now)
    ensures PickAnswer(s, pa, pb, true, now) == Decide(s, pa, pb)
  {
    hide Find, KeyOf, Decide, Holds;
  }

  lemma FreshPins(s: State, pa: IpAddr, pb: IpAddr, now: nat)
    requires Chooses(s) && !Holds(s, KeyOf(pa, pb), now)
    ensures var key := KeyOf(pa, pb);
      PickState(s, pa, pb, true, now).pins ==
        if s.ttl == 0 then s.pins - {key}
        else WithRoom(s.pins - {key}, now)[key := Pin(Decide(s, pa, pb).relay, now + s.ttl)]
  {
    hide Find, KeyOf, Decide, WithRoom, Holds;
  }

  /** What a pick does to what is held: nothing, or replace this pair's entry after making room. */
  lemma PickAndPins(s: State, e: Event)
    requires e.op.DoPick?
    ensures var key := KeyOf(e.op.pa, e.op.pb);
      var t := Apply(s, e);
      if !e.op.commit || !Chooses(s) || Holds(s, key, e.now) then t.pins == s.pins
      else if s.ttl == 0 then t.pins == s.pins - {key}
      else
        && t.pins == WithRoom(s.pins - {key}, e.now)[key := Pin(AnswerTo(s, e).relay, e.now + s.ttl)]
        && DecidesAfresh(s, e, key, AnswerTo(s, e).relay)
  {
    hide Find, KeyOf, Decide, WithRoom, Holds, Pinning, PickAnswer;
    if e.op.commit && Chooses(s) && !Holds(s, KeyOf(e.op.pa, e.op.pb), e.now) {
      hide PickState, Chooses;
      FreshAnswer(s, e.op.pa, e.op.pb, e.now);
      FreshPins(s, e.op.pa, e.op.pb, e.now);
    }
  }

  /* ---------------------------------------------------------------- justification */

  /** Some fresh decision named this relay for this pair, set this deadline, and nothing since
      has dropped it. */
  ghost predicate Justified(s: State, es: seq<Event>, n: nat, key: PinKey, pin: Pin, j: nat)
    requires n <= |es|
  {
    && j < n
    && DecidesAfresh(At(s, es, j), es[j], key, pin.relay)
    && pin.until == es[j].now + s.ttl
    && forall i :: j < i < n ==> !Forgets(At(s, es, i), es[i])
  }

  lemma {:induction false} PinsJustified(s: State, es: seq<Event>, n: nat, key: PinKey)
    requires s.pins == map[] && n <= |es|
    ensures At(s, es, n).ttl == s.ttl
    ensures key in At(s, es, n).pins ==> exists j :: Justified(s, es, n, key, At(s, es, n).pins[key], j)
  {
    hide Apply, KeyOf, WithRoom, Decide, DecidesAfresh, Forgets;
    if n > 0 {
      PinsJustified(s, es, n - 1, key);
      AtNext(s, es, n - 1);
      var e, before, after := es[n - 1], At(s, es, n - 1), At(s, es, n);
      ForgettingDropsAll(before, e);
      if key in after.pins {
        PinKept(before, e, key);
        if key in before.pins && before.pins[key] == after.pins[key] && !Forgets(before, e) {
          var j :| Justified(s, es, n - 1, key, before.pins[key], j);
          assert Justified(s, es, n, key, after.pins[key], j);
        } else {
          assert Justified(s, es, n, key, after.pins[key], n - 1);
        }
      }
    } else {
      assert es[..0] == [];
    }
  }

  /** An entry present after a step was there before, or is this step's own fresh decision. */
  lemma PinKept(s: State, e: Event, key: PinKey)
    requires key in Apply(s, e).pins
    ensures !Forgets(s, e)
    ensures var pin := Apply(s, e).pins[key];
      || (key in s.pins && s.pins[key] == pin)
      || (DecidesAfresh(s, e, key, pin.relay) && pin.until == e.now + s.ttl)
  {
    hide Find, KeyOf, Decide, DecidesAfresh, PickAnswer, PickState;
    ForgettingDropsAll(s, e);
    if e.op.DoPick? { PickAndPins(s, e); }
  }

  /** Every `pinned` answer repeats a fresh decision for the same pair made less than the time
      limit ago, with no reload and no `use-relay` since, and names a relay healthy now. */
  lemma PinnedAnswerIsJustified(s: State, es: seq<Event>, n: nat)
    requires s.pins == map[] && n < |es| && es[n].op.DoPick?
    requires AnswerTo(At(s, es, n), es[n]).reason == Pinned
    ensures AnswerTo(At(s, es, n), es[n]).relay in At(s, es, n).live
    ensures exists j ::
      && 0 <= j < n
      && DecidesAfresh(At(s, es, j), es[j], KeyOf(es[n].op.pa, es[n].op.pb), AnswerTo(At(s, es, n), es[n]).relay)
      && es[n].now < es[j].now + s.ttl
      && forall i :: j < i < n ==> !Forgets(At(s, es, i), es[i])
  {
    hide KeyOf, Decide, Find, At, DecidesAfresh, Forgets;
    var key := KeyOf(es[n].op.pa, es[n].op.pb);
    PinsJustified(s, es, n, key);
    var t := At(s, es, n);
    assert Holds(t, key, es[n].now);
    var j :| Justified(s, es, n, key, t.pins[key], j);
  }

  /* ---------------------------------------------------------------- one relay per attempt */

  /** What a run must not do to the choice made for `key`: drop everything, crowd it out, or
      ask about the pair while its relay is down. */
  ghost predicate Undisturbed(s: State, e: Event, key: PinKey, pin: Pin) {
    && !Forgets(s, e)
    && e.now < pin.until
    && (Asks(e, key) ==> pin.relay in s.live)
    && (e.op.DoPick? ==> |Unexpired(s.pins, e.now)| < 4096)
  }

  lemma UnexpiredShrinks(pins: map<PinKey, Pin>, key: PinKey, now: nat)
    ensures |Unexpired(pins - {key}, now)| <= |Unexpired(pins, now)|
  {
    var a, b := Unexpired(pins - {key}, now), Unexpired(pins, now);
    assert a.Keys <= b.Keys;
    SubsetSize(a.Keys, b.Keys);
    assert |a.Keys| == |a| && |b.Keys| == |b|;
  }

  lemma SubsetSize<T>(a: set<T>, b: set<T>)
    requires a <= b
    ensures |a| <= |b|
  {
    assert |b| == |a| + |b - a| by { assert b == a + (b - a); }
  }

  lemma PinSurvivesStep(s: State, e: Event, key: PinKey, pin: Pin)
    requires key in s.pins && s.pins[key] == pin && Undisturbed(s, e, key, pin)
    ensures key in Apply(s, e).pins && Apply(s, e).pins[key] == pin
  {
    hide Find, KeyOf, Decide, PickState, PickAnswer;
    ForgettingDropsAll(s, e);
    if e.op.DoPick? {
      PickAndPins(s, e);
      UnexpiredShrinks(s.pins, KeyOf(e.op.pa, e.op.pb), e.now);
    }
  }

  lemma {:induction false} PinSurvives(s: State, es: seq<Event>, m: nat, n: nat, key: PinKey, pin: Pin)
    requires m <= n <= |es|
    requires key in At(s, es, m).pins && At(s, es, m).pins[key] == pin
    requires forall i :: m <= i < n ==> Undisturbed(At(s, es, i), es[i], key, pin)
    ensures key in At(s, es, n).pins && At(s, es, n).pins[key] == pin
  {
    hide Apply, Undisturbed, At;
    if m < n {
      PinSurvives(s, es, m, n - 1, key, pin);
      AtNext(s, es, n - 1);
      assert Undisturbed(At(s, es, n - 1), es[n - 1], key, pin);
      PinSurvivesStep(At(s, es, n - 1), es[n - 1], key, pin);
    }
  }

  /** After a fresh decision, every committed question about the pair, in either order, within the
      time limit gets the same relay while it stays healthy and unpreferred and nothing disturbs it. */
  lemma OneRelayPerAttempt(s: State, es: seq<Event>, j: nat, n: nat, key: PinKey, relay: string)
    requires j < n < |es| && s.ttl > 0 && s.pins == map[]
    requires DecidesAfresh(At(s, es, j), es[j], key, relay)
    requires var pin := Pin(relay, es[j].now + s.ttl);
      forall i :: j < i < n ==> Undisturbed(At(s, es, i), es[i], key, pin)
    requires Asks(es[n], key) && es[n].now < es[j].now + s.ttl
    requires relay in At(s, es, n).live && PreferredRelay(At(s, es, n)).None?
    ensures AnswerTo(At(s, es, n), es[n]).relay == relay
  {
    hide KeyOf, Decide, Find, At, Undisturbed, PreferredRelay, PickAnswer, Apply;
    var pin := Pin(relay, es[j].now + s.ttl);
    PinsJustified(s, es, j, key);
    AtNext(s, es, j);
    FreshIsHeld(At(s, es, j), es[j], key, relay);
    PinSurvives(s, es, j + 1, n, key, pin);
    HeldIsAnswered(At(s, es, n), es[n], key, pin);
  }

  /** A fresh decision is held from then on. */
  lemma FreshIsHeld(s: State, e: Event, key: PinKey, relay: string)
    requires DecidesAfresh(s, e, key, relay) && s.ttl > 0
    ensures key in Apply(s, e).pins && Apply(s, e).pins[key] == Pin(relay, e.now + s.ttl)
  {
    hide KeyOf, Decide, Find, WithRoom, Apply;
    PickAndPins(s, e);
  }

  /** What is held answers its pair while its relay is healthy and none is preferred. */
  lemma HeldIsAnswered(s: State, e: Event, key: PinKey, pin: Pin)
    requires Asks(e, key) && key in s.pins && s.pins[key] == pin
    requires e.now < pin.until && pin.relay in s.live && PreferredRelay(s).None?
    ensures AnswerTo(s, e).relay == pin.relay
  {
    hide KeyOf, Decide, PreferredRelay;
  }

  /* ---------------------------------------------------------------- capacity */

  /** There are never more held choices than the bound. */
  lemma {:induction false} PinsBounded(s: State, es: seq<Event>)
    requires |s.pins| <= 4096
    ensures |Run(s, es).pins| <= 4096
  {
    hide Apply;
    if es != [] {
      var n := |es| - 1;
      PinsBounded(s, es[..n]);
      PinsBoundedStep(Run(s, es[..n]), es[n]);
    }
  }

  lemma PinsBoundedStep(s: State, e: Event)
    requires |s.pins| <= 4096
    ensures |Apply(s, e).pins| <= 4096
  {
    hide Find, KeyOf, Decide, PickState, PickAnswer, Unexpired;
    ForgettingDropsAll(s, e);
    if e.op.DoPick? {
      PickAndPins(s, e);
      var key := KeyOf(e.op.pa, e.op.pb);
      var left := s.pins - {key};
      assert left.Keys <= s.pins.Keys;
      SubsetSize(left.Keys, s.pins.Keys);
      assert |left.Keys| == |left| && |s.pins.Keys| == |s.pins|;
    }
  }

  /* ---------------------------------------------------------------- fairness */

  /** The answers given in turn, in order. */
  function InTurn(s: State, es: seq<Event>): seq<string> {
    if es == [] then []
    else
      var n := |es| - 1;
      var before := Run(s, es[..n]);
      var e := es[n];
      InTurn(s, es[..n])
      + if e.op.DoPick? && e.op.commit && AnswerTo(before, e).reason == RoundRobin
        then [AnswerTo(before, e).relay] else []
  }

  function Turns(live: seq<string>, from: nat, m: nat): (r: seq<string>)
    requires live != []
    ensures |r| == m
  {
    if m == 0 then [] else Turns(live, from, m - 1) + [live[(from + m - 1) % |live|]]
  }

  /** While the healthy list stays the same, the answers given in turn go round it without a skip,
      whatever else happens in between: dry runs, held, routed and preferred picks, reloads. */
  lemma {:induction false} TurnsGoRound(s: State, es: seq<Event>)
    requires s.live != []
    requires forall i :: 0 <= i < |es| && es[i].op.DoSetLive? ==> es[i].op.relays == s.live
    ensures Run(s, es).live == s.live
    ensures Run(s, es).rotation == s.rotation + |InTurn(s, es)|
    ensures InTurn(s, es) == Turns(s.live, s.rotation, |InTurn(s, es)|)
  {
    hide Apply, AnswerTo;
    if es != [] {
      var n := |es| - 1;
      TurnsGoRound(s, es[..n]);
      TurnStep(Run(s, es[..n]), es[n]);
    }
  }

  lemma TurnStep(s: State, e: Event)
    requires s.live != [] && (e.op.DoSetLive? ==> e.op.relays == s.live)
    ensures Apply(s, e).live == s.live
    ensures var turned := e.op.DoPick? && e.op.commit && AnswerTo(s, e).reason == RoundRobin;
      && Apply(s, e).rotation == s.rotation + (if turned then 1 else 0)
      && (turned ==> AnswerTo(s, e).relay == s.live[s.rotation % |s.live|])
  {
    hide Find, KeyOf, WithRoom, Sides, ReasonOf, ChooseFrom;
  }

  function Count(xs: seq<string>, x: string): nat {
    if xs == [] then 0 else Count(xs[..|xs| - 1], x) + if xs[|xs| - 1] == x then 1 else 0
  }

  /** How many numbers below `k` leave remainder `r`. */
  function Hits(k: nat, r: nat, n: nat): nat
    requires r < n
  {
    if k == 0 then 0 else Hits(k - 1, r, n) + if (k - 1) % n == r then 1 else 0
  }

  lemma {:induction false} HitsBounds(k: nat, r: nat, n: nat)
    requires r < n
    ensures Hits(k, r, n) == k / n + if k % n > r then 1 else 0
  {
    if k > 0 {
      HitsBounds(k - 1, r, n);
      DivNext(k - 1, n);
    } else {
      assert 0 / n == 0 && 0 % n == 0;
    }
  }

  lemma DivNext(k: nat, n: nat)
    requires n > 0
    ensures k % n == n - 1 ==> (k + 1) / n == k / n + 1 && (k + 1) % n == 0
    ensures k % n != n - 1 ==> (k + 1) / n == k / n && (k + 1) % n == k % n + 1
  {
    var q, r := k / n, k % n;
    assert k == n * q + r;
    if r == n - 1 { DivIs(k + 1, n, q + 1, 0); } else { DivIs(k + 1, n, q, r + 1); }
  }

  lemma CountSnoc(xs: seq<string>, y: string, x: string)
    ensures Count(xs + [y], x) == Count(xs, x) + if y == x then 1 else 0
  {
    assert (xs + [y])[..|xs|] == xs;
  }

  lemma TurnsSnoc(live: seq<string>, from: nat, m: nat)
    requires live != []
    ensures Turns(live, from, m + 1) == Turns(live, from, m) + [live[(from + m) % |live|]]
  {
  }

  lemma HitsNext(k: nat, r: nat, n: nat)
    requires r < n
    ensures Hits(k + 1, r, n) == Hits(k, r, n) + if k % n == r then 1 else 0
  {
  }

  lemma {:induction false} CountTurns(live: seq<string>, from: nat, m: nat, r: nat)
    requires r < |live|
    requires forall i, j :: 0 <= i < j < |live| ==> live[i] != live[j]
    ensures Count(Turns(live, from, m), live[r]) == Hits(from + m, r, |live|) - Hits(from, r, |live|)
  {
    hide Count, Turns, Hits;
    if m == 0 {
      NoTurns(live, from, live[r]);
    } else {
      CountTurns(live, from, m - 1, r);
      var at := (from + m - 1) % |live|;
      TurnsSnoc(live, from, m - 1);
      CountSnoc(Turns(live, from, m - 1), live[at], live[r]);
      HitsNext(from + m - 1, r, |live|);
      assert live[at] == live[r] <==> at == r;
    }
  }

  lemma NoTurns(live: seq<string>, from: nat, x: string)
    requires live != []
    ensures Count(Turns(live, from, 0), x) == 0
  {
  }

  lemma SumBelow(n: nat, x: nat, y: nat, a: nat, b: nat, k: nat)
    requires a + b < n && k == n * x + a + (n * y + b)
    ensures k / n == x + y && k % n == a + b
  {
    Distribute(n, x, y);
    DivIs(k, n, x + y, a + b);
  }

  lemma SumAbove(n: nat, x: nat, y: nat, a: nat, b: nat, k: nat)
    requires a < n && b < n <= a + b && k == n * x + a + (n * y + b)
    ensures k / n == x + y + 1 && k % n == a + b - n
  {
    Distribute(n, x, y);
    Distribute(n, x + y, 1);
    DivIs(k, n, x + y + 1, a + b - n);
  }

  /** Counting remainders: from `from` on, `m` numbers hit a remainder m/n times, rounded down or up. */
  lemma HitsBetween(from: nat, m: nat, r: nat, n: nat)
    requires r < n
    ensures var c := Hits(from + m, r, n) - Hits(from, r, n);
      c == m / n || (c == m / n + 1 && m % n != 0)
  {
    hide Hits;
    HitsBounds(from + m, r, n);
    HitsBounds(from, r, n);
    Quotient(from, n);
    Quotient(m, n);
    if from % n + m % n < n {
      SumBelow(n, from / n, m / n, from % n, m % n, from + m);
    } else {
      SumAbove(n, from / n, m / n, from % n, m % n, from + m);
    }
  }

  /** Over any run with the healthy list unchanged, m answers given in turn among n distinct relays
      give each relay m/n answers, rounded down or up. */
  lemma RoundRobinIsFair(s: State, es: seq<Event>, r: nat)
    requires r < |s.live|
    requires forall i, j :: 0 <= i < j < |s.live| ==> s.live[i] != s.live[j]
    requires forall i :: 0 <= i < |es| && es[i].op.DoSetLive? ==> es[i].op.relays == s.live
    ensures var n := |s.live|;
      var m := |InTurn(s, es)|;
      var c := Count(InTurn(s, es), s.live[r]);
      c == m / n || (c == m / n + 1 && m % n != 0)
  {
    hide InTurn, Count, Hits;
    var n, m := |s.live|, |InTurn(s, es)|;
    TurnsGoRound(s, es);
    CountTurns(s.live, s.rotation, m, r);
    HitsBetween(s.rotation, m, r, n);
  }

  /* ---------------------------------------------------------------- commands and reloads */

  /** A `use-relay` that says something: a relay, or `auto`. */
  predicate Commands(e: Event) { e.op.DoUseRelay? && e.op.arg.Some? }

  lemma PreferredAfter(s: State, e: Event)
    ensures !Commands(e) ==> Apply(s, e).preferred == s.preferred
    ensures Commands(e) ==>
      var found := Find(s.live, e.op.arg.value);
      Apply(s, e).preferred == if e.op.arg.value == "auto" then None else if found.Some? then found else s.preferred
  {
    hide Find, KeyOf, Decide, WithRoom;
  }

  /** A command holds until the next one. */
  lemma {:induction false} PreferredStays(s: State, es: seq<Event>, j: nat, n: nat)
    requires j < n <= |es| && forall i :: j < i < n ==> !Commands(es[i])
    ensures At(s, es, n).preferred == Apply(At(s, es, j), es[j]).preferred
  {
    hide Apply, At;
    AtNext(s, es, n - 1);
    if j < n - 1 {
      PreferredStays(s, es, j, n - 1);
      PreferredAfter(At(s, es, n - 1), es[n - 1]);
    }
  }

  /** After `use-relay r` with `r` answering, every pick among several relays answers it while it is
      answering, committed or not, and changes nothing, until the next command. */
  lemma CommandedRelayAnswers(s: State, es: seq<Event>, j: nat, n: nat, r: string)
    requires j < n < |es| && es[j].op == DoUseRelay(Some(r)) && r != "auto" && Find(At(s, es, j).live, r).Some?
    requires es[n].op.DoPick? && forall i :: j < i < n ==> !Commands(es[i])
    requires var live := At(s, es, n).live;
      |live| >= 2 && exists l :: l in live && Normalize(l) == Normalize(r)
    ensures var t := At(s, es, n); var a := AnswerTo(t, es[n]);
      && a.reason == Preferred && a.relay in t.live && Normalize(a.relay) == Normalize(r)
      && Apply(t, es[n]) == t
  {
    hide At, Find, KeyOf, Decide, Normalize;
    PreferredStays(s, es, j, n);
    PreferredAfter(At(s, es, j), es[j]);
  }

  /** After `use-relay auto` no pick is answered for being preferred, until the next command. */
  lemma AutoPrefersNone(s: State, es: seq<Event>, j: nat, n: nat)
    requires j < n < |es| && es[j].op == DoUseRelay(Some("auto"))
    requires es[n].op.DoPick? && forall i :: j < i < n ==> !Commands(es[i])
    ensures AnswerTo(At(s, es, n), es[n]).reason != Preferred
  {
    hide At, Find, KeyOf, Decide;
    PreferredStays(s, es, j, n);
    PreferredAfter(At(s, es, j), es[j]);
  }

  predicate LoadsRoutes(s: State, e: Event) {
    e.op.DoReloadRoutes? && Reloads(s.table, e.op.stamp, e.op.rules)
  }

  predicate LoadsDb(s: State, e: Event) {
    e.op.DoReloadGeo? && Reloads(s.db, e.op.dbStamp, e.op.db)
  }

  predicate LoadsLocations(s: State, e: Event) {
    e.op.DoReloadGeo? && Reloads(s.locations, e.op.locStamp, e.op.loc)
  }

  lemma LoadedAfter(s: State, e: Event)
    ensures Apply(s, e).table.value == if LoadsRoutes(s, e) then e.op.rules else s.table.value
    ensures Apply(s, e).db.value == if LoadsDb(s, e) then e.op.db else s.db.value
    ensures Apply(s, e).locations.value == if LoadsLocations(s, e) then e.op.loc else s.locations.value
  {
    hide Find, KeyOf, Decide, WithRoom;
  }

  /** A file that has not changed since it was looked at is not looked at again, whatever came of it. */
  lemma LookedAtOnce<T>(f: Watched<T>, stamp: Stamp, loaded: Option<T>, again: Option<T>)
    ensures !Reloads(Reloaded(f, stamp, loaded), stamp, again)
    ensures Reloaded(Reloaded(f, stamp, loaded), stamp, again) == Reloaded(f, stamp, loaded)
    ensures f.isSet && f.seen != Some(stamp) && stamp.Some? && loaded.Some? ==>
      Reloaded(f, stamp, loaded).value == loaded
  {
  }

  /** What was loaded is in force until something is loaded in its place: a file that fails to load, and
      everything else, leaves it. */
  lemma {:induction false} LoadedStays(s: State, es: seq<Event>, j: nat, n: nat)
    requires j < n <= |es|
    ensures LoadsRoutes(At(s, es, j), es[j]) && (forall i :: j < i < n ==> !LoadsRoutes(At(s, es, i), es[i])) ==>
      At(s, es, n).table.value == es[j].op.rules
    ensures LoadsDb(At(s, es, j), es[j]) && (forall i :: j < i < n ==> !LoadsDb(At(s, es, i), es[i])) ==>
      At(s, es, n).db.value == es[j].op.db
    ensures LoadsLocations(At(s, es, j), es[j])
      && (forall i :: j < i < n ==> !LoadsLocations(At(s, es, i), es[i]))
      ==> At(s, es, n).locations.value == es[j].op.loc
  {
    hide Apply, At, LoadsRoutes, LoadsDb, LoadsLocations;
    AtNext(s, es, n - 1);
    LoadedAfter(At(s, es, n - 1), es[n - 1]);
    if j < n - 1 { LoadedStays(s, es, j, n - 1); }
  }

  /** So a table that loaded prices every later pick, by its longest match for each end, until another
      table loads. */
  lemma LoadedTablePrices(s: State, es: seq<Event>, j: nat, n: nat, ip: IpAddr, r: Rule)
    requires j < n <= |es| && LoadsRoutes(At(s, es, j), es[j]) && TableOk(es[j].op.rules.value)
    requires forall i :: j < i < n ==> !LoadsRoutes(At(s, es, i), es[i])
    requires IsLongestMatch(es[j].op.rules.value, Canonical(ip), r)
    ensures SideCosts(At(s, es, n), ip) == Some((r.costs, FromRoutes))
  {
    hide At, TableOk, IsLongestMatch, SideCosts;
    LoadedStays(s, es, j, n);
    SideCostsMeans(At(s, es, n), ip);
  }
}
