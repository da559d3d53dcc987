/**
 The relay selector: held choices (pins) with a time limit and a capacity in front of the cost
 minimiser, in front of round-robin.  The state, each operation on it, and the object that
 carries them out.
 */
module Selector {
  import opened Basics
  import opened Text
  import opened RouteTable
  import opened Choose

  /** Bound on held choices. */
  const MAX_RELAY_PINS: nat := 4096

  /** The two ends of a session in a fixed order. */
  type PinKey = (IpAddr, IpAddr)

  datatype Pin = Pin(relay: string, until: nat)
  datatype Point = Point(lat: real, lon: real)
  datatype Source = FromRoutes | FromGeo
  datatype Reason = NoRelay | OnlyRelay | Preferred | Pinned | Routes | Geo | RoutesAndGeo | RoundRobin
  datatype Answer = Answer(relay: string, reason: Reason, totals: seq<real>)

  /** A file as last looked at: when it was modified and how long it is, if it was there. */
  type Stamp = Option<(nat, nat)>

  /** A file the server re-reads when it changes: is it configured, what it last held, how it last looked. */
  datatype Watched<T> = Watched(isSet: bool, value: Option<T>, seen: Option<Stamp>)

  type GeoDb = IpAddr -> Option<Point>
  type Locations = Point -> Costs

  datatype State = State(
    live: seq<string>,
    preferred: Option<string>,
    pins: map<PinKey, Pin>,
    rotation: nat,
    ttl: nat,
    table: Watched<seq<Rule>>,
    db: Watched<GeoDb>,
    locations: Watched<Locations>)

  predicate IpLe(a: IpAddr, b: IpAddr) {
    if a.V4? == b.V4? then a.bits <= b.bits else a.V4?
  }

  function KeyOf(pa: IpAddr, pb: IpAddr): PinKey {
    var a, b := Canonical(pa), Canonical(pb);
    if IpLe(a, b) then (a, b) else (b, a)
  }

  /** Either end may be the controller, and a wrapped IPv4 address is that IPv4 address. */
  lemma KeyIgnoresOrder(pa: IpAddr, pb: IpAddr)
    ensures KeyOf(pa, pb) == KeyOf(pb, pa) == KeyOf(Canonical(pa), Canonical(pb))
  {
  }

  function Find(live: seq<string>, want: string): (r: Option<string>)
    ensures r.Some? ==> r.value in live && Normalize(r.value) == Normalize(want)
    ensures r.None? ==> forall l :: l in live ==> Normalize(l) != Normalize(want)
  {
    if live == [] then None
    else if Normalize(live[0]) == Normalize(want) then Some(live[0])
    else Find(live[1..], want)
  }

  /** The first that is the same after normalising. */
  lemma {:induction false} FindsFirst(live: seq<string>, want: string, i: nat)
    requires i < |live| && Normalize(live[i]) == Normalize(want)
    requires forall j :: 0 <= j < i ==> Normalize(live[j]) != Normalize(want)
    ensures Find(live, want) == Some(live[i])
  {
    hide Normalize;
    if i > 0 { FindsFirst(live[1..], want, i - 1); }
  }

  function PreferredRelay(s: State): Option<string> {
    if s.preferred.None? then None else Find(s.live, s.preferred.value)
  }

  function Locate(s: State, ip: IpAddr): Option<Point> {
    if s.locations.value.None? || s.db.value.None? then None else s.db.value.value(ip)
  }

  /** What is known about one end: the table's line for it, else distances by location. */
  function SideCosts(s: State, ip: IpAddr): Option<(Costs, Source)> {
    var fromTable := if s.table.value.None? then None else CostsFor(s.table.value.value, ip);
    if fromTable.Some? then Some((fromTable.value, FromRoutes))
    else
      var at := Locate(s, ip);
      if at.None? then None else Some((s.locations.value.value(at.value), FromGeo))
  }

  function Sides(s: State, pa: IpAddr, pb: IpAddr): (seq<Costs>, seq<Source>) {
    var a, b := SideCosts(s, pa), SideCosts(s, pb);
    ((if a.Some? then [a.value.0] else []) + (if b.Some? then [b.value.0] else []),
     (if a.Some? then [a.value.1] else []) + (if b.Some? then [b.value.1] else []))
  }

  function ReasonOf(sources: seq<Source>): (r: Reason)
    ensures r in {Routes, Geo, RoutesAndGeo}
  {
    if forall i :: 0 <= i < |sources| ==> sources[i] == FromRoutes then Routes
    else if forall i :: 0 <= i < |sources| ==> sources[i] == FromGeo then Geo
    else RoutesAndGeo
  }

  /** A decision that does not come from a held choice: by cost if anything is known, else in turn. */
  function Decide(s: State, pa: IpAddr, pb: IpAddr): (a: Answer)
    requires s.live != []
    ensures a.relay in s.live && a.reason in {Routes, Geo, RoutesAndGeo, RoundRobin}
  {
    var (sides, sources) := Sides(s, pa, pb);
    match ChooseFrom(s.live, sides)
    case Some(c) => Answer(c.relay, ReasonOf(sources), c.totals)
    case None => Answer(s.live[s.rotation % |s.live|], RoundRobin, [])
  }

  /** A held choice that is neither expired nor names a relay that has stopped answering. */
  predicate Holds(s: State, key: PinKey, now: nat) {
    key in s.pins && s.pins[key].until > now && s.pins[key].relay in s.live
  }

  function Unexpired(pins: map<PinKey, Pin>, now: nat): map<PinKey, Pin> {
    map k | k in pins && pins[k].until > now :: pins[k]
  }

  function WithRoom(pins: map<PinKey, Pin>, now: nat): map<PinKey, Pin> {
    if |pins| < MAX_RELAY_PINS then pins
    else if |Unexpired(pins, now)| < MAX_RELAY_PINS then Unexpired(pins, now)
    else map[]
  }

  function Pinning(s: State, key: PinKey, relay: string, now: nat): State {
    if s.ttl == 0 then s
    else s.(pins := WithRoom(s.pins, now)[key := Pin(relay, now + s.ttl)])
  }

  function Turned(s: State, a: Answer): State {
    if a.reason == RoundRobin then s.(rotation := s.rotation + 1) else s
  }

  /** Does a pick get as far as asking what is held? */
  predicate Chooses(s: State) {
    |s.live| >= 2 && PreferredRelay(s).None?
  }

  function PickAnswer(s: State, pa: IpAddr, pb: IpAddr, commit: bool, now: nat): Answer {
    if s.live == [] then Answer("", NoRelay, [])
    else if |s.live| == 1 then Answer(s.live[0], OnlyRelay, [])
    else if PreferredRelay(s).Some? then Answer(PreferredRelay(s).value, Preferred, [])
    else if commit && Holds(s, KeyOf(pa, pb), now) then Answer(s.pins[KeyOf(pa, pb)].relay, Pinned, [])
    else Decide(s, pa, pb)
  }

  function PickState(s: State, pa: IpAddr, pb: IpAddr, commit: bool, now: nat): State {
    var key := KeyOf(pa, pb);
    if !commit || !Chooses(s) || Holds(s, key, now) then s
    else
      var a := Decide(s, pa, pb);
      Pinning(Turned(s.(pins := s.pins - {key}), a), key, a.relay, now)
  }

  /** `use-relay`: every form of the command drops the held choices. */
  function UseRelayState(s: State, arg: Option<string>): State {
    var preferred :=
      if arg.None? then s.preferred
      else if arg.value == "auto" then None
      else if Find(s.live, arg.value).Some? then Find(s.live, arg.value)
      else s.preferred;
    s.(preferred := preferred, pins := map[])
  }

  predicate Reloads<T>(f: Watched<T>, stamp: Stamp, loaded: Option<T>) {
    f.isSet && f.seen != Some(stamp) && stamp.Some? && loaded.Some?
  }

  /** A changed file is looked at once; one that cannot be read leaves what it last held in force. */
  function Reloaded<T>(f: Watched<T>, stamp: Stamp, loaded: Option<T>): Watched<T> {
    if !f.isSet then f
    else Watched(true, if Reloads(f, stamp, loaded) then loaded else f.value, Some(stamp))
  }

  function ReloadRoutesState(s: State, stamp: Stamp, loaded: Option<seq<Rule>>): State {
    s.(table := Reloaded(s.table, stamp, loaded),
       pins := if Reloads(s.table, stamp, loaded) then map[] else s.pins)
  }

  function ReloadGeoState(s: State, dbStamp: Stamp, db: Option<GeoDb>, locStamp: Stamp, loc: Option<Locations>): State {
    s.(db := Reloaded(s.db, dbStamp, db),
       locations := Reloaded(s.locations, locStamp, loc),
       pins := if Reloads(s.db, dbStamp, db) || Reloads(s.locations, locStamp, loc) then map[] else s.pins)
  }

  /** The selector as the server holds it. */
  class RelaySelector {
    var live: seq<string>
    var preferred: Option<string>
    var pins: map<PinKey, Pin>
    var rotation: nat
    var ttl: nat
    var table: Watched<seq<Rule>>
    var db: Watched<GeoDb>
    var locations: Watched<Locations>

    ghost function View(): State
      reads this
    {
      State(live, preferred, pins, rotation, ttl, table, db, locations)
    }

    constructor (ttl: nat, routesSet: bool, dbSet: bool, locationsSet: bool)
      ensures View() == State([], None, map[], 0, ttl, Watched(routesSet, None, None),
                              Watched(dbSet, None, None), Watched(locationsSet, None, None))
    {
      this.live, this.preferred, this.pins, this.rotation, this.ttl := [], None, map[], 0, ttl;
      this.table := Watched(routesSet, None, None);
      this.db := Watched(dbSet, None, None);
      this.locations := Watched(locationsSet, None, None);
    }

    method SetLive(relays: seq<string>)
      modifies this
      ensures View() == old(View()).(live := relays)
    {
      live := relays;
    }

    method FindLive(want: string) returns (r: Option<string>)
      ensures r == Find(live, want)
    {
      hide Normalize;
      for i := 0 to |live|
        invariant Find(live, want) == Find(live[i..], want)
      {
        if Normalize(live[i]) == Normalize(want) { return Some(live[i]); }
      }
      return None;
    }

    method PinnedRelay(key: PinKey, now: nat) returns (r: Option<string>)
      modifies this`pins
      ensures r == if old(Holds(View(), key, now)) then Some(old(pins)[key].relay) else None
      ensures pins == if r.Some? then old(pins) else old(pins) - {key}
    {
      if key in pins {
        if pins[key].until > now && pins[key].relay in live { return Some(pins[key].relay); }
        pins := pins - {key};
      }
      return None;
    }

    method PinRelay(key: PinKey, relay: string, now: nat)
      modifies this`pins
      ensures View() == Pinning(old(View()), key, relay, now)
    {
      if ttl == 0 { return; }
      if |pins| >= MAX_RELAY_PINS {
        pins := map k | k in pins && pins[k].until > now :: pins[k];
        if |pins| >= MAX_RELAY_PINS { pins := map[]; }
      }
      pins := pins[key := Pin(relay, now + ttl)];
    }

    method SideOf(ip: IpAddr) returns (r: Option<(Costs, Source)>)
      ensures r == SideCosts(View(), ip)
    {
      hide CostsFor;
      if table.value.Some? {
        var costs := CostsFor(table.value.value, ip);
        if costs.Some? { return Some((costs.value, FromRoutes)); }
      }
      if locations.value.None? || db.value.None? { return None; }
      var at := db.value.value(ip);
      if at.None? { return None; }
      return Some((locations.value.value(at.value), FromGeo));
    }

    method Decision(pa: IpAddr, pb: IpAddr) returns (a: Answer)
      requires live != []
      ensures a == Decide(View(), pa, pb)
    {
      hide SideCosts, ChooseFrom;
      var sa := SideOf(pa);
      var sb := SideOf(pb);
      var sides := (if sa.Some? then [sa.value.0] else []) + (if sb.Some? then [sb.value.0] else []);
      var sources := (if sa.Some? then [sa.value.1] else []) + (if sb.Some? then [sb.value.1] else []);
      var routed := ChooseBest(live, sides);
      if routed.Some? {
        a := Answer(routed.value.relay, ReasonOf(sources), routed.value.totals);
      } else {
        a := Answer(live[rotation % |live|], RoundRobin, []);
      }
    }

    /** What a pick does once nothing held answers it. */
    method FreshPick(pa: IpAddr, pb: IpAddr, commit: bool, now: nat) returns (a: Answer)
      requires live != []
      modifies this
      ensures a == Decide(old(View()), pa, pb)
      ensures View() == if commit then Pinning(Turned(old(View()), a), KeyOf(pa, pb), a.relay, now) else old(View())
    {
      hide Decide, KeyOf, WithRoom;
      a := Decision(pa, pb);
      if commit {
        if a.reason == RoundRobin { rotation := rotation + 1; }
        PinRelay(KeyOf(pa, pb), a.relay, now);
      }
    }

    method Pick(pa: IpAddr, pb: IpAddr, commit: bool, now: nat) returns (a: Answer)
      modifies this
      ensures a == PickAnswer(old(View()), pa, pb, commit, now)
      ensures View() == PickState(old(View()), pa, pb, commit, now)
    {
      hide Find, Decide, KeyOf, Pinning, Turned;
      if |live| == 0 { return Answer("", NoRelay, []); }
      if |live| == 1 { return Answer(live[0], OnlyRelay, []); }
      if preferred.Some? {
        var found := FindLive(preferred.value);
        if found.Some? { return Answer(found.value, Preferred, []); }
      }
      if commit {
        var held := PinnedRelay(KeyOf(pa, pb), now);
        if held.Some? { return Answer(held.value, Pinned, []); }
      }
      DecideIgnoresPins(View(), old(View()), pa, pb);
      a := FreshPick(pa, pb, commit, now);
    }

    method UseRelay(arg: Option<string>)
      modifies this
      ensures View() == UseRelayState(old(View()), arg)
    {
      hide Find;
      if arg.Some? {
        if arg.value == "auto" {
          preferred := None;
        } else {
          var found := FindLive(arg.value);
          if found.Some? { preferred := found; }
        }
      }
      pins := map[];
    }

    method ReloadRoutes(stamp: Stamp, loaded: Option<seq<Rule>>)
      modifies this
      ensures View() == ReloadRoutesState(old(View()), stamp, loaded)
    {
      if !table.isSet || table.seen == Some(stamp) { return; }
      table := table.(seen := Some(stamp));
      if stamp.Some? && loaded.Some? {
        table := table.(value := loaded);
        pins := map[];
      }
    }

    method ReloadDb(stamp: Stamp, loaded: Option<GeoDb>) returns (changed: bool)
      modifies this`db
      ensures changed == Reloads(old(db), stamp, loaded) && db == Reloaded(old(db), stamp, loaded)
    {
      if !db.isSet || db.seen == Some(stamp) { return false; }
      changed := stamp.Some? && loaded.Some?;
      db := Watched(true, if changed then loaded else db.value, Some(stamp));
    }

    method ReloadLocations(stamp: Stamp, loaded: Option<Locations>) returns (changed: bool)
      modifies this`locations
      ensures changed == Reloads(old(locations), stamp, loaded) && locations == Reloaded(old(locations), stamp, loaded)
    {
      if !locations.isSet || locations.seen == Some(stamp) { return false; }
      changed := stamp.Some? && loaded.Some?;
      locations := Watched(true, if changed then loaded else locations.value, Some(stamp));
    }

    method ReloadGeo(dbStamp: Stamp, newDb: Option<GeoDb>, locStamp: Stamp, newLoc: Option<Locations>)
      modifies this
      ensures View() == ReloadGeoState(old(View()), dbStamp, newDb, locStamp, newLoc)
    {
      var dbLoaded := ReloadDb(dbStamp, newDb);
      var locLoaded := ReloadLocations(locStamp, newLoc);
      var changed := dbLoaded || locLoaded;
      if changed { pins := map[]; }
    }
  }

  /** What is held has no part in a fresh decision. */
  lemma DecideIgnoresPins(s: State, t: State, pa: IpAddr, pb: IpAddr)
    requires s == t.(pins := s.pins) && s.live != []
    ensures Decide(s, pa, pb) == Decide(t, pa, pb)
  {
    hide CostsFor, ChooseFrom, ReasonOf, SideCosts;
    SideIgnoresPins(s, t, pa);
    SideIgnoresPins(s, t, pb);
  }

  lemma SideIgnoresPins(s: State, t: State, ip: IpAddr)
    requires s == t.(pins := s.pins)
    ensures SideCosts(s, ip) == SideCosts(t, ip)
  {
    hide CostsFor;
  }

  /** A fresh decision does not depend on which end is the controller, whatever is known of each. */
  lemma DecideIgnoresOrder(s: State, pa: IpAddr, pb: IpAddr)
    requires s.live != []
    ensures Decide(s, pa, pb) == Decide(s, pb, pa)
  {
    hide SideCosts, ChooseFrom, ReasonOf;
    var a, b := SideCosts(s, pa), SideCosts(s, pb);
    if a.Some? && b.Some? {
      SwappedEndsAgree(s.live, a.value.0, b.value.0);
      ReasonIgnoresOrder(a.value.1, b.value.1);
      assert [a.value.0] + [b.value.0] == [a.value.0, b.value.0] && [b.value.0] + [a.value.0] == [b.value.0, a.value.0];
      assert [a.value.1] + [b.value.1] == [a.value.1, b.value.1] && [b.value.1] + [a.value.1] == [b.value.1, a.value.1];
    } else {
      assert Sides(s, pa, pb).0 == Sides(s, pb, pa).0 && Sides(s, pa, pb).1 == Sides(s, pb, pa).1;
    }
  }

  lemma ReasonIgnoresOrder(a: Source, b: Source)
    ensures ReasonOf([a, b]) == ReasonOf([b, a])
  {
    assert [a, b][0] == a && [a, b][1] == b && [b, a][0] == b && [b, a][1] == a;
  }

  /* ---------------------------------------------------------------- what a pick answers */

  /** What is known of an end: the costs of the longest match in the table, and where the table has no
      line for it the costs of where the database places it. */
  lemma SideCostsMeans(s: State, ip: IpAddr)
    requires s.table.value.Some? ==> TableOk(s.table.value.value)
    ensures forall r :: s.table.value.Some? && IsLongestMatch(s.table.value.value, Canonical(ip), r) ==>
      SideCosts(s, ip) == Some((r.costs, FromRoutes))
    ensures (s.table.value.None? || forall q :: q in s.table.value.value ==> !Contains(q.net, Canonical(ip))) ==>
      SideCosts(s, ip) ==
        if s.locations.value.Some? && s.db.value.Some? && s.db.value.value(ip).Some?
        then Some((s.locations.value.value(s.db.value.value(ip).value), FromGeo))
        else None
  {
    hide TableOk, Contains, IsLongestMatch;
    if s.table.value.Some? { TableLookup(s.table.value.value, ip); }
  }

  /** What one end adds to a relay's price: nothing if nothing is known of it, else what is listed
      there under the relay's normalised name, else 1000 ms. */
  function Leg(known: Option<(Costs, Source)>, relay: string): real {
    match known
    case None => 0.0
    case Some(k) => if Normalize(relay) in k.0 then k.0[Normalize(relay)] else 1000.0
  }

  function Price(s: State, pa: IpAddr, pb: IpAddr, relay: string): real {
    Leg(SideCosts(s, pa), relay) + Leg(SideCosts(s, pb), relay)
  }

  predicate EndKnown(s: State, pa: IpAddr, pb: IpAddr) {
    SideCosts(s, pa).Some? || SideCosts(s, pb).Some?
  }

  /** The earliest of the least price. */
  predicate Cheapest(s: State, pa: IpAddr, pb: IpAddr, b: nat)
    requires b < |s.live|
  {
    && (forall i :: 0 <= i < |s.live| ==> Price(s, pa, pb, s.live[b]) <= Price(s, pa, pb, s.live[i]))
    && (forall i :: 0 <= i < b ==> Price(s, pa, pb, s.live[b]) < Price(s, pa, pb, s.live[i]))
  }

  lemma LegIs(k: (Costs, Source), relay: string)
    ensures LegCost(k.0, relay) == Leg(Some(k), relay)
  {
    hide Normalize;
  }

  lemma PriceIsTotal(s: State, pa: IpAddr, pb: IpAddr, relay: string)
    ensures Total(Sides(s, pa, pb).0, relay) == Price(s, pa, pb, relay)
  {
    hide SideCosts, Total, Leg, LegCost;
    var a, b := SideCosts(s, pa), SideCosts(s, pb);
    if a.Some? { LegIs(a.value, relay); } else { NoLeg(relay); }
    if b.Some? { LegIs(b.value, relay); } else { NoLeg(relay); }
    if a.Some? && b.Some? {
      assert Sides(s, pa, pb).0 == [a.value.0, b.value.0];
      TotalTwo(a.value.0, b.value.0, relay);
    } else if a.Some? || b.Some? {
      var k := if a.Some? then a.value.0 else b.value.0;
      assert Sides(s, pa, pb).0 == [k];
      TotalOne(k, relay);
    } else {
      assert Sides(s, pa, pb).0 == [];
    }
  }

  lemma NoLeg(relay: string)
    ensures Leg(None, relay) == 0.0 == Total([], relay)
  {
  }

  /** Which sources the known ends came from. */
  function ReasonFor(a: Option<(Costs, Source)>, b: Option<(Costs, Source)>): Reason {
    var routes := (a.Some? && a.value.1 == FromRoutes) || (b.Some? && b.value.1 == FromRoutes);
    var geo := (a.Some? && a.value.1 == FromGeo) || (b.Some? && b.value.1 == FromGeo);
    if routes && geo then RoutesAndGeo else if geo then Geo else Routes
  }

  lemma ReasonIs(s: State, pa: IpAddr, pb: IpAddr)
    requires EndKnown(s, pa, pb)
    ensures ReasonOf(Sides(s, pa, pb).1) == ReasonFor(SideCosts(s, pa), SideCosts(s, pb))
  {
    hide SideCosts;
    var a, b := SideCosts(s, pa), SideCosts(s, pb);
    var sources := Sides(s, pa, pb).1;
    if a.Some? && b.Some? {
      assert sources[0] == a.value.1 && sources[1] == b.value.1;
    } else {
      assert sources[0] == if a.Some? then a.value.1 else b.value.1;
    }
  }

  /** A fresh decision is the earliest of the cheapest healthy relays by what is known of the ends. */
  lemma DecideIsCheapest(s: State, pa: IpAddr, pb: IpAddr, b: nat)
    requires EndKnown(s, pa, pb) && b < |s.live|
    requires Cheapest(s, pa, pb, b)
    ensures var d := Decide(s, pa, pb);
      && d.relay == s.live[b] && d.reason == ReasonFor(SideCosts(s, pa), SideCosts(s, pb))
      && |d.totals| == |s.live|
      && forall i :: 0 <= i < |s.live| ==> d.totals[i] == Price(s, pa, pb, s.live[i])
  {
    hide SideCosts, Price, ReasonOf, ReasonFor, Total, Totals, ChooseFrom;
    var sides := Sides(s, pa, pb).0;
    forall i | 0 <= i < |s.live| ensures Total(sides, s.live[i]) == Price(s, pa, pb, s.live[i]) {
      PriceIsTotal(s, pa, pb, s.live[i]);
    }
    ChosenIsEarliestCheapest(s.live, sides, b);
    ReasonIs(s, pa, pb);
  }

  /** There is always such a relay. */
  lemma CheapestExists(s: State, pa: IpAddr, pb: IpAddr) returns (b: nat)
    requires s.live != []
    ensures b < |s.live| && Cheapest(s, pa, pb, b)
  {
    hide Price, Totals;
    var totals := Totals(s.live, Sides(s, pa, pb).0);
    b := BestIndex(totals);
    forall i | 0 <= i < |s.live| ensures totals[i] == Price(s, pa, pb, s.live[i]) {
      PriceIsTotal(s, pa, pb, s.live[i]);
    }
  }

  /** With nothing known of either end it is the next in turn. */
  lemma DecideInTurn(s: State, pa: IpAddr, pb: IpAddr)
    requires !EndKnown(s, pa, pb) && s.live != []
    ensures Decide(s, pa, pb) == Answer(s.live[s.rotation % |s.live|], RoundRobin, [])
  {
    hide SideCosts;
  }

  /** The answer to every pick: none or the only relay, the preferred one if it is answering, the held one,
      the cheapest by what is known of the ends, or the next in turn. */
  lemma PickAnswersExactly(s: State, pa: IpAddr, pb: IpAddr, commit: bool, now: nat)
    ensures var a := PickAnswer(s, pa, pb, commit, now);
      && (s.live == [] ==> a == Answer("", NoRelay, []))
      && (|s.live| == 1 ==> a == Answer(s.live[0], OnlyRelay, []))
      && (|s.live| >= 2 && PreferredRelay(s).Some? ==> a == Answer(PreferredRelay(s).value, Preferred, []))
      && (Chooses(s) && commit && Holds(s, KeyOf(pa, pb), now) ==>
            a == Answer(s.pins[KeyOf(pa, pb)].relay, Pinned, []))
      && (Chooses(s) && !(commit && Holds(s, KeyOf(pa, pb), now)) && !EndKnown(s, pa, pb) ==>
            a == Answer(s.live[s.rotation % |s.live|], RoundRobin, []))
    ensures Chooses(s) && !(commit && Holds(s, KeyOf(pa, pb), now)) && EndKnown(s, pa, pb) ==>
      var a := PickAnswer(s, pa, pb, commit, now);
      exists b :: 0 <= b < |s.live| && Cheapest(s, pa, pb, b) && a.relay == s.live[b]
        && a.reason == ReasonFor(SideCosts(s, pa), SideCosts(s, pb))
    ensures !commit ==> PickState(s, pa, pb, commit, now) == s
  {
    hide Find, KeyOf, Decide, EndKnown, Holds, ReasonFor, SideCosts, Price;
    if Chooses(s) && !(commit && Holds(s, KeyOf(pa, pb), now)) {
      if EndKnown(s, pa, pb) {
        var b := CheapestExists(s, pa, pb);
        DecideIsCheapest(s, pa, pb, b);
      } else {
        DecideInTurn(s, pa, pb);
      }
    }
  }
}
