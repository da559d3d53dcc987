/**
 How `hbbr` pairs the two ends of a session.  Each connection's task first tries to take a parked
 stream with its uuid; failing that it parks its own, sleeps 30 seconds and removes whatever is
 then parked under the uuid.  Taking and parking hold the lock separately, so two first arrivals
 may both miss, and uuids may be reused.
 */
module Pairing {
  import opened Basics

  const PARK_MS: nat := 30_000

  type StreamId = nat

  datatype Task =
    | Asking                   // has its stream and has not looked yet
    | Missed                   // found nothing parked, is about to park
    | Sleeping(until: nat)     // has parked, will clean up
    | Relaying
    | Over

  datatype Parked = Parked(stream: StreamId, at: nat)

  datatype Pair = Pair(uuid: string, stream: StreamId, peer: StreamId)

  datatype State = State(
    uuids: map<StreamId, string>, tasks: map<StreamId, Task>,
    peers: map<string, Parked>, pairs: seq<Pair>, now: nat)

  const START: State := State(map[], map[], map[], [], 0)

  datatype Step =
    | Arrive(id: StreamId, uuid: string)
    | Take(id: StreamId)
    | Park(id: StreamId)
    | Wake(id: StreamId)
    | Finish(id: StreamId)
    | Tick(dt: nat)

  /** Time does not run past a sleeper: the cleaner acts when its sleep is over. */
  predicate NoneOverslept(s: State, now: nat) {
    forall id :: id in s.tasks && s.tasks[id].Sleeping? ==> now <= s.tasks[id].until
  }

  predicate Enabled(s: State, step: Step) {
    match step
    case Arrive(id, uuid) => id !in s.tasks && uuid != ""
    case Take(id) => id in s.tasks && id in s.uuids && s.tasks[id].Asking?
    case Park(id) => id in s.tasks && id in s.uuids && s.tasks[id].Missed?
    case Wake(id) => id in s.tasks && id in s.uuids && s.tasks[id].Sleeping? && s.tasks[id].until <= s.now
    case Finish(id) => id in s.tasks && s.tasks[id].Relaying?
    case Tick(dt) => NoneOverslept(s, s.now + dt)
  }

  function Next(s: State, step: Step): State
    requires Enabled(s, step)
  {
    match step
    case Arrive(id, uuid) => s.(uuids := s.uuids[id := uuid], tasks := s.tasks[id := Asking])
    case Take(id) =>
      var u := s.uuids[id];
      if u in s.peers then
        s.(peers := s.peers - {u}, pairs := s.pairs + [Pair(u, id, s.peers[u].stream)],
           tasks := s.tasks[id := Relaying])
      else s.(tasks := s.tasks[id := Missed])
    case Park(id) =>
      s.(peers := s.peers[s.uuids[id] := Parked(id, s.now)], tasks := s.tasks[id := Sleeping(s.now + PARK_MS)])
    case Wake(id) => s.(peers := s.peers - {s.uuids[id]}, tasks := s.tasks[id := Over])
    case Finish(id) => s.(tasks := s.tasks[id := Over])
    case Tick(dt) => s.(now := s.now + dt)
  }

  /** A run: a step that is not enabled does not happen. */
  function Run(steps: seq<Step>): State {
    if steps == [] then START
    else
      var s := Run(steps[..|steps| - 1]);
      var step := steps[|steps| - 1];
      if Enabled(s, step) then Next(s, step) else s
  }

  /* ---------------------------------------------------------------- who owns a stream */

  /** Its own task still has it. */
  predicate Held(s: State, x: StreamId) {
    x in s.tasks && (s.tasks[x].Asking? || s.tasks[x].Missed?)
  }

  predicate IsParked(s: State, x: StreamId) {
    exists u :: u in s.peers && s.peers[u].stream == x
  }

  predicate Joined(p: Pair, x: StreamId) { p.stream == x || p.peer == x }

  predicate Paired(s: State, x: StreamId) {
    exists i :: 0 <= i < |s.pairs| && Joined(s.pairs[i], x)
  }

  predicate ParkedOk(s: State, u: string, e: Parked) {
    && e.stream in s.uuids && s.uuids[e.stream] == u
    && e.stream in s.tasks && s.tasks[e.stream] == Sleeping(e.at + PARK_MS)
    && !Paired(s, e.stream)
  }

  predicate PairOk(s: State, p: Pair) {
    && p.stream != p.peer
    && p.stream in s.uuids && s.uuids[p.stream] == p.uuid
    && p.peer in s.uuids && s.uuids[p.peer] == p.uuid
    && !Held(s, p.stream) && !Held(s, p.peer)
    && p.stream in s.tasks && p.peer in s.tasks
  }

  predicate Apart(p: Pair, q: Pair) {
    !Joined(q, p.stream) && !Joined(q, p.peer)
  }

  /** What every step keeps. */
  ghost predicate Inv(s: State) {
    && NoneOverslept(s, s.now) && s.uuids.Keys == s.tasks.Keys
    && (forall u :: u in s.peers ==> ParkedOk(s, u, s.peers[u]))
    && (forall i :: 0 <= i < |s.pairs| ==> PairOk(s, s.pairs[i]))
    && (forall i, j :: 0 <= i < j < |s.pairs| ==> Apart(s.pairs[i], s.pairs[j]))
  }

  lemma ArriveOk(s: State, id: StreamId, uuid: string)
    requires Inv(s) && Enabled(s, Arrive(id, uuid))
    ensures Inv(Next(s, Arrive(id, uuid)))
  {
    var n := Next(s, Arrive(id, uuid));
    forall u | u in n.peers ensures ParkedOk(n, u, n.peers[u]) {
      assert ParkedOk(s, u, s.peers[u]);
      SamePairs(s, n, n.peers[u].stream);
    }
    forall i | 0 <= i < |n.pairs| ensures PairOk(n, n.pairs[i]) { assert PairOk(s, s.pairs[i]); }
  }

  lemma SamePairs(s: State, n: State, x: StreamId)
    requires s.pairs == n.pairs
    ensures Paired(s, x) == Paired(n, x)
  {
  }

  /** A task moves on, perhaps emptying one place under its own uuid; nothing is parked or paired. */
  lemma TaskMovesOn(s: State, id: StreamId, t: Task, peers: map<string, Parked>)
    requires Inv(s) && id in s.tasks && !t.Asking? && (t.Missed? ==> Held(s, id))
    requires t.Sleeping? ==> s.now <= t.until
    requires forall u :: u in peers ==> u in s.peers && peers[u] == s.peers[u] && peers[u].stream != id
    ensures Inv(s.(tasks := s.tasks[id := t], peers := peers))
  {
    var n := s.(tasks := s.tasks[id := t], peers := peers);
    forall u | u in n.peers ensures ParkedOk(n, u, n.peers[u]) {
      assert ParkedOk(s, u, s.peers[u]);
      SamePairs(s, n, n.peers[u].stream);
    }
    forall i | 0 <= i < |n.pairs| ensures PairOk(n, n.pairs[i]) { assert PairOk(s, s.pairs[i]); }
  }

  lemma HeldIsFree(s: State, id: StreamId)
    requires Inv(s) && Held(s, id)
    ensures !Paired(s, id) && forall u :: u in s.peers ==> s.peers[u].stream != id
  {
    forall u | u in s.peers ensures s.peers[u].stream != id { assert ParkedOk(s, u, s.peers[u]); }
    forall i | 0 <= i < |s.pairs| ensures !Joined(s.pairs[i], id) { assert PairOk(s, s.pairs[i]); }
  }

  lemma PairingOk(s: State, id: StreamId)
    requires Inv(s) && Enabled(s, Take(id)) && s.uuids[id] in s.peers
    ensures Inv(Next(s, Take(id)))
  {
    var u := s.uuids[id];
    var x := s.peers[u].stream;
    var n := Next(s, Take(id));
    HeldIsFree(s, id);
    assert ParkedOk(s, u, s.peers[u]);
    forall v | v in n.peers ensures ParkedOk(n, v, n.peers[v]) {
      assert ParkedOk(s, v, s.peers[v]);
      var y := n.peers[v].stream;
      forall i | 0 <= i < |n.pairs| ensures !Joined(n.pairs[i], y) {
        if i < |s.pairs| { assert n.pairs[i] == s.pairs[i] && !Joined(s.pairs[i], y); }
      }
    }
    forall i | 0 <= i < |n.pairs| ensures PairOk(n, n.pairs[i]) {
      if i < |s.pairs| { assert PairOk(s, s.pairs[i]); }
    }
    forall i, j | 0 <= i < j < |n.pairs| ensures Apart(n.pairs[i], n.pairs[j]) {
      if j < |s.pairs| { assert Apart(s.pairs[i], s.pairs[j]); }
      else { assert !Joined(s.pairs[i], id) && !Joined(s.pairs[i], x); }
    }
  }

  lemma ParkOk(s: State, id: StreamId)
    requires Inv(s) && Enabled(s, Park(id))
    ensures Inv(Next(s, Park(id)))
  {
    var n := Next(s, Park(id));
    HeldIsFree(s, id);
    forall v | v in n.peers ensures ParkedOk(n, v, n.peers[v]) {
      if v != s.uuids[id] { assert ParkedOk(s, v, s.peers[v]); }
      SamePairs(s, n, n.peers[v].stream);
    }
    forall i | 0 <= i < |n.pairs| ensures PairOk(n, n.pairs[i]) { assert PairOk(s, s.pairs[i]); }
  }

  lemma WakeOk(s: State, id: StreamId)
    requires Inv(s) && Enabled(s, Wake(id))
    ensures Inv(Next(s, Wake(id)))
  {
    var left := s.peers - {s.uuids[id]};
    forall u | u in left ensures left[u].stream != id { assert ParkedOk(s, u, s.peers[u]); }
    TaskMovesOn(s, id, Over, left);
  }

  lemma TickOk(s: State, dt: nat)
    requires Inv(s) && Enabled(s, Tick(dt))
    ensures Inv(Next(s, Tick(dt)))
  {
    var n := Next(s, Tick(dt));
    forall v | v in n.peers ensures ParkedOk(n, v, n.peers[v]) {
      assert ParkedOk(s, v, s.peers[v]);
      SamePairs(s, n, n.peers[v].stream);
    }
    forall i | 0 <= i < |n.pairs| ensures PairOk(n, n.pairs[i]) { assert PairOk(s, s.pairs[i]); }
  }

  lemma StepOk(s: State, step: Step)
    requires Inv(s) && Enabled(s, step)
    ensures Inv(Next(s, step))
  {
    hide Inv;
    match step {
      case Arrive(id, uuid) => ArriveOk(s, id, uuid);
      case Take(id) =>
        if s.uuids[id] in s.peers { PairingOk(s, id); }
        else {
          HeldIsFree(s, id);
          TaskMovesOn(s, id, Missed, s.peers);
        }
      case Park(id) => ParkOk(s, id);
      case Wake(id) => WakeOk(s, id);
      case Finish(id) =>
        RelayingNotParked(s, id);
        TaskMovesOn(s, id, Over, s.peers);
      case Tick(dt) => TickOk(s, dt);
    }
  }

  lemma RelayingNotParked(s: State, id: StreamId)
    requires Inv(s) && id in s.tasks && s.tasks[id].Relaying?
    ensures forall u :: u in s.peers ==> s.peers[u].stream != id
  {
    forall u | u in s.peers ensures s.peers[u].stream != id { assert ParkedOk(s, u, s.peers[u]); }
  }

  lemma {:induction false} RunOk(steps: seq<Step>)
    ensures Inv(Run(steps))
  {
    hide Inv, Enabled, Next;
    if steps == [] {
      StartOk();
    } else {
      var n := |steps| - 1;
      RunOk(steps[..n]);
      if Enabled(Run(steps[..n]), steps[n]) { StepOk(Run(steps[..n]), steps[n]); }
    }
  }

  lemma StartOk()
    ensures Inv(START)
  {
  }

  /** At every moment of every interleaving, a stream is with at most one of its own task, the parking
      map and a pair, and is parked in at most one place. */
  lemma OneOwner(steps: seq<Step>, x: StreamId)
    ensures var s := Run(steps);
      && !(Held(s, x) && IsParked(s, x)) && !(Held(s, x) && Paired(s, x)) && !(IsParked(s, x) && Paired(s, x))
      && (forall u, v :: u in s.peers && v in s.peers && s.peers[u].stream == x == s.peers[v].stream ==> u == v)
  {
    hide Run;
    RunOk(steps);
    var s := Run(steps);
    forall u | u in s.peers ensures ParkedOk(s, u, s.peers[u]) {}
    if Held(s, x) { HeldIsFree(s, x); }
  }

  /** A stream joins at most one pair, never with itself, and only under its own uuid. */
  lemma PairedOnceUnderOwnUuid(steps: seq<Step>, i: nat, j: nat, x: StreamId)
    requires var s := Run(steps); i < |s.pairs| && j < |s.pairs| && Joined(s.pairs[i], x) && Joined(s.pairs[j], x)
    ensures i == j
    ensures var s := Run(steps);
      x in s.uuids && s.uuids[x] == s.pairs[i].uuid && s.pairs[i].stream != s.pairs[i].peer
  {
    hide Run;
    RunOk(steps);
    var s := Run(steps);
    assert PairOk(s, s.pairs[i]);
  }

  /** Nothing stays parked more than 30 seconds after it was put there. */
  lemma ParkedAtMostThirtySeconds(steps: seq<Step>, u: string)
    requires u in Run(steps).peers
    ensures Run(steps).now <= Run(steps).peers[u].at + 30_000
  {
    hide Run;
    RunOk(steps);
    var s := Run(steps);
    assert ParkedOk(s, u, s.peers[u]);
  }

  /* ---------------------------------------------------------------- how long a stream can be found */

  predicate ParkedAt(s: State, u: string, x: StreamId) { u in s.peers && s.peers[u].stream == x }

  /** Some task takes or parks under the uuid, or a sleeper with that uuid wakes. */
  predicate Touches(s: State, step: Step, u: string) {
    && Enabled(s, step) && (step.Take? || step.Park? || step.Wake?)
    && s.uuids[step.id] == u
  }

  /** A task that has parked its stream never parks again. */
  predicate Settled(s: State, x: StreamId) {
    x in s.tasks && (s.tasks[x].Sleeping? || s.tasks[x].Over?)
  }

  lemma ParkedThroughStep(s: State, step: Step, u: string, x: StreamId)
    requires Inv(s) && Enabled(s, step) && ParkedAt(s, u, x)
    ensures ParkedAt(Next(s, step), u, x) <==> !Touches(s, step, u)
    ensures Settled(Next(s, step), x)
  {
    hide Paired, NoneOverslept;
    assert ParkedOk(s, u, s.peers[u]);
  }

  lemma NotParkedAgain(s: State, step: Step, u: string, x: StreamId)
    requires Enabled(s, step) && Settled(s, x) && !ParkedAt(s, u, x)
    ensures Settled(Next(s, step), x) && !ParkedAt(Next(s, step), u, x)
  {
    hide NoneOverslept;
  }

  ghost predicate Untouched(before: seq<Step>, more: seq<Step>, u: string) {
    forall i :: 0 <= i < |more| ==> !Touches(Run(before + more[..i]), more[i], u)
  }

  lemma RunStep(steps: seq<Step>, step: Step)
    ensures Run(steps + [step]) == if Enabled(Run(steps), step) then Next(Run(steps), step) else Run(steps)
  {
    hide Enabled, Next;
    assert (steps + [step])[..|steps|] == steps;
  }

  lemma UntouchedSnoc(before: seq<Step>, more: seq<Step>, u: string)
    requires more != []
    ensures var n := |more| - 1;
      Untouched(before, more, u) <==> Untouched(before, more[..n], u) && !Touches(Run(before + more[..n]), more[n], u)
  {
    hide Run, Touches;
    var n := |more| - 1;
    forall i | 0 <= i < n ensures more[..n][..i] == more[..i] && more[..n][i] == more[i] {}
  }

  /** Over any run, a parked stream stays to be found exactly while nobody takes or parks under its
      uuid and no sleeper with that uuid wakes; and once gone it is not parked again. */
  lemma {:induction false} StaysParkedExactlyWhen(before: seq<Step>, more: seq<Step>, u: string, x: StreamId)
    requires ParkedAt(Run(before), u, x)
    ensures ParkedAt(Run(before + more), u, x) <==> Untouched(before, more, u)
    ensures Settled(Run(before + more), x)
    decreases |more|
  {
    hide Run, Enabled, Next, Inv, Touches, Untouched;
    if more == [] {
      assert before + more == before;
      RunOk(before);
      ParkedIsSettled(Run(before), u, x);
      assert Untouched(before, [], u) by { NothingTouched(before, u); }
    } else {
      var n := |more| - 1;
      var s := Run(before + more[..n]);
      assert before + more == before + more[..n] + [more[n]];
      RunStep(before + more[..n], more[n]);
      UntouchedSnoc(before, more, u);
      StaysParkedExactlyWhen(before, more[..n], u, x);
      RunOk(before + more[..n]);
      if Enabled(s, more[n]) {
        if ParkedAt(s, u, x) { ParkedThroughStep(s, more[n], u, x); } else { NotParkedAgain(s, more[n], u, x); }
      } else {
        assert !Touches(s, more[n], u) by { TouchIsEnabled(s, more[n], u); }
      }
    }
  }

  lemma NothingTouched(before: seq<Step>, u: string)
    ensures Untouched(before, [], u)
  {
  }

  lemma TouchIsEnabled(s: State, step: Step, u: string)
    ensures Touches(s, step, u) ==> Enabled(s, step)
  {
  }

  lemma ParkedIsSettled(s: State, u: string, x: StreamId)
    requires Inv(s) && ParkedAt(s, u, x)
    ensures Settled(s, x)
  {
    assert ParkedOk(s, u, s.peers[u]);
  }

  /** An arrival that looks any time after another parked under its uuid is paired with it, if nothing
      touched the uuid in between. */
  lemma SecondFindsFirst(before: seq<Step>, more: seq<Step>, u: string, a: StreamId, b: StreamId)
    requires ParkedAt(Run(before), u, a) && Untouched(before, more, u)
    requires var s := Run(before + more); Enabled(s, Take(b)) && s.uuids[b] == u
    ensures Run(before + more + [Take(b)]).pairs == Run(before + more).pairs + [Pair(u, b, a)]
  {
    hide Run, Untouched;
    StaysParkedExactlyWhen(before, more, u, a);
    RunStep(before + more, Take(b));
  }

  /** A sleeper left over from an earlier use of the uuid, due before the parked stream's own, takes
      that stream away before its 30 seconds are over, and nobody is paired with it. */
  lemma EarlierSleeperRemoves(s: State, old': StreamId, u: string, x: StreamId)
    requires Inv(s) && Enabled(s, Wake(old')) && s.uuids[old'] == u && ParkedAt(s, u, x)
    requires s.tasks[old'].until < s.peers[u].at + PARK_MS
    ensures old' != x && s.now < s.peers[u].at + PARK_MS
    ensures var t := Next(s, Wake(old'));
      Settled(t, x) && !IsParked(t, x) && !Paired(t, x)
  {
    hide Paired;
    forall v | v in s.peers ensures ParkedOk(s, v, s.peers[v]) {}
    SamePairs(s, Next(s, Wake(old')), x);
  }

  /** Streams 0 and 1 are paired; 20 seconds later stream 2 is parked under the same uuid, and
      10 seconds after that the task of stream 0, which had slept all along, wakes. */
  const REUSED: seq<Step> := [
    Arrive(0, "u"), Take(0), Park(0), Arrive(1, "u"), Take(1), Tick(20_000),
    Arrive(2, "u"), Take(2), Park(2), Tick(10_000), Wake(0)]

  lemma ReusedStep(n: nat)
    requires n < |REUSED| && Enabled(Run(REUSED[..n]), REUSED[n])
    ensures Run(REUSED[..n + 1]) == Next(Run(REUSED[..n]), REUSED[n])
  {
    hide Run, Enabled, Next;
    RunStep(REUSED[..n], REUSED[n]);
    assert REUSED[..n + 1] == REUSED[..n] + [REUSED[n]];
  }

  function FirstPaired(): State {
    State(map[0 := "u", 1 := "u"], map[0 := Sleeping(30_000), 1 := Relaying], map[], [Pair("u", 1, 0)], 0)
  }

  lemma ReusedFirst()
    ensures Run(REUSED[..5]) == FirstPaired()
  {
    var s1 := State(map[0 := "u"], map[0 := Asking], map[], [], 0);
    var s3 := State(map[0 := "u"], map[0 := Sleeping(30_000)], map["u" := Parked(0, 0)], [], 0);
    assert Run(REUSED[..0]) == START;
    ReusedStep(0);
    assert Run(REUSED[..1]) == s1;
    hide Run;
    ReusedStep(1);
    ReusedStep(2);
    assert Run(REUSED[..3]) == s3;
    ReusedStep(3);
    ReusedStep(4);
  }

  function SecondParked(): State {
    State(FirstPaired().uuids[2 := "u"], FirstPaired().tasks[2 := Sleeping(50_000)],
          map["u" := Parked(2, 20_000)], FirstPaired().pairs, 20_000)
  }

  lemma ReusedSecond()
    ensures Run(REUSED[..9]) == SecondParked()
  {
    hide Run;
    ReusedFirst();
    ReusedStep(5);
    assert Run(REUSED[..6]) == FirstPaired().(now := 20_000);
    ReusedStep(6);
    ReusedStep(7);
    ReusedStep(8);
  }

  /** Stream 2 has then gone, 20 seconds early: it is not parked, and is in no pair. */
  lemma ReusedUuidRun()
    ensures var s := Run(REUSED[..10]);
      Enabled(s, Wake(0)) && ParkedAt(s, "u", 2) && s.now + 20_000 == s.peers["u"].at + PARK_MS
    ensures !IsParked(Run(REUSED), 2) && !Paired(Run(REUSED), 2)
  {
    hide Run;
    ReusedSecond();
    ReusedStep(9);
    assert Run(REUSED[..10]) == SecondParked().(now := 30_000);
    ReusedStep(10);
    assert REUSED[..11] == REUSED;
    RunOk(REUSED[..10]);
    EarlierSleeperRemoves(Run(REUSED[..10]), 0, "u", 2);
  }

  /** The relay's shared map and the tasks around it. */
  class RelayPeers {
    var uuids: map<StreamId, string>
    var tasks: map<StreamId, Task>
    var peers: map<string, Parked>
    var pairs: seq<Pair>
    var now: nat

    ghost function View(): State
      reads this
    {
      State(uuids, tasks, peers, pairs, now)
    }

    constructor ()
      ensures View() == START
    {
      uuids, tasks, peers, pairs, now := map[], map[], map[], [], 0;
    }

    /** The first locked region: take whatever is parked under the uuid. */
    method TakeParked(id: StreamId) returns (peer: Option<StreamId>)
      requires Enabled(View(), Take(id))
      modifies this
      ensures View() == Next(old(View()), Take(id))
      ensures peer == if uuids[id] in old(peers) then Some(old(peers)[uuids[id]].stream) else None
    {
      var u := uuids[id];
      if u in peers {
        var x := peers[u].stream;
        peers := peers - {u};
        pairs := pairs + [Pair(u, id, x)];
        tasks := tasks[id := Relaying];
        return Some(x);
      }
      tasks := tasks[id := Missed];
      return None;
    }

    /** The second: park the stream, over whatever was there, and go to sleep. */
    method ParkOwn(id: StreamId)
      requires Enabled(View(), Park(id))
      modifies this
      ensures View() == Next(old(View()), Park(id))
    {
      peers := peers[uuids[id] := Parked(id, now)];
      tasks := tasks[id := Sleeping(now + PARK_MS)];
    }

    /** After the sleep: remove what is parked under the uuid, whoever parked it. */
    method CleanUp(id: StreamId)
      requires Enabled(View(), Wake(id))
      modifies this
      ensures View() == Next(old(View()), Wake(id))
    {
      peers := peers - {uuids[id]};
      tasks := tasks[id := Over];
    }
  }
}
