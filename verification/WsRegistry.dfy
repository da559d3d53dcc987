/**
 The registry of websocket peers in `hbbs`: an address maps to the serial of the connection to
 push to.  Any number of connections may share an address, register when they like, and end in
 two stages: the guard takes its entry out, then the receiver goes away.
 */
module WsRegistry {
  import opened Basics

  /** A peer's address as the registry compares it, after `try_into_v4`. */
  type Key = nat
  type Serial = nat
  type Message = string

  /** The connection's task has everything, has dropped its guard, or is gone. */
  datatype Phase = Open | Unguarded | Gone

  /** What a connection's channel still holds and what its loop has taken out. */
  datatype Conn = Conn(key: Key, phase: Phase, queued: seq<Message>, taken: seq<Message>)

  datatype State = State(peers: map<Key, Serial>, conns: map<Serial, Conn>, next: Serial)

  const START: State := State(map[], map[], 0)

  datatype Step =
    | Accept(key: Key)
    | Register(c: Serial)
    | Push(key: Key, msg: Message)
    | Forward(c: Serial)          // the loop takes one message to its socket
    | DropGuard(c: Serial)
    | DropReceiver(c: Serial)

  /* ---------------------------------------------------------------- the map operations */

  /** `register_ws_peer`: overwrites any older entry. */
  function Registered(peers: map<Key, Serial>, key: Key, c: Serial): map<Key, Serial> {
    peers[key := c]
  }

  /** `WsPeerGuard::drop`: only a connection's own entry goes. */
  function Unregistered(peers: map<Key, Serial>, key: Key, c: Serial): map<Key, Serial> {
    if key in peers && peers[key] == c then peers - {key} else peers
  }

  predicate Listening(s: State, c: Serial) {
    c in s.conns && !s.conns[c].phase.Gone?
  }

  /** `push_to_ws_peer`: into the channel if its receiver is there, else the stale entry goes. */
  function Pushed(s: State, key: Key, msg: Message): (State, bool) {
    if key !in s.peers then (s, false)
    else
      var c := s.peers[key];
      if Listening(s, c) then
        (s.(conns := s.conns[c := s.conns[c].(queued := s.conns[c].queued + [msg])]), true)
      else (s.(peers := s.peers - {key}), false)
  }

  predicate Enabled(s: State, step: Step) {
    match step
    case Accept(_) => true
    case Register(c) => c in s.conns && s.conns[c].phase.Open?
    case Push(_, _) => true
    case Forward(c) => c in s.conns && s.conns[c].phase.Open? && s.conns[c].queued != []
    case DropGuard(c) => c in s.conns && s.conns[c].phase.Open?
    case DropReceiver(c) => c in s.conns && s.conns[c].phase.Unguarded?
  }

  function Next(s: State, step: Step): State
    requires Enabled(s, step)
  {
    match step
    case Accept(key) => s.(conns := s.conns[s.next := Conn(key, Open, [], [])], next := s.next + 1)
    case Register(c) => s.(peers := Registered(s.peers, s.conns[c].key, c))
    case Push(key, msg) => Pushed(s, key, msg).0
    case Forward(c) =>
      var k := s.conns[c];
      s.(conns := s.conns[c := k.(queued := k.queued[1..], taken := k.taken + [k.queued[0]])])
    case DropGuard(c) =>
      s.(peers := Unregistered(s.peers, s.conns[c].key, c), conns := s.conns[c := s.conns[c].(phase := Unguarded)])
    case DropReceiver(c) => s.(conns := s.conns[c := s.conns[c].(phase := Gone)])
  }

  function Run(steps: seq<Step>): State {
    if steps == [] then START
    else
      var s := Run(steps[..|steps| - 1]);
      var step := steps[|steps| - 1];
      if Enabled(s, step) then Next(s, step) else s
  }

  /** Which connection registered last at a key. */
  function LastRegistered(steps: seq<Step>, key: Key): Option<Serial> {
    if steps == [] then None
    else
      var s := Run(steps[..|steps| - 1]);
      var step := steps[|steps| - 1];
      if step.Register? && Enabled(s, step) && s.conns[step.c].key == key then Some(step.c)
      else LastRegistered(steps[..|steps| - 1], key)
  }

  /** Serials given out are below `next`. */
  ghost predicate Fresh(s: State) {
    forall c :: c in s.conns ==> c < s.next
  }

  /** The entry at a key is the last connection that registered there, for as long as it has its guard. */
  ghost predicate EntryOk(s: State, key: Key, last: Option<Serial>) {
    && (last.Some? ==> last.value in s.conns && s.conns[last.value].key == key)
    && (key in s.peers <==> last.Some? && s.conns[last.value].phase.Open?)
    && (key in s.peers ==> s.peers[key] == last.value)
  }

  lemma StepKeepsEntry(s: State, step: Step, key: Key, last: Option<Serial>)
    requires Fresh(s) && EntryOk(s, key, last) && Enabled(s, step)
    ensures Fresh(Next(s, step))
    ensures EntryOk(Next(s, step), key,
      if step.Register? && s.conns[step.c].key == key then Some(step.c) else last)
  {
  }

  /** For every interleaving: an entry is there exactly when the last connection to register at the
      key still has its guard, and it is that connection's. */
  lemma {:induction false} EntryIsLastRegistered(steps: seq<Step>, key: Key)
    ensures Fresh(Run(steps))
    ensures EntryOk(Run(steps), key, LastRegistered(steps, key))
  {
    hide Next, EntryOk, Fresh;
    if steps == [] {
      StartOk(key);
    } else {
      var n := |steps| - 1;
      EntryIsLastRegistered(steps[..n], key);
      var s := Run(steps[..n]);
      if Enabled(s, steps[n]) { StepKeepsEntry(s, steps[n], key, LastRegistered(steps[..n], key)); }
    }
  }

  lemma StartOk(key: Key)
    ensures Fresh(START) && EntryOk(START, key, None)
  {
  }

  /** A push never meets a closed receiver: it goes into an open connection's channel, or there is
      no entry and nothing changes. */
  lemma PushNeverMeetsClosed(steps: seq<Step>, key: Key, msg: Message)
    ensures var s := Run(steps);
      var (t, ok) := Pushed(s, key, msg);
      && (ok <==> key in s.peers)
      && (key in s.peers ==>
            var c := s.peers[key]; c in s.conns && s.conns[c].key == key && s.conns[c].phase.Open?)
      && t.peers == s.peers
  {
    hide Run, LastRegistered;
    EntryIsLastRegistered(steps, key);
  }

  /** A finished connection is not in the registry, so once all have ended it is empty. */
  lemma FinishedNotRegistered(steps: seq<Step>, key: Key)
    ensures var s := Run(steps);
      && (key in s.peers ==> s.peers[key] in s.conns && s.conns[s.peers[key]].phase.Open?)
      && ((forall c :: c in s.conns ==> !s.conns[c].phase.Open?) ==> key !in s.peers)
  {
    hide Run, LastRegistered;
    EntryIsLastRegistered(steps, key);
  }

  /* ---------------------------------------------------------------- delivery */

  /** The messages pushed to a connection, in order. */
  function PushedTo(steps: seq<Step>, c: Serial): seq<Message> {
    if steps == [] then []
    else
      var s := Run(steps[..|steps| - 1]);
      var step := steps[|steps| - 1];
      PushedTo(steps[..|steps| - 1], c)
      + if step.Push? && step.key in s.peers && s.peers[step.key] == c && Listening(s, c) then [step.msg] else []
  }

  lemma StepKeepsQueue(s: State, step: Step, c: Serial)
    requires Enabled(s, step) && Fresh(s) && c in s.conns
    ensures var t := Next(s, step);
      c in t.conns && t.conns[c].taken + t.conns[c].queued == s.conns[c].taken + s.conns[c].queued
        + if step.Push? && step.key in s.peers && s.peers[step.key] == c && Listening(s, c) then [step.msg] else []
  {
    var k := s.conns[c];
    if step.Forward? && step.c == c {
      assert k.queued == [k.queued[0]] + k.queued[1..];
    }
  }

  /** Nothing pushed is lost, repeated or reordered on its way to the connection's loop. */
  lemma {:induction false} PushedIsTakenInOrder(steps: seq<Step>, c: Serial)
    ensures c !in Run(steps).conns ==> PushedTo(steps, c) == []
    ensures c in Run(steps).conns ==>
      Run(steps).conns[c].taken + Run(steps).conns[c].queued == PushedTo(steps, c)
  {
    hide Next;
    if steps != [] {
      var n := |steps| - 1;
      PushedIsTakenInOrder(steps[..n], c);
      var s, step := Run(steps[..n]), steps[n];
      FreshAlways(steps[..n]);
      if Enabled(s, step) {
        if c in s.conns { StepKeepsQueue(s, step, c); } else { NewConn(s, step, c); }
      }
    }
  }

  /** How many messages a connection's loop has taken. */
  function TakenBy(steps: seq<Step>, c: Serial): nat {
    if steps == [] then 0
    else
      var s := Run(steps[..|steps| - 1]);
      var step := steps[|steps| - 1];
      TakenBy(steps[..|steps| - 1], c) + if step == Forward(c) && Enabled(s, step) then 1 else 0
  }

  lemma StepTakes(s: State, step: Step, c: Serial)
    requires Enabled(s, step) && Fresh(s)
    ensures c in s.conns ==> c in Next(s, step).conns
    ensures c in s.conns ==> |Next(s, step).conns[c].taken| == |s.conns[c].taken| + if step == Forward(c) then 1 else 0
    ensures c !in s.conns && c in Next(s, step).conns ==> |Next(s, step).conns[c].taken| == 0
    ensures c !in s.conns ==> step != Forward(c)
  {
  }

  /** And it takes one each time, so what it has are the first of those pushed to it. */
  lemma TakenAreFirstPushed(steps: seq<Step>, c: Serial)
    ensures c !in Run(steps).conns ==> TakenBy(steps, c) == 0
    ensures c in Run(steps).conns ==>
      && TakenBy(steps, c) <= |PushedTo(steps, c)|
      && Run(steps).conns[c].taken == PushedTo(steps, c)[..TakenBy(steps, c)]
  {
    TakenCount(steps, c);
    PushedIsTakenInOrder(steps, c);
    hide Run, PushedTo, TakenBy;
  }

  lemma {:induction false} TakenCount(steps: seq<Step>, c: Serial)
    ensures c !in Run(steps).conns ==> TakenBy(steps, c) == 0
    ensures c in Run(steps).conns ==> |Run(steps).conns[c].taken| == TakenBy(steps, c)
  {
    hide Next, Fresh;
    if steps != [] {
      var n := |steps| - 1;
      var s, step := Run(steps[..n]), steps[n];
      TakenCount(steps[..n], c);
      FreshAlways(steps[..n]);
      if Enabled(s, step) { StepTakes(s, step, c); }
    }
  }

  lemma FreshAlways(steps: seq<Step>)
    ensures Fresh(Run(steps))
  {
    EntryIsLastRegistered(steps, 0);
  }

  lemma NewConn(s: State, step: Step, c: Serial)
    requires Enabled(s, step) && c !in s.conns
    ensures c in Next(s, step).conns ==> Next(s, step).conns[c].taken + Next(s, step).conns[c].queued == []
  {
  }

  /** The registry as the server holds it, with the connections' channels behind it. */
  class WsPeers {
    var peers: map<Key, Serial>
    var conns: map<Serial, Conn>
    var next: Serial

    function View(): State
      reads this
    {
      State(peers, conns, next)
    }

    constructor ()
      ensures View() == START
    {
      peers, conns, next := map[], map[], 0;
    }

    /** A new connection: the next serial, a channel and a guard. */
    method AcceptConn(key: Key) returns (c: Serial)
      modifies this
      ensures c == old(next) && View() == Next(old(View()), Accept(key))
    {
      c := next;
      next := next + 1;
      conns := conns[c := Conn(key, Open, [], [])];
    }

    method RegisterWsPeer(c: Serial)
      requires Enabled(View(), Register(c))
      modifies this
      ensures View() == Next(old(View()), Register(c))
    {
      peers := peers[conns[c].key := c];
    }

    method GuardDropped(c: Serial)
      requires Enabled(View(), DropGuard(c))
      modifies this
      ensures View() == Next(old(View()), DropGuard(c))
    {
      var key := conns[c].key;
      if key in peers && peers[key] == c { peers := peers - {key}; }
      conns := conns[c := conns[c].(phase := Unguarded)];
    }

    /** `push_to_ws_peer`: into the channel of the connection registered there, if its receiver is there. */
    method PushToWsPeer(key: Key, msg: Message) returns (ok: bool)
      modifies this
      ensures (View(), ok) == Pushed(old(View()), key, msg)
    {
      if key !in peers { return false; }
      var c := peers[key];
      if c in conns && !conns[c].phase.Gone? {
        conns := conns[c := conns[c].(queued := conns[c].queued + [msg])];
        return true;
      }
      peers := peers - {key};
      return false;
    }

    /** The loop's turn when its channel has something: one message goes to the socket. */
    method ForwardPushed(c: Serial) returns (msg: Message)
      requires Enabled(View(), Forward(c))
      modifies this
      ensures msg == old(conns)[c].queued[0] && View() == Next(old(View()), Forward(c))
    {
      var k := conns[c];
      msg := k.queued[0];
      conns := conns[c := k.(queued := k.queued[1..], taken := k.taken + [msg])];
    }
  }
}
