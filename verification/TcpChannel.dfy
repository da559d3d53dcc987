/**
 Plain TCP connections in `hbbs`.  The write half starts in the read loop, may be parked in
 `tcp_punch` for an answer that comes later, and is then taken out by a sender; the cipher to send
 with travels with it, while the cipher to receive with stays in the loop.

 Sealing is symbolic: a sealed frame opens under the key and counter it was sealed with, to what
 was sealed, and under no other.
 */
module TcpChannel {
  import opened Basics

  type ConnId = nat
  type Key = nat            // an address, after `try_into_v4`
  type SymKey = nat

  datatype Msg =
    | Exchange(sym: Option<SymKey>)  // phase 2 of the key exchange; None: malformed or undecodable
    | Punch                          // a request whose answer comes later, on this connection's write half
    | Ask(answers: seq<string>, stay: bool)  // answered at once; the connection goes on or closes
    | Text(text: string)             // anything else; the connection then closes

  /** What crosses the wire. A frame of at most one byte is passed through by the receiver as it is. */
  datatype Frame = Clear(msg: Msg, short: bool) | Sealed(key: SymKey, nonce: nat, msg: Msg)

  /** `Encrypt`: a key and one direction's counter. */
  datatype Cipher = Cipher(key: SymKey, count: nat)

  function Seal(c: Cipher, m: Msg): Frame { Sealed(c.key, c.count + 1, m) }

  function Advanced(c: Cipher): Cipher { c.(count := c.count + 1) }

  /** `dec`: the counter moves before the frame is opened, and not at all for a short frame. */
  function Unseal(c: Cipher, f: Frame): (Cipher, Option<Msg>) {
    match f
    case Clear(m, short) => if short then (c, Some(m)) else (Advanced(c), None)
    case Sealed(key, nonce, m) => (Advanced(c), if key == c.key && nonce == c.count + 1 then Some(m) else None)
  }

  /** A write half: whose it is, and what it encrypts with. */
  datatype Half = Half(conn: ConnId, encrypt: Option<Cipher>)

  /** A read loop: its address, the half while it has it, the unspent handshake secret, what it
      decrypts with, and whether it is still running. */
  datatype Loop = Loop(key: Key, sink: Option<Half>, handshake: bool, recv: Option<Cipher>, live: bool)

  datatype State = State(
    conns: map<ConnId, Loop>,
    punch: map<Key, Half>,
    sending: seq<Half>,
    wire: map<ConnId, seq<Frame>>,     // what was sent to each client
    understood: map<ConnId, seq<Frame>>)   // the sealed frames from each client that opened

  const START: State := State(map[], map[], [], map[], map[])

  datatype Step =
    | Accept(c: ConnId, key: Key, secure: bool)
    | Receive(c: ConnId, frame: Frame)
    | Reply(key: Key)                  // a sender takes whatever is parked at an address
    | Send(i: nat, text: string)       // it sends on the half it took, which is then dropped
    | Leave(c: ConnId)                 // the read loop ends by itself: closed or timed out

  /** Sending on a half: sealed if it has a cipher, whose counter moves. */
  function FrameFor(h: Half, text: string): Frame {
    if h.encrypt.Some? then Seal(h.encrypt.value, Text(text)) else Clear(Text(text), false)
  }

  function Used(h: Half): Half {
    if h.encrypt.Some? then h.(encrypt := Some(Advanced(h.encrypt.value))) else h
  }

  /** Several answers in a row on one half: the half after, and what the wire then holds. */
  function SentOn(h: Half, w: seq<Frame>, texts: seq<string>): (Half, seq<Frame>)
    decreases |texts|
  {
    if texts == [] then (h, w) else SentOn(Used(h), w + [FrameFor(h, texts[0])], texts[1..])
  }

  /** Leaving the loop: a half still in the loop is dropped with it, one that was parked is removed. */
  function Left(s: State, c: ConnId): (t: State)
    requires c in s.conns
    ensures c in t.conns
  {
    var l := s.conns[c];
    s.(conns := s.conns[c := l.(sink := None, live := false)],
       punch := if l.sink.None? then s.punch - {l.key} else s.punch)
  }

  /** `handle_tcp` on what was read: park the half, answer on it, and say whether to go on. */
  function Handled(s: State, c: ConnId, m: Msg): (t: State)
    requires c in s.conns && c in s.wire
    ensures c in t.conns
  {
    var l := s.conns[c];
    match m
    case Punch =>
      if l.sink.None? then s
      else s.(conns := s.conns[c := l.(sink := None)], punch := s.punch[l.key := l.sink.value])
    case Ask(answers, stay) =>
      var t :=
        if l.sink.None? then s
        else
          var (h, w) := SentOn(l.sink.value, s.wire[c], answers);
          s.(conns := s.conns[c := l.(sink := Some(h))], wire := s.wire[c := w]);
      if stay then t else Left(t, c)
    case _ => Left(s, c)
  }

  /** What the loop makes of a frame before looking at what it says. */
  function Opened(l: Loop, f: Frame): (Option<Cipher>, Option<Msg>) {
    if l.recv.Some? then var (r, m) := Unseal(l.recv.value, f); (Some(r), m)
    else (None, if f.Clear? then Some(f.msg) else Some(Text("")))
  }

  function WithLoop(s: State, c: ConnId, l: Loop, w: seq<Frame>, u: seq<Frame>): State {
    s.(conns := s.conns[c := l], wire := s.wire[c := w], understood := s.understood[c := u])
  }

  /** One frame in the read loop: it is opened, the handshake secret is spent on it, and what it
      says is handled. */
  function Received(s: State, c: ConnId, f: Frame): (t: State)
    requires c in s.conns && c in s.wire && c in s.understood
    ensures c in t.conns
  {
    var l := s.conns[c];
    var plain := Opened(l, f).1;
    var t := Seen(s, c, f);
    if plain.None? then Left(t, c)
    else if l.handshake && plain.value.Exchange? then
      if plain.value.sym.None? then Left(t, c) else Exchanged(t, c, plain.value.sym.value)
    else Handled(t, c, plain.value)
  }

  /** The frame has been opened, and the secret spent on it. */
  function Seen(s: State, c: ConnId, f: Frame): (t: State)
    requires c in s.conns && c in s.wire && c in s.understood
    ensures t == s.(conns := t.conns, understood := t.understood)
    ensures t.conns == s.conns[c := s.conns[c].(recv := Opened(s.conns[c], f).0, handshake := false)]
  {
    var l := s.conns[c];
    var (recv, plain) := Opened(l, f);
    var got := if l.recv.Some? && f.Sealed? && plain.Some? then s.understood[c] + [f] else s.understood[c];
    s.(conns := s.conns[c := l.(recv := recv, handshake := false)], understood := s.understood[c := got])
  }

  /** Both directions start with the agreed key. */
  function Exchanged(s: State, c: ConnId, sym: SymKey): (t: State)
    requires c in s.conns
    ensures c in t.conns
  {
    var l := s.conns[c];
    var first := Cipher(sym, 0);
    var sink := if l.sink.Some? then Some(l.sink.value.(encrypt := Some(first))) else None;
    s.(conns := s.conns[c := l.(recv := Some(first), sink := sink)])
  }

  predicate Enabled(s: State, step: Step) {
    match step
    case Accept(c, _, _) => c !in s.conns
    case Receive(c, _) => c in s.conns && s.conns[c].live && c in s.wire && c in s.understood
    case Reply(key) => key in s.punch
    case Send(i, _) => i < |s.sending| && s.sending[i].conn in s.wire
    case Leave(c) => c in s.conns && s.conns[c].live
  }

  function Without(hs: seq<Half>, i: nat): (r: seq<Half>)
    requires i < |hs|
    ensures |r| == |hs| - 1
    ensures forall j :: 0 <= j < |r| ==> r[j] == hs[if j < i then j else j + 1]
  {
    hs[..i] + hs[i + 1..]
  }

  function Next(s: State, step: Step): State
    requires Enabled(s, step)
  {
    match step
    case Accept(c, key, secure) =>
      State(s.conns[c := Loop(key, Some(Half(c, None)), secure, None, true)], s.punch, s.sending,
            s.wire[c := if secure then [Clear(Exchange(None), false)] else []], s.understood[c := []])
    case Receive(c, f) => Received(s, c, f)
    case Reply(key) => s.(punch := s.punch - {key}, sending := s.sending + [s.punch[key]])
    case Send(i, text) =>
      var h := s.sending[i];
      s.(sending := Without(s.sending, i),
         wire := s.wire[h.conn := s.wire[h.conn] + [FrameFor(h, text)]])
    case Leave(c) => Left(s, c)
  }

  function Run(steps: seq<Step>): State {
    if steps == [] then START
    else
      var s := Run(steps[..|steps| - 1]);
      var step := steps[|steps| - 1];
      if Enabled(s, step) then Next(s, step) else s
  }

  /* ---------------------------------------------------------------- what holds of one connection */

  function SealedCount(w: seq<Frame>): nat {
    if w == [] then 0 else SealedCount(w[..|w| - 1]) + if w[|w| - 1].Sealed? then 1 else 0
  }

  /** Everything in the clear comes first; then counters 1, 2, 3, ... under one key. */
  predicate InOrder(w: seq<Frame>, key: Option<SymKey>) {
    && (forall i :: 0 <= i < |w| && w[i].Sealed? ==>
          Some(w[i].key) == key && w[i].nonce == SealedCount(w[..i]) + 1)
    && (forall i, j :: 0 <= i < j < |w| && w[i].Sealed? ==> w[j].Sealed?)
  }

  function KeyOf(c: Option<Cipher>): Option<SymKey> {
    if c.Some? then Some(c.value.key) else None
  }

  /** The half has a cipher exactly when the loop has one, under the same key, at the right counter. */
  predicate HalfFits(h: Half, recv: Option<Cipher>, w: seq<Frame>) {
    h.encrypt == if recv.Some? then Some(Cipher(recv.value.key, SealedCount(w))) else None
  }

  /** Frames 1, 2, 3, ... under a key; none where there is no key. */
  predicate Numbered(u: seq<Frame>, key: Option<SymKey>) {
    && (key.None? ==> u == [])
    && forall i :: 0 <= i < |u| ==> u[i].Sealed? && Some(u[i].key) == key && u[i].nonce == i + 1
  }

  predicate LoopOk(c: ConnId, l: Loop, w: seq<Frame>, u: seq<Frame>) {
    && InOrder(w, KeyOf(l.recv))
    && (l.sink.Some? ==> l.live && l.sink.value.conn == c && HalfFits(l.sink.value, l.recv, w))
    && (l.handshake ==> l.recv.None? && (l.live ==> l.sink.Some?))
    && Numbered(u, KeyOf(l.recv))
    && (l.live && l.recv.Some? ==> |u| == l.recv.value.count)
  }

  /** A half that has left the loop still fits it. */
  predicate StrayOk(l: Loop, w: seq<Frame>, h: Half) {
    l.sink.None? && !(l.handshake && l.live) && HalfFits(h, l.recv, w)
  }

  ghost predicate Inv(s: State) {
    && s.conns.Keys == s.wire.Keys == s.understood.Keys
    && (forall c :: c in s.conns ==> LoopOk(c, s.conns[c], s.wire[c], s.understood[c]))
    && (forall k :: k in s.punch ==> ParkedOk(s, k, s.punch[k]))
    && (forall i :: 0 <= i < |s.sending| ==> TakenOk(s, s.sending[i]))
    && (forall i, j :: 0 <= i < j < |s.sending| ==> s.sending[i].conn != s.sending[j].conn)
  }

  predicate ParkedOk(s: State, k: Key, h: Half)
    requires s.conns.Keys == s.wire.Keys
  {
    h.conn in s.conns && s.conns[h.conn].key == k && s.conns[h.conn].live && StrayOk(s.conns[h.conn], s.wire[h.conn], h)
  }

  predicate TakenOk(s: State, h: Half)
    requires s.conns.Keys == s.wire.Keys
  {
    && h.conn in s.conns && StrayOk(s.conns[h.conn], s.wire[h.conn], h)
    && (forall k :: k in s.punch ==> s.punch[k].conn != h.conn)
  }

  lemma {:induction false} ClearHasNoSealed(w: seq<Frame>)
    requires InOrder(w, None)
    ensures SealedCount(w) == 0
  {
    if w != [] {
      var n := |w| - 1;
      forall i | 0 <= i < n ensures !w[..n][i].Sealed? { assert w[..n][i] == w[i]; }
      ClearHasNoSealed(w[..n]);
    }
  }

  /** What is sent next keeps the order, and the half's counter in step with it. */
  lemma SendKeepsOrder(h: Half, recv: Option<Cipher>, w: seq<Frame>, text: string)
    requires InOrder(w, KeyOf(recv)) && HalfFits(h, recv, w)
    ensures var w' := w + [FrameFor(h, text)];
      InOrder(w', KeyOf(recv)) && HalfFits(Used(h), recv, w')
  {
    var w' := w + [FrameFor(h, text)];
    assert w'[..|w|] == w;
    forall i | 0 <= i < |w'| && w'[i].Sealed?
      ensures Some(w'[i].key) == KeyOf(recv) && w'[i].nonce == SealedCount(w'[..i]) + 1
    {
      assert w'[..i] == w[..i];
    }
    if recv.None? { ClearHasNoSealed(w); }
  }

  lemma {:induction false} SendsKeepOrder(h: Half, recv: Option<Cipher>, w: seq<Frame>, texts: seq<string>)
    requires InOrder(w, KeyOf(recv)) && HalfFits(h, recv, w)
    ensures var (h', w') := SentOn(h, w, texts);
      InOrder(w', KeyOf(recv)) && HalfFits(h', recv, w') && h'.conn == h.conn
    decreases |texts|
  {
    hide InOrder, HalfFits;
    if texts != [] {
      SendKeepsOrder(h, recv, w, texts[0]);
      SendsKeepOrder(Used(h), recv, w + [FrameFor(h, texts[0])], texts[1..]);
    }
  }

  /** The first cipher of a connection fits a wire on which all is clear. */
  lemma FreshCipherFits(w: seq<Frame>, sym: SymKey)
    requires InOrder(w, None)
    ensures SealedCount(w) == 0 && InOrder(w, Some(sym))
  {
    ClearHasNoSealed(w);
    forall i | 0 <= i < |w| ensures !w[i].Sealed? {}
  }

  /* ---------------------------------------------------------------- what every step keeps */

  /** Halves away from the loop see the same key and as many sealed frames as before. */
  predicate SameForStrays(l: Loop, w: seq<Frame>, l': Loop, w': seq<Frame>) {
    && l'.key == l.key && (l.live ==> l'.live == l.live || l'.sink.None?)
    && (l.sink.None? ==> l'.sink.None? && !(l'.handshake && l'.live) && w' == w && KeyOf(l'.recv) == KeyOf(l.recv))
  }

  /** The loop goes on, with the half where it was. */
  lemma LoopGoesOn(s: State, c: ConnId, l: Loop, w: seq<Frame>, u: seq<Frame>)
    requires Inv(s) && c in s.conns && s.conns[c].live && l.live
    requires LoopOk(c, l, w, u) && SameForStrays(s.conns[c], s.wire[c], l, w)
    ensures Inv(WithLoop(s, c, l, w, u))
  {
    hide LoopOk, HalfFits, StrayOk;
    var t := WithLoop(s, c, l, w, u);
    forall k | k in t.punch ensures ParkedOk(t, k, t.punch[k]) {
      assert ParkedOk(s, k, s.punch[k]);
      StrayStays(s.conns[c], s.wire[c], l, w, t.punch[k]);
    }
    forall i | 0 <= i < |t.sending| ensures TakenOk(t, t.sending[i]) {
      assert TakenOk(s, s.sending[i]);
      StrayStays(s.conns[c], s.wire[c], l, w, t.sending[i]);
    }
  }

  lemma StrayStays(l: Loop, w: seq<Frame>, l': Loop, w': seq<Frame>, h: Half)
    requires SameForStrays(l, w, l', w')
    ensures StrayOk(l, w, h) ==> StrayOk(l', w', h)
  {
  }

  /** The loop ends: what it had parked goes with it. */
  lemma LoopEnds(s: State, c: ConnId, recv: Option<Cipher>, handshake: bool, w: seq<Frame>, u: seq<Frame>)
    requires Inv(s) && c in s.conns && s.conns[c].live
    requires var l := s.conns[c];
      && InOrder(w, KeyOf(recv)) && (handshake ==> recv.None?) && KeyOf(recv) == KeyOf(l.recv)
      && (l.sink.None? ==> w == s.wire[c]) && Numbered(u, KeyOf(recv))
    ensures var l := s.conns[c].(recv := recv, handshake := handshake, sink := None, live := false);
      Inv(WithLoop(s, c, l, w, u).(punch := if s.conns[c].sink.None? then s.punch - {l.key} else s.punch))
  {
    hide InOrder, HalfFits, Numbered, LoopOk;
    var l0 := s.conns[c];
    EndedLoopOk(c, l0, recv, handshake, w, u);
    var l := l0.(recv := recv, handshake := handshake, sink := None, live := false);
    var t := WithLoop(s, c, l, w, u).(punch := if l0.sink.None? then s.punch - {l.key} else s.punch);
    forall k | k in t.punch ensures ParkedOk(t, k, t.punch[k]) {
      assert ParkedOk(s, k, s.punch[k]);
    }
    forall i | 0 <= i < |t.sending| ensures TakenOk(t, t.sending[i]) {
      assert TakenOk(s, s.sending[i]);
      if t.sending[i].conn == c { SameKeyFits(t.sending[i], l0.recv, recv, w); }
    }
  }

  lemma EndedLoopOk(c: ConnId, l: Loop, recv: Option<Cipher>, handshake: bool, w: seq<Frame>, u: seq<Frame>)
    requires InOrder(w, KeyOf(recv)) && Numbered(u, KeyOf(recv)) && (handshake ==> recv.None?)
    ensures LoopOk(c, l.(recv := recv, handshake := handshake, sink := None, live := false), w, u)
  {
  }

  lemma SameKeyFits(h: Half, a: Option<Cipher>, b: Option<Cipher>, w: seq<Frame>)
    requires KeyOf(a) == KeyOf(b)
    ensures HalfFits(h, a, w) == HalfFits(h, b, w)
  {
  }

  /** The half is parked, over whatever was parked at the address. */
  lemma HalfParked(s: State, c: ConnId)
    requires Inv(s) && c in s.conns && s.conns[c].live && s.conns[c].sink.Some? && !s.conns[c].handshake
    ensures var l := s.conns[c];
      Inv(s.(conns := s.conns[c := l.(sink := None)], punch := s.punch[l.key := l.sink.value]))
  {
    hide InOrder, HalfFits, Numbered;
    var l := s.conns[c];
    var t := s.(conns := s.conns[c := l.(sink := None)], punch := s.punch[l.key := l.sink.value]);
    assert LoopOk(c, l, s.wire[c], s.understood[c]);
    forall k | k in t.punch ensures ParkedOk(t, k, t.punch[k]) {
      if k != l.key { assert ParkedOk(s, k, s.punch[k]); }
    }
    forall i | 0 <= i < |t.sending| ensures TakenOk(t, t.sending[i]) {
      assert TakenOk(s, s.sending[i]);
    }
  }

  lemma HandledOk(s: State, c: ConnId, m: Msg)
    requires Inv(s) && c in s.conns && s.conns[c].live && !s.conns[c].handshake
    ensures Inv(Handled(s, c, m))
  {
    hide InOrder, HalfFits, Numbered;
    var l, w, u := s.conns[c], s.wire[c], s.understood[c];
    assert LoopOk(c, l, w, u);
    SameEntry(s, c);
    match m {
      case Punch => if l.sink.Some? { HalfParked(s, c); }
      case Ask(answers, stay) =>
        if l.sink.Some? {
          SendsKeepOrder(l.sink.value, l.recv, w, answers);
          var (h, w') := SentOn(l.sink.value, w, answers);
          if stay {
            LoopGoesOn(s, c, l.(sink := Some(h)), w', u);
            assert WithLoop(s, c, l.(sink := Some(h)), w', u)
              == s.(conns := s.conns[c := l.(sink := Some(h))], wire := s.wire[c := w']);
          } else {
            LoopEnds(s, c, l.recv, l.handshake, w', u);
            LeftAfter(s, c, l.(sink := Some(h)), w', u);
          }
        } else if !stay {
          LoopEnds(s, c, l.recv, l.handshake, w, u);
          LeftAfter(s, c, l, w, u);
        }
      case _ =>
        LoopEnds(s, c, l.recv, l.handshake, w, u);
        LeftAfter(s, c, l, w, u);
    }
  }

  lemma SameEntry(s: State, c: ConnId)
    requires c in s.conns && c in s.wire && c in s.understood
    ensures WithLoop(s, c, s.conns[c], s.wire[c], s.understood[c]) == s
  {
  }

  /** Leaving after the loop's own fields changed is leaving with those fields. */
  lemma LeftAfter(s: State, c: ConnId, l: Loop, w: seq<Frame>, u: seq<Frame>)
    requires c in s.conns && l.key == s.conns[c].key && l.sink.None? == s.conns[c].sink.None?
    ensures Left(WithLoop(s, c, l, w, u), c) ==
      WithLoop(s, c, l.(sink := None, live := false), w, u).(
        punch := if l.sink.None? then s.punch - {l.key} else s.punch)
  {
    assert s.conns[c := l][c := l.(sink := None, live := false)] == s.conns[c := l.(sink := None, live := false)];
  }

  lemma OpenedOk(c: ConnId, l: Loop, w: seq<Frame>, u: seq<Frame>, f: Frame)
    requires LoopOk(c, l, w, u) && l.live
    ensures var (recv, plain) := Opened(l, f);
      var got := if l.recv.Some? && f.Sealed? && plain.Some? then u + [f] else u;
      && KeyOf(recv) == KeyOf(l.recv) && Numbered(got, KeyOf(recv))
      && (plain.Some? ==> LoopOk(c, l.(recv := recv, handshake := false), w, got))
  {
    hide InOrder, SealedCount;
  }

  /** The first cipher goes to both ends at once: the half is still in the loop. */
  lemma ExchangedOk(c: ConnId, l: Loop, w: seq<Frame>, sym: SymKey)
    requires LoopOk(c, l, w, []) && l.live && l.handshake
    ensures l.sink.Some?
    ensures var first := Cipher(sym, 0);
      LoopOk(c, l.(recv := Some(first), handshake := false, sink := Some(l.sink.value.(encrypt := Some(first)))), w, [])
  {
    FreshCipherFits(w, sym);
    hide InOrder, SealedCount;
  }

  lemma NothingOpened(c: ConnId, l: Loop, w: seq<Frame>, u: seq<Frame>)
    requires LoopOk(c, l, w, u) && l.recv.None?
    ensures u == []
  {
  }

  lemma SeenWithLoop(s: State, c: ConnId, f: Frame)
    requires c in s.conns && c in s.wire && c in s.understood
    ensures var l := s.conns[c]; var (recv, plain) := Opened(l, f);
      var got := if l.recv.Some? && f.Sealed? && plain.Some? then s.understood[c] + [f] else s.understood[c];
      Seen(s, c, f) == WithLoop(s, c, l.(recv := recv, handshake := false), s.wire[c], got)
  {
    hide Opened;
    assert s.wire[c := s.wire[c]] == s.wire;
  }

  /** An opened frame leaves the loop in order, if it goes on. */
  lemma SeenOk(s: State, c: ConnId, f: Frame)
    requires Inv(s) && c in s.conns && s.conns[c].live && Opened(s.conns[c], f).1.Some?
    ensures Inv(Seen(s, c, f))
  {
    hide InOrder, Numbered, HalfFits, Unseal, Opened;
    var l, w, u := s.conns[c], s.wire[c], s.understood[c];
    assert LoopOk(c, l, w, u);
    OpenedOk(c, l, w, u, f);
    SeenWithLoop(s, c, f);
    var (recv, plain) := Opened(l, f);
    LoopGoesOn(s, c, l.(recv := recv, handshake := false), w, if l.recv.Some? && f.Sealed? then u + [f] else u);
  }

  lemma SeenEnds(s: State, c: ConnId, f: Frame)
    requires Inv(s) && c in s.conns && s.conns[c].live
    ensures Inv(Left(Seen(s, c, f), c))
  {
    hide InOrder, Numbered, HalfFits, Unseal, Opened, Left;
    var l, w, u := s.conns[c], s.wire[c], s.understood[c];
    assert LoopOk(c, l, w, u);
    OpenedOk(c, l, w, u, f);
    SeenWithLoop(s, c, f);
    var (recv, plain) := Opened(l, f);
    var got := if l.recv.Some? && f.Sealed? && plain.Some? then u + [f] else u;
    LoopEnds(s, c, recv, false, w, got);
    LeftAfter(s, c, l.(recv := recv, handshake := false), w, got);
  }

  lemma SeenExchange(s: State, c: ConnId, f: Frame, sym: SymKey)
    requires Inv(s) && c in s.conns && s.conns[c].live && s.conns[c].handshake
    ensures Inv(Exchanged(Seen(s, c, f), c, sym))
  {
    hide InOrder, Numbered, HalfFits, Unseal;
    var l, w, u := s.conns[c], s.wire[c], s.understood[c];
    assert LoopOk(c, l, w, u);
    NothingOpened(c, l, w, u);
    ExchangedOk(c, l, w, sym);
    var first := Cipher(sym, 0);
    var l2 := l.(recv := Some(first), handshake := false, sink := Some(l.sink.value.(encrypt := Some(first))));
    LoopGoesOn(s, c, l2, w, u);
    hide LoopOk, Inv;
    SeenWithLoop(s, c, f);
    assert Exchanged(Seen(s, c, f), c, sym) == WithLoop(s, c, l2, w, u);
  }

  lemma ReceivedOk(s: State, c: ConnId, f: Frame)
    requires Inv(s) && c in s.conns && s.conns[c].live
    ensures Inv(Received(s, c, f))
  {
    hide Inv, Opened, Seen, Left, Exchanged, Handled, LoopOk;
    assert c in s.wire && c in s.understood by { HasWire(s, c); }
    var l, plain := s.conns[c], Opened(s.conns[c], f).1;
    if plain.None? || (l.handshake && plain.value == Exchange(None)) {
      SeenEnds(s, c, f);
    } else if l.handshake && plain.value.Exchange? {
      SeenExchange(s, c, f, plain.value.sym.value);
    } else {
      SeenOk(s, c, f);
      HandledOk(Seen(s, c, f), c, plain.value);
    }
  }

  lemma HasWire(s: State, c: ConnId)
    requires Inv(s) && c in s.conns
    ensures c in s.wire && c in s.understood
  {
  }

  lemma AcceptedFits(c: ConnId, key: Key, secure: bool)
    ensures LoopOk(c, Loop(key, Some(Half(c, None)), secure, None, true),
      if secure then [Clear(Exchange(None), false)] else [], [])
  {
  }

  lemma AcceptOk(s: State, c: ConnId, key: Key, secure: bool)
    requires Inv(s) && c !in s.conns
    ensures Inv(Next(s, Accept(c, key, secure)))
  {
    var t := Next(s, Accept(c, key, secure));
    AcceptedFits(c, key, secure);
    hide StrayOk, LoopOk;
    assert t.conns.Keys == t.wire.Keys == t.understood.Keys;
    forall k | k in t.punch ensures ParkedOk(t, k, t.punch[k]) { assert ParkedOk(s, k, s.punch[k]); }
    forall i | 0 <= i < |t.sending| ensures TakenOk(t, t.sending[i]) { assert TakenOk(s, s.sending[i]); }
  }

  lemma ReplyOk(s: State, key: Key)
    requires Inv(s) && key in s.punch
    ensures Inv(Next(s, Reply(key)))
  {
    hide StrayOk, LoopOk;
    var t := Next(s, Reply(key));
    var h := s.punch[key];
    forall k | k in t.punch ensures ParkedOk(t, k, t.punch[k]) { assert ParkedOk(s, k, s.punch[k]); }
    assert ParkedOk(s, key, h);
    forall i | 0 <= i < |t.sending| ensures TakenOk(t, t.sending[i]) {
      if i < |s.sending| { assert TakenOk(s, s.sending[i]); }
    }
    forall i | 0 <= i < |s.sending| ensures s.sending[i].conn != h.conn { assert TakenOk(s, s.sending[i]); }
  }

  lemma SentLoopOk(h: Half, l: Loop, w: seq<Frame>, u: seq<Frame>, text: string)
    requires LoopOk(h.conn, l, w, u) && StrayOk(l, w, h)
    ensures LoopOk(h.conn, l, w + [FrameFor(h, text)], u)
  {
    SendKeepsOrder(h, l.recv, w, text);
    hide InOrder, Numbered, FrameFor;
  }

  lemma OthersUnsent(s: State, h: Half, w: seq<Frame>, other: Half)
    requires s.conns.Keys == s.wire.Keys && h.conn in s.conns && other.conn != h.conn
    ensures var t := s.(wire := s.wire[h.conn := w]);
      && t.conns.Keys == t.wire.Keys
      && (TakenOk(s, other) ==> TakenOk(t, other))
      && (forall k :: ParkedOk(s, k, other) ==> ParkedOk(t, k, other))
  {
    hide StrayOk;
  }

  /** Nobody else holds a half of that connection, so nobody else's counter goes stale. */
  lemma SendOk(s: State, i: nat, text: string)
    requires Inv(s) && i < |s.sending|
    ensures Enabled(s, Send(i, text)) && Inv(Next(s, Send(i, text)))
  {
    var h := s.sending[i];
    hide StrayOk, FrameFor, LoopOk, Without;
    assert TakenOk(s, h);
    var c := h.conn;
    SentLoopOk(h, s.conns[c], s.wire[c], s.understood[c], text);
    var t := Next(s, Send(i, text));
    var w := s.wire[c] + [FrameFor(h, text)];
    forall k | k in t.punch ensures ParkedOk(t, k, t.punch[k]) {
      assert ParkedOk(s, k, s.punch[k]);
      OthersUnsent(s, h, w, s.punch[k]);
    }
    forall j | 0 <= j < |t.sending| ensures TakenOk(t, t.sending[j]) {
      var k := if j < i then j else j + 1;
      assert TakenOk(s, s.sending[k]);
      OthersUnsent(s, h, w, s.sending[k]);
      SameForTaken(s.(wire := t.wire), t, t.sending[j]);
    }
  }

  lemma SameForTaken(s: State, t: State, h: Half)
    requires s.conns.Keys == s.wire.Keys && t.conns == s.conns && t.wire == s.wire && t.punch == s.punch
    ensures TakenOk(s, h) == TakenOk(t, h)
  {
  }

  lemma StepKeepsInv(s: State, step: Step)
    requires Inv(s) && Enabled(s, step)
    ensures Inv(Next(s, step))
  {
    match step
    case Accept(c, key, secure) => AcceptOk(s, c, key, secure);
    case Receive(c, f) => ReceivedOk(s, c, f);
    case Reply(key) => ReplyOk(s, key);
    case Send(i, text) => SendOk(s, i, text);
    case Leave(c) =>
      LoopEnds(s, c, s.conns[c].recv, s.conns[c].handshake, s.wire[c], s.understood[c]);
      SameEntry(s, c);
      LeftAfter(s, c, s.conns[c], s.wire[c], s.understood[c]);
  }

  lemma {:induction false} RunKeepsInv(steps: seq<Step>)
    ensures Inv(Run(steps))
  {
    hide Inv, Next;
    if steps != [] {
      RunKeepsInv(steps[..|steps| - 1]);
      var s := Run(steps[..|steps| - 1]);
      if Enabled(s, steps[|steps| - 1]) { StepKeepsInv(s, steps[|steps| - 1]); }
    } else {
      StartOk();
    }
  }

  lemma StartOk()
    ensures Inv(START)
  {
  }

  /* ---------------------------------------------------------------- ciphers and counters, over whole runs */

  /** The places a half of a connection can be in: its loop, `tcp_punch`, a sender. */
  predicate HeldInLoop(s: State, h: Half) { h.conn in s.conns && s.conns[h.conn].sink == Some(h) }
  ghost predicate HeldInPunch(s: State, h: Half) { exists k :: k in s.punch && s.punch[k] == h }
  ghost predicate HeldBySender(s: State, h: Half) { h in s.sending }
  ghost predicate Held(s: State, h: Half) { HeldInLoop(s, h) || HeldInPunch(s, h) || HeldBySender(s, h) }

  /** Wherever the half is, it encrypts exactly when the loop decrypts, under the same key, and its
      counter is the number of sealed frames already sent; and there is only one such half. */
  lemma CiphersMatch(steps: seq<Step>, h: Half)
    requires Held(Run(steps), h)
    ensures var s := Run(steps);
      && h.conn in s.conns && h.conn in s.wire
      && (h.encrypt.Some? <==> s.conns[h.conn].recv.Some?)
      && (h.encrypt.Some? ==>
            && h.encrypt.value.key == s.conns[h.conn].recv.value.key
            && h.encrypt.value.count == SealedCount(s.wire[h.conn]))
      && (forall h' :: Held(s, h') && h'.conn == h.conn ==> h' == h)
      && (HeldInLoop(s, h) ==> !HeldInPunch(s, h) && !HeldBySender(s, h))
      && (HeldInPunch(s, h) ==> !HeldBySender(s, h))
  {
    hide InOrder, Run, Numbered;
    RunKeepsInv(steps);
    var s := Run(steps);
    forall k | k in s.punch ensures ParkedOk(s, k, s.punch[k]) {}
    forall i | 0 <= i < |s.sending| ensures TakenOk(s, s.sending[i]) {}
    forall h' | Held(s, h') ensures h'.conn in s.conns && HalfFits(h', s.conns[h'.conn].recv, s.wire[h'.conn]) {
      if HeldInLoop(s, h') { assert LoopOk(h'.conn, s.conns[h'.conn], s.wire[h'.conn], s.understood[h'.conn]); }
    }
  }

  /** A client with a cipher of its own, opening one frame after another. */
  function OpenAll(c: Cipher, w: seq<Frame>): Option<seq<Msg>>
    decreases |w|
  {
    if w == [] then Some([])
    else
      var (next, m) := Unseal(c, w[0]);
      var rest := OpenAll(next, w[1..]);
      if m.Some? && rest.Some? then Some([m.value] + rest.value) else None
  }

  function Messages(w: seq<Frame>): (r: seq<Msg>)
    ensures |r| == |w| && forall i :: 0 <= i < |w| ==> r[i] == w[i].msg
  {
    if w == [] then [] else [w[0].msg] + Messages(w[1..])
  }

  lemma {:induction false} CountedFromOpens(w: seq<Frame>, c: Cipher)
    requires forall i :: 0 <= i < |w| ==> w[i].Sealed? && w[i].key == c.key && w[i].nonce == c.count + i + 1
    ensures OpenAll(c, w) == Some(Messages(w))
    decreases |w|
  {
    if w != [] {
      var rest := w[1..];
      forall i | 0 <= i < |rest|
        ensures rest[i].Sealed? && rest[i].key == c.key && rest[i].nonce == c.count + 1 + i + 1
      {
        assert rest[i] == w[i + 1];
      }
      CountedFromOpens(rest, Advanced(c));
    }
  }

  lemma InOrderFront(w: seq<Frame>, key: Option<SymKey>)
    requires w != [] && InOrder(w, key)
    ensures var n := |w| - 1;
      && InOrder(w[..n], key)
      && (w[n].Sealed? ==> Some(w[n].key) == key && w[n].nonce == SealedCount(w[..n]) + 1)
      && (w[n].Clear? ==> forall i :: 0 <= i < n ==> w[i].Clear?)
  {
    hide SealedCount;
    var v := w[..|w| - 1];
    forall i | 0 <= i < |v| ensures v[..i] == w[..i] && v[i] == w[i] {}
  }

  /** Sealed frames are the end of the wire, numbered from 1. */
  lemma {:induction false} SealedSuffix(w: seq<Frame>, key: Option<SymKey>)
    requires InOrder(w, key)
    ensures SealedCount(w) <= |w|
    ensures var n := |w| - SealedCount(w);
      && (forall i :: 0 <= i < n ==> w[i].Clear?)
      && (forall i :: n <= i < |w| ==> w[i].Sealed? && Some(w[i].key) == key && w[i].nonce == i - n + 1)
  {
    hide InOrder;
    if w != [] {
      var last := |w| - 1;
      var v := w[..last];
      InOrderFront(w, key);
      SealedSuffix(v, key);
      forall i | 0 <= i < last ensures w[i] == v[i] {}
      if SealedCount(v) > 0 { assert v[last - 1].Sealed?; }
    }
  }

  function Texts(texts: seq<string>): (r: seq<Msg>)
    ensures |r| == |texts| && forall i :: 0 <= i < |texts| ==> r[i] == Text(texts[i])
  {
    if texts == [] then [] else [Text(texts[0])] + Texts(texts[1..])
  }

  /** What one step has for a client: the greeting of a secure connection, the answers to a question
      that the loop still has the half for, or what a sender sends on the half it took. */
  function ToldBy(s: State, step: Step, c: ConnId): seq<Msg> {
    if !Enabled(s, step) then []
    else
      match step
      case Accept(a, _, secure) => if a == c && secure then [Exchange(None)] else []
      case Receive(a, f) =>
        var asked := Opened(s.conns[a], f).1;
        if a == c && s.conns[a].sink.Some? && asked.Some? && asked.value.Ask? then Texts(asked.value.answers) else []
      case Send(i, text) => if s.sending[i].conn == c then [Text(text)] else []
      case _ => []
  }

  function Told(steps: seq<Step>, c: ConnId): seq<Msg> {
    if steps == [] then []
    else
      var n := |steps| - 1;
      Told(steps[..n], c) + ToldBy(Run(steps[..n]), steps[n], c)
  }

  lemma MessagesSnoc(w: seq<Frame>, f: Frame)
    ensures Messages(w + [f]) == Messages(w) + [f.msg]
  {
    hide Messages;
  }

  /** Answers go out as they are, in order, after what is on the wire already. */
  lemma {:induction false} AnswersSent(h: Half, w: seq<Frame>, texts: seq<string>)
    ensures Messages(SentOn(h, w, texts).1) == Messages(w) + Texts(texts)
    decreases |texts|
  {
    hide Messages, Texts, FrameFor, Used;
    if texts == [] {
      assert Messages(w) + Texts([]) == Messages(w);
    } else {
      var f, rest := FrameFor(h, texts[0]), texts[1..];
      AnswersSent(Used(h), w + [f], rest);
      MessagesSnoc(w, f);
      FrameSays(h, texts[0]);
      TextsCons(texts);
      assert Messages(w) + [f.msg] + Texts(rest) == Messages(w) + ([f.msg] + Texts(rest));
    }
  }

  lemma FrameSays(h: Half, text: string)
    ensures FrameFor(h, text).msg == Text(text)
  {
  }

  lemma TextsCons(texts: seq<string>)
    requires texts != []
    ensures Texts(texts) == [Text(texts[0])] + Texts(texts[1..])
  {
  }

  lemma HandledWire(s: State, a: ConnId, m: Msg)
    requires a in s.conns && a in s.wire
    ensures Handled(s, a, m).wire ==
      if m.Ask? && s.conns[a].sink.Some? then s.wire[a := SentOn(s.conns[a].sink.value, s.wire[a], m.answers).1]
      else s.wire
  {
    hide SentOn;
  }

  lemma ReceivedTells(s: State, a: ConnId, f: Frame, c: ConnId)
    requires Enabled(s, Receive(a, f)) && c in s.wire
    ensures c in Received(s, a, f).wire
    ensures Messages(Received(s, a, f).wire[c]) == Messages(s.wire[c]) + ToldBy(s, Receive(a, f), c)
  {
    hide Opened, Handled, Seen, SentOn, Messages;
    var l, asked := s.conns[a], Opened(s.conns[a], f).1;
    assert Messages(s.wire[c]) + [] == Messages(s.wire[c]);
    if asked.Some? {
      HandledWire(Seen(s, a, f), a, asked.value);
      if asked.value.Ask? && l.sink.Some? { AnswersSent(l.sink.value, s.wire[a], asked.value.answers); }
    }
  }

  lemma StepTells(s: State, step: Step, c: ConnId)
    requires Enabled(s, step) && s.conns.Keys == s.wire.Keys
    ensures c in s.wire || c in Next(s, step).conns ==> c in Next(s, step).wire
    ensures c in s.wire ==> Messages(Next(s, step).wire[c]) == Messages(s.wire[c]) + ToldBy(s, step, c)
    ensures c !in s.wire && c in Next(s, step).conns ==> Messages(Next(s, step).wire[c]) == ToldBy(s, step, c)
    ensures c !in Next(s, step).conns ==> ToldBy(s, step, c) == []
  {
    hide Received, Messages, Opened, FrameFor;
    if c in s.wire { assert Messages(s.wire[c]) + [] == Messages(s.wire[c]); }
    match step {
      case Receive(a, f) =>
        ReceivedLoops(s, a, f);
        if c in s.wire { ReceivedTells(s, a, f, c); }
      case Send(i, text) => SentTells(s, s.sending[i], text);
      case _ =>
    }
  }

  lemma SentTells(s: State, h: Half, text: string)
    requires h.conn in s.wire
    ensures Messages(s.wire[h.conn] + [FrameFor(h, text)]) == Messages(s.wire[h.conn]) + [Text(text)]
  {
    MessagesSnoc(s.wire[h.conn], FrameFor(h, text));
    hide Messages;
  }

  /** On every run, the messages on a connection's wire are exactly those that were for its client, in order. */
  lemma {:induction false} WireIsWhatWasTold(steps: seq<Step>, c: ConnId)
    ensures c !in Run(steps).conns ==> Told(steps, c) == []
    ensures c in Run(steps).conns ==> c in Run(steps).wire && Messages(Run(steps).wire[c]) == Told(steps, c)
  {
    hide Next, ToldBy, Messages;
    if steps != [] {
      var n := |steps| - 1;
      var s, step := Run(steps[..n]), steps[n];
      WireIsWhatWasTold(steps[..n], c);
      LoopsHaveWires(steps[..n]);
      if Enabled(s, step) {
        StepTells(s, step, c);
        if c in s.conns { RecvAfter(s, step, c); }
      } else {
        NothingTold(s, step, c);
      }
    }
  }

  lemma NothingTold(s: State, step: Step, c: ConnId)
    requires !Enabled(s, step)
    ensures ToldBy(s, step, c) == []
  {
  }

  /** Server to client: everything that was for the client is sent, in order and nothing else; some of it
      in the clear, and from there on sealed so that a client that starts its own cipher with the
      agreed key opens all of it. No frame is sealed before there is a key. */
  lemma SentIsUnderstood(steps: seq<Step>, c: ConnId)
    requires c in Run(steps).conns
    ensures var s := Run(steps);
      && c in s.wire && SealedCount(s.wire[c]) <= |s.wire[c]| == |Told(steps, c)|
      && var w, told := s.wire[c], Told(steps, c); var n := |w| - SealedCount(w);
      && (forall i :: 0 <= i < n ==> w[i].Clear? && w[i].msg == told[i])
      && (s.conns[c].recv.None? ==> n == |w|)
      && (s.conns[c].recv.Some? ==> OpenAll(Cipher(s.conns[c].recv.value.key, 0), w[n..]) == Some(told[n..]))
  {
    hide Run, InOrder, OpenAll, Messages, SealedCount, Numbered, HalfFits, Told;
    RunKeepsInv(steps);
    var s := Run(steps);
    assert LoopOk(c, s.conns[c], s.wire[c], s.understood[c]);
    var w := s.wire[c];
    WireOpens(s.conns[c], w);
    WireIsWhatWasTold(steps, c);
    var n := |w| - SealedCount(w);
    assert Messages(w[n..]) == Messages(w)[n..];
  }

  lemma WireOpens(l: Loop, w: seq<Frame>)
    requires InOrder(w, KeyOf(l.recv))
    ensures SealedCount(w) <= |w|
    ensures var n := |w| - SealedCount(w);
      && (forall i :: 0 <= i < n ==> w[i].Clear?)
      && (l.recv.None? ==> n == |w|)
      && (l.recv.Some? ==> OpenAll(Cipher(l.recv.value.key, 0), w[n..]) == Some(Messages(w[n..])))
  {
    hide InOrder, OpenAll, Messages, SealedCount;
    SealedSuffix(w, KeyOf(l.recv));
    var n := |w| - SealedCount(w);
    if l.recv.None? {
      ClearHasNoSealed(w);
    } else {
      forall i | 0 <= i < |w[n..]| ensures w[n..][i] == w[n + i] {}
      CountedFromOpens(w[n..], Cipher(l.recv.value.key, 0));
    }
  }

  /** How many frames a connection was given in some steps. */
  function FramesTo(steps: seq<Step>, c: ConnId): nat {
    if steps == [] then 0
    else
      var last := steps[|steps| - 1];
      FramesTo(steps[..|steps| - 1], c) + if last.Receive? && last.c == c then 1 else 0
  }

  /** The client seals what it sends in order, with the key and from the counter given. */
  predicate SealsInOrder(steps: seq<Step>, c: ConnId, cipher: Cipher) {
    forall i :: 0 <= i < |steps| && steps[i].Receive? && steps[i].c == c ==>
      && steps[i].frame.Sealed? && steps[i].frame.key == cipher.key
      && steps[i].frame.nonce == cipher.count + FramesTo(steps[..i], c) + 1
  }

  lemma HandledLoops(s: State, c: ConnId, m: Msg)
    requires c in s.conns && c in s.wire
    ensures var t := Handled(s, c, m);
      && c in t.conns && t.conns == s.conns[c := t.conns[c]]
      && t.conns[c] == s.conns[c].(sink := t.conns[c].sink, live := t.conns[c].live)
      && (t.conns[c].live ==> s.conns[c].live)
  {
    hide SentOn;
  }

  /** A frame changes no loop but its own, whose receiving cipher it moves on. */
  lemma ReceivedLoops(s: State, c: ConnId, f: Frame)
    requires c in s.conns && c in s.wire && c in s.understood
    ensures var t := Received(s, c, f);
      && c in t.conns && t.conns == s.conns[c := t.conns[c]]
      && t.conns[c].key == s.conns[c].key && !t.conns[c].handshake
      && (t.conns[c].live ==> s.conns[c].live)
      && (!s.conns[c].handshake ==> t.conns[c].recv == Opened(s.conns[c], f).0)
  {
    hide Opened, Handled, Seen;
    var plain := Opened(s.conns[c], f).1;
    if plain.Some? { HandledLoops(Seen(s, c, f), c, plain.value); }
  }

  /** Only the connection's own frames move the cipher it receives with. */
  lemma RecvAfter(s: State, step: Step, c: ConnId)
    requires Enabled(s, step) && c in s.conns
    ensures c in Next(s, step).conns
    ensures Next(s, step).conns[c].live ==> s.conns[c].live
    ensures Next(s, step).conns[c].live && s.conns[c].recv.Some? && !s.conns[c].handshake ==>
      var l := Next(s, step).conns[c];
      && !l.handshake
      && l.recv == if step.Receive? && step.c == c then Opened(s.conns[c], step.frame).0 else s.conns[c].recv
  {
    hide Received, Opened;
    if step.Receive? { ReceivedLoops(s, step.c, step.frame); }
  }

  lemma {:induction false} CipherAfter(before: seq<Step>, more: seq<Step>, c: ConnId)
    requires c in Run(before).conns && Run(before).conns[c].live && Run(before).conns[c].recv.Some?
    requires SealsInOrder(more, c, Run(before).conns[c].recv.value)
    ensures c in Run(before + more).conns
    ensures var l := Run(before + more).conns[c]; var r := Run(before).conns[c].recv.value;
      l.live ==> !l.handshake && l.recv == Some(Cipher(r.key, r.count + FramesTo(more, c)))
    decreases |more|
  {
    hide Run, Next, Inv, Opened;
    var r := Run(before).conns[c].recv.value;
    if more == [] {
      assert before + more == before;
      NoHandshakeOnceSecure(before, c);
    } else {
      var n := |more| - 1;
      var rest := more[..n];
      forall i | 0 <= i < |rest| ensures rest[..i] == more[..i] {}
      CipherAfter(before, rest, c);
      assert more == rest + [more[n]];
      RunMore(before, rest, more[n]);
      var s := Run(before + rest);
      LoopsHaveWires(before + rest);
      if Enabled(s, more[n]) {
        RecvAfter(s, more[n], c);
        if more[n].Receive? && more[n].c == c && s.conns[c].live { OpensNext(s.conns[c], more[n].frame); }
      }
    }
  }

  lemma LoopsHaveWires(steps: seq<Step>)
    ensures var s := Run(steps); s.conns.Keys == s.wire.Keys == s.understood.Keys
  {
    RunKeepsInv(steps);
  }

  lemma NoHandshakeOnceSecure(steps: seq<Step>, c: ConnId)
    requires c in Run(steps).conns && Run(steps).conns[c].recv.Some?
    ensures !Run(steps).conns[c].handshake
  {
    hide Run, InOrder, HalfFits, Numbered;
    RunKeepsInv(steps);
    var s := Run(steps);
    assert LoopOk(c, s.conns[c], s.wire[c], s.understood[c]);
  }

  lemma RunStep(rest: seq<Step>, step: Step)
    ensures var s := Run(rest); Run(rest + [step]) == if Enabled(s, step) then Next(s, step) else s
  {
    hide Next, Enabled;
    assert (rest + [step])[..|rest|] == rest;
  }

  lemma RunMore(before: seq<Step>, rest: seq<Step>, step: Step)
    ensures var s := Run(before + rest);
      Run(before + (rest + [step])) == if Enabled(s, step) then Next(s, step) else s
  {
    hide Next, Enabled, Run;
    RunStep(before + rest, step);
    assert before + (rest + [step]) == before + rest + [step];
  }

  lemma OpensNext(l: Loop, f: Frame)
    requires l.recv.Some? && f.Sealed? && f.key == l.recv.value.key && f.nonce == l.recv.value.count + 1
    ensures Opened(l, f) == (Some(Advanced(l.recv.value)), Some(f.msg))
  {
  }

  /** Client to server: from any moment at which the loop has a cipher, frames that the client seals in
      order always open to what was sent, whatever other connections, senders and the half itself
      do in between. */
  lemma ClientIsUnderstood(before: seq<Step>, more: seq<Step>, i: nat, c: ConnId)
    requires c in Run(before).conns && Run(before).conns[c].live && Run(before).conns[c].recv.Some?
    requires SealsInOrder(more, c, Run(before).conns[c].recv.value)
    requires i < |more| && more[i].Receive? && more[i].c == c
    ensures c in Run(before + more[..i]).conns
    ensures Run(before + more[..i]).conns[c].live ==>
      Opened(Run(before + more[..i]).conns[c], more[i].frame).1 == Some(more[i].frame.msg)
  {
    hide Run;
    forall j | 0 <= j < i ensures more[..i][..j] == more[..j] {}
    CipherAfter(before, more[..i], c);
  }

  /** What has opened on a connection, up to the frame it ended with, carries the counters 1, 2, 3, ...
      without gap or repeat. */
  lemma UnderstoodCountsUp(steps: seq<Step>, c: ConnId)
    requires c in Run(steps).conns
    ensures c in Run(steps).understood
    ensures var u := Run(steps).understood[c]; var recv := Run(steps).conns[c].recv;
      forall i :: 0 <= i < |u| ==> u[i].Sealed? && Some(u[i].key) == KeyOf(recv) && u[i].nonce == i + 1
  {
    hide Run, InOrder, HalfFits;
    RunKeepsInv(steps);
    var s := Run(steps);
    assert LoopOk(c, s.conns[c], s.wire[c], s.understood[c]);
  }

  /* ---------------------------------------------------------------- which channels are secured */

  /** Phase 2 as the first frame of a connection that was greeted gives it the agreed key. */
  lemma ExchangeSecures(s: State, c: ConnId, f: Frame, sym: SymKey)
    requires Enabled(s, Receive(c, f)) && s.conns[c].handshake && Opened(s.conns[c], f).1 == Some(Exchange(Some(sym)))
    ensures var l := Next(s, Receive(c, f)).conns[c]; l.recv == Some(Cipher(sym, 0)) && l.live == s.conns[c].live
  {
    hide Opened, Seen;
  }

  /** In the clear, and the secret spent or never made. */
  predicate Unsecured(s: State, c: ConnId) {
    c in s.conns && s.conns[c].recv.None? && !s.conns[c].handshake
  }

  /** A connection that was not greeted, or whose first frame was something else, stays in the clear. */
  lemma StaysUnsecured(s: State, step: Step, c: ConnId)
    requires Enabled(s, step) && (Unsecured(s, c) || (step.Accept? && step.c == c && !step.secure))
    ensures Unsecured(Next(s, step), c)
  {
    hide Received;
    if step.Receive? {
      ReceivedLoops(s, step.c, step.frame);
    }
  }

  lemma OtherFrameUnsecures(s: State, c: ConnId, f: Frame)
    requires Enabled(s, Receive(c, f)) && s.conns[c].recv.None? && s.conns[c].handshake
    requires var m := Opened(s.conns[c], f).1; m.None? || !m.value.Exchange? || m.value.sym.None?
    ensures Unsecured(Next(s, Receive(c, f)), c)
  {
    hide Handled, Seen;
    var m := Opened(s.conns[c], f).1;
    if m.Some? { HandledLoops(Seen(s, c, f), c, m.value); }
  }

  lemma {:induction false} UnsecuredStays(before: seq<Step>, more: seq<Step>, c: ConnId)
    requires Unsecured(Run(before), c)
    ensures Unsecured(Run(before + more), c)
    decreases |more|
  {
    hide Run, Next, Unsecured;
    if more == [] {
      assert before + more == before;
    } else {
      var n := |more| - 1;
      UnsecuredStays(before, more[..n], c);
      RunMore(before, more[..n], more[n]);
      assert more == more[..n] + [more[n]];
      var s := Run(before + more[..n]);
      if Enabled(s, more[n]) { StaysUnsecured(s, more[n], c); }
    }
  }

  /** A connection that was not greeted never seals or opens anything. */
  lemma NotGreetedStaysClear(before: seq<Step>, key: Key, more: seq<Step>, c: ConnId)
    requires c !in Run(before).conns
    ensures var s := Run(before + [Accept(c, key, false)] + more); c in s.conns && s.conns[c].recv.None?
  {
    hide Run, Next;
    var accept := Accept(c, key, false);
    RunStep(before, accept);
    StaysUnsecured(Run(before), accept, c);
    UnsecuredStays(before + [accept], more, c);
  }

  /* ---------------------------------------------------------------- parked halves */

  /** Nothing parked outlives its connection, even where connections share an address. */
  lemma FinishedNotParked(steps: seq<Step>)
    ensures var s := Run(steps);
      && (forall k :: k in s.punch ==>
            var c := s.punch[k].conn; c in s.conns && s.conns[c].live && s.conns[c].key == k)
      && ((forall c :: c in s.conns ==> !s.conns[c].live) ==> s.punch == map[])
  {
    hide Run, InOrder, HalfFits, LoopOk;
    RunKeepsInv(steps);
    var s := Run(steps);
    forall k | k in s.punch ensures ParkedOk(s, k, s.punch[k]) {}
  }

  /** No connection is accepted from the address of one still being read. */
  ghost predicate Apart(steps: seq<Step>) {
    forall i, c :: 0 <= i < |steps| && steps[i].Accept? && c in Run(steps[..i]).conns ==>
      Run(steps[..i]).conns[c].live ==> Run(steps[..i]).conns[c].key != steps[i].key
  }

  ghost predicate LiveApart(s: State) {
    forall c, d :: c in s.conns && d in s.conns && c != d && s.conns[c].live && s.conns[d].live ==>
      s.conns[c].key != s.conns[d].key
  }

  /** The half of a connection was taken out of `tcp_punch` by a sender. */
  ghost predicate Answered(steps: seq<Step>, c: ConnId) {
    exists i :: 0 <= i < |steps| && TakesHalf(Run(steps[..i]), steps[i], c)
  }

  predicate TakesHalf(s: State, step: Step, c: ConnId) {
    step.Reply? && step.key in s.punch && s.punch[step.key].conn == c
  }

  predicate ParkedFor(s: State, c: ConnId) {
    c in s.conns && s.conns[c].key in s.punch && s.punch[s.conns[c].key].conn == c
  }

  lemma AcceptsApart(s: State, step: Step)
    requires Inv(s) && Enabled(s, step) && LiveApart(s)
    requires step.Accept? ==> forall c :: c in s.conns && s.conns[c].live ==> s.conns[c].key != step.key
    ensures LiveApart(Next(s, step))
  {
    hide Inv, Received;
    if step.Receive? { ReceivedLoops(s, step.c, step.frame); }
    var t := Next(s, step);
    forall c | c in t.conns && !(step.Accept? && step.c == c)
      ensures c in s.conns && t.conns[c].key == s.conns[c].key && (t.conns[c].live ==> s.conns[c].live) {}
  }

  lemma {:induction false} RunApart(steps: seq<Step>)
    requires Apart(steps)
    ensures LiveApart(Run(steps))
  {
    if steps != [] {
      var n := |steps| - 1;
      var rest := steps[..n];
      ApartUpTo(steps, n);
      RunApart(rest);
      RunKeepsInv(rest);
      hide Next, Inv;
      if Enabled(Run(rest), steps[n]) { AcceptsApart(Run(rest), steps[n]); }
    }
  }

  /* What a step does to parked halves, told from what it finds. */

  /** A frame after which the loop does not go on. */
  predicate Ends(l: Loop, f: Frame) {
    match Opened(l, f).1
    case None => true
    case Some(Punch) => false
    case Some(Ask(_, stay)) => !stay
    case Some(Exchange(sym)) => !(l.handshake && sym.Some?)
    case Some(Text(_)) => true
  }

  /** The step parks the half of `a`. */
  predicate Parks(s: State, step: Step, a: ConnId)
    requires a in s.conns
  {
    step.Receive? && step.c == a && s.conns[a].sink.Some? && Opened(s.conns[a], step.frame).1 == Some(Punch)
  }

  /** The step ends the loop of `a`, whose half is no longer there. */
  predicate EndsEmpty(s: State, step: Step, a: ConnId)
    requires a in s.conns
  {
    && s.conns[a].sink.None?
    && (step == Leave(a) || (step.Receive? && step.c == a && Ends(s.conns[a], step.frame)))
  }

  lemma HandledPunch(s: State, a: ConnId, m: Msg)
    requires a in s.conns && a in s.wire && s.conns[a].live
    ensures var l, t := s.conns[a], Handled(s, a, m);
      && t.punch == (if m.Punch? && l.sink.Some? then s.punch[l.key := l.sink.value]
                     else if m.Punch? || (m.Ask? && m.stay) || l.sink.Some? then s.punch
                     else s.punch - {l.key})
      && (t.conns[a].sink.None? <==> l.sink.None? || m.Punch? || !t.conns[a].live)
      && (t.conns[a].live <==> m.Punch? || (m.Ask? && m.stay))
  {
    hide SentOn;
  }

  lemma ReceivedPunch(s: State, a: ConnId, f: Frame)
    requires a in s.conns && a in s.wire && a in s.understood && s.conns[a].live
    ensures var l, t, step := s.conns[a], Received(s, a, f), Receive(a, f);
      && t.punch == (if Parks(s, step, a) then s.punch[l.key := l.sink.value]
                     else if EndsEmpty(s, step, a) then s.punch - {l.key} else s.punch)
      && (t.conns[a].sink.None? <==> l.sink.None? || Parks(s, step, a) || Ends(l, f))
  {
    hide Opened, Handled, Seen;
    var plain := Opened(s.conns[a], f).1;
    if plain.Some? { HandledPunch(Seen(s, a, f), a, plain.value); }
  }

  /** The step takes the half of a parked connection away from under its address: another
      connection from there parks its own half over it, or ends having none. */
  ghost predicate Evicts(s: State, step: Step, c: ConnId) {
    Enabled(s, step) && ParkedFor(s, c) &&
    exists a :: a in s.conns && a != c && s.conns[a].key == s.conns[c].key &&
      (Parks(s, step, a) || EndsEmpty(s, step, a))
  }

  lemma ReceivedLeavesParked(s: State, a: ConnId, f: Frame, c: ConnId)
    requires Inv(s) && Enabled(s, Receive(a, f)) && ParkedFor(s, c)
    requires var t := Received(s, a, f); c in t.conns && t.conns[c].live
    ensures ParkedFor(Received(s, a, f), c) <==> !Evicts(s, Receive(a, f), c)
  {
    hide Received, Opened, Ends, InOrder, HalfFits, Numbered;
    var step := Receive(a, f);
    ReceivedPunch(s, a, f);
    ReceivedLoops(s, a, f);
    assert LoopOk(a, s.conns[a], s.wire[a], s.understood[a]);
    assert ParkedOk(s, s.conns[c].key, s.punch[s.conns[c].key]);
    if a == c {
      EndedNotLive(s, a, f);
    } else if s.conns[a].key == s.conns[c].key && (Parks(s, step, a) || EndsEmpty(s, step, a)) {
      assert Evicts(s, step, c);
    }
  }

  lemma EndedNotLive(s: State, a: ConnId, f: Frame)
    requires a in s.conns && a in s.wire && a in s.understood && s.conns[a].live
    ensures Received(s, a, f).conns[a].live <==> !Ends(s.conns[a], f)
  {
    hide Opened, Handled, Seen;
    var plain := Opened(s.conns[a], f).1;
    if plain.Some? { HandledPunch(Seen(s, a, f), a, plain.value); }
  }

  lemma LeavingLeavesParked(s: State, a: ConnId, c: ConnId)
    requires Enabled(s, Leave(a)) && ParkedFor(s, c)
    requires c in Left(s, a).conns && Left(s, a).conns[c].live
    ensures ParkedFor(Left(s, a), c) <==> !Evicts(s, Leave(a), c)
  {
    hide Ends;
    if s.conns[a].sink.None? { assert EndsEmpty(s, Leave(a), a); }
  }

  lemma OthersLeaveParked(s: State, step: Step, c: ConnId)
    requires Enabled(s, step) && !step.Receive? && !step.Leave? && ParkedFor(s, c) && !TakesHalf(s, step, c)
    ensures ParkedFor(Next(s, step), c) && !Evicts(s, step, c)
  {
    hide Ends;
  }

  /** A parked half stays parked through a step exactly when the step does not evict it, unless a
      sender takes it or its own connection ends. */
  lemma StaysParkedExactlyWhen(s: State, step: Step, c: ConnId)
    requires Inv(s) && Enabled(s, step) && ParkedFor(s, c) && !TakesHalf(s, step, c)
    requires var t := Next(s, step); c in t.conns && t.conns[c].live
    ensures ParkedFor(Next(s, step), c) <==> !Evicts(s, step, c)
  {
    hide Received, Left, Evicts, Inv, ParkedFor;
    match step {
      case Receive(a, f) => ReceivedLeavesParked(s, a, f, c);
      case Leave(a) => LeavingLeavesParked(s, a, c);
      case _ => OthersLeaveParked(s, step, c);
    }
  }

  /** While a connection is read, its half leaves the loop only into `tcp_punch`, and does not come back. */
  lemma LoopToPunch(s: State, step: Step, c: ConnId)
    requires Inv(s) && Enabled(s, step) && c in s.conns
    requires var t := Next(s, step); c in t.conns && t.conns[c].live
    ensures var t := Next(s, step);
      && s.conns[c].live
      && (s.conns[c].sink.None? ==> t.conns[c].sink.None?)
      && (s.conns[c].sink.Some? && t.conns[c].sink.None? ==> ParkedFor(t, c))
  {
    hide Received, Opened, Ends, InOrder, HalfFits, Numbered, StrayOk;
    if step.Receive? {
      ReceivedPunch(s, step.c, step.frame);
      ReceivedLoops(s, step.c, step.frame);
      EndedNotLive(s, step.c, step.frame);
      assert LoopOk(step.c, s.conns[step.c], s.wire[step.c], s.understood[step.c]);
    }
  }

  /** At hand: in its loop, parked under its address, or taken by a sender. */
  ghost predicate AtHand(steps: seq<Step>, c: ConnId) {
    var s := Run(steps);
    c in s.conns && (s.conns[c].sink.Some? || ParkedFor(s, c) || Answered(steps, c))
  }

  ghost predicate NeverEvicted(steps: seq<Step>, c: ConnId) {
    forall i :: 0 <= i < |steps| ==> !Evicts(Run(steps[..i]), steps[i], c)
  }

  lemma NeverEvictedSnoc(rest: seq<Step>, step: Step, c: ConnId)
    ensures NeverEvicted(rest + [step], c) <==> NeverEvicted(rest, c) && !Evicts(Run(rest), step, c)
  {
    hide Run, Evicts;
    var all := rest + [step];
    assert all[..|rest|] == rest && all[|rest|] == step;
    forall i | 0 <= i < |rest| ensures all[..i] == rest[..i] && all[i] == rest[i] {}
  }

  lemma AnsweredSnoc(rest: seq<Step>, step: Step, c: ConnId)
    ensures Answered(rest + [step], c) <==> Answered(rest, c) || TakesHalf(Run(rest), step, c)
  {
    hide Run;
    var all := rest + [step];
    assert all[..|rest|] == rest && all[|rest|] == step;
    if i :| 0 <= i < |rest| && TakesHalf(Run(rest[..i]), rest[i], c) {
      assert all[..i] == rest[..i] && all[i] == rest[i];
    }
    if i :| 0 <= i < |all| && TakesHalf(Run(all[..i]), all[i], c) {
      if i < |rest| { assert all[..i] == rest[..i] && all[i] == rest[i]; }
    }
  }

  lemma {:induction false} NotYetNotEvicted(steps: seq<Step>, c: ConnId)
    requires c !in Run(steps).conns
    ensures NeverEvicted(steps, c)
  {
    hide Next, NeverEvicted;
    if steps == [] {
      assert NeverEvicted([], c) by { NothingEvicted(c); }
    } else {
      var n := |steps| - 1;
      var s := Run(steps[..n]);
      if c in s.conns && Enabled(s, steps[n]) { RecvAfter(s, steps[n], c); }
      NotYetNotEvicted(steps[..n], c);
      NeverEvictedSnoc(steps[..n], steps[n], c);
      assert steps == steps[..n] + [steps[n]];
    }
  }

  lemma NothingEvicted(c: ConnId)
    ensures NeverEvicted([], c)
  {
  }

  /** One more step: what was at hand, or lost, before. */
  lemma AtHandStep(rest: seq<Step>, step: Step, c: ConnId)
    requires c in Run(rest).conns && Enabled(Run(rest), step)
    requires var t := Next(Run(rest), step); c in t.conns && t.conns[c].live
    requires Run(rest).conns[c].live && (AtHand(rest, c) <==> NeverEvicted(rest, c))
    ensures AtHand(rest + [step], c) <==> NeverEvicted(rest + [step], c)
  {
    hide Run, Next, Evicts, TakesHalf, NeverEvicted, Inv, Answered, LoopOk;
    var s, t := Run(rest), Next(Run(rest), step);
    RunKeepsInv(rest);
    RunStep(rest, step);
    NeverEvictedSnoc(rest, step, c);
    AnsweredSnoc(rest, step, c);
    LoopToPunch(s, step, c);
    HalfInOnePlace(s, c);
    NotTakenNotEvicted(s, step, c);
    if Answered(rest, c) {
      AnsweredOnce(rest, c);
    } else if ParkedFor(s, c) {
      if !TakesHalf(s, step, c) { StaysParkedExactlyWhen(s, step, c); }
    } else if s.conns[c].sink.None? {
      GoneStays(s, step, c);
    }
  }

  lemma NotTakenNotEvicted(s: State, step: Step, c: ConnId)
    ensures Evicts(s, step, c) ==> ParkedFor(s, c)
    ensures !(Evicts(s, step, c) && TakesHalf(s, step, c))
    ensures TakesHalf(s, step, c) ==> exists k :: k in s.punch && s.punch[k].conn == c
  {
  }

  /** A half that is parked is parked under its connection's address and not in the loop. */
  lemma HalfInOnePlace(s: State, c: ConnId)
    requires Inv(s) && c in s.conns
    ensures s.conns[c].sink.Some? ==> !ParkedFor(s, c)
    ensures s.conns[c].sink.None? && !ParkedFor(s, c) ==> Gone(s, c)
  {
    hide LoopOk, InOrder, HalfFits;
    forall k | k in s.punch ensures ParkedOk(s, k, s.punch[k]) {}
  }

  /** On every run, the half of a connection still being read is in its loop, or parked under its
      address, or was taken by a sender, if and only if no step evicted it. */
  lemma {:induction false} AtHandExactlyWhen(steps: seq<Step>, c: ConnId)
    requires c in Run(steps).conns && Run(steps).conns[c].live
    ensures AtHand(steps, c) <==> NeverEvicted(steps, c)
  {
    hide Next, Inv, Evicts, TakesHalf, NeverEvicted, Answered, AtHand;
    if steps == [] {
      assert false;
    } else {
      var n := |steps| - 1;
      var rest, step := steps[..n], steps[n];
      var s := Run(rest);
      assert steps == rest + [step];
      if !Enabled(s, step) {
        AtHandExactlyWhen(rest, c);
        IdleStep(rest, step, c);
      } else if c in s.conns {
        RecvAfter(s, step, c);
        AtHandExactlyWhen(rest, c);
        AtHandStep(rest, step, c);
      } else {
        NewHasHalf(s, step, c);
        NotYetNotEvicted(rest, c);
        NeverEvictedSnoc(rest, step, c);
        NewAtHand(steps, c);
        NotTakenNotEvicted(s, step, c);
      }
    }
  }

  lemma NewAtHand(steps: seq<Step>, c: ConnId)
    requires c in Run(steps).conns && Run(steps).conns[c].sink.Some?
    ensures AtHand(steps, c)
  {
    hide Run;
  }

  lemma IdleStep(rest: seq<Step>, step: Step, c: ConnId)
    requires !Enabled(Run(rest), step)
    ensures AtHand(rest + [step], c) <==> AtHand(rest, c)
    ensures NeverEvicted(rest + [step], c) <==> NeverEvicted(rest, c)
  {
    hide Run, Next, NeverEvicted, Answered;
    RunStep(rest, step);
    AnsweredSnoc(rest, step, c);
    NeverEvictedSnoc(rest, step, c);
  }

  /** In particular nothing is lost while connections have addresses of their own. */
  lemma InLoopParkedOrAnswered(steps: seq<Step>, c: ConnId)
    requires Apart(steps) && c in Run(steps).conns && Run(steps).conns[c].live
    ensures AtHand(steps, c)
  {
    hide Run, AtHand, Apart;
    forall i | 0 <= i < |steps| ensures !Evicts(Run(steps[..i]), steps[i], c) {
      ApartUpTo(steps, i);
      RunApart(steps[..i]);
      RunKeepsInv(steps[..i]);
      ApartNotEvicted(Run(steps[..i]), steps[i], c);
    }
    AtHandExactlyWhen(steps, c);
  }

  lemma ApartNotEvicted(s: State, step: Step, c: ConnId)
    requires Inv(s) && LiveApart(s)
    ensures !Evicts(s, step, c)
  {
    hide LoopOk, InOrder, HalfFits, Opened, Ends;
    if ParkedFor(s, c) { assert ParkedOk(s, s.conns[c].key, s.punch[s.conns[c].key]); }
  }

  lemma ApartUpTo(steps: seq<Step>, n: nat)
    requires Apart(steps) && n <= |steps|
    ensures Apart(steps[..n])
  {
    hide Run;
    var rest := steps[..n];
    forall i | 0 <= i < |rest| ensures rest[..i] == steps[..i] {}
  }

  lemma NewHasHalf(s: State, step: Step, c: ConnId)
    requires Enabled(s, step) && c !in s.conns && c in Next(s, step).conns
    ensures Next(s, step).conns[c].sink.Some?
  {
    hide Received;
    if step.Receive? { ReceivedLoops(s, step.c, step.frame); }
  }

  /** Gone for good: a half that is neither in its loop nor parked. */
  predicate Gone(s: State, c: ConnId) {
    c in s.conns && s.conns[c].sink.None? && forall k :: k in s.punch ==> s.punch[k].conn != c
  }

  lemma GoneStays(s: State, step: Step, c: ConnId)
    requires Inv(s) && Enabled(s, step) && Gone(s, c)
    ensures Gone(Next(s, step), c)
  {
    hide Received, Opened, Ends, InOrder, HalfFits, Numbered, StrayOk;
    if step.Receive? {
      ReceivedPunch(s, step.c, step.frame);
      ReceivedLoops(s, step.c, step.frame);
      assert LoopOk(step.c, s.conns[step.c], s.wire[step.c], s.understood[step.c]);
    }
  }

  /** An answered connection's half is not parked again, and never back in its loop: it is answered once. */
  lemma {:induction false} AnsweredOnce(steps: seq<Step>, c: ConnId)
    requires Answered(steps, c)
    ensures Gone(Run(steps), c)
  {
    hide Next, Inv, LoopOk;
    var n := |steps| - 1;
    var rest := steps[..n];
    var s := Run(rest);
    RunKeepsInv(rest);
    if TakesHalf(s, steps[n], c) {
      TakenIsGone(s, steps[n], c);
    } else {
      AnsweredBefore(steps, c);
      AnsweredOnce(rest, c);
      if Enabled(s, steps[n]) { GoneStays(s, steps[n], c); }
    }
  }

  lemma AnsweredBefore(steps: seq<Step>, c: ConnId)
    requires Answered(steps, c) && !TakesHalf(Run(steps[..|steps| - 1]), steps[|steps| - 1], c)
    ensures Answered(steps[..|steps| - 1], c)
  {
    hide Run;
    var i :| 0 <= i < |steps| && TakesHalf(Run(steps[..i]), steps[i], c);
    assert steps[..|steps| - 1][..i] == steps[..i];
  }

  lemma TakenIsGone(s: State, step: Step, c: ConnId)
    requires Inv(s) && TakesHalf(s, step, c)
    ensures Enabled(s, step) && Gone(Next(s, step), c)
  {
    hide InOrder, HalfFits, Numbered, LoopOk;
    forall k | k in s.punch ensures ParkedOk(s, k, s.punch[k]) {}
  }

  /** Whoever takes a parked half sends on it to the connection that parked it. */
  lemma ReplyReachesAsker(s: State, key: Key, text: string)
    requires Inv(s) && key in s.punch
    ensures var c, i := s.punch[key].conn, |s.sending|;
      var t := Next(s, Reply(key));
      && Enabled(t, Send(i, text)) && c in s.wire
      && var u := Next(t, Send(i, text));
      && u.sending == s.sending
      && u.wire == s.wire[c := s.wire[c] + [FrameFor(s.punch[key], text)]]
      && FrameFor(s.punch[key], text).msg == Text(text)
  {
    hide LoopOk, StrayOk;
    assert ParkedOk(s, key, s.punch[key]);
    var all := s.sending + [s.punch[key]];
    assert Without(all, |s.sending|) == s.sending;
  }

  /** With two connections at one address, the second half to be parked displaces the first: nobody
      can then answer the first connection, though it is still being read. */
  lemma SharedAddressLosesHalf(s: State, a: ConnId, b: ConnId)
    requires a in s.conns && b in s.conns && a != b && s.conns[a].key == s.conns[b].key
    requires s.conns[a].live && s.conns[b].live && a in s.wire && b in s.wire
    requires s.conns[a].sink.Some? && s.conns[b].sink.Some? && s.conns[b].sink.value.conn == b
    ensures var t := Handled(Handled(s, a, Punch), b, Punch);
      && a in t.conns && t.conns[a].live && t.conns[a].sink.None? && !ParkedFor(t, a)
      && b in t.conns && t.conns[b].live && t.conns[b].sink.None? && ParkedFor(t, b)
      && t.conns[a].key == t.conns[b].key && t.sending == s.sending
  {
  }

  /** And when the first then ends, having no half, it removes the second's, which is still being read. */
  lemma LeavingTakesAnothersHalf(s: State, a: ConnId, c: ConnId)
    requires a in s.conns && a != c && s.conns[a].sink.None? && ParkedFor(s, c) && s.conns[a].key == s.conns[c].key
    ensures var t := Left(s, a);
      && c in t.conns && t.conns[c] == s.conns[c] && !ParkedFor(t, c) && t.sending == s.sending
  {
  }

  lemma PlainPunch(s: State, c: ConnId)
    requires c in s.conns && c in s.wire && c in s.understood
    requires s.conns[c].recv.None? && !s.conns[c].handshake
    ensures Received(s, c, Clear(Punch, false)) == Handled(s, c, Punch)
  {
    SameEntry(s, c);
    assert s.conns[c].(recv := None, handshake := false) == s.conns[c];
  }

  /** An old connection still being read when a new one comes from the same ip and port (a source port
      used again), neither securing the channel, each asking for a peer. */
  const SHARED: seq<Step> := [Accept(0, 7, false), Accept(1, 7, false),
                              Receive(0, Clear(Punch, false)), Receive(1, Clear(Punch, false))]

  function BothAccepted(): State {
    var l := Loop(7, Some(Half(0, None)), false, None, true);
    State(map[0 := l, 1 := l.(sink := Some(Half(1, None)))], map[], [], map[0 := [], 1 := []], map[0 := [], 1 := []])
  }

  lemma SharedStart()
    ensures Run(SHARED[..2]) == BothAccepted()
  {
    hide Received;
    var a, b := SHARED[0], SHARED[1];
    RunStep([], a);
    RunStep([a], b);
    assert [] + [a] == [a] && [a] + [b] == SHARED[..2];
  }

  /** Both losses in one run: first the older connection is read and its half is neither in the
      loop, parked nor taken; then it ends, and so it is with the younger one. */
  lemma SharedAddressRun()
    ensures Run(SHARED).conns.Keys == {0, 1} == Run(SHARED + [Leave(0)]).conns.Keys
    ensures Run(SHARED).conns[0].live && !AtHand(SHARED, 0)
    ensures Run(SHARED + [Leave(0)]).conns[1].live && !AtHand(SHARED + [Leave(0)], 1)
  {
    hide Next, Run, Handled;
    SharedStart();
    var s := BothAccepted();
    var t := Handled(s, 0, Punch);
    RunStep(SHARED[..2], SHARED[2]);
    RunStep(SHARED[..3], SHARED[3]);
    assert SHARED[..2] + [SHARED[2]] == SHARED[..3] && SHARED[..3] + [SHARED[3]] == SHARED;
    FirstPunch();
    PlainPunch(s, 0);
    PlainPunch(t, 1);
    NextReceives(s, 0, Clear(Punch, false));
    NextReceives(t, 1, Clear(Punch, false));
    SharedAddressLosesHalf(s, 0, 1);
    var u := Run(SHARED);
    assert u.conns.Keys == {0, 1} by { HandledLoops(s, 0, Punch); HandledLoops(t, 1, Punch); }
    var all := SHARED + [Leave(0)];
    RunStep(SHARED, Leave(0));
    NextLeaves(u, 0);
    LeavingTakesAnothersHalf(u, 0, 1);
    NoReplies(SHARED, 0);
    NoReplies(all, 1);
  }

  lemma NoReplies(steps: seq<Step>, c: ConnId)
    requires forall i :: 0 <= i < |steps| ==> !steps[i].Reply?
    ensures !Answered(steps, c)
  {
    hide Run;
  }

  lemma NextLeaves(s: State, c: ConnId)
    requires Enabled(s, Leave(c))
    ensures Next(s, Leave(c)) == Left(s, c) && Left(s, c).conns.Keys == s.conns.Keys
  {
  }

  lemma NextReceives(s: State, c: ConnId, f: Frame)
    requires Enabled(s, Receive(c, f))
    ensures Next(s, Receive(c, f)) == Received(s, c, f)
  {
  }

  lemma FirstPunch()
    ensures var t := Handled(BothAccepted(), 0, Punch);
      t == BothAccepted().(conns := BothAccepted().conns[0 := Loop(7, None, false, None, true)],
                           punch := map[7 := Half(0, None)])
  {
  }

  /* ---------------------------------------------------------------- the program */

  /** `tcp_punch`, shared by all connections and senders. */
  class TcpPunch {
    var halves: map<Key, Half>

    constructor ()
      ensures halves == map[]
    {
      halves := map[];
    }

    method Insert(key: Key, half: Half)
      modifies this
      ensures halves == old(halves)[key := half]
    {
      halves := halves[key := half];
    }

    /** `send_to_tcp`, up to the send: whatever is parked there, if anything, leaves the map. */
    method Remove(key: Key) returns (half: Option<Half>)
      modifies this
      ensures half == if key in old(halves) then Some(old(halves)[key]) else None
      ensures halves == old(halves) - {key}
    {
      half := if key in halves then Some(halves[key]) else None;
      halves := halves - {key};
    }
  }

  /** One connection's read loop, with the locals the loop updates. */
  class Connection {
    const conn: ConnId
    const key: Key
    var sink: Option<Half>
    var handshake: bool
    var recv: Option<Cipher>
    var live: bool
    var sent: seq<Frame>

    constructor (conn: ConnId, key: Key, secure: bool)
      ensures this.conn == conn && this.key == key
      ensures ToLoop() == Loop(key, Some(Half(conn, None)), secure, None, true)
      ensures sent == if secure then [Clear(Exchange(None), false)] else []
    {
      this.conn, this.key := conn, key;
      sink, handshake, recv, live := Some(Half(conn, None)), secure, None, true;
      sent := if secure then [Clear(Exchange(None), false)] else [];
    }

    function ToLoop(): Loop
      reads this
    {
      Loop(key, sink, handshake, recv, live)
    }

    /** The objects hold this connection's part of a state, and all that is parked. */
    ghost predicate Mirrors(s: State, punch: TcpPunch)
      reads this, punch
    {
      && conn in s.conns && conn in s.wire && conn in s.understood
      && s.conns[conn] == ToLoop() && s.wire[conn] == sent && s.punch == punch.halves
    }

    method End(punch: TcpPunch)
      modifies this, punch
      ensures ToLoop() == old(ToLoop()).(sink := None, live := false) && sent == old(sent)
      ensures punch.halves == if old(sink).None? then old(punch.halves) - {key} else old(punch.halves)
    {
      if sink.None? {
        var _ := punch.Remove(key);
      }
      sink, live := None, false;
    }

    /** Answer on the half while the loop has it. */
    method Answer(answers: seq<string>)
      modifies this
      ensures old(sink).None? ==> ToLoop() == old(ToLoop()) && sent == old(sent)
      ensures old(sink).Some? ==>
        var (h, w) := SentOn(old(sink).value, old(sent), answers);
        ToLoop() == old(ToLoop()).(sink := Some(h)) && sent == w
    {
      var i := 0;
      while i < |answers|
        invariant 0 <= i <= |answers|
        invariant sink.Some? == old(sink).Some?
        invariant ToLoop() == old(ToLoop()).(sink := sink)
        invariant sink.None? ==> sent == old(sent)
        invariant sink.Some? ==> SentOn(sink.value, sent, answers[i..]) == SentOn(old(sink).value, old(sent), answers)
      {
        if sink.Some? {
          sent := sent + [FrameFor(sink.value, answers[i])];
          sink := Some(Used(sink.value));
        }
        assert answers[i..][1..] == answers[i + 1..];
        i := i + 1;
      }
    }

    /** `handle_tcp`: parks the half, answers on it, and says whether to go on reading. */
    method Handle(m: Msg, punch: TcpPunch, ghost s: State)
      requires Mirrors(s, punch) && live
      modifies this, punch
      ensures Mirrors(Handled(s, conn, m), punch)
    {
      match m {
        case Punch =>
          if sink.Some? {
            punch.Insert(key, sink.value);
            sink := None;
          }
        case Ask(answers, stay) =>
          Answer(answers);
          if !stay { End(punch); }
        case _ =>
          End(punch);
      }
    }

    /** One turn of the read loop. */
    method Receive(f: Frame, punch: TcpPunch, ghost s: State)
      requires Mirrors(s, punch) && live
      modifies this, punch
      ensures Mirrors(Received(s, conn, f), punch)
    {
      var plain: Option<Msg> := if f.Clear? then Some(f.msg) else Some(Text(""));
      if recv.Some? {
        var (r, m) := Unseal(recv.value, f);
        recv, plain := Some(r), m;
      }
      var secret := handshake;
      handshake := false;
      ghost var t := Seen(s, conn, f);
      assert Mirrors(t, punch) && plain == Opened(s.conns[conn], f).1;
      hide Seen, Opened, Handled, Unseal;
      if plain.None? {
        End(punch);
      } else if secret && plain.value.Exchange? {
        if plain.value.sym.None? {
          End(punch);
        } else {
          recv := Some(Cipher(plain.value.sym.value, 0));
          if sink.Some? { sink := Some(sink.value.(encrypt := recv)); }
        }
      } else {
        Handle(plain.value, punch, t);
      }
    }
  }
}
