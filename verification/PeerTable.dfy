/**
 The peer table: records in memory over a database, and the rules by which a peer's key may be
 registered.  Each registration is one step; database calls succeed unless the table's unique
 index on the id refuses them.
 */
module PeerTable {
  import opened Basics
  import opened Limiters

  const MIN_ID_LEN: nat := 6
  const MAX_PEER_ID_LEN: nat := 253

  type Bytes = string

  datatype Addr = Addr(ip: string, port: nat)

  /** A record in memory. No guid means the peer is not in the database. */
  datatype Peer = Peer(addr: Addr, lastReg: Option<nat>, guid: Option<nat>,
                       uuid: Bytes, pk: Bytes, ip: string, regPk: Window)

  const NEW_PEER: Peer := Peer(Addr("0.0.0.0", 0), None, None, "", "", "", Window(0, None))

  /** A row of the database; `ip` is the only field of its info column. */
  datatype Row = Row(id: string, uuid: Bytes, pk: Bytes, ip: string)

  datatype State = State(mem: map<string, Peer>, db: map<nat, Row>)

  datatype RegisterPk = RegisterPk(id: string, uuid: Bytes, pk: Bytes)

  datatype Reply = OK | UUID_MISMATCH | TOO_FREQUENT

  /* ---------------------------------------------------------------- the database */

  predicate HasId(db: map<nat, Row>, id: string) {
    exists g :: g in db && db[g].id == id
  }

  predicate UniqueIds(db: map<nat, Row>) {
    forall g, h :: g in db && h in db && db[g].id == db[h].id ==> g == h
  }

  /** `get_peer`. */
  ghost function RowOf(db: map<nat, Row>, id: string): Option<nat> {
    if HasId(db, id) then
      var g :| g in db && db[g].id == id;
      Some(g)
    else None
  }

  /** `insert_peer`: refused by the unique index if the id is there. */
  function Inserted(db: map<nat, Row>, guid: nat, row: Row): (map<nat, Row>, bool) {
    if HasId(db, row.id) || guid in db then (db, false) else (db[guid := row], true)
  }

  /** `update peer set id=?, pk=?, info=? where guid=?`: the uuid column is not written. */
  function Updated(db: map<nat, Row>, guid: nat, id: string, pk: Bytes, ip: string): map<nat, Row> {
    if guid in db then db[guid := db[guid].(id := id, pk := pk, ip := ip)] else db
  }

  /* ---------------------------------------------------------------- the table */

  function FromRow(guid: nat, row: Row): Peer {
    NEW_PEER.(guid := Some(guid), uuid := row.uuid, pk := row.pk, ip := row.ip)
  }

  /** `get`: what memory has, else what the database has, which memory then has too. */
  ghost function Got(s: State, id: string): State {
    if id in s.mem || RowOf(s.db, id).None? then s
    else
      var g := RowOf(s.db, id).value;
      s.(mem := s.mem[id := FromRow(g, s.db[g])])
  }

  /** `get_or`: as `get`, else a new empty record. */
  ghost function GotOr(s: State, id: string): (t: State)
    ensures id in t.mem
  {
    var t := Got(s, id);
    if id in t.mem then t else t.(mem := t.mem[id := NEW_PEER])
  }

  /** `PeerMap::update_pk`: the record first, then the database. `newGuid` is a new guid. */
  function UpdatedPk(s: State, rk: RegisterPk, addr: Addr, now: nat, newGuid: nat): State
    requires rk.id in s.mem
  {
    var p := s.mem[rk.id].(addr := addr, uuid := rk.uuid, pk := rk.pk, lastReg := Some(now), ip := addr.ip);
    if p.guid.None? then
      var (db, ok) := Inserted(s.db, newGuid, Row(rk.id, rk.uuid, rk.pk, addr.ip));
      State(s.mem[rk.id := if ok then p.(guid := Some(newGuid)) else p], db)
    else
      State(s.mem[rk.id := p], Updated(s.db, p.guid.value, rk.id, rk.pk, addr.ip))
  }

  /** Does the peer's identity refuse this registration? */
  predicate Mismatch(p: Peer, rk: RegisterPk, ip: string) {
    p.uuid != "" && (p.uuid != rk.uuid || (p.ip != ip && p.pk != rk.pk))
  }

  predicate Changed(p: Peer, rk: RegisterPk, ip: string) {
    p.uuid == "" || p.pk != rk.pk || p.ip != ip
  }

  /** `handle_register_pk`. `allowed` is the address limiter's verdict. */
  ghost function Registered(s: State, rk: RegisterPk, addr: Addr, ws: bool, allowed: bool, now: nat, newGuid: nat)
    : (State, Option<Reply>)
  {
    if rk.uuid == "" || rk.pk == "" then (s, None)
    else if |rk.id| < MIN_ID_LEN || |rk.id| > MAX_PEER_ID_LEN then (s, Some(UUID_MISMATCH))
    else if !allowed then (s, Some(TOO_FREQUENT))
    else
      var t := GotOr(s, rk.id);
      var p := t.mem[rk.id];
      if Mismatch(p, rk, addr.ip) then (t, Some(UUID_MISMATCH))
      else if !Passes(p.regPk, REG_PK_LIMIT, REG_PK_DUR, now) then (t, Some(TOO_FREQUENT))
      else
        var q := p.(regPk := Counted(p.regPk, REG_PK_LIMIT, REG_PK_DUR, now));
        var u := t.(mem := t.mem[rk.id := q]);
        (if Changed(p, rk, addr.ip) || ws then UpdatedPk(u, rk, addr, now, newGuid) else u, Some(OK))
  }

  /** `is_loopback` on an address written out: 127.0.0.0/8 and ::1. */
  predicate IsLoopback(ip: string) { "127." <= ip || ip == "::1" }

  /** `update_addr`: where a peer was last seen; nothing the database keeps. */
  function AddrUpdated(s: State, id: string, addr: Addr, now: nat): State {
    if id !in s.mem then s
    else
      var p := s.mem[id];
      var known := if p.addr.port != 0 then p.addr.ip else p.ip;
      var ipChange := addr.ip != known && !IsLoopback(addr.ip);
      if p.pk == "" || ipChange then s
      else s.(mem := s.mem[id := p.(addr := addr, lastReg := Some(now))])
  }

  datatype Op =
    | Register(rk: RegisterPk, addr: Addr, ws: bool, allowed: bool, now: nat, newGuid: nat)
    | Get(id: string)
    | SetAddr(id: string, at: Addr, when: nat)
    | Restart

  ghost function Step(s: State, op: Op): State {
    match op
    case Register(rk, addr, ws, allowed, now, newGuid) => Registered(s, rk, addr, ws, allowed, now, newGuid).0
    case Get(id) => Got(s, id)
    case SetAddr(id, at, when) => AddrUpdated(s, id, at, when)
    case Restart => s.(mem := map[])
  }

  ghost function Run(s: State, ops: seq<Op>): State {
    if ops == [] then s else Step(Run(s, ops[..|ops| - 1]), ops[|ops| - 1])
  }

  /* ---------------------------------------------------------------- agreement */

  /** One record against the database: persisted exactly when it has a guid and an identity, and
      then the same in uuid, pk and ip. */
  ghost predicate Agrees(db: map<nat, Row>, id: string, p: Peer) {
    match p.guid
    case None => p.uuid == "" && !HasId(db, id)
    case Some(g) => p.uuid != "" && g in db && db[g] == Row(id, p.uuid, p.pk, p.ip)
  }

  ghost predicate DbOk(db: map<nat, Row>) {
    UniqueIds(db) && forall g :: g in db ==> db[g].uuid != ""
  }

  ghost predicate Inv(s: State) {
    DbOk(s.db) && forall id :: id in s.mem ==> Agrees(s.db, id, s.mem[id])
  }

  lemma RowOfUnique(db: map<nat, Row>, g: nat)
    requires UniqueIds(db) && g in db
    ensures RowOf(db, db[g].id) == Some(g)
  {
  }

  lemma GotOrOk(s: State, id: string)
    requires Inv(s)
    ensures Inv(Got(s, id)) && Inv(GotOr(s, id))
    ensures Got(s, id).db == s.db && GotOr(s, id).db == s.db
    ensures id !in Got(s, id).mem ==> !HasId(s.db, id)
  {
  }

  /** A row a registration of `id` may have touched: only its own, and never the uuid. */
  predicate RowKept(before: Row, after: Row, id: string) {
    before == after || (before.id == id == after.id && before.uuid == after.uuid)
  }

  lemma UpdatedPkOk(s: State, rk: RegisterPk, addr: Addr, now: nat, newGuid: nat)
    requires Inv(s) && rk.id in s.mem && newGuid !in s.db && rk.uuid != ""
    requires s.mem[rk.id].uuid == "" || s.mem[rk.id].uuid == rk.uuid
    ensures var t := UpdatedPk(s, rk, addr, now, newGuid);
      && Inv(t)
      && t.mem[rk.id].guid.Some?
      && (forall g :: g in t.db ==> g in s.db || t.db[g].id == rk.id)
      && (forall g :: g in s.db ==> g in t.db && RowKept(s.db[g], t.db[g], rk.id))
  {
    var p := s.mem[rk.id];
    assert Agrees(s.db, rk.id, p);
    var t := UpdatedPk(s, rk, addr, now, newGuid);
    forall id | id in t.mem && id != rk.id ensures Agrees(t.db, id, t.mem[id]) {
      assert Agrees(s.db, id, s.mem[id]);
    }
  }

  /** A registration keeps memory and database in agreement, loses no row, changes at most its own. */
  lemma RegisteredOk(s: State, rk: RegisterPk, addr: Addr, ws: bool, allowed: bool, now: nat, newGuid: nat)
    requires Inv(s) && newGuid !in s.db
    ensures var (t, _) := Registered(s, rk, addr, ws, allowed, now, newGuid);
      && Inv(t)
      && (forall g :: g in s.db ==> g in t.db && RowKept(s.db[g], t.db[g], rk.id))
  {
    hide Got, GotOr, Passes, Counted, UpdatedPk, DbOk;
    GotOrOk(s, rk.id);
    var t := GotOr(s, rk.id);
    var p := t.mem[rk.id];
    assert Agrees(t.db, rk.id, p);
    var q := p.(regPk := Counted(p.regPk, REG_PK_LIMIT, REG_PK_DUR, now));
    var u := t.(mem := t.mem[rk.id := q]);
    assert Inv(u);
    if rk.uuid != "" && !Mismatch(p, rk, addr.ip) {
      UpdatedPkOk(u, rk, addr, now, newGuid);
    }
  }

  /** Each guid handed out is new, as random ones are. */
  ghost predicate FreshGuids(s: State, ops: seq<Op>) {
    forall i :: 0 <= i < |ops| && ops[i].Register? ==> ops[i].newGuid !in Run(s, ops[..i]).db
  }

  lemma StepOk(s: State, op: Op)
    requires Inv(s) && (op.Register? ==> op.newGuid !in s.db)
    ensures Inv(Step(s, op))
    ensures forall g :: g in s.db ==>
      g in Step(s, op).db && s.db[g].id == Step(s, op).db[g].id && s.db[g].uuid == Step(s, op).db[g].uuid
  {
    hide Registered;
    match op {
      case Register(rk, addr, ws, allowed, now, newGuid) => RegisteredOk(s, rk, addr, ws, allowed, now, newGuid);
      case Get(id) => GotOrOk(s, id);
      case SetAddr(id, at, when) =>
      case Restart =>
    }
  }

  /** On every run, memory agrees with the database, and a uuid once bound to a guid and an id stays. */
  lemma {:induction false} RunAgrees(s: State, ops: seq<Op>)
    requires Inv(s) && FreshGuids(s, ops)
    ensures Inv(Run(s, ops))
    ensures forall g :: g in s.db ==>
      g in Run(s, ops).db && s.db[g].id == Run(s, ops).db[g].id && s.db[g].uuid == Run(s, ops).db[g].uuid
  {
    hide Inv, Step;
    if ops != [] {
      var n := |ops| - 1;
      forall i | 0 <= i < n && ops[..n][i].Register? ensures ops[..n][i].newGuid !in Run(s, ops[..n][..i]).db {
        assert ops[..n][..i] == ops[..i];
      }
      RunAgrees(s, ops[..n]);
      assert ops[n] == ops[|ops| - 1];
      StepOk(Run(s, ops[..n]), ops[n]);
    }
  }

  /** The server starts with nothing in memory; every row it finds has a uuid. */
  lemma StartsInAgreement(db: map<nat, Row>)
    requires DbOk(db)
    ensures Inv(State(map[], db))
  {
  }

  /** What agreement says of a peer that is both in memory and in the database. */
  lemma PersistedPeersMatch(s: State, id: string, g: nat)
    requires Inv(s) && id in s.mem && g in s.db && s.db[g].id == id
    ensures var p := s.mem[id]; var r := s.db[g];
      p.guid == Some(g) && p.uuid == r.uuid && p.pk == r.pk && p.ip == r.ip
  {
    assert Agrees(s.db, id, s.mem[id]);
  }

  lemma UpdatedPkKey(s: State, rk: RegisterPk, addr: Addr, now: nat, newGuid: nat, g: nat)
    requires Inv(s) && rk.id in s.mem && newGuid !in s.db && g in s.db
    ensures var t := UpdatedPk(s, rk, addr, now, newGuid);
      && g in t.db
      && (t.db[g].pk != s.db[g].pk ==> s.mem[rk.id].guid == Some(g) && s.db[g].id == rk.id && t.db[g].pk == rk.pk)
  {
    assert Agrees(s.db, rk.id, s.mem[rk.id]);
  }

  lemma RegisteredKey(s: State, rk: RegisterPk, addr: Addr, ws: bool, allowed: bool, now: nat, newGuid: nat, g: nat)
    requires Inv(s) && newGuid !in s.db && g in s.db
    ensures var (t, _) := Registered(s, rk, addr, ws, allowed, now, newGuid);
      && g in t.db
      && (t.db[g].pk != s.db[g].pk ==>
            rk.id == s.db[g].id && rk.uuid == s.db[g].uuid && addr.ip == s.db[g].ip && t.db[g].pk == rk.pk)
  {
    hide Got, GotOr, Passes, Counted, UpdatedPk, DbOk, Changed;
    GotOrOk(s, rk.id);
    var t := GotOr(s, rk.id);
    var p := t.mem[rk.id];
    assert Agrees(t.db, rk.id, p);
    var u := t.(mem := t.mem[rk.id := p.(regPk := Counted(p.regPk, REG_PK_LIMIT, REG_PK_DUR, now))]);
    assert Inv(u);
    UpdatedPkKey(u, rk, addr, now, newGuid, g);
  }

  /** A stored key changes only by an accepted registration with the bound uuid from the recorded ip. */
  lemma KeyChangesOnlyFromRecordedIp(s: State, op: Op, g: nat)
    requires Inv(s) && (op.Register? ==> op.newGuid !in s.db)
    requires g in s.db && g in Step(s, op).db && Step(s, op).db[g].pk != s.db[g].pk
    ensures op.Register? && op.rk.id == s.db[g].id && op.rk.uuid == s.db[g].uuid
    ensures op.addr.ip == s.db[g].ip && Step(s, op).db[g].pk == op.rk.pk
  {
    hide Inv, Registered, Got;
    match op {
      case Register(rk, addr, ws, allowed, now, newGuid) =>
        RegisteredKey(s, rk, addr, ws, allowed, now, newGuid, g);
      case Get(id) => GotOrOk(s, id);
      case SetAddr(id, at, when) =>
      case Restart =>
    }
  }

  /** An OK means the database now holds exactly what was registered; the unique index never refuses it. */
  lemma OkMeansStored(s: State, rk: RegisterPk, addr: Addr, ws: bool, allowed: bool, now: nat, newGuid: nat)
    requires Inv(s) && newGuid !in s.db
    requires Registered(s, rk, addr, ws, allowed, now, newGuid).1 == Some(OK)
    ensures var t := Registered(s, rk, addr, ws, allowed, now, newGuid).0;
      exists g :: g in t.db && t.db[g] == Row(rk.id, rk.uuid, rk.pk, addr.ip)
  {
    hide Got, GotOr, Passes, Counted;
    GotOrOk(s, rk.id);
    var t := GotOr(s, rk.id);
    var p := t.mem[rk.id];
    assert Agrees(t.db, rk.id, p);
    var u := Registered(s, rk, addr, ws, allowed, now, newGuid).0;
    var g := if p.guid.Some? then p.guid.value else newGuid;
    assert g in u.db && u.db[g] == Row(rk.id, rk.uuid, rk.pk, addr.ip);
  }

  /** Dropping memory and reloading leaves every verdict on uuid and pk as it was. */
  lemma RestartKeepsVerdicts(s: State, rk: RegisterPk, ip: string)
    requires Inv(s)
    ensures Mismatch(GotOr(s, rk.id).mem[rk.id], rk, ip)
      == Mismatch(GotOr(s.(mem := map[]), rk.id).mem[rk.id], rk, ip)
  {
    hide Got;
    var r := s.(mem := map[]);
    GotOrOk(s, rk.id);
    assert Inv(r);
    GotOrOk(r, rk.id);
    var a, b := GotOr(s, rk.id), GotOr(r, rk.id);
    assert Agrees(s.db, rk.id, a.mem[rk.id]) && Agrees(s.db, rk.id, b.mem[rk.id]);
    if g :| g in s.db && s.db[g].id == rk.id {
      PersistedPeersMatch(a, rk.id, g);
      PersistedPeersMatch(b, rk.id, g);
    }
  }

  /* ---------------------------------------------------------------- the replies */

  /** Fields present and an id of 6 to 253 characters. */
  predicate Proper(rk: RegisterPk) { rk.uuid != "" && rk.pk != "" && 6 <= |rk.id| <= 253 }

  lemma KnownPeer(s: State, id: string, g: nat)
    requires Inv(s) && g in s.db && s.db[g].id == id
    ensures var p := GotOr(s, id).mem[id];
      p.uuid == s.db[g].uuid != "" && p.pk == s.db[g].pk && p.ip == s.db[g].ip
  {
    hide Got, GotOr;
    GotOrOk(s, id);
    PersistedPeersMatch(GotOr(s, id), id, g);
  }

  lemma UnknownPeer(s: State, id: string)
    requires Inv(s) && !HasId(s.db, id)
    ensures GotOr(s, id).mem[id].uuid == ""
  {
    hide Got, GotOr;
    GotOrOk(s, id);
    var t := GotOr(s, id);
    assert Agrees(t.db, id, t.mem[id]);
  }

  /** A registration's identity is refused by what is stored of the id: another uuid, or another key from
      another ip. */
  predicate Refused(db: map<nat, Row>, rk: RegisterPk, ip: string) {
    exists g :: g in db && db[g].id == rk.id && (db[g].uuid != rk.uuid || (db[g].ip != ip && db[g].pk != rk.pk))
  }

  /** Too soon after the last of more than two: 6 whole seconds have not passed. */
  predicate TooSoon(w: Window, now: nat) {
    w.last.Some? && Seconds(w.last.value, now) <= 6 && w.count > 2
  }

  lemma RefusedIsMismatch(s: State, rk: RegisterPk, ip: string)
    requires Inv(s)
    ensures Refused(s.db, rk, ip) <==> Mismatch(GotOr(s, rk.id).mem[rk.id], rk, ip)
  {
    hide GotOr;
    if g :| g in s.db && s.db[g].id == rk.id {
      KnownPeer(s, rk.id, g);
      forall h | h in s.db && s.db[h].id == rk.id ensures h == g {}
    } else {
      UnknownPeer(s, rk.id);
    }
  }

  /** What every registration is answered, told by the request, the stored rows and the peer's counter. */
  lemma RepliesExactly(s: State, rk: RegisterPk, addr: Addr, ws: bool, allowed: bool, now: nat, newGuid: nat)
    requires Inv(s)
    ensures var reply := Registered(s, rk, addr, ws, allowed, now, newGuid).1;
      && (reply == None <==> rk.uuid == "" || rk.pk == "")
      && (reply == Some(UUID_MISMATCH) <==>
            rk.uuid != "" && rk.pk != "" && (!(6 <= |rk.id| <= 253) || (allowed && Refused(s.db, rk, addr.ip))))
      && (reply == Some(TOO_FREQUENT) <==>
            Proper(rk) && (!allowed || (!Refused(s.db, rk, addr.ip) && TooSoon(WindowOf(s, rk.id), now))))
      && (reply == Some(OK) <==>
            Proper(rk) && allowed && !Refused(s.db, rk, addr.ip) && !TooSoon(WindowOf(s, rk.id), now))
  {
    hide Got, GotOr, UpdatedPk, Mismatch, Changed, Refused, Seconds, WindowOf;
    RefusedIsMismatch(s, rk, addr.ip);
    GotWindow(s, rk.id, rk.id);
  }

  /** The same uuid and key from another ip, as after a change of network, are accepted and the ip stored. */
  lemma MovedPeerAccepted(s: State, rk: RegisterPk, addr: Addr, ws: bool, now: nat, newGuid: nat, g: nat)
    requires Inv(s) && newGuid !in s.db && Proper(rk) && !TooSoon(WindowOf(s, rk.id), now)
    requires g in s.db && s.db[g].id == rk.id && s.db[g].uuid == rk.uuid && s.db[g].pk == rk.pk
    ensures var (t, reply) := Registered(s, rk, addr, ws, true, now, newGuid);
      reply == Some(OK) && g in t.db && t.db[g] == s.db[g].(ip := addr.ip)
  {
    hide Registered, TooSoon;
    RepliesExactly(s, rk, addr, ws, true, now, newGuid);
    RegisteredOk(s, rk, addr, ws, true, now, newGuid);
    OkMeansStored(s, rk, addr, ws, true, now, newGuid);
  }

  /** An accepted registration that changed something, and every one over a websocket, moves the peer to the
      address it came from and marks it seen. */
  lemma OkRefreshes(s: State, rk: RegisterPk, addr: Addr, ws: bool, allowed: bool, now: nat, newGuid: nat)
    requires Registered(s, rk, addr, ws, allowed, now, newGuid).1 == Some(OK)
    requires ws || Changed(GotOr(s, rk.id).mem[rk.id], rk, addr.ip)
    ensures var t := Registered(s, rk, addr, ws, allowed, now, newGuid).0;
      rk.id in t.mem && t.mem[rk.id].addr == addr && t.mem[rk.id].lastReg == Some(now)
  {
    hide Got, GotOr, Passes, Counted, Mismatch, Changed, Inserted, Updated;
  }

  /** `update_addr` moves a peer exactly when it is in memory with a key and the ip is the one it was last
      seen at (or registered from, before that) or a loopback one; only address and time change. */
  lemma AddressMovesExactlyWhen(s: State, id: string, addr: Addr, now: nat)
    ensures var t := AddrUpdated(s, id, addr, now);
      var moves := id in s.mem && s.mem[id].pk != "" &&
        (|| "127." <= addr.ip || addr.ip == "::1"
         || addr.ip == if s.mem[id].addr.port != 0 then s.mem[id].addr.ip else s.mem[id].ip);
      t == if moves then s.(mem := s.mem[id := s.mem[id].(addr := addr, lastReg := Some(now))]) else s
  {
  }

  /* ---------------------------------------------------------------- how often */

  /** A registration of `id` that got past the identity rules, to the limiter. */
  ghost predicate ReachesLimiter(s: State, op: Op, id: string) {
    && op.Register? && op.rk.id == id && op.rk.uuid != "" && op.rk.pk != ""
    && MIN_ID_LEN <= |id| <= MAX_PEER_ID_LEN && op.allowed
    && !Mismatch(GotOr(s, id).mem[id], op.rk, op.addr.ip)
  }

  ghost predicate Accepts(s: State, op: Op, id: string) {
    && op.Register? && op.rk.id == id
    && Registered(s, op.rk, op.addr, op.ws, op.allowed, op.now, op.newGuid).1 == Some(OK)
  }

  ghost function Attempts(s: State, ops: seq<Op>, id: string): seq<nat> {
    if ops == [] then []
    else
      var n := |ops| - 1;
      Attempts(s, ops[..n], id) + if ReachesLimiter(Run(s, ops[..n]), ops[n], id) then [ops[n].now] else []
  }

  /** When registrations of `id` were answered OK. */
  ghost function OkTimes(s: State, ops: seq<Op>, id: string): seq<nat> {
    if ops == [] then []
    else
      var n := |ops| - 1;
      OkTimes(s, ops[..n], id) + if Accepts(Run(s, ops[..n]), ops[n], id) then [ops[n].now] else []
  }

  function WindowOf(s: State, id: string): Window {
    if id in s.mem then s.mem[id].regPk else Window(0, None)
  }

  lemma WindowStep(s: State, op: Op, id: string)
    requires !op.Restart?
    ensures ReachesLimiter(s, op, id) ==> op.Register?
    ensures WindowOf(Step(s, op), id) ==
      if ReachesLimiter(s, op, id) then Counted(WindowOf(s, id), REG_PK_LIMIT, REG_PK_DUR, op.now) else WindowOf(s, id)
    ensures Accepts(s, op, id) <==>
      ReachesLimiter(s, op, id) && Passes(WindowOf(s, id), REG_PK_LIMIT, REG_PK_DUR, op.now)
  {
    hide Got, GotOr, UpdatedPk, Mismatch, Changed, Passes, Counted, AddrUpdated, WindowOf;
    match op {
      case Register(rk, addr, ws, allowed, now, newGuid) => RegisterWindow(s, op, id);
      case Get(x) => GotWindow(s, x, id);
      case SetAddr(x, at, when) => AddrWindow(s, x, at, when, id);
    }
  }

  lemma GotWindow(s: State, x: string, id: string)
    ensures WindowOf(Got(s, x), id) == WindowOf(s, id) == WindowOf(GotOr(s, x), id)
    ensures GotOr(s, x).mem[x].regPk == WindowOf(s, x)
  {
    hide RowOf;
  }

  lemma AddrWindow(s: State, x: string, at: Addr, when: nat, id: string)
    ensures WindowOf(AddrUpdated(s, x, at, when), id) == WindowOf(s, id)
  {
  }

  lemma UpdatedPkWindow(s: State, rk: RegisterPk, addr: Addr, now: nat, newGuid: nat, id: string)
    requires rk.id in s.mem
    ensures WindowOf(UpdatedPk(s, rk, addr, now, newGuid), id) == WindowOf(s, id)
  {
    hide Inserted, Updated;
  }

  lemma RegisterWindow(s: State, op: Op, id: string)
    requires op.Register?
    ensures WindowOf(Step(s, op), id) ==
      if ReachesLimiter(s, op, id) then Counted(WindowOf(s, id), REG_PK_LIMIT, REG_PK_DUR, op.now) else WindowOf(s, id)
    ensures Accepts(s, op, id) <==>
      ReachesLimiter(s, op, id) && Passes(WindowOf(s, id), REG_PK_LIMIT, REG_PK_DUR, op.now)
  {
    hide Got, GotOr, UpdatedPk, Mismatch, Changed, Passes;
    var rk := op.rk;
    GotWindow(s, rk.id, id);
    GotWindow(s, rk.id, rk.id);
    var t := GotOr(s, rk.id);
    var p := t.mem[rk.id];
    var q := p.(regPk := Counted(p.regPk, REG_PK_LIMIT, REG_PK_DUR, op.now));
    UpdatedPkWindow(t.(mem := t.mem[rk.id := q]), rk, op.addr, op.now, op.newGuid, id);
  }

  lemma {:induction false} OkTimesAreAccepted(s: State, ops: seq<Op>, id: string)
    requires s.mem == map[] && forall i :: 0 <= i < |ops| ==> !ops[i].Restart?
    ensures WindowOf(Run(s, ops), id) == After(Window(0, None), REG_PK_LIMIT, REG_PK_DUR, Attempts(s, ops, id))
    ensures OkTimes(s, ops, id) == Accepted(Window(0, None), REG_PK_LIMIT, REG_PK_DUR, Attempts(s, ops, id))
  {
    hide Step, ReachesLimiter, Accepts, Passes, Counted, WindowOf;
    if ops == [] {
      assert WindowOf(s, id) == Window(0, None) by { NoWindow(s, id); }
    } else {
      var n := |ops| - 1;
      OkTimesAreAccepted(s, ops[..n], id);
      WindowStep(Run(s, ops[..n]), ops[n], id);
      var ts, us := Attempts(s, ops[..n], id), Attempts(s, ops, id);
      if ReachesLimiter(Run(s, ops[..n]), ops[n], id) {
        assert us == ts + [ops[n].now] && us[..|ts|] == ts;
      } else {
        assert us == ts;
        assert OkTimes(s, ops, id) == OkTimes(s, ops[..n], id);
      }
    }
  }

  lemma NoWindow(s: State, id: string)
    requires s.mem == map[]
    ensures WindowOf(s, id) == Window(0, None)
  {
  }

  /** While the server keeps running, no peer has more than 3 registrations accepted in a row with
      no gap over 6 whole seconds. */
  lemma AcceptedRegistrationsLimited(s: State, ops: seq<Op>, id: string, i: nat, j: nat)
    requires s.mem == map[] && forall i :: 0 <= i < |ops| ==> !ops[i].Restart?
    requires i <= j <= |OkTimes(s, ops, id)| && Chain(OkTimes(s, ops, id)[i..j], 6)
    ensures j - i <= 3
  {
    hide Chain, Accepted, After;
    OkTimesAreAccepted(s, ops, id);
    RegistrationsLimited(Attempts(s, ops, id), i, j);
  }

  /* ---------------------------------------------------------------- the object */

  class PeerMap {
    var mem: map<string, Peer>
    var db: map<nat, Row>

    ghost function View(): State
      reads this
    {
      State(mem, db)
    }

    constructor (db: map<nat, Row>)
      ensures View() == State(map[], db)
    {
      this.mem, this.db := map[], db;
    }

    method Get(id: string) returns (p: Option<Peer>)
      requires UniqueIds(db)
      modifies this`mem
      ensures View() == Got(old(View()), id)
      ensures p == if id in mem then Some(mem[id]) else None
    {
      if id in mem { return Some(mem[id]); }
      if g :| g in db && db[g].id == id {
        RowOfUnique(db, g);
        mem := mem[id := FromRow(g, db[g])];
        return Some(mem[id]);
      }
      return None;
    }

    method GetOr(id: string) returns (p: Peer)
      requires UniqueIds(db)
      modifies this`mem
      ensures View() == GotOr(old(View()), id)
      ensures p == mem[id]
    {
      hide Got;
      var got := Get(id);
      if got.Some? { return got.value; }
      mem := mem[id := NEW_PEER];
      return NEW_PEER;
    }

    method UpdatePk(rk: RegisterPk, addr: Addr, now: nat, newGuid: nat)
      requires rk.id in mem
      modifies this
      ensures View() == UpdatedPk(old(View()), rk, addr, now, newGuid)
    {
      var p := mem[rk.id];
      p := p.(addr := addr, uuid := rk.uuid, pk := rk.pk, lastReg := Some(now), ip := addr.ip);
      if p.guid.None? {
        var (db', ok) := Inserted(db, newGuid, Row(rk.id, rk.uuid, rk.pk, p.ip));
        db := db';
        if ok { p := p.(guid := Some(newGuid)); }
      } else {
        db := Updated(db, p.guid.value, rk.id, rk.pk, p.ip);
      }
      mem := mem[rk.id := p];
    }

    method HandleRegisterPk(rk: RegisterPk, addr: Addr, ws: bool, allowed: bool, now: nat, newGuid: nat)
      returns (reply: Option<Reply>)
      requires UniqueIds(db)
      modifies this
      ensures (View(), reply) == Registered(old(View()), rk, addr, ws, allowed, now, newGuid)
    {
      hide GotOr, UpdatedPk;
      if rk.uuid == "" || rk.pk == "" { return None; }
      if |rk.id| < MIN_ID_LEN || |rk.id| > MAX_PEER_ID_LEN { return Some(UUID_MISMATCH); }
      if !allowed { return Some(TOO_FREQUENT); }
      var p := GetOr(rk.id);
      var changed := true;
      if p.uuid != "" {
        if p.uuid != rk.uuid { return Some(UUID_MISMATCH); }
        if p.ip != addr.ip && p.pk != rk.pk { return Some(UUID_MISMATCH); }
        changed := p.pk != rk.pk || p.ip != addr.ip;
      }
      var count := p.regPk.count;
      if Quiet(p.regPk, REG_PK_DUR, now) {
        count := 0;
      } else if count > REG_PK_LIMIT {
        return Some(TOO_FREQUENT);
      }
      mem := mem[rk.id := p.(regPk := Window(count + 1, Some(now)))];
      if changed || ws { UpdatePk(rk, addr, now, newGuid); }
      return Some(OK);
    }

    method UpdateAddr(id: string, addr: Addr, now: nat) returns (requestPk: bool)
      modifies this`mem
      ensures View() == AddrUpdated(old(View()), id, addr, now)
      ensures !requestPk ==> id in mem && mem[id].addr == addr && mem[id].lastReg == Some(now) && mem[id].pk != ""
      ensures requestPk ==> View() == old(View())
    {
      if id !in mem { return true; }
      var p := mem[id];
      var ipChange := if p.addr.port != 0 then addr.ip != p.addr.ip else addr.ip != p.ip;
      ipChange := ipChange && !IsLoopback(addr.ip);
      requestPk := p.pk == "" || ipChange;
      if !requestPk { mem := mem[id := p.(addr := addr, lastReg := Some(now))]; }
    }
  }
}
