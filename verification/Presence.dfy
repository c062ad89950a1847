/** The client table of src/realtime/mod.rs and what each operation does to it. */
module Presence {
  import opened Common
  import opened Motion

  // Socket ids are opaque; only their equality matters.
  type Sid = nat
  type Token = string

  const MAX_CHAT_LEN := 500
  const MAX_NICKNAME_LEN := 32
  const MAX_AVATAR_LEN := 512
  const MIN_PRESENCE_TOKEN_LEN := 16
  const MAX_PRESENCE_TOKEN_LEN := 128
  const MIN_AVATAR_HEIGHT_SCALE := 0.5
  const MAX_AVATAR_HEIGHT_SCALE := 2.0

  /** The presence payload of one client (`ClientInfo`). */
  datatype Info = Info(position: Vec3, rotation: F32, avatar: string, heightScale: Option<real>, nickname: string,
                       wallet: Option<Wallet>)
  {
    predicate HasProfile() {
      nickname != "" || avatar != ""
    }
  }

  datatype Flight = Flight(target: Vec3, speed: real)

  datatype ClientRecord = ClientRecord(
    info: Info,
    token: Option<Token>,
    motion: Option<Flight>,
    room: Option<RoomId>,
    latestClaim: nat,
    lastClientSeq: nat,
    serverSeq: nat,
    wallet: Option<Wallet>)

  const NEW_RECORD := ClientRecord(Info(ORIGIN, Fin(0.0), "", None, "", None), None, None, None, 0, 0, 0, None)

  type Clients = map<Sid, ClientRecord>

  // ---------------------------------------------------------------- payloads

  /** The `set user data` payload as it arrives. */
  datatype UserData = UserData(nickname: Option<string>, avatar: Option<string>, heightScale: Option<F32>,
                               token: Option<string>)

  function OrEmpty(text: Option<string>): string {
    if text.Some? then text.value else ""
  }

  /** `char::is_whitespace`. */
  predicate IsWhitespace(c: char) {
    || '\t' <= c <= '\r' || c == ' ' || c == '\U{85}' || c == '\U{A0}' || c == '\U{1680}'
    || '\U{2000}' <= c <= '\U{200A}' || c == '\U{2028}' || c == '\U{2029}' || c == '\U{202F}'
    || c == '\U{205F}' || c == '\U{3000}'
  }

  function TrimStart(s: string): string {
    if s != "" && IsWhitespace(s[0]) then TrimStart(s[1..]) else s
  }

  function TrimEnd(s: string): string {
    if s != "" && IsWhitespace(s[|s| - 1]) then TrimEnd(s[..|s| - 1]) else s
  }

  function Trim(s: string): string {
    TrimEnd(TrimStart(s))
  }

  function Truncate(s: string, maxChars: nat): string {
    if |s| <= maxChars then s else s[..maxChars]
  }

  function CleanMessage(text: string): string {
    Truncate(Trim(text), MAX_CHAT_LEN)
  }

  function SanitizeHeightScale(scale: Option<F32>): Option<real> {
    match scale
    case Some(Fin(v)) =>
      Some(if v < MIN_AVATAR_HEIGHT_SCALE then MIN_AVATAR_HEIGHT_SCALE
           else if v > MAX_AVATAR_HEIGHT_SCALE then MAX_AVATAR_HEIGHT_SCALE else v)
    case _ => None
  }

  predicate IsTokenChar(c: char) {
    'a' <= c <= 'z' || 'A' <= c <= 'Z' || '0' <= c <= '9' || c == '-' || c == '_'
  }

  /** The length check counts bytes; a text of the admitted characters has one byte each. */
  function SanitizeToken(raw: string): Option<Token> {
    var t := Trim(raw);
    if MIN_PRESENCE_TOKEN_LEN <= |t| <= MAX_PRESENCE_TOKEN_LEN && forall i :: 0 <= i < |t| ==> IsTokenChar(t[i])
    then Some(t) else None
  }

  /** An absent token keeps the one held, a present one replaces it, by none when it is malformed. */
  function ApplyToken(held: Option<Token>, raw: Option<string>): Option<Token> {
    match raw
    case None => held
    case Some(t) => SanitizeToken(t)
  }

  // ------------------------------------------------------------------ claims

  predicate ClaimAccepted(rec: ClientRecord, claim: Option<nat>) {
    match claim
    case Some(c) => c >= rec.latestClaim
    case None => rec.latestClaim == 0
  }

  predicate ClaimIsCurrent(rec: ClientRecord, claim: Option<nat>) {
    match claim
    case Some(c) => c == rec.latestClaim
    case None => rec.latestClaim == 0
  }

  predicate NotesClaim(cs: Clients, id: Sid, claim: Option<nat>) {
    id in cs && ClaimAccepted(cs[id], claim)
  }

  function NoteClaim(cs: Clients, id: Sid, claim: Option<nat>): Clients {
    if NotesClaim(cs, id, claim) && claim.Some? then cs[id := cs[id].(latestClaim := claim.value)] else cs
  }

  // ------------------------------------------------------------------- rooms

  function RoomOf(cs: Clients, id: Sid): Option<RoomId> {
    if id in cs then cs[id].room else None
  }

  function Members(cs: Clients, room: RoomId): set<Sid> {
    set p | p in cs && cs[p].room == Some(room)
  }

  function Snapshot(cs: Clients, room: RoomId): map<Sid, Info> {
    map p | p in cs && cs[p].room == Some(room) :: cs[p].info
  }

  function Roomless(rec: ClientRecord): ClientRecord {
    rec.(room := None, motion := None)
  }

  function TakeRoom(cs: Clients, id: Sid): Clients {
    if id in cs then cs[id := Roomless(cs[id])] else cs
  }

  predicate ClearsRoom(cs: Clients, id: Sid, room: RoomId, claim: Option<nat>) {
    id in cs && ClaimIsCurrent(cs[id], claim) && cs[id].room == Some(room)
  }

  /** The other clients that hold `token` in `room`. */
  function Duplicates(cs: Clients, id: Sid, room: RoomId, token: Option<Token>): set<Sid> {
    if token.None? then {}
    else set p | p in cs && p != id && cs[p].room == Some(room) && cs[p].token == token
  }

  function Evict(cs: Clients, displaced: set<Sid>): Clients {
    map p | p in cs :: if p in displaced then Roomless(cs[p]) else cs[p]
  }

  /** The record a committed join leaves behind; the move counters restart on entering another room. */
  function EnterRoom(rec: ClientRecord, room: RoomId, raw: Option<string>): ClientRecord {
    var entered := rec.(room := Some(room), token := ApplyToken(rec.token, raw));
    if rec.room == Some(room) then entered else entered.(lastClientSeq := 0, serverSeq := 0)
  }

  predicate MayCommit(cs: Clients, id: Sid, claim: Option<nat>) {
    id in cs && ClaimIsCurrent(cs[id], claim)
  }

  function CommitDuplicates(cs: Clients, id: Sid, room: RoomId, raw: Option<string>): set<Sid>
    requires id in cs
  {
    Duplicates(cs, id, room, ApplyToken(cs[id].token, raw))
  }

  function CommitRoom(cs: Clients, id: Sid, room: RoomId, raw: Option<string>): Clients
    requires id in cs
  {
    Evict(cs, CommitDuplicates(cs, id, room, raw))[id := EnterRoom(cs[id], room, raw)]
  }

  function WithProfile(rec: ClientRecord, data: UserData): ClientRecord {
    rec.(info := rec.info.(avatar := Truncate(OrEmpty(data.avatar), MAX_AVATAR_LEN),
                           heightScale := SanitizeHeightScale(data.heightScale),
                           nickname := Truncate(Trim(OrEmpty(data.nickname)), MAX_NICKNAME_LEN)),
         token := ApplyToken(rec.token, data.token))
  }

  function ProfileDuplicates(cs: Clients, id: Sid, data: UserData): set<Sid>
    requires id in cs
  {
    match cs[id].room
    case None => {}
    case Some(room) => Duplicates(cs, id, room, ApplyToken(cs[id].token, data.token))
  }

  function CommitProfile(cs: Clients, id: Sid, data: UserData): Clients
    requires id in cs
  {
    Evict(cs, ProfileDuplicates(cs, id, data))[id := WithProfile(cs[id], data)]
  }

  /** `authenticate` after a valid signature: the wallet itself and its copy in the presence payload. */
  function WithWallet(rec: ClientRecord, wallet: Wallet): ClientRecord {
    rec.(wallet := Some(wallet), info := rec.info.(wallet := Some(wallet)))
  }

  function SetWalletOf(cs: Clients, id: Sid, wallet: Wallet): Clients {
    if id in cs then cs[id := WithWallet(cs[id], wallet)] else cs
  }

  // ---------------------------------------------------------------- movement

  predicate AcceptsMove(cs: Clients, id: Sid, seq_: Option<nat>) {
    id in cs && cs[id].room.Some? && (seq_.Some? ==> seq_.value > cs[id].lastClientSeq)
  }

  function MoveRecord(rec: ClientRecord, position: Vec3, rotation: F32, seq_: Option<nat>): ClientRecord {
    rec.(lastClientSeq := if seq_.Some? then seq_.value else rec.lastClientSeq,
         motion := None,
         info := rec.info.(position := position, rotation := rotation),
         serverSeq := SatInc(rec.serverSeq))
  }

  function GotoRecord(rec: ClientRecord, target: Vec3, speed: real, rotation: Option<F32>): ClientRecord {
    rec.(motion := Some(Flight(target, speed)),
         info := if rotation.Some? then rec.info.(rotation := rotation.value) else rec.info)
  }

  /** The clients a tick moves: those with a motion and a room. */
  function Movers(cs: Clients): set<Sid> {
    set p | p in cs && cs[p].motion.Some? && cs[p].room.Some?
  }

  /** `dist` gives each mover the distance to its target: the square root the server computes. */
  ghost predicate Measures(dist: map<Sid, real>, cs: Clients) {
    forall p :: p in cs && cs[p].motion.Some? && cs[p].room.Some? ==>
      p in dist && IsDistance(dist[p], cs[p].info.position, cs[p].motion.value.target)
  }

  function TickRecord(rec: ClientRecord, dist: real): ClientRecord
    requires 0.0 <= dist
  {
    if rec.motion.None? then rec
    else if rec.room.None? then rec.(motion := None)
    else
      var f := rec.motion.value;
      var step := StepLength(f.speed);
      rec.(motion := if Arrives(dist, step) then None else rec.motion,
           info := rec.info.(position := NextPosition(rec.info.position, f.target, dist, step)),
           serverSeq := SatInc(rec.serverSeq))
  }

  function TickClients(cs: Clients, dist: map<Sid, real>): Clients
    requires forall p :: p in dist ==> 0.0 <= dist[p]
  {
    map p | p in cs :: TickRecord(cs[p], if p in dist then dist[p] else 0.0)
  }

  // --------------------------------------------------------------- the class

  class ClientsState {
    var clients: Clients

    constructor ()
      ensures clients == map[]
    {
      clients := map[];
    }

    method InsertDefault(id: Sid)
      modifies this
      ensures clients == if id in old(clients) then old(clients) else old(clients)[id := NEW_RECORD]
    {
      if id !in clients {
        clients := clients[id := NEW_RECORD];
      }
    }

    method SetWallet(id: Sid, wallet: Wallet) returns (room: Option<RoomId>)
      modifies this
      ensures clients == SetWalletOf(old(clients), id, wallet)
      ensures room == RoomOf(old(clients), id)
    {
      if id !in clients {
        return None;
      }
      var rec := clients[id].(wallet := Some(wallet));
      rec := rec.(info := rec.info.(wallet := Some(wallet)));
      clients := clients[id := rec];
      return rec.room;
    }

    method NotePresenceClaim(id: Sid, claim: Option<nat>) returns (noted: bool)
      modifies this
      ensures noted == NotesClaim(old(clients), id, claim)
      ensures clients == NoteClaim(old(clients), id, claim)
    {
      if id !in clients {
        return false;
      }
      var entry := clients[id];
      match claim {
        case Some(c) =>
          if c >= entry.latestClaim {
            clients := clients[id := entry.(latestClaim := c)];
            return true;
          }
          return false;
        case None =>
          return entry.latestClaim == 0;
      }
    }

    method TakeCurrentRoom(id: Sid) returns (room: Option<RoomId>)
      modifies this
      ensures room == RoomOf(old(clients), id)
      ensures clients == TakeRoom(old(clients), id)
    {
      if id !in clients {
        return None;
      }
      var entry := clients[id];
      clients := clients[id := entry.(motion := None, room := None)];
      return entry.room;
    }

    method ClearRoom(id: Sid, room: RoomId, claim: Option<nat>) returns (left: Option<RoomId>)
      modifies this
      ensures left == if ClearsRoom(old(clients), id, room, claim) then Some(room) else None
      ensures clients == if left.Some? then TakeRoom(old(clients), id) else old(clients)
    {
      if id !in clients {
        return None;
      }
      var entry := clients[id];
      var current := match claim case Some(c) => c == entry.latestClaim case None => entry.latestClaim == 0;
      if !current || entry.room != Some(room) {
        return None;
      }
      clients := clients[id := entry.(motion := None, room := None)];
      return entry.room;
    }

    /** Mutates while it iterates, in whatever order the map yields its entries; returns exactly the
        displaced clients and touches no other record. */
    method SupersedeDuplicatePresence(id: Sid, room: RoomId, token: Option<Token>) returns (displaced: seq<Sid>)
      modifies this
      ensures Enumerates(displaced, Duplicates(old(clients), id, room, token))
      ensures clients == Evict(old(clients), Duplicates(old(clients), id, room, token))
    {
      displaced := [];
      if token.None? {
        return;
      }
      ghost var before := clients;
      var todo := clients.Keys;
      while todo != {}
        invariant todo <= before.Keys
        invariant forall p :: p in displaced <==> p in Duplicates(before, id, room, token) && p !in todo
        invariant forall i, j :: 0 <= i < j < |displaced| ==> displaced[i] != displaced[j]
        invariant clients == Evict(before, Duplicates(before, id, room, token) - todo)
        decreases |todo|
      {
        var p :| p in todo;
        todo := todo - {p};
        var record := clients[p];
        if p != id && record.room == Some(room) && record.token == token {
          clients := clients[p := record.(room := None, motion := None)];
          displaced := displaced + [p];
        }
      }
      assert Duplicates(before, id, room, token) - {} == Duplicates(before, id, room, token);
    }

    method SetRoom(id: Sid, room: RoomId, raw: Option<string>, claim: Option<nat>)
      returns (change: Option<(Option<RoomId>, Info, seq<Sid>)>)
      modifies this
      ensures change.Some? <==> MayCommit(old(clients), id, claim)
      ensures change.None? ==> clients == old(clients)
      ensures change.Some? ==>
                && change.value.0 == old(clients)[id].room
                && change.value.1 == old(clients)[id].info
                && Enumerates(change.value.2, CommitDuplicates(old(clients), id, room, raw))
                && clients == CommitRoom(old(clients), id, room, raw)
    {
      if id !in clients {
        return None;
      }
      var entry := clients[id];
      var current := match claim case Some(c) => c == entry.latestClaim case None => entry.latestClaim == 0;
      if !current {
        return None;
      }
      if raw.Some? {
        entry := entry.(token := SanitizeToken(raw.value));
      }
      var previous := entry.room;
      entry := entry.(room := Some(room));
      if previous != Some(room) {
        entry := entry.(lastClientSeq := 0, serverSeq := 0);
      }
      clients := clients[id := entry];
      ghost var placed := clients;
      var displaced := SupersedeDuplicatePresence(id, room, entry.token);
      assert Duplicates(placed, id, room, entry.token) == CommitDuplicates(old(clients), id, room, raw);
      return Some((previous, entry.info, displaced));
    }

    method UpdateUserData(id: Sid, data: UserData) returns (change: Option<(Info, Option<RoomId>, seq<Sid>)>)
      modifies this
      ensures change.Some? <==> id in old(clients)
      ensures change.None? ==> clients == old(clients)
      ensures change.Some? ==>
                && clients == CommitProfile(old(clients), id, data)
                && change.value.0 == WithProfile(old(clients)[id], data).info
                && change.value.1 == old(clients)[id].room
                && Enumerates(change.value.2, ProfileDuplicates(old(clients), id, data))
    {
      if id !in clients {
        return None;
      }
      var entry := clients[id];
      entry := entry.(info := entry.info.(avatar := Truncate(OrEmpty(data.avatar), MAX_AVATAR_LEN)));
      entry := entry.(info := entry.info.(heightScale := SanitizeHeightScale(data.heightScale)));
      entry := entry.(info := entry.info.(nickname := Truncate(Trim(OrEmpty(data.nickname)), MAX_NICKNAME_LEN)));
      if data.token.Some? {
        entry := entry.(token := SanitizeToken(data.token.value));
      }
      clients := clients[id := entry];
      ghost var placed := clients;
      var displaced := [];
      if entry.room.Some? {
        displaced := SupersedeDuplicatePresence(id, entry.room.value, entry.token);
        assert Duplicates(placed, id, entry.room.value, entry.token) == ProfileDuplicates(old(clients), id, data);
      }
      return Some((entry.info, entry.room, displaced));
    }

    method UpdateMove(id: Sid, position: Vec3, rotation: F32, seq_: Option<nat>)
      returns (moved: Option<(Info, RoomId, nat)>)
      modifies this
      ensures moved.Some? <==> AcceptsMove(old(clients), id, seq_)
      ensures moved.None? ==> clients == old(clients)
      ensures moved.Some? ==>
                var rec := MoveRecord(old(clients)[id], position, rotation, seq_);
                && clients == old(clients)[id := rec]
                && moved.value.0 == rec.info && rec.room == Some(moved.value.1) && moved.value.2 == rec.serverSeq
    {
      if id !in clients || clients[id].room.None? {
        return None;
      }
      var entry := clients[id];
      if seq_.Some? {
        if seq_.value <= entry.lastClientSeq {
          return None;
        }
        entry := entry.(lastClientSeq := seq_.value);
      }
      entry := entry.(motion := None,
                      info := entry.info.(position := position, rotation := rotation),
                      serverSeq := SatInc(entry.serverSeq));
      clients := clients[id := entry];
      return Some((entry.info, entry.room.value, entry.serverSeq));
    }

    method SetGoto(id: Sid, target: Vec3, speed: real, rotation: Option<F32>) returns (room: Option<RoomId>)
      modifies this
      ensures room == RoomOf(old(clients), id)
      ensures clients == if room.Some? then old(clients)[id := GotoRecord(old(clients)[id], target, speed, rotation)]
                         else old(clients)
    {
      if id !in clients || clients[id].room.None? {
        return None;
      }
      var entry := clients[id].(motion := Some(Flight(target, speed)));
      if rotation.Some? {
        entry := entry.(info := entry.info.(rotation := rotation.value));
      }
      clients := clients[id := entry];
      return entry.room;
    }

    method Remove(id: Sid) returns (room: Option<RoomId>)
      modifies this
      ensures room == RoomOf(old(clients), id)
      ensures clients == old(clients) - {id}
    {
      room := RoomOf(clients, id);
      clients := clients - {id};
    }

    method SnapshotRoom(room: RoomId) returns (snapshot: map<Sid, Info>)
      ensures snapshot == Snapshot(clients, room)
    {
      snapshot := map p | p in clients && clients[p].room == Some(room) :: clients[p].info;
    }

    /** The body of the tick for one record; `sent` when it is broadcast. */
    static method TickOne(rec: ClientRecord, dist: real) returns (next: ClientRecord, sent: bool)
      requires 0.0 <= dist
      ensures next == TickRecord(rec, dist)
      ensures sent == (rec.motion.Some? && rec.room.Some?)
    {
      next, sent := rec, false;
      if rec.motion.None? {
        return;
      }
      var flight := rec.motion.value;
      if rec.room.None? {
        next := rec.(motion := None);
        return;
      }
      var step := StepLength(flight.speed);
      var position := flight.target;
      if Arrives(dist, step) {
        next := next.(motion := None);
      } else {
        position := Advance(rec.info.position, flight.target, dist, step);
      }
      next := next.(info := rec.info.(position := position), serverSeq := SatInc(rec.serverSeq));
      sent := true;
    }

    /** One pass over all records; `moved` lists the records it broadcasts, in the order visited. */
    method TickMotions(dist: map<Sid, real>) returns (moved: seq<Sid>)
      requires Measures(dist, clients)
      requires forall p :: p in dist ==> 0.0 <= dist[p]
      modifies this
      ensures Enumerates(moved, Movers(old(clients)))
      ensures clients == TickClients(old(clients), dist)
    {
      hide TickRecord, TickClients, Measures, Enumerates;
      moved := [];
      ghost var before := clients;
      ghost var sentSoFar: set<Sid> := {};
      EnumerateNothing<Sid>();
      var todo := clients.Keys;
      while todo != {}
        invariant todo <= before.Keys && clients.Keys == before.Keys
        invariant forall p :: p in todo ==> clients[p] == before[p]
        invariant forall p :: p in before && p !in todo ==>
          clients[p] == TickRecord(before[p], if p in dist then dist[p] else 0.0)
        invariant Enumerates(moved, sentSoFar)
        invariant forall p :: p in sentSoFar <==>
          p in before && p !in todo && before[p].motion.Some? && before[p].room.Some?
        decreases |todo|
      {
        var p :| p in todo;
        todo := todo - {p};
        var next, sent := TickOne(clients[p], if p in dist then dist[p] else 0.0);
        clients := clients[p := next];
        if sent {
          EnumerateOneMore(moved, sentSoFar, p);
          moved, sentSoFar := moved + [p], sentSoFar + {p};
        }
      }
      assert sentSoFar == Movers(before);
      TickedTable(before, dist, clients);
    }
  }

  lemma TickedTable(before: Clients, dist: map<Sid, real>, after: Clients)
    requires forall p :: p in dist ==> 0.0 <= dist[p]
    requires after.Keys == before.Keys
    requires forall p :: p in before ==> after[p] == TickRecord(before[p], if p in dist then dist[p] else 0.0)
    ensures after == TickClients(before, dist)
  {
  }
}
