/**
 The agent's session table (internal/agent/agent_session.go:36-129, internal/agent/agent.go:73-80): unlock hands out a
 session ID, key trades it for the vault's key until the vault is locked, the agent closed or the lifetime over.
 */
module Agent {
  import opened Results
  import opened Entries
  import opened Radix
  import opened Regroup
  import Bech32

  const SESSION_ID_PREFIX := "USM-SID-"

  datatype Session = Session(expire: Option<Time>, id: string, key: string, vaultName: string)

  type Sessions = map<string, Session>

  /** A request after JSON decoding; Invalid is a request that does not decode or an unknown action. */
  datatype Request =
    | KeyRequest(id: string, vault: string)
    | ListRequest
    | LockRequest(vault: string)
    | UnlockRequest(key: Option<string>, vault: string, lifetime: int)
    | Invalid

  datatype Listed = Listed(id: string, vault: string, lifetime: int)

  datatype Response =
    | Key(key: string)
    | Id(id: string)
    | Sessions(list: set<Listed>)
    | Nothing
    | SessionInvalid
    | SessionExpired
    | InvalidRequest

  // ----- the specification: one event -----

  /** id is the session ID drawn for an unlock. */
  datatype Event = Handle(now: Time, request: Request, id: string) | Close

  predicate Expired(s: Session, now: Time) {
    s.expire.Some? && s.expire.value < now
  }

  /** The event opens a session. */
  predicate Opens(e: Event) {
    e.Handle? && e.request.UnlockRequest? && e.request.key.Some? && e.request.vault != ""
  }

  function Opened(e: Event): Session
    requires Opens(e)
  {
    Session(if e.request.lifetime > 0 then Some(e.now + e.request.lifetime) else None,
            e.id, e.request.key.value, e.request.vault)
  }

  /** The event ends all sessions of the vault. */
  predicate Ends(e: Event, vault: string) {
    e.Close? || e.request == LockRequest(vault)
  }

  function Table(s: Sessions, e: Event): Sessions {
    match e
    case Close => map[]
    case Handle(now, KeyRequest(id, _), _) => if id in s && Expired(s[id], now) then s - {id} else s
    case Handle(_, LockRequest(vault), _) => map id | id in s && s[id].vaultName != vault :: s[id]
    case Handle(_, UnlockRequest(_, _, _), id) => if Opens(e) then s[id := Opened(e)] else s
    case _ => s
  }

  function ListedOf(s: Session, now: Time): Listed {
    Listed(s.id, s.vaultName, if s.expire.Some? then s.expire.value - now else 0)
  }

  function Answer(s: Sessions, e: Event): Response
    requires e.Handle?
  {
    match e.request
    case KeyRequest(id, vault) =>
      if id !in s then SessionInvalid
      else if Expired(s[id], e.now) then SessionExpired
      else if s[id].vaultName != vault then SessionInvalid
      else Key(s[id].key)
    case ListRequest => Sessions(set id | id in s :: ListedOf(s[id], e.now))
    case LockRequest(_) => Nothing
    case UnlockRequest(_, _, _) => if Opens(e) then Id(e.id) else InvalidRequest
    case Invalid => InvalidRequest
  }

  /** The table is keyed by session ID. */
  predicate Keyed(s: Sessions) {
    forall id | id in s :: s[id].id == id
  }

  function NewId(buf: seq<nat>): Result<string, Bech32.Error> {
    Bech32.Encoded(SESSION_ID_PREFIX, buf)
  }

  /** Every 16 random bytes give a session ID, and different bytes different IDs. */
  lemma IdsDiffer(a: seq<nat>, b: seq<nat>)
    requires Fits(a, 8) && Fits(b, 8) && |a| == |b| == 16
    ensures NewId(a).Ok? && NewId(b).Ok? && (a != b ==> NewId(a) != NewId(b))
  {
    hide Bech32.Encoded, Bech32.Decoded;
    PrefixFine();
    Bech32.RoundTrip(SESSION_ID_PREFIX, a);
    Bech32.RoundTrip(SESSION_ID_PREFIX, b);
  }

  lemma PrefixFine()
    ensures Bech32.Printable(SESSION_ID_PREFIX) && Bech32.IsUpper(SESSION_ID_PREFIX) && Bech32.IsAscii(SESSION_ID_PREFIX)
    ensures |SESSION_ID_PREFIX| + SymbolCount(16) + 7 <= 90
  {
  }

  class Agent {
    var sessions: Sessions

    constructor ()
      ensures sessions == map[]
    {
      sessions := map[];
    }

    /** buf is what rand.Read fills for an unlock. */
    method ProcessSessionRequest(request: Request, now: Time, buf: seq<nat>) returns (r: Response)
      requires Fits(buf, 8) && |buf| == 16 && Keyed(sessions)
      modifies this
      ensures NewId(buf).Ok? && Keyed(sessions)
      ensures sessions == Table(old(sessions), Handle(now, request, NewId(buf).value))
      ensures r == Answer(old(sessions), Handle(now, request, NewId(buf).value))
    {
      IdsDiffer(buf, buf);
      hide NewId;
      match request {
        case KeyRequest(id, vault) =>
          if id !in sessions {
            return SessionInvalid;
          }
          var session := sessions[id];
          if session.expire.Some? && session.expire.value < now {
            sessions := sessions - {session.id};
            return SessionExpired;
          }
          if session.vaultName != vault {
            return SessionInvalid;
          }
          return Key(session.key);
        case ListRequest =>
          r := List(now);
        case LockRequest(vault) =>
          Lock(vault);
          return Nothing;
        case UnlockRequest(key, vault, lifetime) =>
          if key.None? || vault == "" {
            return InvalidRequest;
          }
          var id := Encode(buf);
          var s := Session(None, id, key.value, vault);
          if lifetime > 0 {
            s := s.(expire := Some(now + lifetime));
          }
          sessions := sessions[id := s];
          return Id(id);
        case Invalid =>
          return InvalidRequest;
      }
    }

    method Encode(buf: seq<nat>) returns (id: string)
      requires Fits(buf, 8) && |buf| == 16
      ensures NewId(buf) == Ok(id)
    {
      IdsDiffer(buf, buf);
      PrefixFine();
      hide Bech32.Encoded;
      var e := Bech32.Encode(SESSION_ID_PREFIX, buf);
      id := e.value;
    }

    method List(now: Time) returns (r: Response)
      ensures r == Sessions(set id | id in sessions :: ListedOf(sessions[id], now))
    {
      var list: set<Listed> := {};
      var todo := sessions.Keys;
      while todo != {}
        invariant todo <= sessions.Keys
        invariant list == set id | id in sessions && id !in todo :: ListedOf(sessions[id], now)
        decreases |todo|
      {
        var id :| id in todo;
        todo := todo - {id};
        var session := sessions[id];
        var v := Listed(session.id, session.vaultName, 0);
        if session.expire.Some? {
          v := v.(lifetime := session.expire.value - now);
        }
        list := list + {v};
      }
      return Sessions(list);
    }

    method Lock(vault: string)
      modifies this
      ensures sessions == map id | id in old(sessions) && old(sessions)[id].vaultName != vault :: old(sessions)[id]
    {
      ghost var before := sessions;
      var todo := sessions.Keys;
      while todo != {}
        invariant todo <= before.Keys
        invariant sessions == map id | id in before && (id in todo || before[id].vaultName != vault) :: before[id]
        decreases |todo|
      {
        var sid :| sid in todo;
        todo := todo - {sid};
        if sessions[sid].vaultName == vault {
          sessions := sessions - {sid};
        }
      }
    }

    method CloseAll()
      modifies this
      ensures sessions == Table(old(sessions), Close)
    {
      ghost var before := sessions;
      var todo := sessions.Keys;
      while todo != {}
        invariant todo <= before.Keys && sessions == map id | id in todo :: before[id]
        decreases |todo|
      {
        var id :| id in todo;
        todo := todo - {id};
        sessions := sessions - {id};
      }
    }
  }

  // ----- traces -----

  function After(trace: seq<Event>): Sessions {
    if trace == [] then map[] else Table(After(trace[..|trace| - 1]), trace[|trace| - 1])
  }

  /** Session IDs are fresh, and the clock never goes back; now is a time not before any event. */
  predicate Orderly(trace: seq<Event>, now: Time) {
    && (forall i, j | 0 <= i < j < |trace| && Opens(trace[i]) && Opens(trace[j]) :: trace[i].id != trace[j].id)
    && (forall i, j | 0 <= i < j < |trace| && trace[i].Handle? && trace[j].Handle? :: trace[i].now <= trace[j].now)
    && (forall i | 0 <= i < |trace| && trace[i].Handle? :: trace[i].now <= now)
  }

  /** Event i opened session t, and no later event of the trace ended it. */
  predicate Lasting(trace: seq<Event>, i: int, t: Session) {
    && 0 <= i < |trace| && Opens(trace[i]) && t == Opened(trace[i])
    && forall j | i < j < |trace| :: !Ends(trace[j], t.vaultName)
  }

  /** Every session in the table is a lasting one; every lasting one is in the table or its lifetime has passed. */
  ghost predicate Tracked(trace: seq<Event>, s: Sessions, now: Time) {
    && (forall id | id in s :: s[id].id == id && exists i :: Lasting(trace, i, s[id]))
    && (forall i, t | Lasting(trace, i, t) :: (t.id in s && s[t.id] == t) || Expired(t, now))
  }

  lemma LastingStep(trace: seq<Event>, e: Event, i: int, t: Session)
    ensures Lasting(trace + [e], i, t) <==>
              if i < |trace| then Lasting(trace, i, t) && !Ends(e, t.vaultName) else i == |trace| && Opens(e) && t == Opened(e)
  {
    var more := trace + [e];
    assert forall j | 0 <= j < |trace| :: more[j] == trace[j];
    assert more[|trace|] == e;
  }

  lemma LastingIs(trace: seq<Event>, i: int, t: Session)
    requires Lasting(trace, i, t)
    ensures 0 <= i < |trace| && Opens(trace[i]) && t == Opened(trace[i])
  {
  }

  lemma InTable(trace: seq<Event>, e: Event, s: Sessions, now: Time, id: string) returns (i: int)
    requires Tracked(trace, s, now) && id in Table(s, e)
    ensures Table(s, e)[id].id == id && Lasting(trace + [e], i, Table(s, e)[id])
  {
    hide Lasting, Ends;
    TableEntry(s, e, id);
    if Opens(e) && id == e.id {
      i := |trace|;
    } else {
      i :| Lasting(trace, i, s[id]);
      LastingIs(trace, i, s[id]);
    }
    LastingStep(trace, e, i, Table(s, e)[id]);
  }

  lemma TableEntry(s: Sessions, e: Event, id: string)
    requires id in Table(s, e)
    ensures if Opens(e) && id == e.id then Table(s, e)[id] == Opened(e)
            else id in s && Table(s, e)[id] == s[id] && !Ends(e, s[id].vaultName)
  {
  }

  lemma NotInTable(trace: seq<Event>, e: Event, s: Sessions, now: Time, i: int, t: Session)
    requires Tracked(trace, s, now) && (e.Handle? ==> e.now <= now)
    requires forall i | 0 <= i < |trace| && Opens(trace[i]) && Opens(e) :: trace[i].id != e.id
    requires Lasting(trace + [e], i, t)
    ensures (t.id in Table(s, e) && Table(s, e)[t.id] == t) || Expired(t, now)
  {
    hide Lasting;
    LastingStep(trace, e, i, t);
    if i < |trace| {
      LastingIs(trace, i, t);
    }
  }

  lemma {:induction false} TraceTracked(trace: seq<Event>, now: Time)
    requires Orderly(trace, now)
    ensures Tracked(trace, After(trace), now)
  {
    hide Lasting;
    if trace == [] {
      forall i, t
        ensures !Lasting(trace, i, t)
      {
        NothingLasts(i, t);
      }
    } else {
      hide Table, Opens, Expired;
      var m := |trace| - 1;
      var before, s, e := trace[..m], After(trace[..m]), trace[m];
      TraceTracked(before, now);
      assert before + [e] == trace;
      forall id | id in Table(s, e)
        ensures Table(s, e)[id].id == id && exists i :: Lasting(trace, i, Table(s, e)[id])
      {
        var i := InTable(before, e, s, now, id);
      }
      forall i, t | Lasting(trace, i, t)
        ensures (t.id in Table(s, e) && Table(s, e)[t.id] == t) || Expired(t, now)
      {
        NotInTable(before, e, s, now, i, t);
      }
    }
  }

  lemma NothingLasts(i: int, t: Session)
    ensures !Lasting([], i, t)
  {
  }

  /** Event i was an unlock of the vault with this key. */
  predicate Unlocks(e: Event, vault: string, key: string) {
    e.Handle? && e.request.UnlockRequest? && e.request.vault == vault && e.request.key == Some(key)
  }

  /** Event i is a request that was answered with this session ID. */
  predicate AnsweredId(trace: seq<Event>, i: int, id: string) {
    0 <= i < |trace| && trace[i].Handle? && Answer(After(trace[..i]), trace[i]) == Id(id)
  }

  /** Since event i the vault has not been locked nor the agent closed. */
  predicate NotEnded(trace: seq<Event>, i: int, vault: string) {
    forall j: nat | i < j < |trace| :: trace[j] != Close && (trace[j].Handle? ==> trace[j].request != LockRequest(vault))
  }

  /** Event i, a request for a lifetime, is no longer ago than that; a request for none never ends. */
  predicate Living(e: Event, now: Time)
    requires e.Handle? && e.request.UnlockRequest?
  {
    e.request.lifetime > 0 ==> now <= e.now + e.request.lifetime
  }

  /** Event i unlocked the vault with this key and was answered with the ID; that session has neither ended nor expired. */
  predicate Grants(trace: seq<Event>, i: int, id: string, vault: string, key: string, now: Time) {
    && 0 <= i < |trace| && AnsweredId(trace, i, id) && Unlocks(trace[i], vault, key) && NotEnded(trace, i, vault) && Living(trace[i], now)
  }

  lemma GrantsIs(trace: seq<Event>, i: int, id: string, vault: string, key: string, now: Time)
    ensures Grants(trace, i, id, vault, key, now) <==>
              && 0 <= i < |trace| && Opens(trace[i]) && Opened(trace[i]).id == id && Opened(trace[i]).vaultName == vault
              && Opened(trace[i]).key == key && Lasting(trace, i, Opened(trace[i])) && !Expired(Opened(trace[i]), now)
  {
    hide After;
  }

  /**
   A key request is answered with a key exactly when an earlier unlock of that vault with that key was answered with the
   ID, the vault has not been locked nor the agent closed since, and the lifetime has not passed.
   */
  lemma KeyExact(trace: seq<Event>, now: Time, id: string, vault: string, key: string, drawn: string)
    requires Orderly(trace, now)
    ensures Answer(After(trace), Handle(now, KeyRequest(id, vault), drawn)) == Key(key) <==>
              exists i :: Grants(trace, i, id, vault, key, now)
  {
    hide After, Grants, Lasting;
    TraceTracked(trace, now);
    var s := After(trace);
    if id in s && s[id].vaultName == vault && s[id].key == key && !Expired(s[id], now) {
      var i :| Lasting(trace, i, s[id]);
      LastingIs(trace, i, s[id]);
      GrantsIs(trace, i, id, vault, key, now);
    }
    if i :| Grants(trace, i, id, vault, key, now) {
      GrantsIs(trace, i, id, vault, key, now);
    }
  }

  /** An unlock is answered with an ID exactly if it names a vault and brings a key, and with nothing else than an error. */
  lemma UnlockAnswered(s: Sessions, now: Time, key: Option<string>, vault: string, lifetime: int, drawn: string)
    ensures var r := Answer(s, Handle(now, UnlockRequest(key, vault, lifetime), drawn));
            if key.Some? && vault != "" then r == Id(drawn) else r == InvalidRequest
  {
  }

  /** The exchange: the ID that an unlock is answered with is traded for its key until the lifetime is over. */
  lemma UnlockThenKey(trace: seq<Event>, u: Event, id: string, now: Time, drawn: string)
    requires u.Handle? && u.request.UnlockRequest? && Answer(After(trace), u) == Id(id) && Orderly(trace + [u], now)
    ensures u.request.key.Some?
    ensures Answer(After(trace + [u]), Handle(now, KeyRequest(id, u.request.vault), drawn)) == Key(u.request.key.value) <==>
              Living(u, now)
  {
    hide After;
    var more, i := trace + [u], |trace|;
    assert more[i] == u && more[..i] == trace;
    var vault, key := u.request.vault, u.request.key.value;
    KeyExact(more, now, id, vault, key, drawn);
    if Living(u, now) {
      assert Grants(more, i, id, vault, key, now);
    }
  }

  /**
   A key request that is not answered with a key removes the session it names if and only if that has expired, and then
   the next request for it is refused as unknown.
   */
  lemma ExpiredForgotten(s: Sessions, now: Time, later: Time, id: string, vault: string, other: string, drawn: string)
    ensures var e := Handle(now, KeyRequest(id, vault), drawn);
            && (Answer(s, e) == SessionExpired <==> id in s && s[id].expire.Some? && now > s[id].expire.value)
            && (Answer(s, e) == SessionExpired ==>
                  && Table(s, e) == s - {id}
                  && Answer(Table(s, e), Handle(later, KeyRequest(id, other), drawn)) == SessionInvalid)
            && (Answer(s, e) != SessionExpired ==> Table(s, e) == s)
  {
  }

  /**
   A list request shows every session that has been neither ended nor outlived, under the ID that its unlock was answered
   with and with the time it has left (0 if it never ends), and nothing but sessions that have not been ended.
   */
  lemma ListExact(trace: seq<Event>, now: Time, drawn: string, e: Listed)
    requires Orderly(trace, now)
    ensures var list := Answer(After(trace), Handle(now, ListRequest, drawn)).list;
            && (e in list ==> exists i, key :: Shows(trace, i, key, now, e))
            && ((exists i, key :: Shows(trace, i, key, now, e) && Living(trace[i], now)) ==> e in list)
  {
    hide Lasting, After, AnsweredId, NotEnded;
    TraceTracked(trace, now);
    var s := After(trace);
    var list := Answer(s, Handle(now, ListRequest, drawn)).list;
    if e in list {
      var id :| id in s && e == ListedOf(s[id], now);
      var i :| Lasting(trace, i, s[id]);
      LastingIs(trace, i, s[id]);
      ShowsIs(trace, i, s[id].key, now, e);
    }
    if i, key :| 0 <= i < |trace| && Shows(trace, i, key, now, e) && Living(trace[i], now) {
      ShowsIs(trace, i, key, now, e);
      var t := Opened(trace[i]);
      assert t.id in s && s[t.id] == t;
    }
  }

  /** The entry of a list for the session that event i opened, if it has not been ended. */
  predicate Shows(trace: seq<Event>, i: int, key: string, now: Time, e: Listed) {
    && 0 <= i < |trace| && AnsweredId(trace, i, e.id) && Unlocks(trace[i], e.vault, key) && NotEnded(trace, i, e.vault)
    && e.lifetime == if trace[i].request.lifetime > 0 then trace[i].now + trace[i].request.lifetime - now else 0
  }

  lemma ShowsIs(trace: seq<Event>, i: int, key: string, now: Time, e: Listed)
    ensures Shows(trace, i, key, now, e) <==>
              && 0 <= i < |trace| && Opens(trace[i]) && Opened(trace[i]).key == key && Lasting(trace, i, Opened(trace[i]))
              && e == ListedOf(Opened(trace[i]), now)
    ensures Shows(trace, i, key, now, e) && Living(trace[i], now) ==> !Expired(Opened(trace[i]), now)
  {
    hide After;
  }
}
