/** SIP trunks and the Asterisk realtime tables derived from them:
    backend/internal/store/trunks.go. */
module Trunks {
  import opened Options
  import Strings

  const MASK := "********"

  datatype Trunk = Trunk(
    name: string, provider: string, endpoint: string, host: string, port: int,
    username: string, password: string, register: bool, identifyIp: string,
    status: string, notes: string)

  // The columns that depend on the trunk; the others are constants of the INSERT statements.
  datatype Aor = Aor(contact: Option<string>)
  datatype Auth = Auth(username: string, password: string)
  datatype Endpoint = Endpoint(aors: string, outboundAuth: Option<string>,
                               fromUser: Option<string>, fromDomain: Option<string>)
  datatype Registration = Registration(outboundAuth: string, serverUri: string, clientUri: string)
  datatype Identify = Identify(endpoint: string, ip: string)

  datatype Tables = Tables(
    trunks: map<string, Trunk>,
    aors: map<string, Aor>,
    auths: map<string, Auth>,
    endpoints: map<string, Endpoint>,
    registrations: map<string, Registration>,
    identifies: map<string, Identify>)

  // The statements of a transaction; any of them may fail for reasons of its own.
  datatype Statement = Begin | SelectTrunk | WriteTrunk
    | InsertAor | InsertAuth | InsertEndpoint | InsertRegistration | InsertIdentify
    | DeleteIdentify | DeleteRegistration | DeleteEndpoint | DeleteAuth | DeleteAor
    | Commit

  datatype Outcome = Done | NotFound | Failed

  // ----- the rows that belong to one trunk

  function NullIf(s: string): Option<string> {
    if s == "" then None else Some(s)
  }

  function Port(t: Trunk): int {
    if t.port == 0 then 5060 else t.port
  }

  predicate HasAuth(t: Trunk) {
    t.username != "" || t.password != ""
  }

  function ServerUri(t: Trunk): string {
    "sip:" + t.host + ":" + Strings.Decimal(Port(t))
  }

  /** One derived table: the key of a trunk's row, and the row, if it has one. */
  datatype Derived<!R> = Derived(suffix: string, row: Trunk -> Option<R>)

  const AORS := Derived("", (t: Trunk) => Some(Aor(if t.host == "" then None else Some(ServerUri(t)))))

  const AUTHS := Derived("-auth", (t: Trunk) => if HasAuth(t) then Some(Auth(t.username, t.password)) else None)

  const ENDPOINTS := Derived("", (t: Trunk) => Some(Endpoint(
    t.endpoint, if HasAuth(t) then Some(t.endpoint + "-auth") else None, NullIf(t.username), NullIf(t.host))))

  const REGISTRATIONS := Derived("-reg", (t: Trunk) =>
    if t.register && t.host != "" && t.username != ""
    then Some(Registration(t.endpoint + "-auth", ServerUri(t), "sip:" + t.username + "@" + t.host))
    else None)

  const IDENTIFIES := Derived("-identify", (t: Trunk) =>
    if t.identifyIp != "" then Some(Identify(t.endpoint, t.identifyIp)) else None)

  // ----- transactions

  predicate Taken(trunks: map<string, Trunk>, id: string, endpoint: string) {
    exists k :: k in trunks && k != id && trunks[k].endpoint == endpoint
  }

  /** An insert fails on an existing key. */
  function Insert<R>(table: map<string, R>, key: string, row: R, fails: bool): Option<map<string, R>> {
    if fails || key in table then None else Some(table[key := row])
  }

  /** Without a row to insert there is no statement. */
  function Put<R>(table: map<string, R>, d: Derived<R>, t: Trunk, fails: bool): Option<map<string, R>> {
    match d.row(t)
    case None => Some(table)
    case Some(r) =>
      Insert(table, t.endpoint + d.suffix, r, fails)
  }

  function InsertRows(tx: Tables, t: Trunk, faults: set<Statement>): Option<Tables> {
    if t.endpoint == "" then None
    else
      var aors :- Put(tx.aors, AORS, t, InsertAor in faults);
      var auths :- Put(tx.auths, AUTHS, t, InsertAuth in faults);
      InsertOutbound(tx.(aors := aors, auths := auths), t, faults)
  }

  function InsertOutbound(tx: Tables, t: Trunk, faults: set<Statement>): Option<Tables> {
    var endpoints :- Put(tx.endpoints, ENDPOINTS, t, InsertEndpoint in faults);
    InsertInbound(tx.(endpoints := endpoints), t, faults)
  }

  function InsertInbound(tx: Tables, t: Trunk, faults: set<Statement>): Option<Tables> {
    var registrations :- Put(tx.registrations, REGISTRATIONS, t, InsertRegistration in faults);
    var identifies :- Put(tx.identifies, IDENTIFIES, t, InsertIdentify in faults);
    Some(tx.(registrations := registrations, identifies := identifies))
  }

  const DELETES := {DeleteIdentify, DeleteRegistration, DeleteEndpoint, DeleteAuth, DeleteAor}

  function DeleteRows(tx: Tables, endpoint: string, faults: set<Statement>): Option<Tables> {
    if endpoint == "" then Some(tx)
    else if !(faults !! DELETES) then None
    else Some(Tables(tx.trunks, tx.aors - {endpoint}, tx.auths - {endpoint + "-auth"}, tx.endpoints - {endpoint},
                     tx.registrations - {endpoint + "-reg"}, tx.identifies - {endpoint + "-identify"}))
  }

  function WithDefaults(t: Trunk): Trunk {
    t.(status := if t.status == "" then "active" else t.status, port := Port(t))
  }

  function Committed(db: Tables, tx: Option<Tables>, faults: set<Statement>): (Tables, Outcome) {
    if tx.None? || Commit in faults then (db, Failed) else (tx.value, Done)
  }

  function Created(db: Tables, id: string, t0: Trunk, faults: set<Statement>): (Tables, Outcome) {
    var t := WithDefaults(t0);
    if t.endpoint == "" || Begin in faults || WriteTrunk in faults
       || id in db.trunks || Taken(db.trunks, id, t.endpoint) then (db, Failed)
    else Committed(db, InsertRows(db.(trunks := db.trunks[id := t]), t, faults), faults)
  }

  /** A masked or empty password stands for the current one. */
  function Kept(t: Trunk, current: Trunk): Trunk {
    if t.password == "" || t.password == MASK then t.(password := current.password) else t
  }

  function Updated(db: Tables, id: string, t0: Trunk, faults: set<Statement>): (Tables, Outcome) {
    if Begin in faults || SelectTrunk in faults then (db, Failed)
    else if id !in db.trunks then (db, NotFound)
    else
      var prior := db.trunks[id];
      var t := Kept(t0, prior);
      if WriteTrunk in faults || Taken(db.trunks, id, t.endpoint) then (db, Failed)
      else
        match DeleteRows(db.(trunks := db.trunks[id := t]), prior.endpoint, faults)
        case None => (db, Failed)
        case Some(tx) => Committed(db, InsertRows(tx, t, faults), faults)
  }

  function Deleted(db: Tables, id: string, faults: set<Statement>): (Tables, Outcome) {
    if Begin in faults || SelectTrunk in faults then (db, Failed)
    else if id !in db.trunks then (db, NotFound)
    else if WriteTrunk in faults then (db, Failed)
    else Committed(db, DeleteRows(db.(trunks := db.trunks - {id}), db.trunks[id].endpoint, faults), faults)
  }

  function Masked(t: Trunk): Trunk {
    if t.password != "" then t.(password := MASK) else t
  }

  /** The rows of a trunk, with their keys. */
  lemma TrunkRows(t: Trunk)
    ensures t.endpoint + AORS.suffix == t.endpoint == t.endpoint + ENDPOINTS.suffix
    ensures AORS.row(t) == Some(Aor(if t.host == "" then None else Some(ServerUri(t))))
    ensures AUTHS.row(t) == if HasAuth(t) then Some(Auth(t.username, t.password)) else None
    ensures ENDPOINTS.row(t) == Some(Endpoint(
              t.endpoint, if HasAuth(t) then Some(t.endpoint + "-auth") else None, NullIf(t.username), NullIf(t.host)))
    ensures REGISTRATIONS.row(t) == if t.register && t.host != "" && t.username != ""
              then Some(Registration(t.endpoint + "-auth", ServerUri(t), "sip:" + t.username + "@" + t.host)) else None
    ensures IDENTIFIES.row(t) == if t.identifyIp != "" then Some(Identify(t.endpoint, t.identifyIp)) else None
  {
    assert t.endpoint + "" == t.endpoint;
  }

  lemma TrunkPuts(tx: Tables, t: Trunk, faults: set<Statement>)
    ensures Put(tx.aors, AORS, t, InsertAor in faults)
            == Insert(tx.aors, t.endpoint, Aor(if t.host == "" then None else Some(ServerUri(t))), InsertAor in faults)
    ensures Put(tx.auths, AUTHS, t, InsertAuth in faults)
            == if HasAuth(t)
               then Insert(tx.auths, t.endpoint + "-auth", Auth(t.username, t.password), InsertAuth in faults)
               else Some(tx.auths)
    ensures Put(tx.endpoints, ENDPOINTS, t, InsertEndpoint in faults)
            == Insert(tx.endpoints, t.endpoint,
                      Endpoint(t.endpoint, if HasAuth(t) then Some(t.endpoint + "-auth") else None,
                               NullIf(t.username), NullIf(t.host)),
                      InsertEndpoint in faults)
  {
    TrunkRows(t);
  }

  lemma InboundPuts(tx: Tables, t: Trunk, faults: set<Statement>)
    ensures Put(tx.registrations, REGISTRATIONS, t, InsertRegistration in faults)
            == if t.register && t.host != "" && t.username != ""
               then Insert(tx.registrations, t.endpoint + "-reg",
                           Registration(t.endpoint + "-auth", ServerUri(t), "sip:" + t.username + "@" + t.host),
                           InsertRegistration in faults)
               else Some(tx.registrations)
    ensures Put(tx.identifies, IDENTIFIES, t, InsertIdentify in faults)
            == if t.identifyIp != ""
               then Insert(tx.identifies, t.endpoint + "-identify", Identify(t.endpoint, t.identifyIp),
                           InsertIdentify in faults)
               else Some(tx.identifies)
  {
    TrunkRows(t);
  }

  method Exec<R>(table: map<string, R>, key: string, row: R, fails: bool) returns (r: Option<map<string, R>>)
    ensures r == Insert(table, key, row, fails)
  {
    if fails || key in table {
      return None;
    }
    return Some(table[key := row]);
  }

  // The statements of upsertRealtimeTrunk, one by one.
  method UpsertRealtimeTrunk(tx0: Tables, t: Trunk, faults: set<Statement>) returns (ok: bool, tx: Tables)
    ensures match InsertRows(tx0, t, faults)
      case None => !ok
      case Some(r) => ok && tx == r
  {
    TrunkPuts(tx0, t, faults);
    hide Put, Insert, InsertOutbound, Strings.Decimal;
    tx := tx0;
    if t.endpoint == "" {
      return false, tx;
    }
    var endpoint := t.endpoint;
    var authId := endpoint + "-auth";
    var aorId := endpoint;
    var regId := endpoint + "-reg";
    var identifyId := endpoint + "-identify";
    assert endpoint + "" == endpoint;
    var contact := "";
    if t.host != "" {
      var port := t.port;
      if port == 0 {
        port := 5060;
      }
      contact := "sip:" + t.host + ":" + Strings.Decimal(port);
    }
    assert NullIf(contact) == if t.host == "" then None else Some(ServerUri(t));
    var aors := Exec(tx.aors, aorId, Aor(NullIf(contact)), InsertAor in faults);
    if aors.None? {
      return false, tx;
    }
    tx := tx.(aors := aors.value);
    if t.username != "" || t.password != "" {
      var auths := Exec(tx.auths, authId, Auth(t.username, t.password), InsertAuth in faults);
      if auths.None? {
        return false, tx;
      }
      tx := tx.(auths := auths.value);
    }
    ok, tx := UpsertOutbound(tx, t, authId, aorId, regId, identifyId, faults);
  }

  // The statement for the endpoint, and those after it.
  method UpsertOutbound(tx0: Tables, t: Trunk, authId: string, aorId: string, regId: string, identifyId: string,
                        faults: set<Statement>)
    returns (ok: bool, tx: Tables)
    requires authId == t.endpoint + "-auth" && aorId == t.endpoint
    requires regId == t.endpoint + "-reg" && identifyId == t.endpoint + "-identify"
    ensures match InsertOutbound(tx0, t, faults)
      case None => !ok
      case Some(r) => ok && tx == r
  {
    TrunkPuts(tx0, t, faults);
    hide Put, Insert, InsertInbound, Strings.Decimal;
    tx := tx0;
    var endpoint := t.endpoint;
    var outboundAuth := None;
    if t.username != "" || t.password != "" {
      outboundAuth := Some(authId);
    }
    var row := Endpoint(aorId, outboundAuth, NullIf(t.username), NullIf(t.host));
    var endpoints := Exec(tx.endpoints, endpoint, row, InsertEndpoint in faults);
    if endpoints.None? {
      return false, tx;
    }
    tx := tx.(endpoints := endpoints.value);
    ok, tx := UpsertInbound(tx, t, authId, regId, identifyId, faults);
  }

  // The last two statements of upsertRealtimeTrunk: how the provider reaches the trunk.
  method UpsertInbound(tx0: Tables, t: Trunk, authId: string, regId: string, identifyId: string, faults: set<Statement>)
    returns (ok: bool, tx: Tables)
    requires authId == t.endpoint + "-auth" && regId == t.endpoint + "-reg" && identifyId == t.endpoint + "-identify"
    ensures match InsertInbound(tx0, t, faults)
      case None => !ok
      case Some(r) => ok && tx == r
  {
    InboundPuts(tx0, t, faults);
    hide Put, Insert, Strings.Decimal;
    tx := tx0;
    if t.register && t.host != "" && t.username != "" {
      var port := t.port;
      if port == 0 {
        port := 5060;
      }
      var serverUri := "sip:" + t.host + ":" + Strings.Decimal(port);
      var clientUri := "sip:" + t.username + "@" + t.host;
      var registrations := Exec(tx.registrations, regId, Registration(authId, serverUri, clientUri),
                                InsertRegistration in faults);
      if registrations.None? {
        return false, tx;
      }
      tx := tx.(registrations := registrations.value);
    }
    if t.identifyIp != "" {
      var identifies := Exec(tx.identifies, identifyId, Identify(t.endpoint, t.identifyIp), InsertIdentify in faults);
      if identifies.None? {
        return false, tx;
      }
      tx := tx.(identifies := identifies.value);
    }
    return true, tx;
  }

  method DeleteRealtimeTrunk(tx0: Tables, endpoint: string, faults: set<Statement>) returns (ok: bool, tx: Tables)
    ensures match DeleteRows(tx0, endpoint, faults)
      case None => !ok
      case Some(r) => ok && tx == r
  {
    tx := tx0;
    if endpoint == "" {
      return true, tx;
    }
    var steps := [DeleteIdentify, DeleteRegistration, DeleteEndpoint, DeleteAuth, DeleteAor];
    for i := 0 to |steps|
      invariant tx.trunks == tx0.trunks
      invariant tx.identifies == if i > 0 then tx0.identifies - {endpoint + "-identify"} else tx0.identifies
      invariant tx.registrations == if i > 1 then tx0.registrations - {endpoint + "-reg"} else tx0.registrations
      invariant tx.endpoints == if i > 2 then tx0.endpoints - {endpoint} else tx0.endpoints
      invariant tx.auths == if i > 3 then tx0.auths - {endpoint + "-auth"} else tx0.auths
      invariant tx.aors == if i > 4 then tx0.aors - {endpoint} else tx0.aors
      invariant forall k :: 0 <= k < i ==> steps[k] !in faults
    {
      if steps[i] in faults {
        assert steps[i] in DELETES;
        return false, tx;
      }
      match steps[i] {
        case DeleteIdentify => tx := tx.(identifies := tx.identifies - {endpoint + "-identify"});
        case DeleteRegistration => tx := tx.(registrations := tx.registrations - {endpoint + "-reg"});
        case DeleteEndpoint => tx := tx.(endpoints := tx.endpoints - {endpoint});
        case DeleteAuth => tx := tx.(auths := tx.auths - {endpoint + "-auth"});
        case DeleteAor => tx := tx.(aors := tx.aors - {endpoint});
      }
    }
    assert steps[0] !in faults && steps[1] !in faults && steps[2] !in faults;
    assert steps[3] !in faults && steps[4] !in faults;
    ok := true;
  }

  class Store {
    var db: Tables

    method GetTrunk(id: string, dbOk: bool) returns (t: Option<Trunk>)
      ensures t == if dbOk && id in db.trunks then Some(Masked(db.trunks[id])) else None
      ensures t.Some? ==> var stored := db.trunks[id];
                          t.value == stored.(password := if stored.password == "" then "" else "********")
    {
      if !dbOk || id !in db.trunks {
        return None;
      }
      var r := db.trunks[id];
      if r.password != "" {
        r := r.(password := MASK);
      }
      return Some(r);
    }

    method CreateTrunk(id: string, t0: Trunk, faults: set<Statement>) returns (r: Outcome)
      modifies this
      ensures (db, r) == Created(old(db), id, t0, faults)
    {
      var t := t0;
      if t.status == "" {
        t := t.(status := "active");
      }
      if t.port == 0 {
        t := t.(port := 5060);
      }
      if t.endpoint == "" || Begin in faults {
        return Failed;
      }
      var tx := db;
      if WriteTrunk in faults || id in tx.trunks || Taken(tx.trunks, id, t.endpoint) {
        return Failed;
      }
      tx := tx.(trunks := tx.trunks[id := t]);
      var ok;
      ok, tx := UpsertRealtimeTrunk(tx, t, faults);
      if !ok || Commit in faults {
        return Failed;
      }
      db := tx;
      return Done;
    }

    method UpdateTrunk(id: string, t0: Trunk, faults: set<Statement>) returns (r: Outcome)
      modifies this
      ensures (db, r) == Updated(old(db), id, t0, faults)
    {
      if Begin in faults || SelectTrunk in faults {
        return Failed;
      }
      var tx := db;
      if id !in tx.trunks {
        return NotFound;
      }
      var currentPassword, oldEndpoint := tx.trunks[id].password, tx.trunks[id].endpoint;
      var t := t0;
      if t.password == "" || t.password == MASK {
        t := t.(password := currentPassword);
      }
      if WriteTrunk in faults || Taken(tx.trunks, id, t.endpoint) {
        return Failed;
      }
      tx := tx.(trunks := tx.trunks[id := t]);
      var ok;
      ok, tx := DeleteRealtimeTrunk(tx, oldEndpoint, faults);
      if !ok {
        return Failed;
      }
      ok, tx := UpsertRealtimeTrunk(tx, t, faults);
      if !ok || Commit in faults {
        return Failed;
      }
      db := tx;
      return Done;
    }

    method DeleteTrunk(id: string, faults: set<Statement>) returns (r: Outcome)
      modifies this
      ensures (db, r) == Deleted(old(db), id, faults)
    {
      if Begin in faults || SelectTrunk in faults {
        return Failed;
      }
      var tx := db;
      if id !in tx.trunks {
        return NotFound;
      }
      var endpoint := tx.trunks[id].endpoint;
      if WriteTrunk in faults {
        return Failed;
      }
      tx := tx.(trunks := tx.trunks - {id});
      var ok;
      ok, tx := DeleteRealtimeTrunk(tx, endpoint, faults);
      if !ok || Commit in faults {
        return Failed;
      }
      db := tx;
      return Done;
    }
  }

  // ----- the derived tables are the image of the trunks

  /** A trunk's row, if it has one, is found under its key. */
  ghost predicate RowsThere<R>(trunks: map<string, Trunk>, table: map<string, R>, d: Derived<R>) {
    forall id :: id in trunks && d.row(trunks[id]).Some? ==>
      var key := trunks[id].endpoint + d.suffix;
      key in table && d.row(trunks[id]) == Some(table[key])
  }

  /** Every key belongs to the row of some trunk. */
  ghost predicate KeysOwned<R>(trunks: map<string, Trunk>, table: map<string, R>, d: Derived<R>) {
    forall k :: k in table ==>
      exists id :: id in trunks && d.row(trunks[id]).Some? && trunks[id].endpoint + d.suffix == k
  }

  /** The table holds exactly one row for every trunk that has one, and nothing else. */
  ghost predicate Image<R>(trunks: map<string, Trunk>, table: map<string, R>, d: Derived<R>) {
    RowsThere(trunks, table, d) && KeysOwned(trunks, table, d)
  }

  ghost predicate Named(trunks: map<string, Trunk>) {
    && (forall id :: id in trunks ==> trunks[id].endpoint != "")
    && (forall a, b :: a in trunks && b in trunks && trunks[a].endpoint == trunks[b].endpoint ==> a == b)
  }

  ghost predicate Mirror(db: Tables) {
    && Named(db.trunks)
    && Image(db.trunks, db.aors, AORS)
    && Image(db.trunks, db.auths, AUTHS)
    && Image(db.trunks, db.endpoints, ENDPOINTS)
    && Image(db.trunks, db.registrations, REGISTRATIONS)
    && Image(db.trunks, db.identifies, IDENTIFIES)
  }

  lemma SuffixInjective(a: string, b: string, suffix: string)
    requires a + suffix == b + suffix
    ensures a == b
  {
    assert |a| == |b|;
    assert a == (a + suffix)[..|a|];
    assert b == (b + suffix)[..|b|];
  }

  /** A table that is the image of the trunks is the only one. */
  lemma ImageIsUnique<R>(trunks: map<string, Trunk>, t1: map<string, R>, t2: map<string, R>, d: Derived<R>)
    requires Image(trunks, t1, d) && Image(trunks, t2, d)
    ensures t1 == t2
  {
    forall k
      ensures k in t1 <==> k in t2
      ensures k in t1 ==> t1[k] == t2[k]
    {
    }
  }

  lemma RemoveKeepsRows<R>(trunks: map<string, Trunk>, table: map<string, R>, d: Derived<R>, id: string)
    requires Named(trunks) && RowsThere(trunks, table, d) && id in trunks
    ensures RowsThere(trunks - {id}, table - {trunks[id].endpoint + d.suffix}, d)
  {
    var trunks', gone := trunks - {id}, trunks[id].endpoint + d.suffix;
    forall k | k in trunks' && d.row(trunks'[k]).Some?
      ensures trunks'[k].endpoint + d.suffix in table - {gone}
    {
      if trunks'[k].endpoint + d.suffix == gone {
        SuffixInjective(trunks[k].endpoint, trunks[id].endpoint, d.suffix);
      }
    }
  }

  lemma RemoveKeepsOwners<R>(trunks: map<string, Trunk>, table: map<string, R>, d: Derived<R>, id: string)
    requires KeysOwned(trunks, table, d) && id in trunks
    ensures KeysOwned(trunks - {id}, table - {trunks[id].endpoint + d.suffix}, d)
  {
    var trunks' := trunks - {id};
    forall k | k in table - {trunks[id].endpoint + d.suffix}
      ensures exists a :: a in trunks' && d.row(trunks'[a]).Some? && trunks'[a].endpoint + d.suffix == k
    {
      var a :| a in trunks && d.row(trunks[a]).Some? && trunks[a].endpoint + d.suffix == k;
      assert a in trunks' && d.row(trunks'[a]).Some?;
    }
  }

  lemma RemoveKeepsImage<R>(trunks: map<string, Trunk>, table: map<string, R>, d: Derived<R>, id: string)
    requires Named(trunks) && Image(trunks, table, d) && id in trunks
    ensures Image(trunks - {id}, table - {trunks[id].endpoint + d.suffix}, d)
  {
    hide RowsThere, KeysOwned, Named;
    RemoveKeepsRows(trunks, table, d, id);
    RemoveKeepsOwners(trunks, table, d, id);
  }

  /** A name that no trunk has is the key of no row. */
  lemma KeyIsFree<R>(trunks: map<string, Trunk>, table: map<string, R>, d: Derived<R>, id: string, t: Trunk)
    requires KeysOwned(trunks, table, d) && id !in trunks && !Taken(trunks, id, t.endpoint)
    ensures t.endpoint + d.suffix !in table
  {
    var key := t.endpoint + d.suffix;
    if key in table {
      var a :| a in trunks && d.row(trunks[a]).Some? && trunks[a].endpoint + d.suffix == key;
      SuffixInjective(trunks[a].endpoint, t.endpoint, d.suffix);
    }
  }

  lemma PutKeepsOwners<R>(trunks: map<string, Trunk>, table: map<string, R>, d: Derived<R>, id: string, t: Trunk)
    requires KeysOwned(trunks, table, d) && id !in trunks && t.endpoint + d.suffix !in table
    ensures Put(table, d, t, false).Some? && KeysOwned(trunks[id := t], Put(table, d, t, false).value, d)
  {
    var trunks', key := trunks[id := t], t.endpoint + d.suffix;
    forall k | k in Put(table, d, t, false).value
      ensures exists a :: a in trunks' && d.row(trunks'[a]).Some? && trunks'[a].endpoint + d.suffix == k
    {
      if k == key && d.row(t).Some? {
        assert id in trunks' && d.row(trunks'[id]).Some?;
      } else {
        var a :| a in trunks && d.row(trunks[a]).Some? && trunks[a].endpoint + d.suffix == k;
        assert a in trunks' && d.row(trunks'[a]).Some?;
      }
    }
  }

  lemma PutKeepsImage<R>(trunks: map<string, Trunk>, table: map<string, R>, d: Derived<R>, id: string, t: Trunk,
                         fails: bool)
    requires Image(trunks, table, d) && id !in trunks && !Taken(trunks, id, t.endpoint)
    ensures Put(table, d, t, fails).Some? <==> !(fails && d.row(t).Some?)
    ensures Put(table, d, t, fails).Some? ==> Image(trunks[id := t], Put(table, d, t, fails).value, d)
  {
    KeyIsFree(trunks, table, d, id, t);
    PutKeepsOwners(trunks, table, d, id, t);
    hide KeysOwned;
  }

  /** The faults that an insert of this trunk's rows runs into. */
  function InsertSteps(t: Trunk): set<Statement> {
    {InsertAor, InsertEndpoint}
    + (if AUTHS.row(t).Some? then {InsertAuth} else {})
    + (if REGISTRATIONS.row(t).Some? then {InsertRegistration} else {})
    + (if IDENTIFIES.row(t).Some? then {InsertIdentify} else {})
  }

  lemma InsertSucceeds(db: Tables, id: string, t: Trunk, faults: set<Statement>)
    requires Mirror(db) && id !in db.trunks && !Taken(db.trunks, id, t.endpoint)
    ensures InsertRows(db.(trunks := db.trunks[id := t]), t, faults).Some?
            <==> t.endpoint != "" && faults !! InsertSteps(t)
  {
    hide Image, Put, Named;
    assert InsertAor in InsertSteps(t) && InsertEndpoint in InsertSteps(t);
    PutKeepsImage(db.trunks, db.aors, AORS, id, t, InsertAor in faults);
    PutKeepsImage(db.trunks, db.auths, AUTHS, id, t, InsertAuth in faults);
    PutKeepsImage(db.trunks, db.endpoints, ENDPOINTS, id, t, InsertEndpoint in faults);
    PutKeepsImage(db.trunks, db.registrations, REGISTRATIONS, id, t, InsertRegistration in faults);
    PutKeepsImage(db.trunks, db.identifies, IDENTIFIES, id, t, InsertIdentify in faults);
  }

  lemma NamedWith(trunks: map<string, Trunk>, id: string, t: Trunk)
    requires Named(trunks) && t.endpoint != "" && !Taken(trunks, id, t.endpoint)
    ensures Named(trunks[id := t])
  {
  }

  lemma InsertMirrors(db: Tables, id: string, t: Trunk, faults: set<Statement>)
    requires Mirror(db) && id !in db.trunks && !Taken(db.trunks, id, t.endpoint)
    requires InsertRows(db.(trunks := db.trunks[id := t]), t, faults).Some?
    ensures var r := InsertRows(db.(trunks := db.trunks[id := t]), t, faults).value;
      Mirror(r) && r.trunks == db.trunks[id := t]
  {
    hide Image, Put, Named;
    NamedWith(db.trunks, id, t);
    PutKeepsImage(db.trunks, db.aors, AORS, id, t, InsertAor in faults);
    PutKeepsImage(db.trunks, db.auths, AUTHS, id, t, InsertAuth in faults);
    PutKeepsImage(db.trunks, db.endpoints, ENDPOINTS, id, t, InsertEndpoint in faults);
    PutKeepsImage(db.trunks, db.registrations, REGISTRATIONS, id, t, InsertRegistration in faults);
    PutKeepsImage(db.trunks, db.identifies, IDENTIFIES, id, t, InsertIdentify in faults);
  }

  /** Adding the rows of a trunk with a name of its own extends the mirror, or fails. */
  lemma InsertKeepsMirror(db: Tables, id: string, t: Trunk, faults: set<Statement>)
    requires Mirror(db) && id !in db.trunks && !Taken(db.trunks, id, t.endpoint)
    ensures var r := InsertRows(db.(trunks := db.trunks[id := t]), t, faults);
      && (r.Some? <==> t.endpoint != "" && faults !! InsertSteps(t))
      && (r.Some? ==> Mirror(r.value) && r.value.trunks == db.trunks[id := t])
  {
    hide *;
    InsertSucceeds(db, id, t, faults);
    if InsertRows(db.(trunks := db.trunks[id := t]), t, faults).Some? {
      InsertMirrors(db, id, t, faults);
    }
  }

  lemma DeleteKeepsMirror(db: Tables, id: string, faults: set<Statement>)
    requires Mirror(db) && id in db.trunks
    ensures var r := DeleteRows(db.(trunks := db.trunks - {id}), db.trunks[id].endpoint, faults);
      && (r.Some? <==> faults !! DELETES)
      && (r.Some? ==> Mirror(r.value) && r.value.trunks == db.trunks - {id})
  {
    hide Image;
    var e := db.trunks[id].endpoint;
    assert e + "" == e;
    RemoveKeepsImage(db.trunks, db.aors, AORS, id);
    RemoveKeepsImage(db.trunks, db.auths, AUTHS, id);
    RemoveKeepsImage(db.trunks, db.endpoints, ENDPOINTS, id);
    RemoveKeepsImage(db.trunks, db.registrations, REGISTRATIONS, id);
    RemoveKeepsImage(db.trunks, db.identifies, IDENTIFIES, id);
  }

  // ----- each operation

  /** Create succeeds exactly when the name is given and free, the id is new and no statement fails;
      otherwise nothing changes. */
  lemma CreateKeepsMirror(db: Tables, id: string, t: Trunk, faults: set<Statement>)
    requires Mirror(db)
    ensures var (db', r) := Created(db, id, t, faults);
      && Mirror(db')
      && (r == Done <==> t.endpoint != "" && id !in db.trunks && !Taken(db.trunks, id, t.endpoint)
                         && faults !! {Begin, WriteTrunk, Commit} + InsertSteps(t))
      && (r == Done ==> db'.trunks == db.trunks[id := WithDefaults(t)])
      && (r != Done ==> db' == db)
  {
    hide Mirror, InsertRows;
    assert InsertSteps(WithDefaults(t)) == InsertSteps(t);
    if id !in db.trunks && !Taken(db.trunks, id, t.endpoint) {
      InsertKeepsMirror(db, id, WithDefaults(t), faults);
    }
  }

  lemma DropThenPut(db: Tables, id: string, t: Trunk, faults: set<Statement>)
    requires Mirror(db) && id in db.trunks
    ensures var gone := DeleteRows(db.(trunks := db.trunks - {id}), db.trunks[id].endpoint, faults);
      var r := DeleteRows(db.(trunks := db.trunks[id := t]), db.trunks[id].endpoint, faults);
      && (r.Some? <==> gone.Some?)
      && (r.Some? ==> r.value == gone.value.(trunks := gone.value.trunks[id := t]))
  {
    Reinsert(db.trunks, id, t);
  }

  lemma Reinsert(trunks: map<string, Trunk>, id: string, t: Trunk)
    ensures (trunks - {id})[id := t] == trunks[id := t]
  {
  }

  /** Update, with or without a new name, succeeds exactly when the trunk exists, the name is
      given and free and no statement fails; otherwise nothing changes. */
  lemma UpdateKeepsMirror(db: Tables, id: string, t: Trunk, faults: set<Statement>)
    requires Mirror(db)
    ensures var (db', r) := Updated(db, id, t, faults);
      && Mirror(db')
      && (r == Done <==> id in db.trunks && t.endpoint != "" && !Taken(db.trunks, id, t.endpoint)
                         && faults !! {Begin, SelectTrunk, WriteTrunk, Commit} + DELETES
                                      + InsertSteps(Kept(t, db.trunks[id])))
      && (r == Done ==> db'.trunks == db.trunks[id := Kept(t, db.trunks[id])])
      && (r != Done ==> db' == db)
      && (r == NotFound ==> id !in db.trunks)
  {
    hide Mirror, InsertRows, DeleteRows;
    if id in db.trunks && !Taken(db.trunks, id, t.endpoint) {
      var kept := Kept(t, db.trunks[id]);
      DropThenPut(db, id, kept, faults);
      DeleteKeepsMirror(db, id, faults);
      var gone := DeleteRows(db.(trunks := db.trunks - {id}), db.trunks[id].endpoint, faults);
      if gone.Some? {
        assert !Taken(gone.value.trunks, id, t.endpoint);
        InsertKeepsMirror(gone.value, id, kept, faults);
        assert gone.value.trunks[id := kept] == db.trunks[id := kept];
      }
    }
  }

  lemma DeleteTrunkKeepsMirror(db: Tables, id: string, faults: set<Statement>)
    requires Mirror(db)
    ensures var (db', r) := Deleted(db, id, faults);
      && Mirror(db')
      && (r == Done <==> id in db.trunks && faults !! {Begin, SelectTrunk, WriteTrunk, Commit} + DELETES)
      && (r == Done ==> db'.trunks == db.trunks - {id})
      && (r != Done ==> db' == db)
  {
    hide Mirror, DeleteRows;
    if id in db.trunks {
      DeleteKeepsMirror(db, id, faults);
    }
  }

  // ----- whole runs

  datatype Command =
    | Create(id: string, t: Trunk, faults: set<Statement>)
    | Update(id: string, t: Trunk, faults: set<Statement>)
    | Delete(id: string, faults: set<Statement>)

  function Step(db: Tables, c: Command): Tables {
    match c
    case Create(id, t, faults) => Created(db, id, t, faults).0
    case Update(id, t, faults) => Updated(db, id, t, faults).0
    case Delete(id, faults) => Deleted(db, id, faults).0
  }

  const EMPTY := Tables(map[], map[], map[], map[], map[], map[])

  function After(commands: seq<Command>): Tables {
    if commands == [] then EMPTY
    else Step(After(commands[..|commands| - 1]), commands[|commands| - 1])
  }

  /** After any commands, successful or rolled back, the five tables mirror the trunks. */
  lemma {:induction false} EveryRunMirrors(commands: seq<Command>)
    ensures Mirror(After(commands))
  {
    hide Created, Updated, Deleted, Mirror;
    if commands == [] {
      EmptyMirrors();
    } else {
      var db := After(commands[..|commands| - 1]);
      EveryRunMirrors(commands[..|commands| - 1]);
      match commands[|commands| - 1] {
        case Create(id, t, faults) => CreateKeepsMirror(db, id, t, faults);
        case Update(id, t, faults) => UpdateKeepsMirror(db, id, t, faults);
        case Delete(id, faults) => DeleteTrunkKeepsMirror(db, id, faults);
      }
    }
  }

  lemma EmptyMirrors()
    ensures Mirror(EMPTY)
  {
  }

  /** The trunks determine every other table. */
  lemma MirrorIsUnique(a: Tables, b: Tables)
    requires Mirror(a) && Mirror(b) && a.trunks == b.trunks
    ensures a == b
  {
    hide Image;
    ImageIsUnique(a.trunks, a.aors, b.aors, AORS);
    ImageIsUnique(a.trunks, a.auths, b.auths, AUTHS);
    ImageIsUnique(a.trunks, a.endpoints, b.endpoints, ENDPOINTS);
    ImageIsUnique(a.trunks, a.registrations, b.registrations, REGISTRATIONS);
    ImageIsUnique(a.trunks, a.identifies, b.identifies, IDENTIFIES);
  }

  /** Saving what GetTrunk returned changes no table, whether or not the save succeeds. */
  lemma SavingUnchangedIsHarmless(db: Tables, id: string, faults: set<Statement>)
    requires Mirror(db) && id in db.trunks
    ensures Updated(db, id, Masked(db.trunks[id]), faults).0 == db
  {
    hide Updated, Mirror;
    var t := db.trunks[id];
    UpdateKeepsMirror(db, id, Masked(t), faults);
    var (db', r) := Updated(db, id, Masked(t), faults);
    if r == Done {
      assert Kept(Masked(t), t) == t;
      assert db.trunks[id := t] == db.trunks;
      MirrorIsUnique(db, db');
    }
  }

  /** Creating a trunk and deleting it again restores every table. */
  lemma DeleteUndoesCreate(db: Tables, id: string, t: Trunk)
    requires Mirror(db) && Created(db, id, t, {}).1 == Done
    ensures Deleted(Created(db, id, t, {}).0, id, {}) == (db, Done)
  {
    hide Created, Deleted, Mirror;
    var (created, _) := Created(db, id, t, {});
    CreateKeepsMirror(db, id, t, {});
    DeleteTrunkKeepsMirror(created, id, {});
    assert db.trunks[id := WithDefaults(t)] - {id} == db.trunks;
    MirrorIsUnique(db, Deleted(created, id, {}).0);
  }

  lemma RowsOf(db: Tables, id: string)
    requires Mirror(db) && id in db.trunks
    ensures db.trunks[id].endpoint in db.aors && db.trunks[id].endpoint in db.endpoints
    ensures HasAuth(db.trunks[id]) ==> db.trunks[id].endpoint + "-auth" in db.auths
  {
    var t := db.trunks[id];
    TrunkRows(t);
    assert AORS.row(t).Some? && ENDPOINTS.row(t).Some? && (HasAuth(t) ==> AUTHS.row(t).Some?);
  }

  lemma OwnerOf<R>(trunks: map<string, Trunk>, table: map<string, R>, d: Derived<R>, k: string) returns (id: string)
    requires Image(trunks, table, d) && k in table
    ensures id in trunks && d.row(trunks[id]) == Some(table[k])
  {
    id :| id in trunks && d.row(trunks[id]).Some? && trunks[id].endpoint + d.suffix == k;
  }

  /** No row refers to a row that is missing. */
  lemma NothingDangles(db: Tables)
    requires Mirror(db)
    ensures forall k :: k in db.registrations ==> db.registrations[k].outboundAuth in db.auths
    ensures forall k :: k in db.identifies ==> db.identifies[k].endpoint in db.endpoints
    ensures forall k :: k in db.endpoints ==>
              && db.endpoints[k].aors in db.aors
              && (db.endpoints[k].outboundAuth.Some? ==> db.endpoints[k].outboundAuth.value in db.auths)
  {
    hide Image, ServerUri;
    forall k | k in db.registrations
      ensures db.registrations[k].outboundAuth in db.auths
    {
      var id := OwnerOf(db.trunks, db.registrations, REGISTRATIONS, k);
      RowsOf(db, id);
    }
    forall k | k in db.identifies
      ensures db.identifies[k].endpoint in db.endpoints
    {
      var id := OwnerOf(db.trunks, db.identifies, IDENTIFIES, k);
      RowsOf(db, id);
    }
    forall k | k in db.endpoints
      ensures db.endpoints[k].aors in db.aors
      ensures db.endpoints[k].outboundAuth.Some? ==> db.endpoints[k].outboundAuth.value in db.auths
    {
      var id := OwnerOf(db.trunks, db.endpoints, ENDPOINTS, k);
      RowsOf(db, id);
    }
  }

  // ----- what the operations and the tables say, in full

  /** The inserts that a trunk needs do not fail. */
  predicate InsertsWork(t: Trunk, faults: set<Statement>) {
    && InsertAor !in faults && InsertEndpoint !in faults
    && (t.username != "" || t.password != "" ==> InsertAuth !in faults)
    && (t.register && t.host != "" && t.username != "" ==> InsertRegistration !in faults)
    && (t.identifyIp != "" ==> InsertIdentify !in faults)
  }

  lemma InsertStepsWork(t: Trunk, faults: set<Statement>)
    ensures faults !! InsertSteps(t) <==> InsertsWork(t, faults)
  {
    assert InsertAor in InsertSteps(t) && InsertEndpoint in InsertSteps(t);
  }

  /** A new trunk is stored as it is given, but for a missing status and port, exactly if its name is given
      and no trunk has it, the id is new, and the statements work. */
  lemma CreateStores(db: Tables, id: string, t: Trunk, faults: set<Statement>)
    requires Mirror(db)
    ensures var (db', r) := Created(db, id, t, faults);
      && (r == Done <==>
            && t.endpoint != "" && id !in db.trunks
            && (forall k :: k in db.trunks ==> db.trunks[k].endpoint != t.endpoint)
            && Begin !in faults && WriteTrunk !in faults && Commit !in faults && InsertsWork(t, faults))
      && (r == Done ==> db'.trunks == db.trunks[id := t.(status := if t.status == "" then "active" else t.status,
                                                         port := if t.port == 0 then 5060 else t.port)])
  {
    CreateKeepsMirror(db, id, t, faults);
    InsertStepsWork(t, faults);
    TakenByOther(db.trunks, id, t.endpoint);
    hide Created, Mirror, InsertSteps, InsertsWork, Taken;
    assert faults !! {Begin, WriteTrunk, Commit} <==> Begin !in faults && WriteTrunk !in faults && Commit !in faults;
  }

  lemma TakenByOther(trunks: map<string, Trunk>, id: string, endpoint: string)
    ensures !Taken(trunks, id, endpoint) <==> forall k :: k in trunks && k != id ==> trunks[k].endpoint != endpoint
  {
  }

  /** What an update stores: a password that is neither empty nor the mask is a new one. */
  function Stored(t: Trunk, password: string): Trunk {
    if t.password == "" || t.password == "********" then t.(password := password) else t
  }

  /** A trunk is updated exactly if it exists, no other trunk has the name, and the statements work. */
  lemma UpdateSucceeds(db: Tables, id: string, t: Trunk, faults: set<Statement>)
    requires Mirror(db)
    ensures Updated(db, id, t, faults).1 == Done <==>
            && id in db.trunks && t.endpoint != ""
            && (forall k :: k in db.trunks && k != id ==> db.trunks[k].endpoint != t.endpoint)
            && Begin !in faults && SelectTrunk !in faults && WriteTrunk !in faults && Commit !in faults
            && DeleteIdentify !in faults && DeleteRegistration !in faults && DeleteEndpoint !in faults
            && DeleteAuth !in faults && DeleteAor !in faults
            && InsertsWork(Stored(t, db.trunks[id].password), faults)
  {
    UpdateKeepsMirror(db, id, t, faults);
    TakenByOther(db.trunks, id, t.endpoint);
    UpdateFaults(faults);
    if id in db.trunks {
      var kept := Stored(t, db.trunks[id].password);
      assert Kept(t, db.trunks[id]) == kept;
      InsertStepsWork(kept, faults);
      Apart(faults, {Begin, SelectTrunk, WriteTrunk, Commit} + DELETES, InsertSteps(kept));
    }
    hide *;
  }

  lemma Apart(faults: set<Statement>, a: set<Statement>, b: set<Statement>)
    ensures faults !! a + b <==> faults !! a && faults !! b
  {
  }

  /** The new password is stored, and found among the auths under the new name; a masked or empty one leaves
      the old. Other trunks stay as they are. */
  lemma UpdateStores(db: Tables, id: string, t: Trunk, faults: set<Statement>)
    requires Mirror(db) && Updated(db, id, t, faults).1 == Done
    ensures var db' := Updated(db, id, t, faults).0;
      && id in db.trunks && db'.trunks.Keys == db.trunks.Keys
      && (forall k :: k in db.trunks && k != id ==> db'.trunks[k] == db.trunks[k])
      && (t.password != "" && t.password != "********" ==>
            db'.trunks[id] == t && t.endpoint + "-auth" in db'.auths
            && db'.auths[t.endpoint + "-auth"] == Auth(t.username, t.password))
      && (t.password == "" || t.password == "********" ==>
            db'.trunks[id] == t.(password := db.trunks[id].password))
  {
    UpdateKeepsMirror(db, id, t, faults);
    hide Updated, Mirror;
    StoredInFull(db.trunks, Updated(db, id, t, faults).0, id, t);
  }

  lemma StoredInFull(trunks: map<string, Trunk>, db': Tables, id: string, t: Trunk)
    requires id in trunks && Mirror(db') && db'.trunks == trunks[id := Kept(t, trunks[id])]
    ensures db'.trunks.Keys == trunks.Keys && forall k :: k in trunks && k != id ==> db'.trunks[k] == trunks[k]
    ensures t.password != "" && t.password != "********" ==>
              db'.trunks[id] == t && t.endpoint + "-auth" in db'.auths
              && db'.auths[t.endpoint + "-auth"] == Auth(t.username, t.password)
    ensures t.password == "" || t.password == "********" ==>
              db'.trunks[id] == t.(password := trunks[id].password)
  {
    KeptInFull(t, trunks[id]);
    hide *;
    if t.password != "" && t.password != "********" {
      AuthInFull(db', id);
    }
  }

  lemma KeptInFull(t: Trunk, current: Trunk)
    ensures t.password != "" && t.password != "********" ==> Kept(t, current) == t
    ensures t.password == "" || t.password == "********" ==> Kept(t, current) == t.(password := current.password)
  {
  }

  lemma AuthInFull(db: Tables, id: string)
    requires Mirror(db) && id in db.trunks
    ensures var (t, e) := (db.trunks[id], db.trunks[id].endpoint);
      t.password != "" ==> e + "-auth" in db.auths && db.auths[e + "-auth"] == Auth(t.username, t.password)
  {
    RowsInFull(db, id);
  }

  lemma UpdateFaults(faults: set<Statement>)
    ensures faults !! {Begin, SelectTrunk, WriteTrunk, Commit} + DELETES <==>
            && Begin !in faults && SelectTrunk !in faults && WriteTrunk !in faults && Commit !in faults
            && DeleteIdentify !in faults && DeleteRegistration !in faults && DeleteEndpoint !in faults
            && DeleteAuth !in faults && DeleteAor !in faults
  {
  }

  function Uri(t: Trunk): string {
    "sip:" + t.host + ":" + Strings.Decimal(if t.port == 0 then 5060 else t.port)
  }

  /** The rows of a trunk in the five tables, column by column, and which of them it has. */
  lemma RowsInFull(db: Tables, id: string)
    requires Mirror(db) && id in db.trunks
    ensures var (t, e) := (db.trunks[id], db.trunks[id].endpoint);
      var hasAuth := t.username != "" || t.password != "";
      && e in db.aors && db.aors[e] == Aor(if t.host == "" then None else Some(Uri(t)))
      && (e + "-auth" in db.auths <==> hasAuth)
      && (hasAuth ==> db.auths[e + "-auth"] == Auth(t.username, t.password))
      && e in db.endpoints
      && db.endpoints[e] == Endpoint(e, if hasAuth then Some(e + "-auth") else None,
                                     if t.username == "" then None else Some(t.username),
                                     if t.host == "" then None else Some(t.host))
      && (e + "-reg" in db.registrations <==> t.register && t.host != "" && t.username != "")
      && (t.register && t.host != "" && t.username != "" ==>
            db.registrations[e + "-reg"] == Registration(e + "-auth", Uri(t), "sip:" + t.username + "@" + t.host))
      && (e + "-identify" in db.identifies <==> t.identifyIp != "")
      && (t.identifyIp != "" ==> db.identifies[e + "-identify"] == Identify(e, t.identifyIp))
  {
    var t := db.trunks[id];
    TrunkRows(t);
    OwnRow(db.trunks, db.aors, AORS, id);
    OwnRow(db.trunks, db.auths, AUTHS, id);
    OwnRow(db.trunks, db.endpoints, ENDPOINTS, id);
    OwnRow(db.trunks, db.registrations, REGISTRATIONS, id);
    OwnRow(db.trunks, db.identifies, IDENTIFIES, id);
    hide Image, Named, Strings.Decimal;
  }

  /** A trunk has a row in a table exactly if the table says so. */
  lemma OwnRow<R>(trunks: map<string, Trunk>, table: map<string, R>, d: Derived<R>, id: string)
    requires Named(trunks) && Image(trunks, table, d) && id in trunks
    ensures var key := trunks[id].endpoint + d.suffix;
      d.row(trunks[id]) == if key in table then Some(table[key]) else None
  {
    var key := trunks[id].endpoint + d.suffix;
    if key in table {
      var a :| a in trunks && d.row(trunks[a]).Some? && trunks[a].endpoint + d.suffix == key;
      SuffixInjective(trunks[a].endpoint, trunks[id].endpoint, d.suffix);
    }
  }

  /** Every row of the five tables belongs to a trunk, under the key that comes from its name. */
  lemma NoOrphans(db: Tables)
    requires Mirror(db)
    ensures forall k :: k in db.aors || k in db.endpoints ==>
              exists id :: id in db.trunks && db.trunks[id].endpoint == k
    ensures forall k :: k in db.auths ==> exists id :: id in db.trunks && db.trunks[id].endpoint + "-auth" == k
    ensures forall k :: k in db.registrations ==> exists id :: id in db.trunks && db.trunks[id].endpoint + "-reg" == k
    ensures forall k :: k in db.identifies ==>
              exists id :: id in db.trunks && db.trunks[id].endpoint + "-identify" == k
  {
    Owners(db.trunks, db.aors, AORS);
    Owners(db.trunks, db.endpoints, ENDPOINTS);
    Owners(db.trunks, db.auths, AUTHS);
    Owners(db.trunks, db.registrations, REGISTRATIONS);
    Owners(db.trunks, db.identifies, IDENTIFIES);
    hide Image, Named;
    forall id | id in db.trunks
      ensures db.trunks[id].endpoint + AORS.suffix == db.trunks[id].endpoint
      ensures db.trunks[id].endpoint + ENDPOINTS.suffix == db.trunks[id].endpoint
    {
      TrunkRows(db.trunks[id]);
    }
  }

  lemma Owners<R>(trunks: map<string, Trunk>, table: map<string, R>, d: Derived<R>)
    requires Image(trunks, table, d)
    ensures forall k :: k in table ==> exists id :: id in trunks && trunks[id].endpoint + d.suffix == k
  {
  }
}
