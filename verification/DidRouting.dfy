/** Who owns a phone number, and which bot answers a call to it:
    backend/internal/store/did_routing.go, the DID half of backend/internal/store/trunks.go,
    and AssignBotDID in backend/internal/store/store.go. */
module DidRouting {
  import opened Options
  import opened Strings

  datatype Did = Did(tenant: Option<string>, e164: string, active: bool)

  datatype Bot = Bot(tenant: string, did: Option<string>)

  datatype Rule = Rule(
    tenant: string, did: string, priority: int, createdAt: int, enabled: bool, timezone: string,
    days: seq<int>, startMinute: Option<int>, endMinute: Option<int>,
    prefixes: seq<string>, language: string, target: string, fallback: Option<string>)

  datatype Db = Db(dids: map<string, Did>, bots: map<string, Bot>, rules: map<string, Rule>)

  datatype Outcome = Done | NotFound | Failed

  // ----- writes; `dbOk` says whether the database carries the call out

  /** An absent and an empty reference both mean none. */
  function Given(s: Option<string>): Option<string> {
    if s.Some? && s.value != "" then s else None
  }

  // Ids are generated when the caller gives none, so an empty one never gets stored.
  function DidCreated(db: Db, id: string, d: Did, dbOk: bool): (Db, Outcome) {
    if !dbOk || id == "" || id in db.dids || (exists k :: k in db.dids && db.dids[k].e164 == d.e164) then (db, Failed)
    else (db.(dids := db.dids[id := d.(tenant := Given(d.tenant))]), Done)
  }

  /** A new number and status; an id that does not exist is told apart from a number that is taken. */
  function DidUpdated(db: Db, id: string, e164: string, active: bool, dbOk: bool): (Db, Outcome) {
    if !dbOk then (db, Failed)
    else if id !in db.dids then (db, NotFound)
    else if exists k :: k in db.dids && k != id && db.dids[k].e164 == e164 then (db, Failed)
    else (db.(dids := db.dids[id := db.dids[id].(e164 := e164, active := active)]), Done)
  }

  function BotCreated(db: Db, id: string, tenant: string, dbOk: bool): (Db, Outcome) {
    if !dbOk || id == "" || id in db.bots then (db, Failed)
    else (db.(bots := db.bots[id := Bot(tenant, None)]), Done)
  }

  /** The bots once nobody uses the DID any more. */
  function Detached(bots: map<string, Bot>, did: string): map<string, Bot> {
    map b | b in bots :: if bots[b].did == Some(did) then bots[b].(did := None) else bots[b]
  }

  function DidAssigned(db: Db, did: string, tenant: Option<string>, dbOk: bool): (Db, Outcome) {
    if !dbOk then (db, Failed)
    else if did !in db.dids then (db, NotFound)
    else
      var current := db.dids[did].tenant;
      var leaves := current.Some? && Given(tenant) != current;
      (db.(bots := if leaves then Detached(db.bots, did) else db.bots,
           dids := db.dids[did := db.dids[did].(tenant := Given(tenant))]), Done)
  }

  function BotDidAssigned(db: Db, tenant: string, bot: string, did: Option<string>, dbOk: bool): (Db, Outcome) {
    if Given(did).Some? && did.value !in db.dids then (db, if dbOk then NotFound else Failed)
    else if Given(did).Some? && db.dids[did.value].tenant != Some(tenant) then (db, Failed)
    else if !dbOk then (db, Failed)
    else if bot !in db.bots || db.bots[bot].tenant != tenant then (db, NotFound)
    else if did.Some? && did.value !in db.dids then (db, Failed)  // the foreign key refuses it
    else (db.(bots := db.bots[bot := db.bots[bot].(did := did)]), Done)
  }

  predicate BotInTenant(db: Db, tenant: string, bot: string) {
    bot != "" && bot in db.bots && db.bots[bot].tenant == tenant
  }

  predicate TargetsOwned(db: Db, r: Rule) {
    BotInTenant(db, r.tenant, r.target) && (Given(r.fallback).Some? ==> BotInTenant(db, r.tenant, r.fallback.value))
  }

  /** An empty fallback passes the ownership check and is then refused by the foreign key. */
  predicate ReferencesExist(db: Db, r: Rule) {
    r.fallback.Some? ==> r.fallback.value in db.bots
  }

  // A DID in the pool has no tenant to read, which is an error of its own; a failed lookup of a bot
  // (`lookupOk` is false) counts as no such bot.
  function RuleCreated(db: Db, id: string, r: Rule, lookupOk: bool, dbOk: bool): (Db, Outcome) {
    if !dbOk then (db, Failed)
    else if r.did !in db.dids then (db, NotFound)
    else if db.dids[r.did].tenant.None? then (db, Failed)
    else if db.dids[r.did].tenant != Some(r.tenant) || !lookupOk || !TargetsOwned(db, r) then (db, NotFound)
    else if id in db.rules || !ReferencesExist(db, r) then (db, Failed)
    else (db.(rules := db.rules[id := r]), Done)
  }

  function RuleUpdated(db: Db, id: string, r: Rule, lookupOk: bool, dbOk: bool): (Db, Outcome) {
    if !lookupOk || !TargetsOwned(db, r) then (db, NotFound)
    else if !dbOk then (db, Failed)
    else if id !in db.rules || db.rules[id].tenant != r.tenant then (db, NotFound)
    else if !ReferencesExist(db, r) then (db, Failed)
    else (db.(rules := db.rules[id := r.(did := db.rules[id].did, createdAt := db.rules[id].createdAt)]), Done)
  }

  function RuleDeleted(db: Db, tenant: string, id: string, dbOk: bool): (Db, Outcome) {
    if !dbOk then (db, Failed)
    else if id !in db.rules || db.rules[id].tenant != tenant then (db, NotFound)
    else (db.(rules := db.rules - {id}), Done)
  }

  class Store {
    var db: Db

    method CreateDid(id: string, d: Did, dbOk: bool) returns (r: Outcome)
      modifies this
      ensures (db, r) == DidCreated(old(db), id, d, dbOk)
    {
      var tenant := None;
      if d.tenant.Some? && d.tenant.value != "" {
        tenant := Some(d.tenant.value);
      }
      if !dbOk || id == "" || id in db.dids || exists k :: k in db.dids && db.dids[k].e164 == d.e164 {
        return Failed;
      }
      db := db.(dids := db.dids[id := d.(tenant := tenant)]);
      return Done;
    }

    method UpdateDid(id: string, e164: string, active: bool, dbOk: bool) returns (r: Outcome)
      modifies this
      ensures (db, r) == DidUpdated(old(db), id, e164, active, dbOk)
    {
      if !dbOk {
        return Failed;
      }
      if id !in db.dids {
        return NotFound;
      }
      if exists k :: k in db.dids && k != id && db.dids[k].e164 == e164 {
        return Failed;
      }
      db := db.(dids := db.dids[id := db.dids[id].(e164 := e164, active := active)]);
      return Done;
    }

    // One transaction: detach the DID from bots if it leaves its tenant, then move it.
    method AssignDidToTenant(did: string, tenant: Option<string>, dbOk: bool) returns (r: Outcome)
      modifies this
      ensures (db, r) == DidAssigned(old(db), did, tenant, dbOk)
    {
      if !dbOk {
        return Failed;
      }
      if did !in db.dids {
        return NotFound;
      }
      var tx := db;
      var current := tx.dids[did].tenant;
      if current.Some? && (tenant.None? || tenant.value == "" || current.value != tenant.value) {
        tx := tx.(bots := Detached(tx.bots, did));
      }
      var newTenant := None;
      if tenant.Some? && tenant.value != "" {
        newTenant := Some(tenant.value);
      }
      tx := tx.(dids := tx.dids[did := tx.dids[did].(tenant := newTenant)]);
      db := tx;
      return Done;
    }

    method AssignBotDid(tenant: string, bot: string, did: Option<string>, dbOk: bool) returns (r: Outcome)
      modifies this
      ensures (db, r) == BotDidAssigned(old(db), tenant, bot, did, dbOk)
    {
      if did.Some? && did.value != "" {
        if did.value !in db.dids {
          return if dbOk then NotFound else Failed;
        }
        var owner := db.dids[did.value].tenant;
        if owner.None? || owner.value != tenant {
          return Failed;
        }
      }
      if !dbOk {
        return Failed;
      }
      if bot !in db.bots || db.bots[bot].tenant != tenant {
        return NotFound;
      }
      if did.Some? && did.value !in db.dids {
        return Failed;
      }
      db := db.(bots := db.bots[bot := db.bots[bot].(did := did)]);
      return Done;
    }

    method CreateRule(id: string, r: Rule, lookupOk: bool, dbOk: bool) returns (o: Outcome)
      modifies this
      ensures (db, o) == RuleCreated(old(db), id, r, lookupOk, dbOk)
    {
      if !dbOk {
        return Failed;
      }
      if r.did !in db.dids {
        return NotFound;
      }
      if db.dids[r.did].tenant.None? {
        return Failed;
      }
      if db.dids[r.did].tenant.value != r.tenant || !lookupOk || !BotInTenant(db, r.tenant, r.target) {
        return NotFound;
      }
      if r.fallback.Some? && r.fallback.value != "" {
        if !BotInTenant(db, r.tenant, r.fallback.value) {
          return NotFound;
        }
      }
      if id in db.rules || !ReferencesExist(db, r) {
        return Failed;
      }
      db := db.(rules := db.rules[id := r]);
      return Done;
    }

    method UpdateRule(id: string, r: Rule, lookupOk: bool, dbOk: bool) returns (o: Outcome)
      modifies this
      ensures (db, o) == RuleUpdated(old(db), id, r, lookupOk, dbOk)
    {
      if !lookupOk || !BotInTenant(db, r.tenant, r.target) {
        return NotFound;
      }
      if r.fallback.Some? && r.fallback.value != "" {
        if !BotInTenant(db, r.tenant, r.fallback.value) {
          return NotFound;
        }
      }
      if !dbOk {
        return Failed;
      }
      if id !in db.rules || db.rules[id].tenant != r.tenant {
        return NotFound;
      }
      if !ReferencesExist(db, r) {
        return Failed;
      }
      db := db.(rules := db.rules[id := r.(did := db.rules[id].did, createdAt := db.rules[id].createdAt)]);
      return Done;
    }
  }

  // ----- tenants never mix

  /** A bot's DID and a rule's bots belong to the tenant of the bot and of the rule. */
  ghost predicate TenantsAgree(db: Db) {
    && "" !in db.bots && "" !in db.dids
    && (forall b :: b in db.bots && db.bots[b].did.Some? ==>
          db.bots[b].did.value in db.dids && db.dids[db.bots[b].did.value].tenant == Some(db.bots[b].tenant))
    && (forall r :: r in db.rules ==>
          && BotInTenant(db, db.rules[r].tenant, db.rules[r].target)
          && (db.rules[r].fallback.Some? ==> BotInTenant(db, db.rules[r].tenant, db.rules[r].fallback.value)))
  }

  datatype Command =
    | CreateDid(id: string, d: Did, dbOk: bool)
    | UpdateDid(id: string, e164: string, active: bool, dbOk: bool)
    | CreateBot(id: string, tenant: string, dbOk: bool)
    | AssignDid(id: string, owner: Option<string>, dbOk: bool)
    | AssignBotDid(tenant: string, bot: string, did: Option<string>, dbOk: bool)
    | CreateRule(id: string, rule: Rule, lookupOk: bool, dbOk: bool)
    | UpdateRule(id: string, rule: Rule, lookupOk: bool, dbOk: bool)
    | DeleteRule(tenant: string, id: string, dbOk: bool)

  function Step(db: Db, c: Command): Db {
    match c
    case CreateDid(id, d, ok) => DidCreated(db, id, d, ok).0
    case UpdateDid(id, e164, active, ok) => DidUpdated(db, id, e164, active, ok).0
    case CreateBot(id, tenant, ok) => BotCreated(db, id, tenant, ok).0
    case AssignDid(id, owner, ok) => DidAssigned(db, id, owner, ok).0
    case AssignBotDid(tenant, bot, did, ok) => BotDidAssigned(db, tenant, bot, did, ok).0
    case CreateRule(id, r, found, ok) => RuleCreated(db, id, r, found, ok).0
    case UpdateRule(id, r, found, ok) => RuleUpdated(db, id, r, found, ok).0
    case DeleteRule(tenant, id, ok) => RuleDeleted(db, tenant, id, ok).0
  }

  function After(commands: seq<Command>): Db {
    if commands == [] then Db(map[], map[], map[])
    else Step(After(commands[..|commands| - 1]), commands[|commands| - 1])
  }

  lemma StepKeepsTenants(db: Db, c: Command)
    requires TenantsAgree(db)
    ensures TenantsAgree(Step(db, c))
  {
  }

  lemma {:induction false} EveryRunKeepsTenants(commands: seq<Command>)
    ensures TenantsAgree(After(commands))
  {
    hide Step;
    if commands != [] {
      EveryRunKeepsTenants(commands[..|commands| - 1]);
      StepKeepsTenants(After(commands[..|commands| - 1]), commands[|commands| - 1]);
    }
  }

  // ----- what each operation does, in full

  /** A DID is stored as it is given, an empty owner meaning none, exactly if neither its id nor its number exists. */
  lemma DidCreatedInFull(db: Db, id: string, d: Did, dbOk: bool)
    ensures var (db', r) := DidCreated(db, id, d, dbOk);
      && (r == Done <==> dbOk && id != "" && id !in db.dids
                         && forall k :: k in db.dids ==> db.dids[k].e164 != d.e164)
      && (r != Done ==> db' == db)
      && (r == Done ==> db' == Db(
            db.dids[id := Did(if d.tenant == Some("") then None else d.tenant, d.e164, d.active)], db.bots, db.rules))
  {
  }

  lemma DidUpdatedInFull(db: Db, id: string, e164: string, active: bool, dbOk: bool)
    ensures var (db', r) := DidUpdated(db, id, e164, active, dbOk);
      && (r == Done <==> dbOk && id in db.dids
                         && forall k :: k in db.dids && k != id ==> db.dids[k].e164 != e164)
      && (r != Done ==> db' == db)
      && (r == Done ==> db' == Db(db.dids[id := Did(db.dids[id].tenant, e164, active)], db.bots, db.rules))
  {
  }

  /** A DID gets the owner, an empty one meaning none. It is taken from the bots that had it exactly if it had
      another owner before. */
  lemma DidAssignedInFull(db: Db, did: string, tenant: Option<string>, dbOk: bool)
    ensures var (db', r) := DidAssigned(db, did, tenant, dbOk);
      var owner := if tenant == Some("") then None else tenant;
      && (r == Done <==> dbOk && did in db.dids)
      && (r != Done ==> db' == db)
      && (r == Done ==>
            && db'.dids == db.dids[did := Did(owner, db.dids[did].e164, db.dids[did].active)]
            && db'.rules == db.rules && db'.bots.Keys == db.bots.Keys
            && forall b :: b in db.bots ==>
                 db'.bots[b] == if db.bots[b].did == Some(did)
                                   && db.dids[did].tenant.Some? && db.dids[did].tenant != owner
                                then Bot(db.bots[b].tenant, None) else db.bots[b])
  {
  }

  /** A bot gets a DID, or none, exactly if the bot is the tenant's, and so is the DID. */
  lemma BotDidAssignedInFull(db: Db, tenant: string, bot: string, did: Option<string>, dbOk: bool)
    requires TenantsAgree(db)
    ensures var (db', r) := BotDidAssigned(db, tenant, bot, did, dbOk);
      && (r == Done <==>
            && dbOk && bot in db.bots && db.bots[bot].tenant == tenant
            && (did.None? || (did.value in db.dids && db.dids[did.value].tenant == Some(tenant))))
      && (r != Done ==> db' == db)
      && (r == Done ==> db' == Db(db.dids, db.bots[bot := Bot(tenant, did)], db.rules))
  {
  }

  /** The bots of a rule are the tenant's, or there is no fallback. */
  predicate BotsOwned(db: Db, r: Rule) {
    && r.target in db.bots && db.bots[r.target].tenant == r.tenant
    && (r.fallback.None? || (r.fallback.value in db.bots && db.bots[r.fallback.value].tenant == r.tenant))
  }

  /** A rule is stored exactly if its id is new, and its DID and its bots are the tenant's. */
  lemma RuleCreatedInFull(db: Db, id: string, rule: Rule, lookupOk: bool, dbOk: bool)
    requires TenantsAgree(db)
    ensures var (db', r) := RuleCreated(db, id, rule, lookupOk, dbOk);
      && (r == Done <==>
            && dbOk && lookupOk && id !in db.rules
            && rule.did in db.dids && db.dids[rule.did].tenant == Some(rule.tenant) && BotsOwned(db, rule))
      && (r != Done ==> db' == db)
      && (r == Done ==> db' == Db(db.dids, db.bots, db.rules[id := rule]))
  {
  }

  /** A rule of the tenant is changed, but for its DID and its age, exactly if its bots are the tenant's. */
  lemma RuleUpdatedInFull(db: Db, id: string, rule: Rule, lookupOk: bool, dbOk: bool)
    requires TenantsAgree(db)
    ensures var (db', r) := RuleUpdated(db, id, rule, lookupOk, dbOk);
      && (r == Done <==>
            dbOk && lookupOk && id in db.rules && db.rules[id].tenant == rule.tenant && BotsOwned(db, rule))
      && (r != Done ==> db' == db)
      && (r == Done ==> db' == Db(db.dids, db.bots, db.rules[
            id := rule.(did := db.rules[id].did, createdAt := db.rules[id].createdAt)]))
  {
  }

  /** A rule goes exactly if it exists and is the tenant's. */
  lemma RuleDeletedInFull(db: Db, tenant: string, id: string, dbOk: bool)
    ensures var (db', r) := RuleDeleted(db, tenant, id, dbOk);
      && (r == Done <==> dbOk && id in db.rules && db.rules[id].tenant == tenant)
      && (r != Done ==> db' == db)
      && (r == Done ==> db'.dids == db.dids && db'.bots == db.bots && db'.rules == db.rules - {id})
  {
  }

  // ----- does a rule match a call

  // What the resolver is told about a call; the clock gives the local weekday and minute of a time zone.
  datatype Call = Call(caller: string, language: string, clock: string -> (int, int))

  predicate InWindow(a: int, b: int, minute: int) {
    if a <= b then a <= minute < b else minute >= a || minute < b
  }

  predicate Matches(r: Rule, call: Call) {
    var (weekday, minute) := call.clock(r.timezone);
    && (r.days == [] || weekday in r.days)
    && (r.startMinute.Some? && r.endMinute.Some? ==> InWindow(r.startMinute.value, r.endMinute.value, minute))
    && (r.prefixes == [] || exists p :: p in r.prefixes && TrimSpace(p) != "" && TrimSpace(p) <= TrimSpace(call.caller))
    && (TrimSpace(r.language) == "" || EqualFold(TrimSpace(r.language), TrimSpace(call.language)))
  }

  method RuleMatches(r: Rule, call: Call) returns (ok: bool)
    ensures ok == Matches(r, call)
  {
    var (weekday, minute) := call.clock(r.timezone);
    if |r.days| > 0 {
      var found := false;
      for i := 0 to |r.days|
        invariant !found && weekday !in r.days[..i]
      {
        if r.days[i] == weekday {
          found := true;
          break;
        }
      }
      if !found {
        assert r.days[..|r.days|] == r.days;
        return false;
      }
    }
    if r.startMinute.Some? && r.endMinute.Some? {
      var start, end := r.startMinute.value, r.endMinute.value;
      if start <= end {
        if minute < start || minute >= end {
          return false;
        }
      } else {
        if minute < start && minute >= end {
          return false;
        }
      }
    }
    if |r.prefixes| > 0 {
      var caller := TrimSpace(call.caller);
      var found := false;
      for i := 0 to |r.prefixes|
        invariant !found
        invariant forall p :: p in r.prefixes[..i] ==> !(TrimSpace(p) != "" && TrimSpace(p) <= caller)
      {
        var p := TrimSpace(r.prefixes[i]);
        if p != "" && p <= caller {
          found := true;
          break;
        }
      }
      if !found {
        assert r.prefixes[..|r.prefixes|] == r.prefixes;
        return false;
      }
    }
    if TrimSpace(r.language) != "" {
      if !EqualFold(TrimSpace(r.language), TrimSpace(call.language)) {
        return false;
      }
    }
    return true;
  }

  /** The hours form a circular interval: going round the day from a, the minute comes before b. */
  lemma WindowIsCircular(a: int, b: int, minute: int, day: int)
    requires 0 <= a < day && 0 <= b < day && 0 <= minute < day
    ensures InWindow(a, b, minute) <==> (minute - a) % day < (b - a) % day
  {
    Wrapped(minute - a, day);
    Wrapped(b - a, day);
  }

  /** A rule matches exactly if the local day is among its days, the minute of the day lies between its two ends
      going round the day, the caller's number begins with one of its prefixes, and the language is its own up to
      letter case, where no days, an end that is missing, no prefixes or a blank language leave all calls in.
      A prefix that is blank lets no call in. */
  lemma MatchesInFull(r: Rule, call: Call)
    requires 0 <= call.clock(r.timezone).1 < 1440
    requires r.startMinute.Some? ==> 0 <= r.startMinute.value < 1440
    requires r.endMinute.Some? ==> 0 <= r.endMinute.value < 1440
    ensures var (day, minute) := call.clock(r.timezone);
      var (caller, spoken) := (TrimSpace(call.caller), TrimSpace(call.language));
      Matches(r, call) <==>
        && (|r.days| == 0 || exists i :: 0 <= i < |r.days| && r.days[i] == day)
        && (r.startMinute.None? || r.endMinute.None?
            || (minute - r.startMinute.value) % 1440 < (r.endMinute.value - r.startMinute.value) % 1440)
        && (|r.prefixes| == 0 || exists i :: 0 <= i < |r.prefixes| && Begins(caller, TrimSpace(r.prefixes[i])))
        && (TrimSpace(r.language) == "" || ToLower(TrimSpace(r.language)) == ToLower(spoken))
  {
    var (day, minute) := call.clock(r.timezone);
    if r.startMinute.Some? && r.endMinute.Some? {
      WindowIsCircular(r.startMinute.value, r.endMinute.value, minute, 1440);
    }
    FoldedIffSameLower(TrimSpace(r.language), TrimSpace(call.language));
    hide TrimSpace, InWindow, EqualFold, ToLower;
    forall p
      ensures Begins(TrimSpace(call.caller), TrimSpace(p))
              <==> TrimSpace(p) != "" && TrimSpace(p) <= TrimSpace(call.caller)
    {
    }
  }

  predicate Begins(number: string, prefix: string) {
    0 < |prefix| <= |number| && forall i :: 0 <= i < |prefix| ==> number[i] == prefix[i]
  }

  lemma Wrapped(x: int, day: int)
    requires -day < x < day
    ensures x % day == if x < 0 then x + day else x
  {
    if x < 0 {
      assert (x + day) % day == x + day;
    }
  }

  /** [a, b) and [b, a) together cover every minute once. */
  lemma WindowsPartitionTheDay(a: int, b: int, minute: int)
    requires a != b
    ensures InWindow(a, b, minute) <==> !InWindow(b, a, minute)
  {
  }

  // ----- which bot answers

  datatype Decision = Decision(rule: Option<string>, bot: string, reason: Reason)

  datatype Reason = MatchedRule | DefaultBot | NoRoute

  predicate Wins(db: Db, id: string, call: Call)
    requires id in db.rules
  {
    db.rules[id].enabled && Matches(db.rules[id], call)
  }

  /** The rule ids that the query returns: those of the tenant and the DID, by priority and age. */
  ghost predicate Listing(db: Db, tenant: string, did: string, ids: seq<string>) {
    && (forall i, j :: 0 <= i < j < |ids| ==> ids[i] != ids[j])
    && (forall id :: id in ids <==> id in db.rules && db.rules[id].tenant == tenant && db.rules[id].did == did)
    && (forall i, j :: 0 <= i < j < |ids| ==> NotAfter(db.rules[ids[i]], db.rules[ids[j]]))
  }

  predicate NotAfter(r: Rule, s: Rule) {
    r.priority < s.priority || (r.priority == s.priority && r.createdAt <= s.createdAt)
  }

  function FirstWinner(db: Db, ids: seq<string>, call: Call): (id: Option<string>)
    requires forall id :: id in ids ==> id in db.rules
    ensures id.Some? ==> id.value in ids
  {
    if ids == [] then None
    else if Wins(db, ids[0], call) then Some(ids[0])
    else FirstWinner(db, ids[1..], call)
  }

  predicate IsDefault(db: Db, tenant: string, did: string, bot: string) {
    bot in db.bots && db.bots[bot].did == Some(did) && db.bots[bot].tenant == tenant
  }

  /** The answers the resolver may give; several bots may be the default. */
  ghost predicate Resolves(db: Db, tenant: string, did: string, ids: seq<string>, call: Call, d: Decision)
    requires forall id :: id in ids ==> id in db.rules
  {
    match FirstWinner(db, ids, call)
    case Some(id) => d == Decision(Some(id), db.rules[id].target, MatchedRule)
    case None =>
      || (d.rule == None && d.reason == DefaultBot && IsDefault(db, tenant, did, d.bot))
      || (d == Decision(None, "", NoRoute) && forall b :: b in db.bots ==> !IsDefault(db, tenant, did, b))
  }

  method ResolveDidRouting(db: Db, tenant: string, did: string, ids: seq<string>, call: Call) returns (d: Decision)
    requires Listing(db, tenant, did, ids) && "" !in db.bots
    ensures Resolves(db, tenant, did, ids, call, d)
  {
    for i := 0 to |ids|
      invariant FirstWinner(db, ids, call) == FirstWinner(db, ids[i..], call)
    {
      var r := db.rules[ids[i]];
      assert ids[i..][0] == ids[i] && ids[i..][1..] == ids[i + 1..];
      if !r.enabled {
        continue;
      }
      var matches := RuleMatches(r, call);
      if !matches {
        continue;
      }
      return Decision(Some(ids[i]), r.target, MatchedRule);
    }
    var defaultBot := "";
    if exists b :: b in db.bots && IsDefault(db, tenant, did, b) {
      var b :| b in db.bots && IsDefault(db, tenant, did, b);
      defaultBot := b;
    }
    if defaultBot != "" {
      return Decision(None, defaultBot, DefaultBot);
    }
    return Decision(None, "", NoRoute);
  }

  lemma {:induction false} FirstWinnerIsFirst(db: Db, ids: seq<string>, call: Call)
    requires forall id :: id in ids ==> id in db.rules
    ensures match FirstWinner(db, ids, call)
      case None => forall id :: id in ids ==> !Wins(db, id, call)
      case Some(id) => exists k :: 0 <= k < |ids| && ids[k] == id && Wins(db, id, call)
                         && forall j :: 0 <= j < k ==> !Wins(db, ids[j], call)
  {
    if ids != [] && !Wins(db, ids[0], call) {
      FirstWinnerIsFirst(db, ids[1..], call);
      if FirstWinner(db, ids[1..], call).Some? {
        var id := FirstWinner(db, ids[1..], call).value;
        var k :| 0 <= k < |ids[1..]| && ids[1..][k] == id && forall j :: 0 <= j < k ==> !Wins(db, ids[1..][j], call);
        assert ids[k + 1] == id;
        assert forall j :: 1 <= j < k + 1 ==> ids[j] == ids[1..][j - 1];
      }
    }
  }

  /** The chosen rule is the least enabled matching one; without one the default bot answers, and
      there is no route exactly when there is no default bot either. */
  lemma DecisionIsLeast(db: Db, tenant: string, did: string, ids: seq<string>, call: Call, d: Decision)
    requires Listing(db, tenant, did, ids) && Resolves(db, tenant, did, ids, call, d)
    ensures d.reason == MatchedRule ==> (
              && d.rule.Some? && d.rule.value in ids && Wins(db, d.rule.value, call)
              && d.bot == db.rules[d.rule.value].target
              && forall id :: id in ids && Wins(db, id, call) ==> NotAfter(db.rules[d.rule.value], db.rules[id]))
    ensures d.reason == MatchedRule <==> exists id :: id in ids && Wins(db, id, call)
    ensures d.reason == DefaultBot ==>
              d.bot in db.bots && db.bots[d.bot].did == Some(did) && db.bots[d.bot].tenant == tenant
    ensures d.reason == NoRoute <==> (
              && (forall id :: id in ids ==> !Wins(db, id, call))
              && (forall b :: b in db.bots ==> db.bots[b].did != Some(did) || db.bots[b].tenant != tenant))
  {
    FirstWinnerIsFirst(db, ids, call);
  }

  // ----- taking out a rule

  /** Every listing the query may return leads the resolver to this decision. */
  ghost predicate Decides(db: Db, tenant: string, did: string, call: Call, d: Decision) {
    forall ids, d' :: Listing(db, tenant, did, ids) && Resolves(db, tenant, did, ids, call, d') ==> d' == d
  }

  ghost predicate Wants(db: Db, tenant: string, did: string, call: Call, id: string) {
    id in db.rules && db.rules[id].tenant == tenant && db.rules[id].did == did && Wins(db, id, call)
  }

  predicate SameRank(r: Rule, s: Rule) {
    r.priority == s.priority && r.createdAt == s.createdAt
  }

  /** No other rule that wants the call has the rank of the chosen one; no other bot is the default. */
  ghost predicate NoRival(db: Db, tenant: string, did: string, call: Call, d: Decision)
    requires d.rule.Some? ==> d.rule.value in db.rules
  {
    match d.reason
    case MatchedRule =>
      forall id :: Wants(db, tenant, did, call, id) && d.rule.Some? && id != d.rule.value ==>
        !SameRank(db.rules[id], db.rules[d.rule.value])
    case DefaultBot => forall b :: IsDefault(db, tenant, did, b) ==> b == d.bot
    case NoRoute => true
  }

  lemma {:induction false} FirstWinnerAt(db: Db, ids: seq<string>, k: nat, call: Call)
    requires (forall id :: id in ids ==> id in db.rules) && k < |ids|
    requires Wins(db, ids[k], call) && forall j :: 0 <= j < k ==> !Wins(db, ids[j], call)
    ensures FirstWinner(db, ids, call) == Some(ids[k])
  {
    if k > 0 {
      assert !Wins(db, ids[0], call);
      FirstWinnerAt(db, ids[1..], k - 1, call);
    }
  }

  lemma SwapListed(db: Db, tenant: string, did: string, ids: seq<string>, k: nat, j: nat)
    requires Listing(db, tenant, did, ids) && k < j < |ids|
    requires SameRank(db.rules[ids[k]], db.rules[ids[j]])
    ensures Listing(db, tenant, did, ids[k := ids[j]][j := ids[k]])
  {
    var swapped := ids[k := ids[j]][j := ids[k]];
    SwapKeepsMembers(ids, k, j);
    forall i | 0 <= i < |ids|
      ensures ids[i] in db.rules && swapped[i] in db.rules
      ensures swapped[i] == ids[if i == k then j else if i == j then k else i]
      ensures k <= i <= j ==> SameRank(db.rules[ids[i]], db.rules[ids[k]])
    {
      assert ids[i] in ids && swapped[i] in ids;
    }
  }

  lemma SwapKeepsMembers(ids: seq<string>, k: nat, j: nat)
    requires k < j < |ids|
    ensures forall id :: id in ids[k := ids[j]][j := ids[k]] <==> id in ids
  {
    var swapped := ids[k := ids[j]][j := ids[k]];
    forall id | id in ids
      ensures id in swapped
    {
      var i :| 0 <= i < |ids| && ids[i] == id;
      assert id == swapped[if i == k then j else if i == j then k else i];
    }
  }

  lemma SwappedWinner(db: Db, ids: seq<string>, k: nat, j: nat, call: Call)
    requires (forall id :: id in ids ==> id in db.rules) && k < j < |ids| && Wins(db, ids[j], call)
    requires forall i :: 0 <= i < k ==> !Wins(db, ids[i], call)
    ensures forall id :: id in ids[k := ids[j]][j := ids[k]] ==> id in db.rules
    ensures FirstWinner(db, ids[k := ids[j]][j := ids[k]], call) == Some(ids[j])
  {
    hide Wins, FirstWinner;
    SwapKeepsMembers(ids, k, j);
    FirstWinnerAt(db, ids[k := ids[j]][j := ids[k]], k, call);
  }

  lemma Positions(db: Db, tenant: string, did: string, ids: seq<string>, call: Call, chosen: string, rival: string)
    returns (k: nat, j: nat)
    requires Listing(db, tenant, did, ids) && FirstWinner(db, ids, call) == Some(chosen)
    requires Wants(db, tenant, did, call, rival) && rival != chosen
    ensures k < j < |ids| && ids[k] == chosen && ids[j] == rival
    ensures forall i :: 0 <= i < k ==> !Wins(db, ids[i], call)
  {
    FirstWinnerIsFirst(db, ids, call);
    hide Wins, FirstWinner;
    k :| 0 <= k < |ids| && ids[k] == chosen && forall j :: 0 <= j < k ==> !Wins(db, ids[j], call);
    j :| 0 <= j < |ids| && ids[j] == rival;
  }

  /** A rule of the same rank may as well be listed first. */
  lemma RivalMayWin(db: Db, tenant: string, did: string, ids: seq<string>, call: Call, d: Decision, rival: string)
    requires Listing(db, tenant, did, ids) && Resolves(db, tenant, did, ids, call, d) && d.reason == MatchedRule
    requires Wants(db, tenant, did, call, rival) && Some(rival) != d.rule
    requires d.rule.Some? && d.rule.value in db.rules && SameRank(db.rules[rival], db.rules[d.rule.value])
    ensures !Decides(db, tenant, did, call, d)
  {
    ListedAreRules(db, tenant, did, ids);
    hide Wins, FirstWinner, Listing;
    var k, j := Positions(db, tenant, did, ids, call, d.rule.value, rival);
    SwapListed(db, tenant, did, ids, k, j);
    SwappedWinner(db, ids, k, j, call);
    assert Resolves(db, tenant, did, ids[k := ids[j]][j := ids[k]], call,
                    Decision(Some(rival), db.rules[rival].target, MatchedRule));
  }

  /** A decision does not depend on how the query lists rules of the same rank, or picks one of several
      default bots, exactly when it has no rival. */
  lemma DecidesIffNoRival(db: Db, tenant: string, did: string, ids: seq<string>, call: Call, d: Decision)
    requires Listing(db, tenant, did, ids) && Resolves(db, tenant, did, ids, call, d)
    ensures d.rule.Some? ==> d.rule.value in db.rules
    ensures Decides(db, tenant, did, call, d) <==> NoRival(db, tenant, did, call, d)
  {
    hide Matches;
    DecisionIsLeast(db, tenant, did, ids, call, d);
    if NoRival(db, tenant, did, call, d) {
      forall ids', d' | Listing(db, tenant, did, ids') && Resolves(db, tenant, did, ids', call, d')
        ensures d' == d
      {
        SameDecision(db, tenant, did, ids, ids', call, d, d');
      }
    } else if d.reason == MatchedRule {
      var rival :| Wants(db, tenant, did, call, rival) && rival != d.rule.value
                   && SameRank(db.rules[rival], db.rules[d.rule.value]);
      RivalMayWin(db, tenant, did, ids, call, d, rival);
    } else {
      var b :| IsDefault(db, tenant, did, b) && b != d.bot;
      assert Resolves(db, tenant, did, ids, call, Decision(None, b, DefaultBot));
    }
  }

  lemma SameDecision(db: Db, tenant: string, did: string, ids: seq<string>, ids': seq<string>, call: Call,
                     d: Decision, d': Decision)
    requires Listing(db, tenant, did, ids) && Resolves(db, tenant, did, ids, call, d)
    requires Listing(db, tenant, did, ids') && Resolves(db, tenant, did, ids', call, d')
    requires (d.rule.Some? ==> d.rule.value in db.rules) && NoRival(db, tenant, did, call, d)
    ensures d' == d
  {
    hide Wins;
    DecisionIsLeast(db, tenant, did, ids, call, d);
    DecisionIsLeast(db, tenant, did, ids', call, d');
    assert forall id :: id in ids <==> id in ids';
    if d.reason == MatchedRule {
      assert Wants(db, tenant, did, call, d'.rule.value);
    }
  }

  lemma {:induction false} FirstWinnerWithout(db: Db, ids: seq<string>, k: nat, call: Call)
    requires (forall id :: id in ids ==> id in db.rules) && k < |ids|
    requires FirstWinner(db, ids, call) != Some(ids[k])
    ensures FirstWinner(db, ids[..k] + ids[k + 1..], call) == FirstWinner(db, ids, call)
  {
    if k == 0 {
      assert ids[..0] + ids[1..] == ids[1..];
    } else {
      assert (ids[..k] + ids[k + 1..])[1..] == ids[1..][..k - 1] + ids[1..][k..];
      if !Wins(db, ids[0], call) {
        FirstWinnerWithout(db, ids[1..], k - 1, call);
      }
    }
  }

  lemma {:induction false} FirstWinnerOfSame(db: Db, db': Db, ids: seq<string>, call: Call)
    requires forall id :: id in ids ==> id in db.rules && id in db'.rules && db.rules[id] == db'.rules[id]
    ensures FirstWinner(db', ids, call) == FirstWinner(db, ids, call)
  {
    hide Matches;
    if ids != [] {
      FirstWinnerOfSame(db, db', ids[1..], call);
    }
  }

  /** What the query may list once a rule is gone. */
  lemma ListingWithout(db: Db, tenant: string, did: string, ids: seq<string>, gone: string, call: Call)
    returns (left: seq<string>)
    requires Listing(db, tenant, did, ids) && gone in db.rules && FirstWinner(db, ids, call) != Some(gone)
    ensures Listing(db.(rules := db.rules - {gone}), tenant, did, left)
    ensures FirstWinner(db.(rules := db.rules - {gone}), left, call) == FirstWinner(db, ids, call)
  {
    var db' := db.(rules := db.rules - {gone});
    left := ids;
    ListedAreRules(db, tenant, did, ids);
    if gone in ids {
      var k :| 0 <= k < |ids| && ids[k] == gone;
      left := ids[..k] + ids[k + 1..];
      FirstWinnerWithout(db, ids, k, call);
      DropListed(db, tenant, did, ids, k);
    }
    hide FirstWinner;
    FirstWinnerOfSame(db, db', left, call);
  }

  lemma DropListed(db: Db, tenant: string, did: string, ids: seq<string>, k: nat)
    requires Listing(db, tenant, did, ids) && k < |ids|
    ensures Listing(db.(rules := db.rules - {ids[k]}), tenant, did, ids[..k] + ids[k + 1..])
  {
    var left := ids[..k] + ids[k + 1..];
    forall i | 0 <= i < |left|
      ensures left[i] == ids[if i < k then i else i + 1] && left[i] in ids && left[i] != ids[k]
    {
    }
    forall id | id in ids && id != ids[k]
      ensures id in left
    {
      var i :| 0 <= i < |ids| && ids[i] == id;
      assert id == left[if i < k then i else i - 1];
    }
  }

  /** After the deletion of a rule that was not chosen, the resolver still decides as before, whatever
      order the query lists the rules in, exactly when the decision has no rival among the rules that are left. */
  lemma DeletingUnchosenRule(db: Db, tenant: string, did: string, ids: seq<string>, call: Call, d: Decision,
                             gone: string)
    requires Listing(db, tenant, did, ids) && Resolves(db, tenant, did, ids, call, d)
    requires gone in db.rules && d.rule != Some(gone)
    ensures var (db', r) := RuleDeleted(db, db.rules[gone].tenant, gone, true);
      && r == Done
      && (d.rule.Some? ==> d.rule.value in db'.rules)
      && (Decides(db', tenant, did, call, d) <==> NoRival(db', tenant, did, call, d))
  {
    hide Matches, Listing;
    var db' := db.(rules := db.rules - {gone});
    ListedAreRules(db, tenant, did, ids);
    var left := ListingWithout(db, tenant, did, ids, gone, call);
    ListedAreRules(db', tenant, did, left);
    assert Resolves(db', tenant, did, left, call, d);
    DecidesIffNoRival(db', tenant, did, left, call, d);
  }

  lemma ListedAreRules(db: Db, tenant: string, did: string, ids: seq<string>)
    requires Listing(db, tenant, did, ids)
    ensures forall id :: id in ids ==> id in db.rules
  {
  }

  /** Three rules that match every call; the first two have the same rank. */
  function Tied(a: string, b: string, c: string): Db {
    var r := Rule("t", "d", 1, 0, true, "", [], None, None, [], "", "b", None);
    Db(map["d" := Did(Some("t"), "34", true)], map["b" := Bot("t", None)],
       map[a := r, b := r, c := r.(priority := 2)])
  }

  lemma TiedWin(a: string, b: string, c: string, id: string, call: Call)
    requires id in Tied(a, b, c).rules
    ensures Wins(Tied(a, b, c), id, call)
  {
    assert TrimSpace("") == "";
  }

  /** Of two rules of the same rank either may be listed first, so that deleting a third one, which no
      call reaches, can change who is chosen. */
  lemma DeletionBreaksTie(a: string, b: string, c: string, call: Call)
    requires a != b && b != c && c != a
    ensures var db := Tied(a, b, c);
      var db' := RuleDeleted(db, "t", c, true).0;
      && Listing(db, "t", "d", [a, b, c])
      && Resolves(db, "t", "d", [a, b, c], call, Decision(Some(a), "b", MatchedRule))
      && Listing(db', "t", "d", [b, a])
      && Resolves(db', "t", "d", [b, a], call, Decision(Some(b), "b", MatchedRule))
  {
    var db := Tied(a, b, c);
    var db' := db.(rules := db.rules - {c});
    assert Wins(db', b, call) by {
      TiedWin(a, b, c, b, call);
    }
    TiedWin(a, b, c, a, call);
    FirstWinnerAt(db, [a, b, c], 0, call);
    FirstWinnerAt(db', [b, a], 0, call);
    TiedListings(a, b, c);
    hide Wins, FirstWinner, Listing;
  }

  lemma TiedListing(a: string, b: string, c: string)
    requires a != b && b != c && c != a
    ensures Listing(Tied(a, b, c), "t", "d", [a, b, c])
  {
  }

  lemma TiedListings(a: string, b: string, c: string)
    requires a != b && b != c && c != a
    ensures var db := Tied(a, b, c);
      && Listing(db, "t", "d", [a, b, c])
      && Listing(db.(rules := db.rules - {c}), "t", "d", [b, a])
  {
    var db, swapped := Tied(a, b, c), [b, a, c];
    TiedListing(a, b, c);
    hide Listing;
    SwapListed(db, "t", "d", [a, b, c], 0, 1);
    assert [a, b, c][0 := b][1 := a] == swapped;
    DropListed(db, "t", "d", swapped, 2);
    assert swapped[..2] + swapped[3..] == [b, a];
  }

  /** The DID that an inbound number reaches. */
  predicate Reaches(db: Db, e164: string, did: string) {
    && e164 != "" && did in db.dids && db.dids[did].active && db.dids[did].tenant.Some?
    && db.dids[did].e164 in {e164, if e164[0] != '+' then "+" + e164 else e164}
  }

  ghost predicate NumbersDiffer(db: Db) {
    forall a, b :: a in db.dids && b in db.dids && db.dids[a].e164 == db.dids[b].e164 ==> a == b
  }

  lemma StepKeepsNumbersApart(db: Db, c: Command)
    requires NumbersDiffer(db)
    ensures NumbersDiffer(Step(db, c))
  {
  }

  lemma {:induction false} EveryRunKeepsNumbersApart(commands: seq<Command>)
    ensures NumbersDiffer(After(commands))
  {
    if commands != [] {
      hide Step, NumbersDiffer;
      EveryRunKeepsNumbersApart(commands[..|commands| - 1]);
      StepKeepsNumbersApart(After(commands[..|commands| - 1]), commands[|commands| - 1]);
    }
  }

  /** A DID under exactly this number is active and owned by a tenant. */
  ghost predicate Answering(db: Db, number: string) {
    exists did :: did in db.dids && db.dids[did].e164 == number && db.dids[did].active && db.dids[did].tenant.Some?
  }

  /** After any commands an inbound number reaches two DIDs exactly when it came without a plus sign, and
      DIDs are stored, active and owned both under it and under it with the sign. */
  lemma NumberIsAmbiguousIff(commands: seq<Command>, e164: string)
    ensures var db := After(commands);
      (exists a, b :: a != b && Reaches(db, e164, a) && Reaches(db, e164, b))
      <==> e164 != "" && e164[0] != '+' && Answering(db, e164) && Answering(db, "+" + e164)
  {
    var db := After(commands);
    EveryRunKeepsNumbersApart(commands);
    if e164 != "" && e164[0] != '+' && Answering(db, e164) && Answering(db, "+" + e164) {
      var a :| a in db.dids && db.dids[a].e164 == e164 && db.dids[a].active && db.dids[a].tenant.Some?;
      var b :| b in db.dids && db.dids[b].e164 == "+" + e164 && db.dids[b].active && db.dids[b].tenant.Some?;
      assert |db.dids[b].e164| == |db.dids[a].e164| + 1;
      assert Reaches(db, e164, a) && Reaches(db, e164, b);
    }
  }

  /** Two tenants can come to share the number "34": it is stored for one as it is, for the other with the sign. */
  lemma NumberOfTwoTenants()
    ensures var db := After([CreateDid("a", Did(Some("t"), "34", true), true),
                             CreateDid("b", Did(Some("u"), "+34", true), true)]);
      Reaches(db, "34", "a") && Reaches(db, "34", "b") && db.dids["a"].tenant != db.dids["b"].tenant
  {
    var a, b := CreateDid("a", Did(Some("t"), "34", true), true), CreateDid("b", Did(Some("u"), "+34", true), true);
    assert [a, b][..1] == [a] && [a][..0] == [];
    assert After([a]) == Step(After([]), a);
    assert After([a]).dids == map["a" := a.d];
    assert |a.d.e164| == 2 && |b.d.e164| == 3;
    assert After([a, b]) == Step(After([a]), b);
    assert After([a, b]).dids == map["a" := a.d, "b" := b.d];
    assert "+" + "34" == "+34";
    assert "34"[0] != '+';
  }

  /** In every reachable state a call is only ever routed to a bot of the tenant that owns the DID. */
  lemma CallsStayInTenant(commands: seq<Command>, e164: string, did: string, ids: seq<string>, call: Call, d: Decision)
    requires var db := After(commands);
      && Reaches(db, e164, did)
      && Listing(db, db.dids[did].tenant.value, did, ids)
      && Resolves(db, db.dids[did].tenant.value, did, ids, call, d)
    ensures var db := After(commands);
      d.reason != NoRoute ==> d.bot in db.bots && Some(db.bots[d.bot].tenant) == db.dids[did].tenant
  {
    var db := After(commands);
    EveryRunKeepsTenants(commands);
    FirstWinnerIsFirst(db, ids, call);
  }
}
