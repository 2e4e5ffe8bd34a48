/** The SQL texts that backend/internal/store/mutations.go and campaign_leads.go put together,
    and what they mean when read with their argument lists. */
module SqlPatch {
  import opened Options
  import opened Strings

  // ----- itoa

  const INT_MIN: int := -0x8000_0000_0000_0000

  type int64 = n: int | -0x8000_0000_0000_0000 <= n < 0x8000_0000_0000_0000

  lemma NineteenDigits()
    ensures Pow10(19) == 10_000_000_000_000_000_000
  {
    assert Pow10(4) == 10_000;
    assert Pow10(8) == 100_000_000;
    assert Pow10(12) == 1_000_000_000_000;
    assert Pow10(16) == 10_000_000_000_000_000;
  }

  function ItoaText(n: int64): string {
    if n == INT_MIN then "-" else Decimal(n)
  }

  lemma LastDigit(n: nat, rest: string)
    ensures var shown := [Digit(n % 10)] + rest;
      if n < 10 then Digits(n) + rest == shown && |Digits(n)| == 1
      else Digits(n) + rest == Digits(n / 10) + shown && |Digits(n)| == |Digits(n / 10)| + 1
  {
  }

  method Itoa(n0: int64) returns (s: string)
    ensures s == ItoaText(n0)
  {
    var n: int64 := n0;
    if n == 0 {
      return "0";
    }
    var neg := n < 0;
    if neg {
      n := if n == INT_MIN then INT_MIN else -n;  // two's complement negation
    }
    ghost var m := n;
    hide Digits, Pow10;
    var buf := new char[20];
    var i := buf.Length;
    NineteenDigits();
    if n > 0 {
      DigitsLength(n, 19);
    }
    while n > 0
      invariant 0 < i <= 20 && n <= m
      invariant n > 0 ==> |Digits(n)| < i && Digits(m) == Digits(n) + buf[i..]
      invariant n == 0 ==> Digits(m) == buf[i..]
      invariant n < 0 ==> n == m && i == 20
    {
      LastDigit(n, buf[i..]);
      i := i - 1;
      buf[i] := Digit(n % 10);
      assert buf[i..] == [Digit(n % 10)] + buf[i + 1..];
      n := n / 10;
    }
    if neg {
      i := i - 1;
      buf[i] := '-';
      assert buf[i..] == "-" + buf[i + 1..];
    }
    return buf[i..];
  }

  /** The text has at most 20 bytes, and reads back as the number unless it is the least one. */
  lemma ItoaReadsBack(n: int64)
    ensures |ItoaText(n)| <= 20
    ensures n >= 0 ==> ReadNat(ItoaText(n)) == n
    ensures n < 0 ==> (ItoaText(n)[0] == '-' && ReadNat(ItoaText(n)[1..]) == -(n as int) <==> n != INT_MIN)
  {
    NineteenDigits();
    if n != INT_MIN {
      var m := if n < 0 then -n else n;
      DigitsReadBack(m);
      DigitsLength(m, 19);
      assert n < 0 ==> ItoaText(n)[1..] == Digits(m);
    }
  }

  // ----- reading an UPDATE

  datatype Value = Text(text: string) | Number(n: int) | Flag(b: bool) | Time(at: int) | Null

  /** What a column is set to: a value, read as some type if a cast says so, or the time of the update. */
  datatype Cell = Cell(v: Value, cast: string) | Now

  /** The argument that a placeholder such as $3 or $3::jsonb stands for; None if there is none. */
  function Argument(rhs: string, args: seq<Value>): Option<Cell> {
    if rhs == "" || rhs[0] != '$' then None
    else
      var cut := Index(rhs[1..], "::");
      var k := ReadNat(if cut < 0 then rhs[1..] else rhs[1..][..cut]);
      var cast := if cut < 0 then "" else rhs[1..][cut + 2..];
      if 1 <= k <= |args| then Some(Cell(args[k - 1], cast)) else None
  }

  /** One assignment of the SET list, or one condition: the column, and what it is to be. */
  function Assignment(clause: string, args: seq<Value>): Option<(string, Cell)> {
    var eq := Index(clause, " = ");
    if eq < 0 then None
    else
      var (col, rhs) := (clause[..eq], clause[eq + 3..]);
      if rhs == "NULL" then Some((col, Cell(Null, "")))
      else if rhs == "now()" then Some((col, Now))
      else
        var c :- Argument(rhs, args);
        Some((col, c))
  }

  /** What the assignments do to a row, column by column; None unless all are readable. */
  function Reading(set_: seq<string>, args: seq<Value>): Option<map<string, Cell>> {
    if set_ == [] then Some(map[])
    else
      var m :- Reading(set_[..|set_| - 1], args);
      var a :- Assignment(set_[|set_| - 1], args);
      Some(m[a.0 := a.1])
  }

  datatype Statement = Statement(text: string, args: seq<Value>)

  // An UPDATE: the table, what each column is set to, and what columns of a row have to be for it to apply.
  datatype Update = Update(sets: map<string, Cell>, conditions: map<string, Cell>)

  /** The statement read from its text: UPDATE, the table, SET, a list of assignments with commas between,
      WHERE, and conditions with AND between. */
  function ParseUpdate(q: Statement, table: string): Option<Update> {
    var head := "UPDATE " + table + " SET ";
    if !(head <= q.text) then None
    else
      var rest := q.text[|head|..];
      var k := Index(rest, " WHERE ");
      if k < 0 then None
      else
        var sets :- Reading(Split(rest[..k], ", "), q.args);
        var conditions :- Reading(Split(rest[k + 7..], " AND "), q.args);
        Some(Update(sets, conditions))
  }

  /** Does the update apply to a row with these values? */
  ghost predicate Applies(u: Update, row: map<string, Value>) {
    forall col :: col in u.conditions ==>
      u.conditions[col].Cell? && col in row && row[col] == u.conditions[col].v
  }

  /** The statement sets exactly the given columns, and applies exactly to the row with this tenant and id. */
  ghost predicate Means(q: Statement, table: string, tenant: string, id: string, cells: map<string, Cell>) {
    && ParseUpdate(q, table).Some?
    && var u := ParseUpdate(q, table).value;
       && u.sets == cells
       && forall row :: Applies(u, row) <==>
            "tenant_id" in row && row["tenant_id"] == Text(tenant) && "id" in row && row["id"] == Text(id)
  }

  // ----- writing an UPDATE

  predicate IsColumn(col: string) {
    col != "" && forall i :: 0 <= i < |col| ==> 'a' <= col[i] <= 'z' || col[i] == '_'
  }

  lemma DecimalIsPlain(n: nat)
    ensures ReadNat(Decimal(n)) == n && ':' !in Decimal(n) && ',' !in Decimal(n) && 'W' !in Decimal(n)
  {
    DigitsReadBack(n);
  }

  function CastName(cast: string): string {
    if |cast| < 2 then "" else cast[2..]
  }

  /** The placeholder of the newest argument reads as that argument. */
  lemma NewestArgument(args: seq<Value>, v: Value, cast: string)
    requires cast == "" || cast == "::jsonb"
    ensures Argument("$" + Decimal(|args| + 1) + cast, args + [v]) == Some(Cell(v, CastName(cast)))
  {
    hide Index, ReadNat, Decimal;
    var d := Decimal(|args| + 1);
    DecimalIsPlain(|args| + 1);
    var rhs := "$" + d + cast;
    assert rhs[1..] == d + cast;
    if cast == "" {
      assert d + "" == d;
      IndexNone(d, "::");
    } else {
      IndexAfter(d, "::", "jsonb");
      assert d + "::" + "jsonb" == d + cast;
      assert (d + cast)[..|d|] == d && (d + cast)[|d| + 2..] == "jsonb";
    }
    assert (args + [v])[|args|] == v;
  }

  lemma AssignmentOf(col: string, rhs: string, args: seq<Value>)
    requires IsColumn(col)
    ensures var a := Assignment(col + " = " + rhs, args);
      a == if rhs == "NULL" then Some((col, Cell(Null, "")))
           else if rhs == "now()" then Some((col, Now))
           else if Argument(rhs, args).None? then None
           else Some((col, Argument(rhs, args).value))
  {
    IndexAfter(col, " = ", rhs);
    var clause := col + " = " + rhs;
    assert clause[..|col|] == col && clause[|col| + 3..] == rhs;
  }

  lemma ArgumentStays(rhs: string, args: seq<Value>, v: Value)
    requires Argument(rhs, args).Some?
    ensures Argument(rhs, args + [v]) == Argument(rhs, args)
  {
  }

  lemma {:induction false} ReadingStays(set_: seq<string>, args: seq<Value>, v: Value)
    requires Reading(set_, args).Some?
    ensures Reading(set_, args + [v]) == Reading(set_, args)
  {
    hide Argument;
    if set_ != [] {
      ReadingStays(set_[..|set_| - 1], args, v);
      var clause := set_[|set_| - 1];
      var eq := Index(clause, " = ");
      if clause[eq + 3..] != "NULL" && clause[eq + 3..] != "now()" {
        ArgumentStays(clause[eq + 3..], args, v);
      }
    }
  }

  lemma ReadingSnoc(set_: seq<string>, clause: string, args: seq<Value>)
    requires Reading(set_, args).Some? && Assignment(clause, args).Some?
    ensures var a := Assignment(clause, args).value;
      Reading(set_ + [clause], args) == Some(Reading(set_, args).value[a.0 := a.1])
  {
    assert (set_ + [clause])[..|set_|] == set_;
  }

  predicate Plain(clause: string) {
    ',' !in clause && 'W' !in clause
  }

  /** Every clause is readable, and holds neither a comma nor the start of WHERE. */
  ghost predicate WellFormed(clauses: seq<string>, args: seq<Value>) {
    && Reading(clauses, args).Some?
    && |args| <= |clauses| + 2
    && forall i :: 0 <= i < |clauses| ==> Plain(clauses[i])
  }

  lemma AddClause(clauses: seq<string>, args: seq<Value>, clause: string)
    requires WellFormed(clauses, args) && Plain(clause)
    requires Assignment(clause, args).Some?
    ensures WellFormed(clauses + [clause], args)
    ensures var a := Assignment(clause, args).value;
      Reading(clauses + [clause], args) == Some(Reading(clauses, args).value[a.0 := a.1])
  {
    hide Assignment;
    ReadingSnoc(clauses, clause, args);
  }

  // More fields than any patch has; it keeps argument numbers within 64 bits.
  const MAX_FIELDS: nat := 1000

  lemma ArgsBound(clauses: seq<string>, args: seq<Value>)
    requires WellFormed(clauses, args)
    ensures |args| <= |clauses| + 2
  {
  }

  lemma AddArgument(clauses: seq<string>, args: seq<Value>, col: string, v: Value, cast: string)
    requires WellFormed(clauses, args) && IsColumn(col)
    requires cast == "" || cast == "::jsonb"
    ensures var clause := col + " = $" + Decimal(|args| + 1) + cast;
      && WellFormed(clauses + [clause], args + [v])
      && Reading(clauses + [clause], args + [v]) == Some(Reading(clauses, args).value[col := Cell(v, CastName(cast))])
  {
    hide Reading, Argument, Assignment, Decimal;
    var rhs := "$" + Decimal(|args| + 1) + cast;
    var clause := col + " = $" + Decimal(|args| + 1) + cast;
    assert clause == col + " = " + rhs;
    assert rhs[0] == '$';
    NewestArgument(args, v, cast);
    AssignmentOf(col, rhs, args + [v]);
    ReadingStays(clauses, args, v);
    DecimalIsPlain(|args| + 1);
    ReadingSnoc(clauses, clause, args + [v]);
  }

  /** The `set` and `args` slices that the closures of the builders append to. */
  class Builder {
    const tenant: string
    const id: string
    var clauses: seq<string>
    var args: seq<Value>

    ghost predicate Valid()
      reads this
    {
      WellFormed(clauses, args) && [Text(tenant), Text(id)] <= args
    }

    ghost function Cells(): map<string, Cell>
      requires Valid()
      reads this
    {
      Reading(clauses, args).value
    }

    constructor (tenant: string, id: string)
      ensures Valid() && Cells() == map[] && clauses == []
      ensures this.tenant == tenant && this.id == id
    {
      this.tenant, this.id := tenant, id;
      clauses := [];
      args := [Text(tenant), Text(id)];
    }

    method AddNow(col: string)
      requires Valid() && IsColumn(col)
      modifies this
      ensures Valid() && |clauses| == old(|clauses|) + 1
      ensures Cells() == old(Cells())[col := Now]
    {
      hide Reading, Argument, Assignment;
      AssignmentOf(col, "now()", args);
      AddClause(clauses, args, col + " = " + "now()");
      clauses := clauses + [col + " = " + "now()"];
    }

    method AddNull(col: string)
      requires Valid() && IsColumn(col)
      modifies this
      ensures Valid() && |clauses| == old(|clauses|) + 1
      ensures Cells() == old(Cells())[col := Cell(Null, "")]
    {
      hide Reading, Argument, Assignment;
      AssignmentOf(col, "NULL", args);
      AddClause(clauses, args, col + " = " + "NULL");
      clauses := clauses + [col + " = " + "NULL"];
    }

    /** Nothing for an absent field; else the value becomes the next argument, and a clause refers to it. */
    method Add(col: string, val: Option<Value>, cast: string)
      requires Valid() && IsColumn(col) && cast in {"", "::jsonb"} && |clauses| < MAX_FIELDS
      modifies this
      ensures Valid() && |clauses| == old(|clauses|) + (if val.Some? then 1 else 0)
      ensures Cells() == With(old(Cells()), col, val, CastName(cast))
    {
      hide Reading, Decimal, WellFormed;
      if val.None? {
        return;
      }
      AddArgument(clauses, args, col, val.value, cast);
      assert |args| <= |clauses| + 2 by {
        ArgsBound(clauses, args);
      }
      args := args + [val.value];
      var n := Itoa(|args|);
      clauses := clauses + [col + " = $" + n + cast];
    }

    method Finish(table: string) returns (q: Statement)
      requires Valid() && clauses != []
      ensures Means(q, table, tenant, id, Cells())
    {
      hide Means, Reading, Join, Split;
      var list := Join(clauses, ", ");
      q := Statement("UPDATE " + table + " SET " + list + " WHERE tenant_id = $1 AND id = $2", args);
      UpdateReads(q, table, clauses, tenant, id);
    }
  }

  lemma {:induction false} JoinIsPlain(clauses: seq<string>)
    requires forall i :: 0 <= i < |clauses| ==> Plain(clauses[i])
    ensures 'W' !in Join(clauses, ", ")
  {
    JoinLacks(clauses, ", ", 'W');
  }

  lemma WhereSplits()
    ensures Split("tenant_id = $1 AND id = $2", " AND ") == ["tenant_id = $1", "id = $2"]
  {
    hide Split;
    var first, second := "tenant_id = $1", "id = $2";
    assert first + " AND " + second == "tenant_id = $1 AND id = $2";
    SplitBehind(first, " AND ", second);
    NoAnd(second);
  }

  lemma WhereAssignments(tenant: string, id: string, args: seq<Value>)
    requires [Text(tenant), Text(id)] <= args
    ensures Assignment("tenant_id = $1", args) == Some(("tenant_id", Cell(Text(tenant), "")))
    ensures Assignment("id = $2", args) == Some(("id", Cell(Text(id), "")))
  {
    assert IsColumn("tenant_id") && IsColumn("id");
    assert "tenant_id" + " = " + "$1" == "tenant_id = $1" && "id" + " = " + "$2" == "id = $2";
    assert args[0] == [Text(tenant), Text(id)][0] && args[1] == [Text(tenant), Text(id)][1];
    hide Assignment, Argument, IsColumn;
    AssignmentOf("tenant_id", "$1", args);
    AssignmentOf("id", "$2", args);
    FirstTwo(args);
  }

  lemma WhereReads(tenant: string, id: string, args: seq<Value>)
    requires [Text(tenant), Text(id)] <= args
    ensures Reading(Split("tenant_id = $1 AND id = $2", " AND "), args)
            == Some(map["tenant_id" := Cell(Text(tenant), ""), "id" := Cell(Text(id), "")])
  {
    hide Assignment, Split;
    WhereSplits();
    WhereAssignments(tenant, id, args);
    assert Reading([], args) == Some(map[]);
    hide Reading;
    ReadingSnoc([], "tenant_id = $1", args);
    ReadingSnoc(["tenant_id = $1"], "id = $2", args);
    assert [] + ["tenant_id = $1"] == ["tenant_id = $1"];
    assert ["tenant_id = $1"] + ["id = $2"] == ["tenant_id = $1", "id = $2"];
  }

  lemma NoAnd(s: string)
    requires 'A' !in s
    ensures Split(s, " AND ") == [s]
  {
    if Index(s, " AND ") >= 0 {
      IndexFound(s, " AND ", 1);
    }
  }

  lemma FirstTwo(args: seq<Value>)
    requires |args| >= 2
    ensures Argument("$1", args) == Some(Cell(args[0], ""))
    ensures Argument("$2", args) == Some(Cell(args[1], ""))
  {
    PlaceholderReads(args, 1);
    PlaceholderReads(args, 2);
    assert Digits(1) == "1" && Digits(2) == "2";
  }

  lemma UpdateTextParts(table: string, list: string, where: string)
    requires 'W' !in list
    ensures var head, text := "UPDATE " + table + " SET ", "UPDATE " + table + " SET " + list + " WHERE " + where;
      && head <= text
      && var rest := text[|head|..];
         Index(rest, " WHERE ") == |list| && rest[..|list|] == list && rest[|list| + 7..] == where
  {
    hide Index;
    var head, text := "UPDATE " + table + " SET ", "UPDATE " + table + " SET " + list + " WHERE " + where;
    assert text == head + (list + " WHERE " + where);
    assert text[|head|..] == list + " WHERE " + where;
    IndexBehind(list, " WHERE ", where);
  }

  lemma UpdateReads(q: Statement, table: string, clauses: seq<string>, tenant: string, id: string)
    requires clauses != [] && WellFormed(clauses, q.args) && [Text(tenant), Text(id)] <= q.args
    requires q.text == "UPDATE " + table + " SET " + Join(clauses, ", ") + " WHERE tenant_id = $1 AND id = $2"
    ensures Means(q, table, tenant, id, Reading(clauses, q.args).value)
  {
    hide Reading, Join, Split, Assignment, Applies, Index;
    var list, where := Join(clauses, ", "), "tenant_id = $1 AND id = $2";
    JoinIsPlain(clauses);
    assert q.text == "UPDATE " + table + " SET " + list + " WHERE " + where;
    UpdateTextParts(table, list, where);
    SplitJoin(clauses, ", ");
    WhereReads(tenant, id, q.args);
    AppliesToOne(Reading(clauses, q.args).value, tenant, id);
  }

  lemma AppliesToOne(sets: map<string, Cell>, tenant: string, id: string)
    ensures var u := Update(sets, map["tenant_id" := Cell(Text(tenant), ""), "id" := Cell(Text(id), "")]);
      forall row :: Applies(u, row) <==>
        "tenant_id" in row && row["tenant_id"] == Text(tenant) && "id" in row && row["id"] == Text(id)
  {
    assert "tenant_id" != "id";
  }

  function With(m: map<string, Cell>, col: string, val: Option<Value>, cast: string): map<string, Cell> {
    if val.Some? then m[col := Cell(val.value, cast)] else m
  }

  // ----- the four patches

  datatype LeadPatch = LeadPatch(name: Option<Value>, phone: Option<Value>, email: Option<Value>, kind: Option<Value>,
                                 status: Option<Value>, source: Option<Value>, consent: Option<Value>)

  /** What a lead patch asks for: the given fields, and the time of the update. */
  function LeadCells(p: LeadPatch): map<string, Cell> {
    var m := map["last_activity" := Now];
    var m := With(With(With(m, "name", p.name, ""), "phone", p.phone, ""), "email", p.email, "");
    var m := With(With(m, "type", p.kind, ""), "status", p.status, "");
    With(With(m, "source", p.source, ""), "consent", p.consent, "")
  }

  /** No statement is made for a patch without fields; any other means the patch. */
  method UpdateLead(tenant: string, id: string, p: LeadPatch) returns (q: Option<Statement>)
    ensures q.None? <==> p == LeadPatch(None, None, None, None, None, None, None)
    ensures q.Some? ==> Means(q.value, "leads", tenant, id, LeadCells(p))
  {
    hide With, Reading, WellFormed, Means;
    var b := new Builder(tenant, id);
    b.AddNow("last_activity");
    b.Add("name", p.name, "");
    b.Add("phone", p.phone, "");
    b.Add("email", p.email, "");
    b.Add("type", p.kind, "");
    b.Add("status", p.status, "");
    b.Add("source", p.source, "");
    b.Add("consent", p.consent, "");
    if |b.clauses| == 1 {
      return None;
    }
    var s := b.Finish("leads");
    return Some(s);
  }

  datatype BotPatch = BotPatch(name: Option<Value>, kind: Option<Value>, language: Option<Value>, voice: Option<Value>,
                               status: Option<Value>, objective: Option<Value>, voiceProvider: Option<Value>,
                               amdAction: Option<Value>, voicemailMessage: Option<Value>,
                               elevenLabsAgentId: Option<Value>, amdEnabled: Option<Value>, guardrails: Option<Value>)

  /** The fields of a bot that are plain text. */
  function BotTexts(p: BotPatch): map<string, Cell> {
    var m := With(With(With(map[], "name", p.name, ""), "type", p.kind, ""), "language", p.language, "");
    var m := With(With(With(m, "voice", p.voice, ""), "status", p.status, ""), "objective", p.objective, "");
    var m := With(With(m, "voice_provider", p.voiceProvider, ""), "amd_action", p.amdAction, "");
    With(With(m, "voicemail_message", p.voicemailMessage, ""), "elevenlabs_agent_id", p.elevenLabsAgentId, "")
  }

  function BotCells(p: BotPatch): map<string, Cell> {
    With(With(BotTexts(p), "amd_enabled", p.amdEnabled, ""), "guardrails", p.guardrails, "jsonb")
  }

  lemma BotTextColumns()
    ensures IsColumn("name") && IsColumn("type") && IsColumn("language") && IsColumn("voice") && IsColumn("status")
    ensures IsColumn("objective") && IsColumn("voice_provider") && IsColumn("amd_action")
    ensures IsColumn("voicemail_message") && IsColumn("elevenlabs_agent_id")
  {
  }

  method AddBotTexts(b: Builder, p: BotPatch)
    requires b.Valid() && b.clauses == [] && b.Cells() == map[]
    modifies b
    ensures b.Valid() && |b.clauses| <= 10 && b.Cells() == BotTexts(p)
    ensures b.clauses == [] <==> p == BotPatch(None, None, None, None, None, None, None, None, None, None,
                                               p.amdEnabled, p.guardrails)
  {
    BotTextColumns();
    hide With, Reading, WellFormed, IsColumn, Builder.Valid, Builder.Cells;
    b.Add("name", p.name, "");
    b.Add("type", p.kind, "");
    b.Add("language", p.language, "");
    b.Add("voice", p.voice, "");
    b.Add("status", p.status, "");
    b.Add("objective", p.objective, "");
    b.Add("voice_provider", p.voiceProvider, "");
    b.Add("amd_action", p.amdAction, "");
    b.Add("voicemail_message", p.voicemailMessage, "");
    b.Add("elevenlabs_agent_id", p.elevenLabsAgentId, "");
  }

  method UpdateBot(tenant: string, id: string, p: BotPatch) returns (q: Option<Statement>)
    ensures q.None? <==> p == BotPatch(None, None, None, None, None, None, None, None, None, None, None, None)
    ensures q.Some? ==> Means(q.value, "bots", tenant, id, BotCells(p))
  {
    hide With, Reading, WellFormed, Means;
    var b := new Builder(tenant, id);
    AddBotTexts(b, p);
    b.Add("amd_enabled", p.amdEnabled, "");
    b.Add("guardrails", p.guardrails, "::jsonb");
    if |b.clauses| == 0 {
      return None;
    }
    var s := b.Finish("bots");
    return Some(s);
  }

  datatype CampaignPatch = CampaignPatch(name: Option<Value>, botId: Option<string>, status: Option<Value>,
                                         schedule: Option<Value>, maxAttempts: Option<Value>,
                                         startAt: Option<Value>, endAt: Option<Value>,
                                         clearStartAt: bool, clearEndAt: bool, maxConcurrent: Option<Value>)

  /** An empty bot id detaches the bot. */
  function BotIdValue(botId: Option<string>): Option<Value> {
    if botId.None? then None else if botId.value == "" then Some(Null) else Some(Text(botId.value))
  }

  /** Clearing a date wins over setting it. */
  function DateValue(clear: bool, at: Option<Value>): Option<Value> {
    if clear then Some(Null) else at
  }

  function CampaignCells(p: CampaignPatch): map<string, Cell> {
    var m := With(With(map[], "name", p.name, ""), "bot_id", BotIdValue(p.botId), "");
    var m := With(With(With(m, "status", p.status, ""), "schedule", p.schedule, ""), "max_attempts", p.maxAttempts, "");
    var m := With(m, "start_at", DateValue(p.clearStartAt, p.startAt), "");
    var m := With(m, "end_at", DateValue(p.clearEndAt, p.endAt), "");
    With(m, "max_concurrent", p.maxConcurrent, "")
  }

  method AddBotId(b: Builder, botId: Option<string>)
    requires b.Valid() && |b.clauses| < MAX_FIELDS
    modifies b
    ensures b.Valid() && |b.clauses| == old(|b.clauses|) + (if botId.Some? then 1 else 0)
    ensures b.Cells() == With(old(b.Cells()), "bot_id", BotIdValue(botId), "")
  {
    hide Reading, WellFormed;
    if botId.Some? {
      var v := Null;
      if botId.value != "" {
        v := Text(botId.value);
      }
      b.Add("bot_id", Some(v), "");
    }
  }

  method AddDate(b: Builder, col: string, clear: bool, at: Option<Value>)
    requires b.Valid() && IsColumn(col) && |b.clauses| < MAX_FIELDS
    modifies b
    ensures b.Valid() && |b.clauses| == old(|b.clauses|) + (if clear || at.Some? then 1 else 0)
    ensures b.Cells() == With(old(b.Cells()), col, DateValue(clear, at), "")
  {
    hide Reading, WellFormed;
    if clear {
      b.AddNull(col);
    } else if at.Some? {
      b.Add(col, at, "");
    }
  }

  method UpdateCampaign(tenant: string, id: string, p: CampaignPatch) returns (q: Option<Statement>)
    ensures q.None? <==> p == CampaignPatch(None, None, None, None, None, None, None, false, false, None)
    ensures q.Some? ==> Means(q.value, "campaigns", tenant, id, CampaignCells(p))
  {
    hide With, DateValue, BotIdValue, Reading, WellFormed, Means;
    var b := new Builder(tenant, id);
    b.Add("name", p.name, "");
    AddBotId(b, p.botId);
    b.Add("status", p.status, "");
    b.Add("schedule", p.schedule, "");
    b.Add("max_attempts", p.maxAttempts, "");
    AddDate(b, "start_at", p.clearStartAt, p.startAt);
    AddDate(b, "end_at", p.clearEndAt, p.endAt);
    b.Add("max_concurrent", p.maxConcurrent, "");
    if |b.clauses| == 0 {
      return None;
    }
    var s := b.Finish("campaigns");
    return Some(s);
  }

  datatype PropertyPatch = PropertyPatch(name: Option<Value>, address: Option<Value>, price: Option<Value>,
                                         availability: Option<Value>, requirements: Option<Value>, faqs: Option<Value>)

  function PropertyCells(p: PropertyPatch): map<string, Cell> {
    var m := With(With(With(map[], "name", p.name, ""), "address", p.address, ""), "price", p.price, "");
    var m := With(With(m, "availability", p.availability, ""), "requirements", p.requirements, "jsonb");
    With(m, "faqs", p.faqs, "jsonb")
  }

  method UpdateProperty(tenant: string, id: string, p: PropertyPatch) returns (q: Option<Statement>)
    ensures q.None? <==> p == PropertyPatch(None, None, None, None, None, None)
    ensures q.Some? ==> Means(q.value, "properties", tenant, id, PropertyCells(p))
  {
    hide With, Reading, WellFormed, Means;
    var b := new Builder(tenant, id);
    b.Add("name", p.name, "");
    b.Add("address", p.address, "");
    b.Add("price", p.price, "");
    b.Add("availability", p.availability, "");
    b.Add("requirements", p.requirements, "::jsonb");
    b.Add("faqs", p.faqs, "::jsonb");
    if |b.clauses| == 0 {
      return None;
    }
    var s := b.Finish("properties");
    return Some(s);
  }

  // ----- the patches column by column

  /** What is done to a column; None if it is left alone. */
  function At(m: map<string, Cell>, col: string): Option<Cell> {
    if col in m then Some(m[col]) else None
  }

  function Set(val: Option<Value>, cast: string): Option<Cell> {
    if val.Some? then Some(Cell(val.value, cast)) else None
  }

  // A field of a patch: its column, its value if it is given, and the type its value is cast to.
  datatype Field = Field(col: string, val: Option<Value>, cast: string)

  /** Every given field is set, one after the other. */
  function Fields(base: map<string, Cell>, fs: seq<Field>): map<string, Cell> {
    if fs == [] then base
    else var f := fs[|fs| - 1]; With(Fields(base, fs[..|fs| - 1]), f.col, f.val, f.cast)
  }

  lemma FieldsNext(base: map<string, Cell>, fs: seq<Field>, i: nat)
    requires i < |fs|
    ensures Fields(base, fs[..i + 1]) == With(Fields(base, fs[..i]), fs[i].col, fs[i].val, fs[i].cast)
  {
    assert fs[..i + 1][..i] == fs[..i];
  }

  ghost predicate Apart(fs: seq<Field>) {
    forall i, j :: 0 <= i < j < |fs| ==> fs[i].col != fs[j].col
  }

  /** With a column of its own, a field is set to its value exactly if it is given. */
  lemma {:induction false} FieldsAt(base: map<string, Cell>, fs: seq<Field>, i: nat)
    requires Apart(fs) && i < |fs| && fs[i].col !in base
    ensures At(Fields(base, fs), fs[i].col) == Set(fs[i].val, fs[i].cast)
  {
    var n := |fs| - 1;
    if i < n {
      FieldsAt(base, fs[..n], i);
    } else {
      OtherColumns(base, fs[..n], fs[n].col);
    }
  }

  lemma {:induction false} OtherColumns(base: map<string, Cell>, fs: seq<Field>, col: string)
    requires forall i :: 0 <= i < |fs| ==> fs[i].col != col
    ensures At(Fields(base, fs), col) == At(base, col)
  {
    if fs != [] {
      OtherColumns(base, fs[..|fs| - 1], col);
    }
  }

  lemma AllFieldsAt(base: map<string, Cell>, fs: seq<Field>)
    requires Apart(fs) && forall i :: 0 <= i < |fs| ==> fs[i].col !in base
    ensures forall i :: 0 <= i < |fs| ==> At(Fields(base, fs), fs[i].col) == Set(fs[i].val, fs[i].cast)
    ensures forall col :: col in base ==> At(Fields(base, fs), col) == Some(base[col])
  {
    forall i | 0 <= i < |fs|
      ensures At(Fields(base, fs), fs[i].col) == Set(fs[i].val, fs[i].cast)
    {
      FieldsAt(base, fs, i);
    }
    forall col | col in base
      ensures At(Fields(base, fs), col) == Some(base[col])
    {
      OtherColumns(base, fs, col);
    }
  }

  lemma NoFields(base: map<string, Cell>)
    ensures Fields(base, []) == base
  {
  }

  function LeadFields(p: LeadPatch): seq<Field> {
    [Field("name", p.name, ""), Field("phone", p.phone, ""), Field("email", p.email, ""),
     Field("type", p.kind, ""), Field("status", p.status, ""), Field("source", p.source, ""),
     Field("consent", p.consent, "")]
  }

  lemma LeadIsFields(p: LeadPatch)
    ensures LeadCells(p) == Fields(map["last_activity" := Now], LeadFields(p)) && Apart(LeadFields(p))
  {
    var fs, base := LeadFields(p), map["last_activity" := Now];
    hide With, Fields;
    assert fs[..0] == [] && fs[..7] == fs;
    NoFields(base);
    FieldsNext(base, fs, 0);
    FieldsNext(base, fs, 1);
    FieldsNext(base, fs, 2);
    FieldsNext(base, fs, 3);
    FieldsNext(base, fs, 4);
    FieldsNext(base, fs, 5);
    FieldsNext(base, fs, 6);
  }

  /** Each column of a lead is set exactly if its field is given, to its value. */
  lemma LeadColumns(p: LeadPatch)
    ensures var m := LeadCells(p);
      && At(m, "last_activity") == Some(Now) && At(m, "name") == Set(p.name, "")
      && At(m, "phone") == Set(p.phone, "") && At(m, "email") == Set(p.email, "") && At(m, "type") == Set(p.kind, "")
      && At(m, "status") == Set(p.status, "") && At(m, "source") == Set(p.source, "")
      && At(m, "consent") == Set(p.consent, "")
  {
    var fs := LeadFields(p);
    LeadIsFields(p);
    AllFieldsAt(map["last_activity" := Now], fs);
    hide Fields, Apart, At, Set;
    assert fs[0].col == "name" && fs[1].col == "phone" && fs[2].col == "email" && fs[3].col == "type";
    assert fs[4].col == "status" && fs[5].col == "source" && fs[6].col == "consent";
  }

  function BotFields(p: BotPatch): seq<Field> {
    [Field("name", p.name, ""), Field("type", p.kind, ""), Field("language", p.language, ""),
     Field("voice", p.voice, ""), Field("status", p.status, ""), Field("objective", p.objective, ""),
     Field("voice_provider", p.voiceProvider, ""), Field("amd_action", p.amdAction, ""),
     Field("voicemail_message", p.voicemailMessage, ""), Field("elevenlabs_agent_id", p.elevenLabsAgentId, ""),
     Field("amd_enabled", p.amdEnabled, ""), Field("guardrails", p.guardrails, "jsonb")]
  }

  lemma BotColumnsDiffer(p: BotPatch)
    ensures Apart(BotFields(p))
  {
  }

  lemma BotIsFields(p: BotPatch)
    ensures BotCells(p) == Fields(map[], BotFields(p)) && Apart(BotFields(p))
  {
    BotColumnsDiffer(p);
    hide Apart;
    var fs, base := BotFields(p), map[];
    hide With, Fields;
    assert fs[..0] == [] && fs[..12] == fs;
    NoFields(base);
    FieldsNext(base, fs, 0);
    FieldsNext(base, fs, 1);
    FieldsNext(base, fs, 2);
    FieldsNext(base, fs, 3);
    FieldsNext(base, fs, 4);
    FieldsNext(base, fs, 5);
    FieldsNext(base, fs, 6);
    FieldsNext(base, fs, 7);
    FieldsNext(base, fs, 8);
    FieldsNext(base, fs, 9);
    FieldsNext(base, fs, 10);
    FieldsNext(base, fs, 11);
  }

  /** Each column of a bot is set exactly if its field is given, to its value. The guardrails are read as JSON. */
  lemma BotColumns(p: BotPatch)
    ensures var m := BotCells(p);
      && At(m, "name") == Set(p.name, "") && At(m, "type") == Set(p.kind, "")
      && At(m, "language") == Set(p.language, "") && At(m, "voice") == Set(p.voice, "")
      && At(m, "status") == Set(p.status, "") && At(m, "objective") == Set(p.objective, "")
      && At(m, "voice_provider") == Set(p.voiceProvider, "") && At(m, "amd_action") == Set(p.amdAction, "")
      && At(m, "voicemail_message") == Set(p.voicemailMessage, "")
      && At(m, "elevenlabs_agent_id") == Set(p.elevenLabsAgentId, "")
      && At(m, "amd_enabled") == Set(p.amdEnabled, "") && At(m, "guardrails") == Set(p.guardrails, "jsonb")
  {
    var fs := BotFields(p);
    BotIsFields(p);
    AllFieldsAt(map[], fs);
    hide Fields, Apart, At, Set;
    assert fs[0].col == "name" && fs[1].col == "type" && fs[2].col == "language" && fs[3].col == "voice";
    assert fs[4].col == "status" && fs[5].col == "objective" && fs[6].col == "voice_provider";
    assert fs[7].col == "amd_action" && fs[8].col == "voicemail_message" && fs[9].col == "elevenlabs_agent_id";
    assert fs[10].col == "amd_enabled" && fs[11].col == "guardrails";
  }

  function CampaignFields(p: CampaignPatch): seq<Field> {
    [Field("name", p.name, ""), Field("bot_id", BotIdValue(p.botId), ""), Field("status", p.status, ""),
     Field("schedule", p.schedule, ""), Field("max_attempts", p.maxAttempts, ""),
     Field("start_at", DateValue(p.clearStartAt, p.startAt), ""),
     Field("end_at", DateValue(p.clearEndAt, p.endAt), ""), Field("max_concurrent", p.maxConcurrent, "")]
  }

  lemma CampaignIsFields(p: CampaignPatch)
    ensures CampaignCells(p) == Fields(map[], CampaignFields(p)) && Apart(CampaignFields(p))
  {
    var fs, base := CampaignFields(p), map[];
    hide With, Fields;
    assert fs[..0] == [] && fs[..8] == fs;
    NoFields(base);
    FieldsNext(base, fs, 0);
    FieldsNext(base, fs, 1);
    FieldsNext(base, fs, 2);
    FieldsNext(base, fs, 3);
    FieldsNext(base, fs, 4);
    FieldsNext(base, fs, 5);
    FieldsNext(base, fs, 6);
    FieldsNext(base, fs, 7);
  }

  /** Each column of a campaign is set exactly if its field is given, to its value. Clearing a date wins over
      setting it; an empty bot id detaches the bot. */
  lemma CampaignColumns(p: CampaignPatch)
    ensures var m := CampaignCells(p);
      && At(m, "name") == Set(p.name, "") && At(m, "bot_id") == BotCell(p.botId)
      && At(m, "status") == Set(p.status, "") && At(m, "schedule") == Set(p.schedule, "")
      && At(m, "max_attempts") == Set(p.maxAttempts, "") && At(m, "start_at") == DateCell(p.clearStartAt, p.startAt)
      && At(m, "end_at") == DateCell(p.clearEndAt, p.endAt) && At(m, "max_concurrent") == Set(p.maxConcurrent, "")
  {
    var fs := CampaignFields(p);
    CampaignIsFields(p);
    AllFieldsAt(map[], fs);
    CampaignValues(p);
    hide Fields, Apart, At, DateValue, BotIdValue, Set;
    assert fs[0].col == "name" && fs[1].col == "bot_id" && fs[2].col == "status" && fs[3].col == "schedule";
    assert fs[4].col == "max_attempts" && fs[5].col == "start_at" && fs[6].col == "end_at";
    assert fs[7].col == "max_concurrent";
  }

  function BotCell(botId: Option<string>): Option<Cell> {
    match botId
    case None => None
    case Some(id) => Some(Cell(if id == "" then Null else Text(id), ""))
  }

  function DateCell(clear: bool, at: Option<Value>): Option<Cell> {
    if clear then Some(Cell(Null, "")) else if at.Some? then Some(Cell(at.value, "")) else None
  }

  lemma CampaignValues(p: CampaignPatch)
    ensures Set(BotIdValue(p.botId), "") == BotCell(p.botId)
    ensures Set(DateValue(p.clearStartAt, p.startAt), "") == DateCell(p.clearStartAt, p.startAt)
    ensures Set(DateValue(p.clearEndAt, p.endAt), "") == DateCell(p.clearEndAt, p.endAt)
  {
  }

  function PropertyFields(p: PropertyPatch): seq<Field> {
    [Field("name", p.name, ""), Field("address", p.address, ""), Field("price", p.price, ""),
     Field("availability", p.availability, ""), Field("requirements", p.requirements, "jsonb"),
     Field("faqs", p.faqs, "jsonb")]
  }

  lemma PropertyIsFields(p: PropertyPatch)
    ensures PropertyCells(p) == Fields(map[], PropertyFields(p)) && Apart(PropertyFields(p))
  {
    var fs, base := PropertyFields(p), map[];
    hide With, Fields;
    assert fs[..0] == [] && fs[..6] == fs;
    NoFields(base);
    FieldsNext(base, fs, 0);
    FieldsNext(base, fs, 1);
    FieldsNext(base, fs, 2);
    FieldsNext(base, fs, 3);
    FieldsNext(base, fs, 4);
    FieldsNext(base, fs, 5);
  }

  /** Each column of a property is set exactly if its field is given, to its value. Lists are read as JSON. */
  lemma PropertyColumns(p: PropertyPatch)
    ensures var m := PropertyCells(p);
      && At(m, "name") == Set(p.name, "") && At(m, "address") == Set(p.address, "")
      && At(m, "price") == Set(p.price, "") && At(m, "availability") == Set(p.availability, "")
      && At(m, "requirements") == Set(p.requirements, "jsonb") && At(m, "faqs") == Set(p.faqs, "jsonb")
  {
    var fs := PropertyFields(p);
    PropertyIsFields(p);
    AllFieldsAt(map[], fs);
    hide Fields, Apart, At, Set;
    assert fs[0].col == "name" && fs[1].col == "address" && fs[2].col == "price" && fs[3].col == "availability";
    assert fs[4].col == "requirements" && fs[5].col == "faqs";
  }

  lemma LeadKeys(p: LeadPatch)
    ensures LeadCells(p).Keys
            <= {"last_activity", "name", "phone", "email", "type", "status", "source", "consent"}
  {
  }

  lemma BotKeys(p: BotPatch)
    ensures BotCells(p).Keys
            <= {"name", "type", "language", "voice", "status", "objective", "voice_provider", "amd_action",
                "voicemail_message", "elevenlabs_agent_id", "amd_enabled", "guardrails"}
  {
  }

  lemma CampaignKeys(p: CampaignPatch)
    ensures CampaignCells(p).Keys
            <= {"name", "bot_id", "status", "schedule", "max_attempts", "start_at", "end_at", "max_concurrent"}
  {
  }

  lemma PropertyKeys(p: PropertyPatch)
    ensures PropertyCells(p).Keys
            <= {"name", "address", "price", "availability", "requirements", "faqs"}
  {
  }

  // ----- a bulk insert

  /** The values that a row such as $1, $2, $3, $4 stands for. */
  function RowValues(row: string, args: seq<Value>): seq<Option<Cell>> {
    var parts := Split(row, ", ");
    seq(|parts|, i requires 0 <= i < |parts| => Argument(parts[i], args))
  }

  /** The rows of a VALUES text such as ($1, $2), ($3, $4), without their outer parentheses. */
  function RowTexts(values: string): seq<string> {
    if |values| < 2 then [] else Split(values[1..|values| - 1], "), (")
  }

  /** Row i of the statement's VALUES text reads, with the argument list, as rows[i]. */
  ghost predicate Inserts(q: Statement, rows: seq<seq<Value>>) {
    exists values: string ::
      && q.text == "INSERT INTO campaign_leads (id, tenant_id, campaign_id, lead_id) VALUES " + values
                   + " ON CONFLICT (campaign_id, lead_id) DO NOTHING"
      && Reads(RowTexts(values), q.args, rows)
  }

  ghost predicate Reads(texts: seq<string>, args: seq<Value>, rows: seq<seq<Value>>) {
    && |texts| == |rows|
    && forall i :: 0 <= i < |rows| ==> RowValues(texts[i], args) == Given(rows[i])
  }

  function Given(row: seq<Value>): seq<Option<Cell>> {
    seq(|row|, j requires 0 <= j < |row| => Some(Cell(row[j], "")))
  }

  /** The rows that the caller wants inserted. */
  function LeadRows(tenant: string, campaign: string, leads: seq<string>, newIds: seq<string>): seq<seq<Value>>
    requires |newIds| == |leads|
  {
    seq(|leads|, i requires 0 <= i < |leads| => [Text(newIds[i]), Text(tenant), Text(campaign), Text(leads[i])])
  }

  /** The row of a lead: its new id, the tenant, the campaign and the lead, as the columns are listed. */
  lemma LeadRowInFull(tenant: string, campaign: string, leads: seq<string>, newIds: seq<string>, i: nat)
    requires |newIds| == |leads| && i < |leads|
    ensures LeadRows(tenant, campaign, leads, newIds)[i]
            == [Text(newIds[i]), Text(tenant), Text(campaign), Text(leads[i])]
  {
  }

  /** No statement is made for no leads; any other inserts exactly one row a lead. */
  method AddLeadsToCampaign(tenant: string, campaign: string, leads: seq<string>, newIds: seq<string>)
    returns (q: Option<Statement>)
    requires |newIds| == |leads|
    ensures q.None? <==> leads == []
    ensures q.Some? ==> Inserts(q.value, LeadRows(tenant, campaign, leads, newIds))
  {
    hide RowText, Split, Join;
    if |leads| == 0 {
      return None;
    }
    var args: seq<Value> := [];
    var values: seq<string> := [];
    for i := 0 to |leads|
      invariant |values| == i && |args| == 4 * i
      invariant forall j {:trigger values[j]} :: 0 <= j < i ==> values[j] == "(" + RowText(4 * j) + ")"
      invariant forall j {:trigger leads[j]} :: 0 <= j < i ==>
                  args[4 * j..4 * j + 4] == LeadRows(tenant, campaign, leads, newIds)[j]
    {
      var off := i * 4;
      var row := [Text(newIds[i]), Text(tenant), Text(campaign), Text(leads[i])];
      ArgumentsStay(args, row, i);
      args := args + row;
      values := values + ["(" + RowText(off) + ")"];
    }
    JoinedRowsRead(values, args, LeadRows(tenant, campaign, leads, newIds));
    var text := "INSERT INTO campaign_leads (id, tenant_id, campaign_id, lead_id) VALUES "
      + Join(values, ", ") + " ON CONFLICT (campaign_id, lead_id) DO NOTHING";
    return Some(Statement(text, args));
  }

  lemma ArgumentsStay(args: seq<Value>, row: seq<Value>, i: nat)
    requires |args| == 4 * i && |row| == 4
    ensures forall j :: 0 <= j < i ==> (args + row)[4 * j..4 * j + 4] == args[4 * j..4 * j + 4]
    ensures (args + row)[4 * i..4 * i + 4] == row
  {
  }

  // What Sprintf makes of "$%d, $%d, $%d, $%d".
  function RowText(off: nat): string {
    "$" + Decimal(off + 1) + ", $" + Decimal(off + 2) + ", $" + Decimal(off + 3) + ", $" + Decimal(off + 4)
  }

  function RowList(n: nat): seq<string> {
    seq(n, i requires 0 <= i < n => RowText(4 * i))
  }

  /** Joining rows in parentheses is joining rows and putting the whole in parentheses. */
  lemma {:induction false} JoinInParentheses(values: seq<string>, rows: seq<string>)
    requires |values| == |rows| > 0 && forall i :: 0 <= i < |rows| ==> values[i] == "(" + rows[i] + ")"
    ensures Join(values, ", ") == "(" + Join(rows, "), (") + ")"
  {
    hide Join;
    if |rows| == 1 {
      assert values == [values[0]] && rows == [rows[0]];
      JoinOne(values[0], ", ");
      JoinOne(rows[0], "), (");
    } else {
      JoinInParentheses(values[1..], rows[1..]);
      JoinCons(values[0], values[1..], ", ");
      JoinCons(rows[0], rows[1..], "), (");
      assert [values[0]] + values[1..] == values && [rows[0]] + rows[1..] == rows;
      Regroup(rows[0], Join(rows[1..], "), ("));
    }
  }

  lemma Regroup(row: string, rest: string)
    ensures "(" + row + ")" + ", " + ("(" + rest + ")") == "(" + (row + "), (" + rest) + ")"
  {
  }

  /** Although rows contain the separator of the joined text, its rows are read apart again. */
  lemma JoinedRowsRead(values: seq<string>, args: seq<Value>, rows: seq<seq<Value>>)
    requires |values| == |rows| > 0 && |args| == 4 * |rows|
    requires forall j {:trigger values[j]} :: 0 <= j < |rows| ==> values[j] == "(" + RowText(4 * j) + ")"
    requires forall j {:trigger rows[j]} :: 0 <= j < |rows| ==> |rows[j]| == 4 && args[4 * j..4 * j + 4] == rows[j]
    ensures Reads(RowTexts(Join(values, ", ")), args, rows)
  {
    hide RowText, Join, Split, RowValues;
    var texts := RowList(|rows|);
    JoinInParentheses(values, texts);
    var all := Join(values, ", ");
    assert all[1..|all| - 1] == Join(texts, "), (");
    forall p | p in texts
      ensures ')' !in p
    {
      var i :| 0 <= i < |texts| && texts[i] == p;
      RowHasNoParenthesis(4 * i);
    }
    SplitJoin(texts, "), (");
    forall i | 0 <= i < |rows|
      ensures RowValues(texts[i], args) == Given(rows[i])
    {
      RowReadsItsArguments(args, 4 * i);
      assert Given(rows[i]) == [Some(Cell(rows[i][0], "")), Some(Cell(rows[i][1], "")),
                                 Some(Cell(rows[i][2], "")), Some(Cell(rows[i][3], ""))];
      var own := args[4 * i..4 * i + 4];
      assert own[0] == args[4 * i] && own[1] == args[4 * i + 1];
      assert own[2] == args[4 * i + 2] && own[3] == args[4 * i + 3];
    }
  }

  lemma {:induction false} DigitsHaveNoParenthesis(n: nat)
    ensures ')' !in Digits(n)
  {
    if n >= 10 {
      DigitsHaveNoParenthesis(n / 10);
    }
  }

  lemma RowHasNoParenthesis(off: nat)
    ensures ')' !in RowText(off)
  {
    hide Digits;
    DigitsHaveNoParenthesis(off + 1);
    DigitsHaveNoParenthesis(off + 2);
    DigitsHaveNoParenthesis(off + 3);
    DigitsHaveNoParenthesis(off + 4);
  }

  lemma RowReadsItsArguments(args: seq<Value>, off: nat)
    requires off + 4 <= |args|
    ensures RowValues(RowText(off), args)
            == [Some(Cell(args[off], "")), Some(Cell(args[off + 1], "")),
                Some(Cell(args[off + 2], "")), Some(Cell(args[off + 3], ""))]
  {
    hide Decimal, Split, Join, Argument;
    var ps := [Placeholder(off + 1), Placeholder(off + 2), Placeholder(off + 3), Placeholder(off + 4)];
    JoinFour(ps[0], ps[1], ps[2], ps[3]);
    assert RowText(off) == Join(ps, ", ");
    forall i | 0 <= i < 4
      ensures ',' !in ps[i] && Argument(ps[i], args) == Some(Cell(args[off + i], ""))
    {
      PlaceholderReads(args, off + i + 1);
    }
    SplitJoin(ps, ", ");
  }

  function Placeholder(n: nat): string {
    "$" + Decimal(n)
  }

  lemma PlaceholderReads(args: seq<Value>, n: nat)
    requires 1 <= n <= |args|
    ensures ',' !in Placeholder(n) && Argument(Placeholder(n), args) == Some(Cell(args[n - 1], ""))
  {
    hide Decimal, Index, ReadNat;
    DecimalIsPlain(n);
    IndexNone(Decimal(n), "::");
    assert Placeholder(n)[1..] == Decimal(n);
  }

  lemma JoinFour(a: string, b: string, c: string, d: string)
    ensures Join([a, b, c, d], ", ") == a + ", " + b + ", " + c + ", " + d
  {
    JoinCons(a, [b, c, d], ", ");
    JoinCons(b, [c, d], ", ");
    JoinCons(c, [d], ", ");
    assert [a] + [b, c, d] == [a, b, c, d] && [b] + [c, d] == [b, c, d] && [c] + [d] == [c, d];
  }
}
