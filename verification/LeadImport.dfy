/** Importing leads from a CSV file: backend/internal/api/handlers_import.go. */
module LeadImport {
  import opened Options
  import opened Strings

  datatype Lead = Lead(name: string, phone: string, email: string, kind: string,
                       source: string, consent: string, status: string)

  // What the CSV reader gives for a line: its fields, an error of that line, or a closed body.
  datatype Line = Fields(row: seq<string>) | Unreadable(error: string) | Closed

  // What the store does on a given line: does the do-not-call lookup fail, and does creating a lead fail?
  datatype World = World(lookupFails: nat -> bool, createError: nat -> Option<string>)

  datatype Result = Result(created: nat, skipped: nat, invalid: nat, errors: seq<string>)

  datatype Reply = MissingHeader | MissingColumns | LoadFailed | Imported(result: Result)

  const MAX_ERRORS: nat := 20

  // ----- columns

  const COLUMNS: seq<string> := ["name", "phone", "email", "type", "source", "consent"]

  /** The last column with this header, or -1. */
  function LastColumn(header: seq<string>, key: string): int {
    if header == [] then -1
    else
      var n := |header| - 1;
      if ToLower(TrimSpace(header[n])) == key then n else LastColumn(header[..n], key)
  }

  function Columns(header: seq<string>): map<string, int> {
    map k | k in COLUMNS :: LastColumn(header, k)
  }

  method IndexHeaders(header: seq<string>) returns (idx: map<string, int>)
    ensures idx == Columns(header)
  {
    hide TrimSpace, ToLower;
    idx := map k | k in COLUMNS :: -1;
    for i := 0 to |header|
      invariant idx == Columns(header[..i])
    {
      assert header[..i + 1][..i] == header[..i];
      var key := ToLower(TrimSpace(header[i]));
      if key in idx {
        idx := idx[key := i];
      }
    }
    assert header[..|header|] == header;
  }

  /** The field of a row under a header; empty if there is none. Go reads a missing key as 0. */
  function Field(row: seq<string>, idx: map<string, int>, key: string): string {
    var i := if key in idx then idx[key] else 0;
    if i < 0 || i >= |row| then "" else row[i]
  }

  function OrElse(v: string, fallback: string): string {
    if TrimSpace(v) == "" then fallback else v
  }

  function LeadOf(row: seq<string>, idx: map<string, int>): Lead {
    Lead(TrimSpace(Field(row, idx, "name")), TrimSpace(Field(row, idx, "phone")),
         TrimSpace(Field(row, idx, "email")), OrElse(Field(row, idx, "type"), "renter"),
         OrElse(Field(row, idx, "source"), "import"), OrElse(Field(row, idx, "consent"), "imported"), "new")
  }

  /** The last column whose header is the key, trimmed and in lower case; none if there is none. */
  lemma {:induction false} LastColumnIsLast(header: seq<string>, key: string)
    ensures var k := LastColumn(header, key);
      && -1 <= k < |header|
      && (k >= 0 ==> ToLower(TrimSpace(header[k])) == key)
      && forall i :: k < i < |header| ==> ToLower(TrimSpace(header[i])) != key
  {
    hide ToLower, TrimSpace;
    if header != [] {
      LastColumnIsLast(header[..|header| - 1], key);
    }
  }

  /** What a row holds in a column. */
  predicate Holds(row: seq<string>, header: seq<string>, key: string, v: string) {
    var k := LastColumn(header, key);
    v == if 0 <= k < |row| then row[k] else ""
  }

  /** The lead of a row: name, phone and email trimmed, and the other three with a default where they are blank. */
  lemma LeadInFull(row: seq<string>, header: seq<string>)
    ensures var lead := LeadOf(row, Columns(header));
      && (exists v :: Holds(row, header, "name", v) && lead.name == TrimSpace(v))
      && (exists v :: Holds(row, header, "phone", v) && lead.phone == TrimSpace(v))
      && (exists v :: Holds(row, header, "email", v) && lead.email == TrimSpace(v))
      && (exists v :: Holds(row, header, "type", v) && lead.kind == if TrimSpace(v) == "" then "renter" else v)
      && (exists v :: Holds(row, header, "source", v) && lead.source == if TrimSpace(v) == "" then "import" else v)
      && (exists v :: Holds(row, header, "consent", v) && lead.consent == if TrimSpace(v) == "" then "imported" else v)
      && lead.status == "new"
  {
    hide TrimSpace, LastColumn;
    var idx := Columns(header);
    KnownColumn(row, header, 0);
    KnownColumn(row, header, 1);
    KnownColumn(row, header, 2);
    KnownColumn(row, header, 3);
    KnownColumn(row, header, 4);
    KnownColumn(row, header, 5);
    hide Field, Holds, Columns;
  }

  lemma KnownColumn(row: seq<string>, header: seq<string>, i: nat)
    requires i < |COLUMNS|
    ensures Holds(row, header, COLUMNS[i], Field(row, Columns(header), COLUMNS[i]))
  {
    hide LastColumn;
    assert COLUMNS[i] in Columns(header);
  }

  // ----- the loop over the lines

  datatype State = State(leads: seq<Lead>, phones: set<string>, result: Result)

  function Noted(errors: seq<string>, line: nat, error: string): seq<string> {
    if |errors| < MAX_ERRORS then errors + ["line " + Decimal(line) + ": " + error] else errors
  }

  function Invalid(s: State, line: nat, error: Option<string>): State {
    var errors := if error.Some? then Noted(s.result.errors, line, error.value) else s.result.errors;
    s.(result := s.result.(invalid := s.result.invalid + 1, errors := errors))
  }

  predicate Blocked(dnc: set<string>, phone: string, line: nat, w: World) {
    phone in dnc && !w.lookupFails(line)
  }

  /** The effect of one line; the header is line 1. */
  function OneLine(s: State, l: Line, idx: map<string, int>, dnc: set<string>, w: World, line: nat): State {
    match l
    case Closed => s
    case Unreadable(e) => Invalid(s, line, Some(e))
    case Fields(row) =>
      var lead := LeadOf(row, idx);
      if lead.name == "" || lead.phone == "" then Invalid(s, line, None)
      else if lead.phone in s.phones || Blocked(dnc, lead.phone, line, w) then
        s.(result := s.result.(skipped := s.result.skipped + 1))
      else if w.createError(line).Some? then Invalid(s, line, w.createError(line))
      else State(s.leads + [lead], s.phones + {lead.phone}, s.result.(created := s.result.created + 1))
  }

  function AllLines(start: State, lines: seq<Line>, idx: map<string, int>, dnc: set<string>, w: World): State {
    if lines == [] then start
    else
      var n := |lines| - 1;
      OneLine(AllLines(start, lines[..n], idx, dnc, w), lines[n], idx, dnc, w, n + 2)
  }

  /** The lines that are read: those before the body was closed. */
  function Readable(lines: seq<Line>): seq<Line> {
    if lines == [] || lines[0].Closed? then [] else [lines[0]] + Readable(lines[1..])
  }

  function Phones(leads: seq<Lead>): set<string> {
    set i | 0 <= i < |leads| :: TrimSpace(leads[i].phone)
  }

  function Start(leads: seq<Lead>): State {
    State(leads, Phones(leads), Result(0, 0, 0, []))
  }

  class LeadStore {
    var leads: seq<Lead>

    method LoadTenantPhones(dbOk: bool) returns (loaded: Option<set<string>>)
      ensures loaded == if dbOk then Some(Phones(leads)) else None
    {
      hide TrimSpace;
      if !dbOk {
        return None;
      }
      var phones: set<string> := {};
      for i := 0 to |leads|
        invariant phones == Phones(leads[..i])
      {
        phones := phones + {TrimSpace(leads[i].phone)};
        assert Phones(leads[..i + 1]) == Phones(leads[..i]) + {TrimSpace(leads[i].phone)};
      }
      assert leads[..|leads|] == leads;
      return Some(phones);
    }

    /** The header may be unreadable (None), and loading the phones may fail. */
    method HandleImport(header: Option<seq<string>>, lines: seq<Line>, dnc: set<string>, loadOk: bool, w: World)
      returns (r: Reply)
      modifies this
      ensures r.MissingHeader? <==> header.None?
      ensures r.MissingColumns? <==>
                header.Some? && (LastColumn(header.value, "name") < 0 || LastColumn(header.value, "phone") < 0)
      ensures r.LoadFailed? ==> !loadOk
      ensures r.Imported? ==> loadOk
      ensures !r.Imported? ==> leads == old(leads)
      ensures r.Imported? ==>
                var end := AllLines(Start(old(leads)), Readable(lines), Columns(header.value), dnc, w);
                leads == end.leads && r.result == end.result
    {
      hide LastColumn, Phones, OneLine, Readable;
      if header.None? {
        return MissingHeader;
      }
      var idx := IndexHeaders(header.value);
      assert COLUMNS[0] == "name" && COLUMNS[1] == "phone";
      if idx["name"] < 0 || idx["phone"] < 0 {
        return MissingColumns;
      }
      var loaded := LoadTenantPhones(loadOk);
      if loaded.None? {
        return LoadFailed;
      }
      var phones := loaded.value;
      ghost var start := Start(leads);
      var result := Result(0, 0, 0, []);
      var lineNo := 1;
      var i := 0;
      while i < |lines|
        invariant 0 <= i <= |lines| && lineNo == i + 1
        invariant forall j :: 0 <= j < i ==> !lines[j].Closed?
        invariant State(leads, phones, result) == AllLines(start, lines[..i], idx, dnc, w)
      {
        lineNo := lineNo + 1;
        var line := lines[i];
        if line.Closed? {
          break;
        }
        assert lines[..i + 1][..i] == lines[..i];
        leads, phones, result := HandleLine(line, idx, dnc, w, lineNo, leads, phones, result);
        i := i + 1;
      }
      ReadableIs(lines, i);
      return Imported(result);
    }
  }

  // The body of the loop: count the line, and create its lead if it is new and allowed.
  method HandleLine(line: Line, idx: map<string, int>, dnc: set<string>, w: World, lineNo: nat,
                    leads0: seq<Lead>, phones0: set<string>, result0: Result)
    returns (leads: seq<Lead>, phones: set<string>, result: Result)
    requires !line.Closed?
    ensures State(leads, phones, result) == OneLine(State(leads0, phones0, result0), line, idx, dnc, w, lineNo)
  {
    hide TrimSpace, LastColumn, Decimal;
    leads, phones, result := leads0, phones0, result0;
    if line.Unreadable? {
      result := result.(invalid := result.invalid + 1);
      if |result.errors| < MAX_ERRORS {
        result := result.(errors := result.errors + ["line " + Decimal(lineNo) + ": " + line.error]);
      }
      return;
    }
    var row := line.row;
    var name := TrimSpace(Field(row, idx, "name"));
    var phone := TrimSpace(Field(row, idx, "phone"));
    if name == "" || phone == "" {
      result := result.(invalid := result.invalid + 1);
      return;
    }
    if phone in phones {
      result := result.(skipped := result.skipped + 1);
      return;
    }
    var blocked := phone in dnc && !w.lookupFails(lineNo);
    if blocked {
      result := result.(skipped := result.skipped + 1);
      return;
    }
    var lead := Lead(name, phone, TrimSpace(Field(row, idx, "email")),
                     OrElse(Field(row, idx, "type"), "renter"), OrElse(Field(row, idx, "source"), "import"),
                     OrElse(Field(row, idx, "consent"), "imported"), "new");
    var error := w.createError(lineNo);
    if error.Some? {
      result := result.(invalid := result.invalid + 1);
      if |result.errors| < MAX_ERRORS {
        result := result.(errors := result.errors + ["line " + Decimal(lineNo) + ": " + error.value]);
      }
      return;
    }
    leads := leads + [lead];
    phones := phones + {phone};
    result := result.(created := result.created + 1);
  }

  lemma {:induction false} ReadableIs(lines: seq<Line>, i: nat)
    requires i <= |lines| && (i < |lines| ==> lines[i].Closed?)
    requires forall j :: 0 <= j < i ==> !lines[j].Closed?
    ensures Readable(lines) == lines[..i]
  {
    if i > 0 {
      ReadableIs(lines[1..], i - 1);
      assert lines[..i] == [lines[0]] + lines[1..][..i - 1];
    }
  }

  // ----- what a line does, in full

  /** A line that cannot be read is invalid, and so is one without name or phone, or whose lead cannot be stored.
      One whose phone is known, or on the do-not-call list as far as it can be looked up, is skipped. Any other
      adds its lead, and makes its phone known. */
  lemma LineInFull(s: State, row: seq<string>, idx: map<string, int>, dnc: set<string>, w: World, line: nat)
    ensures var lead := LeadOf(row, idx);
      var s' := OneLine(s, Fields(row), idx, dnc, w, line);
      var unnamed := lead.name == "" || lead.phone == "";
      var known := lead.phone in s.phones || (lead.phone in dnc && !w.lookupFails(line));
      var (was, now) := (s.result, s'.result);
      && (now.invalid == was.invalid + 1 <==> unnamed || (!known && w.createError(line).Some?))
      && (now.skipped == was.skipped + 1 <==> !unnamed && known)
      && (now.created == was.created + 1 <==> !unnamed && !known && w.createError(line).None?)
      && was.invalid <= now.invalid <= was.invalid + 1
      && was.skipped <= now.skipped <= was.skipped + 1
      && was.created <= now.created <= was.created + 1
      && s'.leads == (if now.created == was.created then s.leads else s.leads + [lead])
      && s'.phones == (if now.created == was.created then s.phones else s.phones + {lead.phone})
  {
    hide LeadOf, Decimal;
  }

  lemma UnreadableInFull(s: State, e: string, idx: map<string, int>, dnc: set<string>, w: World, line: nat)
    ensures var s' := OneLine(s, Unreadable(e), idx, dnc, w, line);
      && s'.leads == s.leads && s'.phones == s.phones
      && s'.result.invalid == s.result.invalid + 1
      && s'.result.skipped == s.result.skipped && s'.result.created == s.result.created
  {
    hide Decimal;
  }

  /** The error of a line: why it cannot be read, or why its lead cannot be stored. */
  function ErrorOf(s: State, l: Line, idx: map<string, int>, dnc: set<string>, w: World, line: nat): Option<string> {
    match l
    case Closed => None
    case Unreadable(e) => Some(e)
    case Fields(row) =>
      var lead := LeadOf(row, idx);
      if lead.name != "" && lead.phone != "" && lead.phone !in s.phones
         && (lead.phone !in dnc || w.lookupFails(line)) then w.createError(line) else None
  }

  /** All errors, each with the number of its line in the file, where the header is line 1. */
  function Messages(start: State, lines: seq<Line>, idx: map<string, int>, dnc: set<string>, w: World): seq<string> {
    if lines == [] then []
    else
      var n := |lines| - 1;
      var e := ErrorOf(AllLines(start, lines[..n], idx, dnc, w), lines[n], idx, dnc, w, n + 2);
      Messages(start, lines[..n], idx, dnc, w)
      + if e.Some? then ["line " + Decimal(n + 2) + ": " + e.value] else []
  }

  /** The reported errors are the first 20. */
  lemma {:induction false} FirstErrorsAreReported(before: seq<Lead>, lines: seq<Line>, idx: map<string, int>,
                                                 dnc: set<string>, w: World)
    ensures var all := Messages(Start(before), lines, idx, dnc, w);
      AllLines(Start(before), lines, idx, dnc, w).result.errors == if |all| <= 20 then all else all[..20]
  {
    hide LeadOf, Decimal, Phones;
    if lines != [] {
      FirstErrorsAreReported(before, lines[..|lines| - 1], idx, dnc, w);
    }
  }

  // ----- what an import does

  /** The tenant's trimmed phones are known, and what was added is new, allowed and trimmed. */
  ghost predicate ImportInv(s: State, before: seq<Lead>, read: nat, dnc: set<string>) {
    && s.phones == Phones(s.leads)
    && before <= s.leads
    && |s.leads| == |before| + s.result.created
    && s.result.created + s.result.skipped + s.result.invalid == read
    && |s.result.errors| <= MAX_ERRORS
    && forall i :: |before| <= i < |s.leads| ==>
         && s.leads[i].name != "" && s.leads[i].phone != ""
         && TrimSpace(s.leads[i].phone) == s.leads[i].phone
         && (forall j :: 0 <= j < i ==> TrimSpace(s.leads[j].phone) != s.leads[i].phone)
  }

  lemma PhonesSnoc(leads: seq<Lead>, l: Lead)
    ensures Phones(leads + [l]) == Phones(leads) + {TrimSpace(l.phone)}
  {
    hide TrimSpace;
    var all := leads + [l];
    assert forall i :: 0 <= i < |leads| ==> all[i] == leads[i];
    assert all[|leads|] == l;
  }

  lemma LeadIsTrimmed(row: seq<string>, idx: map<string, int>)
    ensures TrimSpace(LeadOf(row, idx).phone) == LeadOf(row, idx).phone
  {
    var phone := Field(row, idx, "phone");
    TrimSpaceKeepsInk(phone);
    TrimmedIsKept(TrimSpace(phone));
  }

  lemma LineKeepsInv(s: State, before: seq<Lead>, read: nat, l: Line, idx: map<string, int>, dnc: set<string>, w: World,
                     line: nat)
    requires ImportInv(s, before, read, dnc) && !l.Closed?
    ensures ImportInv(OneLine(s, l, idx, dnc, w, line), before, read + 1, dnc)
  {
    hide TrimSpace, LeadOf, Decimal;
    if l.Fields? {
      var lead := LeadOf(l.row, idx);
      LeadIsTrimmed(l.row, idx);
      PhonesSnoc(s.leads, lead);
      if lead.phone !in s.phones {
        forall j | 0 <= j < |s.leads|
          ensures TrimSpace(s.leads[j].phone) != lead.phone
        {
          assert TrimSpace(s.leads[j].phone) in Phones(s.leads);
        }
      }
    }
  }

  /** Every line is counted once; each created lead has a name and a trimmed phone that no lead had
      before it; and at most 20 errors are reported. */
  lemma {:induction false} ImportCounts(before: seq<Lead>, lines: seq<Line>, idx: map<string, int>, dnc: set<string>,
                                        w: World)
    requires forall i :: 0 <= i < |lines| ==> !lines[i].Closed?
    ensures ImportInv(AllLines(Start(before), lines, idx, dnc, w), before, |lines|, dnc)
  {
    hide ImportInv, OneLine;
    if lines == [] {
      StartInv(before, dnc);
    } else {
      var n := |lines| - 1;
      ImportCounts(before, lines[..n], idx, dnc, w);
      LineKeepsInv(AllLines(Start(before), lines[..n], idx, dnc, w), before, n, lines[n], idx, dnc, w, n + 2);
    }
  }

  lemma StartInv(before: seq<Lead>, dnc: set<string>)
    ensures ImportInv(Start(before), before, 0, dnc)
  {
  }

  /** None of the added leads has a phone on the do-not-call list. */
  ghost predicate NoneBlocked(before: seq<Lead>, s: State, dnc: set<string>) {
    before <= s.leads && forall i :: |before| <= i < |s.leads| ==> s.leads[i].phone !in dnc
  }

  /** The header is line 1; a lookup that fails on a later line lets no lead through. */
  ghost predicate LookupsHold(w: World) {
    forall k: nat :: k >= 2 && w.lookupFails(k) ==> w.createError(k).Some?
  }

  lemma {:induction false} NoBlockedPhone(before: seq<Lead>, lines: seq<Line>, idx: map<string, int>, dnc: set<string>,
                                          w: World)
    requires LookupsHold(w)
    ensures NoneBlocked(before, AllLines(Start(before), lines, idx, dnc, w), dnc)
  {
    hide LeadOf;
    if lines != [] {
      NoBlockedPhone(before, lines[..|lines| - 1], idx, dnc, w);
    }
  }

  const ONE_ROW := Fields(["n", "1"])
  const ONE_INDEX := map["name" := 0, "phone" := 1]

  /** Unreadable lines up to a given line, and on it a lead with a blocked phone. */
  function BlockedOn(k: nat): seq<Line>
    requires k >= 2
  {
    seq(k - 2, _ => Unreadable("")) + [ONE_ROW]
  }

  lemma {:induction false} UnreadableCreatesNothing(n: nat, w: World)
    ensures var s := AllLines(Start([]), seq(n, _ => Unreadable("")), ONE_INDEX, {"1"}, w);
      s.leads == [] && s.phones == {}
  {
    var lines := seq(n, _ => Unreadable(""));
    if n > 0 {
      assert lines[..n - 1] == seq(n - 1, _ => Unreadable(""));
      UnreadableCreatesNothing(n - 1, w);
    }
  }

  lemma BlockedGetsThrough(k: nat, w: World)
    requires k >= 2 && w.lookupFails(k) && w.createError(k).None?
    ensures !NoneBlocked([], AllLines(Start([]), BlockedOn(k), ONE_INDEX, {"1"}, w), {"1"})
  {
    var lines := BlockedOn(k);
    assert lines[..k - 2] == seq(k - 2, _ => Unreadable(""));
    UnreadableCreatesNothing(k - 2, w);
    OneRow();
    hide LeadOf;
    var s := AllLines(Start([]), lines, ONE_INDEX, {"1"}, w);
    assert s == OneLine(AllLines(Start([]), lines[..k - 2], ONE_INDEX, {"1"}, w), ONE_ROW, ONE_INDEX, {"1"}, w, k);
    assert s.leads == [LeadOf(["n", "1"], ONE_INDEX)];
    assert s.leads[0].phone == "1";
  }

  lemma OneRow()
    ensures var lead := LeadOf(["n", "1"], ONE_INDEX);
      lead.name == "n" && lead.phone == "1"
  {
    TrimmedIsKept("n");
    TrimmedIsKept("1");
  }

  /** The do-not-call list is respected by every import exactly when no lookup fails on a line whose
      lead can be created: the handler takes a failed lookup for a phone that is not blocked. */
  lemma DoNotCallIsExact(w: World)
    ensures LookupsHold(w) <==>
            forall before, lines, idx, dnc :: NoneBlocked(before, AllLines(Start(before), lines, idx, dnc, w), dnc)
  {
    hide AllLines, NoneBlocked;
    if LookupsHold(w) {
      forall before, lines, idx, dnc
        ensures NoneBlocked(before, AllLines(Start(before), lines, idx, dnc, w), dnc)
      {
        NoBlockedPhone(before, lines, idx, dnc, w);
      }
    } else {
      var k: nat :| k >= 2 && w.lookupFails(k) && w.createError(k).None?;
      BlockedGetsThrough(k, w);
    }
  }

  // ----- importing the same file again

  /** Lines that a second import cannot turn into leads. */
  ghost predicate Spent(l: Line, idx: map<string, int>, phones: set<string>, dnc: set<string>) {
    l.Fields? ==>
      var lead := LeadOf(l.row, idx);
      lead.name == "" || lead.phone == "" || lead.phone in phones || lead.phone in dnc
  }

  lemma {:induction false} LinesAreSpent(before: seq<Lead>, lines: seq<Line>, idx: map<string, int>, dnc: set<string>,
                                         w: World)
    requires forall k :: w.createError(k).None?
    ensures var s := AllLines(Start(before), lines, idx, dnc, w);
      forall i :: 0 <= i < |lines| ==> Spent(lines[i], idx, s.phones, dnc)
  {
    hide OneLine, Spent;
    if lines != [] {
      var n := |lines| - 1;
      LinesAreSpent(before, lines[..n], idx, dnc, w);
      var prev := AllLines(Start(before), lines[..n], idx, dnc, w);
      LineIsSpent(prev, lines[n], idx, dnc, w, n + 2);
      forall i | 0 <= i < n
        ensures Spent(lines[i], idx, OneLine(prev, lines[n], idx, dnc, w, n + 2).phones, dnc)
      {
        assert lines[..n][i] == lines[i];
        StaysSpent(lines[i], idx, prev.phones, OneLine(prev, lines[n], idx, dnc, w, n + 2).phones, dnc);
      }
    }
  }

  lemma LineIsSpent(s: State, l: Line, idx: map<string, int>, dnc: set<string>, w: World, line: nat)
    requires w.createError(line).None?
    ensures var s' := OneLine(s, l, idx, dnc, w, line);
      s.phones <= s'.phones && Spent(l, idx, s'.phones, dnc)
  {
    hide LeadOf;
  }

  lemma StaysSpent(l: Line, idx: map<string, int>, phones: set<string>, more: set<string>, dnc: set<string>)
    requires Spent(l, idx, phones, dnc) && phones <= more
    ensures Spent(l, idx, more, dnc)
  {
    hide LeadOf;
  }

  lemma {:induction false} SpentLinesCreateNothing(leads: seq<Lead>, lines: seq<Line>, idx: map<string, int>,
                                                   dnc: set<string>, w: World)
    requires forall k :: !w.lookupFails(k)
    requires forall i :: 0 <= i < |lines| ==> Spent(lines[i], idx, Phones(leads), dnc)
    ensures var s := AllLines(Start(leads), lines, idx, dnc, w);
      s.leads == leads && s.phones == Phones(leads) && s.result.created == 0
  {
    hide LeadOf, Decimal, Phones;
    if lines != [] {
      SpentLinesCreateNothing(leads, lines[..|lines| - 1], idx, dnc, w);
    }
  }

  /** When no lead failed to be created, importing the same file again creates nothing. */
  lemma ImportTwiceIsImportOnce(before: seq<Lead>, lines: seq<Line>, idx: map<string, int>, dnc: set<string>, w: World,
                                w': World)
    requires forall i :: 0 <= i < |lines| ==> !lines[i].Closed?
    requires (forall k :: w.createError(k).None?) && (forall k :: !w'.lookupFails(k))
    ensures var s := AllLines(Start(before), lines, idx, dnc, w);
      var again := AllLines(Start(s.leads), lines, idx, dnc, w');
      again.leads == s.leads && again.result.created == 0
  {
    var s := AllLines(Start(before), lines, idx, dnc, w);
    hide AllLines;
    ImportCounts(before, lines, idx, dnc, w);
    LinesAreSpent(before, lines, idx, dnc, w);
    SpentLinesCreateNothing(s.leads, lines, idx, dnc, w');
  }
}
