/** What calls cost: backend/internal/pricing, backend/internal/api/handlers_analytics.go and
    handlers_billing.go, backend/internal/store/call_usage.go. */
module Billing {
  import opened Options
  import opened Strings

  // ----- sums over groups

  function Total<R>(rows: seq<R>, weight: R -> int): int {
    if rows == [] then 0 else Total(rows[..|rows| - 1], weight) + weight(rows[|rows| - 1])
  }

  function Select<R, K(==)>(rows: seq<R>, key: R -> K, k: K): seq<R> {
    if rows == [] then []
    else
      var last := rows[|rows| - 1];
      Select(rows[..|rows| - 1], key, k) + if key(last) == k then [last] else []
  }

  /** The sum, over the given keys, of the totals of their rows. */
  function TotalByKey<R, K(==)>(ks: seq<K>, rows: seq<R>, key: R -> K, weight: R -> int): int {
    if ks == [] then 0
    else TotalByKey(ks[..|ks| - 1], rows, key, weight) + Total(Select(rows, key, ks[|ks| - 1]), weight)
  }

  ghost predicate Distinct<K>(ks: seq<K>) {
    forall i, j :: 0 <= i < j < |ks| ==> ks[i] != ks[j]
  }

  lemma {:induction false} SelectMembers<R, K>(rows: seq<R>, key: R -> K, k: K)
    ensures forall r :: r in Select(rows, key, k) ==> r in rows && key(r) == k
  {
    if rows != [] {
      SelectMembers(rows[..|rows| - 1], key, k);
    }
  }

  lemma TotalSnoc<R>(rows: seq<R>, r: R, weight: R -> int)
    ensures Total(rows + [r], weight) == Total(rows, weight) + weight(r)
  {
    assert (rows + [r])[..|rows|] == rows;
  }

  lemma SelectSnoc<R, K>(rows: seq<R>, r: R, key: R -> K, k: K)
    ensures Select(rows + [r], key, k) == if key(r) == k then Select(rows, key, k) + [r] else Select(rows, key, k)
  {
    assert (rows + [r])[..|rows|] == rows;
    assert Select(rows, key, k) + [] == Select(rows, key, k);
  }

  lemma {:induction false} OneMoreRow<R, K>(ks: seq<K>, rows: seq<R>, r: R, key: R -> K, weight: R -> int)
    requires Distinct(ks)
    ensures TotalByKey(ks, rows + [r], key, weight)
            == TotalByKey(ks, rows, key, weight) + if key(r) in ks then weight(r) else 0
  {
    if ks != [] {
      var n := |ks| - 1;
      OneMoreRow(ks[..n], rows, r, key, weight);
      SelectSnoc(rows, r, key, ks[n]);
      TotalSnoc(Select(rows, key, ks[n]), r, weight);
      hide Select, Total;
      assert key(r) in ks <==> key(r) in ks[..n] || key(r) == ks[n];
    }
  }

  lemma {:induction false} NoRows<R, K>(ks: seq<K>, key: R -> K, weight: R -> int)
    ensures TotalByKey(ks, [], key, weight) == 0
  {
    if ks != [] {
      NoRows(ks[..|ks| - 1], key, weight);
    }
  }

  /** However rows are grouped, the groups add up to the whole. */
  lemma {:induction false} GroupsAddUp<R, K>(ks: seq<K>, rows: seq<R>, key: R -> K, weight: R -> int)
    requires Distinct(ks) && forall i :: 0 <= i < |rows| ==> key(rows[i]) in ks
    ensures TotalByKey(ks, rows, key, weight) == Total(rows, weight)
  {
    hide TotalByKey, Select;
    if rows == [] {
      NoRows(ks, key, weight);
    } else {
      var n := |rows| - 1;
      GroupsAddUp(ks, rows[..n], key, weight);
      OneMoreRow(ks, rows[..n], rows[n], key, weight);
      assert rows[..n] + [rows[n]] == rows;
    }
  }

  // ----- flat rates per minute

  datatype Call = Call(provider: string, seconds: int, cents: int)

  // Cents per minute of each provider.
  type Rates = map<string, nat>

  function Cost(rates: Rates, provider: string, seconds: int): nat {
    if seconds <= 0 || provider !in rates then 0 else seconds * rates[provider] / 60
  }

  /** The call list shows each call with its own cost. */
  function Charged(rates: Rates, c: Call): Call {
    c.(cents := Cost(rates, c.provider, c.seconds))
  }

  method WithCost(rates: Rates, calls: array<Call>)
    modifies calls
    ensures calls[..] == seq(calls.Length, i requires 0 <= i < calls.Length => Charged(rates, old(calls[..])[i]))
  {
    for i := 0 to calls.Length
      invariant forall j :: 0 <= j < calls.Length ==>
                  calls[j] == (if j < i then Charged(rates, old(calls[j])) else old(calls[j]))
    {
      calls[i] := calls[i].(cents := Cost(rates, calls[i].provider, calls[i].seconds));
    }
  }

  datatype Bucket = Bucket(provider: string, seconds: int)

  function BucketCost(rates: Rates): Bucket -> int {
    (b: Bucket) => Cost(rates, b.provider, b.seconds)
  }

  function CallCost(rates: Rates): Call -> int {
    (c: Call) => Cost(rates, c.provider, c.seconds)
  }

  method AnalyticsTotal(rates: Rates, buckets: seq<Bucket>) returns (total: int)
    ensures total == Total(buckets, BucketCost(rates))
  {
    total := 0;
    for i := 0 to |buckets|
      invariant total == Total(buckets[..i], BucketCost(rates))
    {
      assert buckets[..i + 1][..i] == buckets[..i];
      total := total + Cost(rates, buckets[i].provider, buckets[i].seconds);
    }
    assert buckets[..|buckets|] == buckets;
  }

  const PROVIDER := (c: Call) => c.provider
  const SECONDS := (c: Call) => c.seconds
  const ONE := (c: Call) => 1

  /** The query's answer: one bucket for each provider that has calls, with their summed seconds. */
  ghost predicate Buckets(buckets: seq<Bucket>, calls: seq<Call>) {
    && (forall i, j :: 0 <= i < j < |buckets| ==> buckets[i].provider != buckets[j].provider)
    && (forall i :: 0 <= i < |calls| ==> exists j :: 0 <= j < |buckets| && buckets[j].provider == calls[i].provider)
    && (forall j :: 0 <= j < |buckets| ==>
          var own := Select(calls, PROVIDER, buckets[j].provider);
          own != [] && buckets[j].seconds == Total(own, SECONDS))
  }

  lemma FloorSum(x: int, y: int)
    ensures x / 60 + y / 60 <= (x + y) / 60 <= x / 60 + y / 60 + 1
  {
  }

  ghost predicate AllOf(p: string, own: seq<Call>) {
    forall i :: 0 <= i < |own| ==> own[i].provider == p && own[i].seconds >= 0
  }

  lemma CostOfSum(rates: Rates, p: string, s: nat, d: nat)
    ensures 0 <= Cost(rates, p, s + d) - (Cost(rates, p, s) + Cost(rates, p, d)) <= 1
  {
    if p in rates {
      FloorSum(s * rates[p], d * rates[p]);
      assert (s + d) * rates[p] == s * rates[p] + d * rates[p];
    }
  }

  lemma NoCost(rates: Rates, p: string)
    ensures Cost(rates, p, 0) == 0
  {
  }

  /** For one provider, the cost of the summed seconds is at least the sum of the costs,
      and exceeds it by less than one cent a call. */
  lemma {:induction false} OneProvider(rates: Rates, p: string, own: seq<Call>)
    requires AllOf(p, own)
    ensures Total(own, SECONDS) >= 0
    ensures own != [] ==>
              0 <= Cost(rates, p, Total(own, SECONDS)) - Total(own, CallCost(rates)) <= |own| - 1
    ensures own == [] ==> Total(own, CallCost(rates)) == 0
  {
    if own == [] {
      assert Total(own, CallCost(rates)) == 0;
    } else {
      var n := |own| - 1;
      OneProvider(rates, p, own[..n]);
      CostOfSum(rates, p, Total(own[..n], SECONDS), own[n].seconds);
      assert Total(own[..n], SECONDS) == 0 || n > 0;
      NoCost(rates, p);
      hide Cost;
    }
  }

  ghost predicate AllFree(p: string, own: seq<Call>) {
    forall i :: 0 <= i < |own| ==> own[i].provider == p && own[i].seconds <= 0
  }

  lemma {:induction false} FreeProvider(rates: Rates, p: string, own: seq<Call>)
    requires AllFree(p, own)
    ensures Total(own, SECONDS) <= 0 && Total(own, CallCost(rates)) == 0
  {
    if own != [] {
      FreeProvider(rates, p, own[..|own| - 1]);
    }
  }

  /** No provider has both a call of positive and a call of negative length. */
  ghost predicate NoMixed(calls: seq<Call>) {
    forall i, j :: 0 <= i < |calls| && 0 <= j < |calls| && calls[i].provider == calls[j].provider ==>
      calls[i].seconds > 0 ==> calls[j].seconds >= 0
  }

  lemma SelectOwn(calls: seq<Call>, p: string)
    ensures forall c :: c in Select(calls, PROVIDER, p) ==> c in calls && c.provider == p
    ensures NoMixed(calls) ==> AllOf(p, Select(calls, PROVIDER, p)) || AllFree(p, Select(calls, PROVIDER, p))
  {
    var own := Select(calls, PROVIDER, p);
    SelectMembers(calls, PROVIDER, p);
    assert forall c :: c in own ==> PROVIDER(c) == c.provider;
    forall i | 0 <= i < |own|
      ensures own[i] in calls && own[i].provider == p
    {
      assert own[i] in own;
    }
  }

  function Providers(buckets: seq<Bucket>): seq<string> {
    seq(|buckets|, i requires 0 <= i < |buckets| => buckets[i].provider)
  }

  lemma {:induction false} TotalOfOnes(rows: seq<Call>)
    ensures Total(rows, ONE) == |rows|
  {
    if rows != [] {
      TotalOfOnes(rows[..|rows| - 1]);
    }
  }

  lemma {:induction false} BucketsBound(rates: Rates, buckets: seq<Bucket>, calls: seq<Call>)
    requires NoMixed(calls)
    requires forall j :: 0 <= j < |buckets| ==>
               var own := Select(calls, PROVIDER, buckets[j].provider);
               own != [] && buckets[j].seconds == Total(own, SECONDS)
    ensures var listed := TotalByKey(Providers(buckets), calls, PROVIDER, CallCost(rates));
      var counted := TotalByKey(Providers(buckets), calls, PROVIDER, ONE);
      0 <= Total(buckets, BucketCost(rates)) - listed <= counted - |buckets|
  {
    hide NoMixed, Select, Cost;
    if buckets != [] {
      var n := |buckets| - 1;
      BucketsBound(rates, buckets[..n], calls);
      assert Providers(buckets)[..n] == Providers(buckets[..n]);
      OneBucketBound(rates, buckets[n], calls);
    }
  }

  lemma OneBucketBound(rates: Rates, b: Bucket, calls: seq<Call>)
    requires NoMixed(calls)
    requires var own := Select(calls, PROVIDER, b.provider); own != [] && b.seconds == Total(own, SECONDS)
    ensures var own := Select(calls, PROVIDER, b.provider);
      0 <= Cost(rates, b.provider, b.seconds) - Total(own, CallCost(rates)) <= Total(own, ONE) - 1
  {
    var own := Select(calls, PROVIDER, b.provider);
    SelectOwn(calls, b.provider);
    TotalOfOnes(own);
    hide Select, NoMixed;
    if AllOf(b.provider, own) {
      OneProvider(rates, b.provider, own);
    } else {
      FreeProvider(rates, b.provider, own);
    }
  }

  /** The analytics total never undercuts the call list, and exceeds it by at most calls minus providers. */
  ghost predicate Agrees(rates: Rates, buckets: seq<Bucket>, calls: seq<Call>) {
    0 <= Total(buckets, BucketCost(rates)) - Total(calls, CallCost(rates)) <= |calls| - |buckets|
  }

  lemma ProvidersOfCalls(buckets: seq<Bucket>, calls: seq<Call>)
    requires Buckets(buckets, calls)
    ensures Distinct(Providers(buckets))
    ensures forall i :: 0 <= i < |calls| ==> calls[i].provider in Providers(buckets)
  {
    var ks := Providers(buckets);
    forall i | 0 <= i < |calls|
      ensures calls[i].provider in ks
    {
      var j :| 0 <= j < |buckets| && buckets[j].provider == calls[i].provider;
      assert ks[j] == calls[i].provider;
    }
  }

  lemma UnmixedAgrees(rates: Rates, buckets: seq<Bucket>, calls: seq<Call>)
    requires Buckets(buckets, calls) && NoMixed(calls)
    ensures Agrees(rates, buckets, calls)
  {
    var ks := Providers(buckets);
    ProvidersOfCalls(buckets, calls);
    assert forall c :: PROVIDER(c) == c.provider;
    BucketsBound(rates, buckets, calls);
    GroupsAddUp(ks, calls, PROVIDER, CallCost(rates));
    GroupsAddUp(ks, calls, PROVIDER, ONE);
    TotalOfOnes(calls);
  }

  // One cent a second for one provider, and no charge for the others.
  function OnlyCharges(p: string): Rates {
    map[p := 60]
  }

  /** Without rounding, calls of negative length are what the sum undercuts the list by. */
  lemma {:induction false} AtOneCentASecond(p: string, q: string, own: seq<Call>)
    requires forall i :: 0 <= i < |own| ==> own[i].provider == q
    ensures var listed := Total(own, CallCost(OnlyCharges(p)));
      && (q != p ==> listed == 0)
      && (q == p ==> listed >= 0 && listed >= Total(own, SECONDS))
      && (q == p && (exists i :: 0 <= i < |own| && own[i].seconds > 0) ==> listed > 0)
      && (q == p && (exists i :: 0 <= i < |own| && own[i].seconds < 0) ==> listed > Total(own, SECONDS))
  {
    if own != [] {
      AtOneCentASecond(p, q, own[..|own| - 1]);
    }
  }

  /** `p` has both kinds of calls. */
  ghost predicate Mixed(own: seq<Call>) {
    && (exists i :: 0 <= i < |own| && own[i].seconds > 0)
    && (exists i :: 0 <= i < |own| && own[i].seconds < 0)
  }

  lemma OneBucketUndercuts(p: string, b: Bucket, calls: seq<Call>)
    requires b.seconds == Total(Select(calls, PROVIDER, b.provider), SECONDS)
    ensures var listed := Total(Select(calls, PROVIDER, b.provider), CallCost(OnlyCharges(p)));
      && Cost(OnlyCharges(p), b.provider, b.seconds) <= listed
      && (b.provider == p && Mixed(Select(calls, PROVIDER, p)) ==> Cost(OnlyCharges(p), p, b.seconds) < listed)
  {
    var own := Select(calls, PROVIDER, b.provider);
    SelectOwn(calls, b.provider);
    assert forall i :: 0 <= i < |own| ==> own[i] in own;
    AtOneCentASecond(p, b.provider, own);
  }

  lemma {:induction false} BucketsUndercut(p: string, buckets: seq<Bucket>, calls: seq<Call>)
    requires forall j :: 0 <= j < |buckets| ==>
               buckets[j].seconds == Total(Select(calls, PROVIDER, buckets[j].provider), SECONDS)
    requires Mixed(Select(calls, PROVIDER, p))
    ensures var listed := TotalByKey(Providers(buckets), calls, PROVIDER, CallCost(OnlyCharges(p)));
      && Total(buckets, BucketCost(OnlyCharges(p))) <= listed
      && (p in Providers(buckets) ==> Total(buckets, BucketCost(OnlyCharges(p))) < listed)
  {
    hide Select, Mixed, Cost;
    if buckets != [] {
      var n := |buckets| - 1;
      BucketsUndercut(p, buckets[..n], calls);
      assert Providers(buckets)[..n] == Providers(buckets[..n]);
      OneBucketUndercuts(p, buckets[n], calls);
    }
  }

  lemma {:induction false} Selected(calls: seq<Call>, i: nat)
    requires i < |calls|
    ensures calls[i] in Select(calls, PROVIDER, calls[i].provider)
  {
    if i < |calls| - 1 {
      Selected(calls[..|calls| - 1], i);
    }
  }

  lemma MixedUndercuts(buckets: seq<Bucket>, calls: seq<Call>, i: nat, j: nat)
    requires Buckets(buckets, calls) && i < |calls| && j < |calls|
    requires calls[i].provider == calls[j].provider && calls[i].seconds > 0 > calls[j].seconds
    ensures !Agrees(OnlyCharges(calls[i].provider), buckets, calls)
  {
    var p, ks := calls[i].provider, Providers(buckets);
    ProvidersOfCalls(buckets, calls);
    Selected(calls, i);
    Selected(calls, j);
    assert Mixed(Select(calls, PROVIDER, p));
    assert forall c :: PROVIDER(c) == c.provider;
    BucketsUndercut(p, buckets, calls);
    GroupsAddUp(ks, calls, PROVIDER, CallCost(OnlyCharges(p)));
  }

  /** The analytics total agrees with the call list for every rate table exactly when no provider has both
      a call of positive and a call of negative length. */
  lemma AgreesIffUnmixed(buckets: seq<Bucket>, calls: seq<Call>)
    requires Buckets(buckets, calls)
    ensures NoMixed(calls) <==> forall rates :: Agrees(rates, buckets, calls)
  {
    hide Buckets, Agrees;
    if NoMixed(calls) {
      forall rates
        ensures Agrees(rates, buckets, calls)
      {
        UnmixedAgrees(rates, buckets, calls);
      }
    } else {
      var i, j :| 0 <= i < |calls| && 0 <= j < |calls| && calls[i].provider == calls[j].provider
                  && calls[i].seconds > 0 > calls[j].seconds;
      MixedUndercuts(buckets, calls, i, j);
    }
  }

  /** In particular for the calls that are stored, none of which has a negative length. */
  lemma AnalyticsAgreesWithList(rates: Rates, buckets: seq<Bucket>, calls: seq<Call>)
    requires Buckets(buckets, calls) && forall i :: 0 <= i < |calls| ==> calls[i].seconds >= 0
    ensures Agrees(rates, buckets, calls)
  {
    UnmixedAgrees(rates, buckets, calls);
  }

  // ----- detailed rates

  datatype Rate = Rate(unit: string, micro: int)

  datatype Entry = Entry(provider: string, component: string, rate: Rate)

  type Detailed = map<string, map<string, Rate>>

  function RateOf(d: Detailed, provider: string, component: string): Option<Rate> {
    if provider in d && component in d[provider] then Some(d[provider][component]) else None
  }

  /** The last entry for a provider and component is the one that counts. */
  function LastEntry(entries: seq<Entry>, provider: string, component: string): Option<Rate> {
    if entries == [] then None
    else
      var e := entries[|entries| - 1];
      if e.provider == provider && e.component == component then Some(e.rate)
      else LastEntry(entries[..|entries| - 1], provider, component)
  }

  predicate ForComponent(e: Entry, provider: string, component: string) {
    e.provider == provider && e.component == component
  }

  /** Of several entries for a component the last one counts. */
  lemma {:induction false} LastEntryIsLast(entries: seq<Entry>, provider: string, component: string)
    ensures match LastEntry(entries, provider, component)
      case None => forall k :: 0 <= k < |entries| ==> !ForComponent(entries[k], provider, component)
      case Some(rate) => exists k :: 0 <= k < |entries|
                           && ForComponent(entries[k], provider, component) && entries[k].rate == rate
                           && forall j :: k < j < |entries| ==> !ForComponent(entries[j], provider, component)
  {
    if entries != [] {
      var n := |entries| - 1;
      var prev := entries[..n];
      if !ForComponent(entries[n], provider, component) {
        LastEntryIsLast(prev, provider, component);
        assert LastEntry(entries, provider, component) == LastEntry(prev, provider, component);
        hide LastEntry, ForComponent;
        assert forall k :: 0 <= k < n ==> entries[k] == prev[k];
        if LastEntry(prev, provider, component).Some? {
          var k :| 0 <= k < n && ForComponent(prev[k], provider, component)
                   && prev[k].rate == LastEntry(prev, provider, component).value
                   && forall j :: k < j < n ==> !ForComponent(prev[j], provider, component);
          assert ForComponent(entries[k], provider, component);
        }
      }
    }
  }

  method NewDetailed(entries: seq<Entry>) returns (d: Detailed)
    ensures forall p, c :: RateOf(d, p, c) == LastEntry(entries, p, c)
  {
    d := map[];
    for i := 0 to |entries|
      invariant forall p, c :: RateOf(d, p, c) == LastEntry(entries[..i], p, c)
    {
      assert entries[..i + 1][..i] == entries[..i];
      var e := entries[i];
      if e.provider !in d {
        d := d[e.provider := map[]];
      }
      d := d[e.provider := d[e.provider][e.component := e.rate]];
    }
    assert entries[..|entries|] == entries;
  }

  /** Go's integer division, which truncates towards zero. */
  function Quotient(a: int, b: nat): int
    requires b > 0
  {
    if a >= 0 then a / b else -(-a / b)
  }

  function ApplyUnit(r: Rate, count: int): int {
    var unit := ToLower(r.unit);
    if unit in {"sec", "token", "char"} then count * r.micro
    else if unit == "min" then Quotient(count * r.micro, 60)
    else if unit in {"1k_token", "1k_char"} then Quotient(count * r.micro, 1000)
    else 0
  }

  function CostByComponent(d: Detailed, provider: string, component: string, count: int): int {
    if count <= 0 || RateOf(d, provider, component).None? then 0
    else ApplyUnit(RateOf(d, provider, component).value, count)
  }

  predicate EachUnit(unit: string) {
    EqualFold(unit, "sec") || EqualFold(unit, "token") || EqualFold(unit, "char")
  }

  predicate ThousandUnit(unit: string) {
    EqualFold(unit, "1k_token") || EqualFold(unit, "1k_char")
  }

  /** c is `amount` divided by `n`, rounded towards zero. */
  predicate RoundedDown(c: int, amount: int, n: nat) {
    if amount >= 0 then n * c <= amount < n * (c + 1) else n * (c - 1) < amount <= n * c
  }

  /** c is the price of a count at a rate: so much for each, or for every 60, or for every 1000, as its unit says
      in letters of any case. Without a rate, or with one of another unit, nothing is charged. */
  predicate IsPrice(c: int, rate: Option<Rate>, count: int) {
    if count <= 0 || rate.None? then c == 0
    else
      var Rate(unit, m) := rate.value;
      if EachUnit(unit) then c == count * m
      else if EqualFold(unit, "min") then RoundedDown(c, count * m, 60)
      else if ThousandUnit(unit) then RoundedDown(c, count * m, 1000)
      else c == 0
  }

  lemma ComponentPrice(d: Detailed, provider: string, component: string, count: int)
    ensures IsPrice(CostByComponent(d, provider, component, count), RateOf(d, provider, component), count)
  {
    var r := RateOf(d, provider, component);
    if r.Some? && count > 0 {
      UnitPrice(r.value, count);
    }
  }

  lemma UnitPrice(rate: Rate, count: int)
    requires count > 0
    ensures IsPrice(ApplyUnit(rate, count), Some(rate), count)
  {
    LowerUnits();
    FoldedIffSameLower(rate.unit, "sec");
    FoldedIffSameLower(rate.unit, "token");
    FoldedIffSameLower(rate.unit, "char");
    FoldedIffSameLower(rate.unit, "min");
    FoldedIffSameLower(rate.unit, "1k_token");
    FoldedIffSameLower(rate.unit, "1k_char");
    QuotientRounds(count * rate.micro, 60);
    QuotientRounds(count * rate.micro, 1000);
    hide EqualFold, ToLower, Quotient, RoundedDown;
  }

  lemma QuotientRounds(a: int, n: nat)
    requires n > 0
    ensures RoundedDown(Quotient(a, n), a, n)
  {
  }

  lemma LowerUnits()
    ensures ToLower("sec") == "sec" && ToLower("token") == "token" && ToLower("char") == "char"
    ensures ToLower("min") == "min" && ToLower("1k_token") == "1k_token" && ToLower("1k_char") == "1k_char"
  {
  }

  /** A known provider charges by the minute, rounded down to a cent; an unknown one charges nothing. */
  lemma FlatPrice(rates: Rates, provider: string, seconds: int)
    ensures var c := Cost(rates, provider, seconds);
      && (seconds > 0 && provider in rates ==> 60 * c <= seconds * rates[provider] < 60 * (c + 1))
      && (seconds <= 0 || provider !in rates ==> c == 0)
  {
  }

  // ----- usage reports

  datatype Report = Report(durationSec: int, sttSeconds: int, llmInputTokens: int, llmOutputTokens: int,
                           ttsChars: int, ttsSeconds: int)

  datatype Usage = Usage(callId: string, tenant: string, provider: string, report: Report,
                         stt: int, llm: int, tts: int, trunk: int, other: int, total: int)

  // A stored row keeps the day it was first written.
  datatype Row = Row(usage: Usage, createdAt: int)

  predicate NothingDetailed(u: Usage) {
    u.stt == 0 && u.llm == 0 && u.tts == 0
  }

  function Parts(u: Usage): int {
    u.stt + u.llm + u.tts + u.trunk + u.other
  }

  /** What a report is worth: the components at their detailed rates, the dearer way of charging
      speech, and the flat price only where nothing detailed applies. */
  ghost predicate Priced(u: Usage, rates: Rates, d: Detailed) {
    && u.stt == CostByComponent(d, u.provider, "stt", u.report.sttSeconds)
    && u.llm == CostByComponent(d, u.provider, "llm_input", u.report.llmInputTokens)
                + CostByComponent(d, u.provider, "llm_output", u.report.llmOutputTokens)
    && u.tts in {CostByComponent(d, u.provider, "tts", u.report.ttsChars),
                 CostByComponent(d, u.provider, "tts_sec", u.report.ttsSeconds)}
    && u.tts >= CostByComponent(d, u.provider, "tts", u.report.ttsChars)
    && u.tts >= CostByComponent(d, u.provider, "tts_sec", u.report.ttsSeconds)
    && u.trunk == 0
    && u.other == (if NothingDetailed(u) then Cost(rates, u.provider, u.report.durationSec) * 10_000 else 0)
    && u.total == Parts(u)
  }

  /** The price of a report, component by component. */
  function PriceOf(rates: Rates, d: Detailed, callId: string, tenant: string, provider: string, input: Report): Usage {
    var stt := CostByComponent(d, provider, "stt", input.sttSeconds);
    var llm := CostByComponent(d, provider, "llm_input", input.llmInputTokens)
               + CostByComponent(d, provider, "llm_output", input.llmOutputTokens);
    var byChar := CostByComponent(d, provider, "tts", input.ttsChars);
    var bySec := CostByComponent(d, provider, "tts_sec", input.ttsSeconds);
    var tts := if bySec > byChar then bySec else byChar;
    var other := if stt == 0 && llm == 0 && tts == 0 then Cost(rates, provider, input.durationSec) * 10_000 else 0;
    Usage(callId, tenant, provider, input, stt, llm, tts, 0, other, stt + llm + tts + other)
  }

  class UsageStore {
    var rows: map<string, Row>

    /** Price a report and store it as the row of its call. */
    method HandleUsage(rates: Rates, d: Detailed, callId: string, tenant: string, provider: string,
                       input: Report, now: int, dbOk: bool)
      modifies this
      ensures rows == Reported(old(rows), Handle(callId, tenant, provider, input, now, dbOk), rates, d)
    {
      hide CostByComponent, Cost, RateOf, Priced;
      var u := Usage(callId, tenant, provider, input, 0, 0, 0, 0, 0, 0);
      u := u.(stt := CostByComponent(d, provider, "stt", input.sttSeconds));
      u := u.(llm := CostByComponent(d, provider, "llm_input", input.llmInputTokens)
                     + CostByComponent(d, provider, "llm_output", input.llmOutputTokens));
      var byChar := CostByComponent(d, provider, "tts", input.ttsChars);
      var bySec := 0;
      FreeWithout(d, provider, "tts_sec", input.ttsSeconds);
      if input.ttsSeconds > 0 {
        bySec := CostByComponent(d, provider, "tts_sec", input.ttsSeconds);
      }
      if bySec > byChar {
        u := u.(tts := bySec);
      } else {
        u := u.(tts := byChar);
      }
      assert u == PriceOf(rates, d, callId, tenant, provider, input).(other := 0, total := 0);
      if u.stt == 0 && u.llm == 0 && u.tts == 0 {
        var flat := Cost(rates, provider, input.durationSec);
        u := u.(other := flat * 10_000);
      }
      assert u.(total := Parts(u)) == PriceOf(rates, d, callId, tenant, provider, input);
      hide *;
      PriceIsRight(rates, d, Handle(callId, tenant, provider, input, now, dbOk));
      Upsert(u, now, dbOk);
    }

    method Upsert(u0: Usage, now: int, dbOk: bool)
      modifies this
      ensures rows == if dbOk then UpsertedRows(old(rows), u0, now) else old(rows)
    {
      var u := u0.(total := u0.stt + u0.llm + u0.tts + u0.trunk + u0.other);
      if !dbOk {
        return;
      }
      if u.callId in rows {
        rows := rows[u.callId := rows[u.callId].(usage := u)];
      } else {
        rows := rows[u.callId := Row(u, now)];
      }
    }
  }

  lemma FreeWithout(d: Detailed, provider: string, component: string, count: int)
    ensures count <= 0 ==> CostByComponent(d, provider, component, count) == 0
  {
  }

  /** A second report of a call replaces the first, but not the day. */
  function UpsertedRows(rows: map<string, Row>, u: Usage, now: int): map<string, Row> {
    rows[u.callId := Row(u.(total := Parts(u)), if u.callId in rows then rows[u.callId].createdAt else now)]
  }

  // ----- every run of reports

  datatype Handle = Handle(callId: string, tenant: string, provider: string, input: Report, now: int, dbOk: bool)

  function Reported(rows: map<string, Row>, h: Handle, rates: Rates, d: Detailed): map<string, Row> {
    if !h.dbOk then rows
    else UpsertedRows(rows, PriceOf(rates, d, h.callId, h.tenant, h.provider, h.input), h.now)
  }

  function After(reports: seq<Handle>, rates: Rates, d: Detailed): map<string, Row> {
    if reports == [] then map[]
    else Reported(After(reports[..|reports| - 1], rates, d), reports[|reports| - 1], rates, d)
  }

  predicate Stores(h: Handle, callId: string) {
    h.dbOk && h.callId == callId
  }

  /** Report i is the last one stored for the call, and report f the first. */
  ghost predicate LastStored(reports: seq<Handle>, callId: string, i: int) {
    && 0 <= i < |reports| && Stores(reports[i], callId)
    && forall j :: i < j < |reports| ==> !Stores(reports[j], callId)
  }

  ghost predicate FirstStored(reports: seq<Handle>, callId: string, f: int) {
    && 0 <= f < |reports| && Stores(reports[f], callId)
    && forall j :: 0 <= j < f ==> !Stores(reports[j], callId)
  }

  /** The row says what the last stored report said, at the right price, on the day of the first. */
  ghost predicate RowOfReports(row: Row, reports: seq<Handle>, callId: string, rates: Rates, d: Detailed) {
    exists f, i :: FirstStored(reports, callId, f) && LastStored(reports, callId, i)
      && row.createdAt == reports[f].now
      && row.usage.callId == callId && row.usage.tenant == reports[i].tenant
      && row.usage.provider == reports[i].provider && row.usage.report == reports[i].input
      && Priced(row.usage, rates, d)
  }

  lemma PriceIsRight(rates: Rates, d: Detailed, h: Handle)
    ensures var u := PriceOf(rates, d, h.callId, h.tenant, h.provider, h.input);
      && Priced(u, rates, d) && Parts(u) == u.total
      && u.callId == h.callId && u.tenant == h.tenant && u.provider == h.provider && u.report == h.input
  {
  }

  lemma ReportedRow(row: Row, reports: seq<Handle>, h: Handle, callId: string, rates: Rates, d: Detailed)
    requires RowOfReports(row, reports, callId, rates, d) && !Stores(h, callId)
    ensures RowOfReports(row, reports + [h], callId, rates, d)
  {
    hide Priced;
    var all := reports + [h];
    var f, i :| FirstStored(reports, callId, f) && LastStored(reports, callId, i)
      && row.createdAt == reports[f].now
      && row.usage.callId == callId && row.usage.tenant == reports[i].tenant
      && row.usage.provider == reports[i].provider && row.usage.report == reports[i].input
      && Priced(row.usage, rates, d);
    assert FirstStored(all, callId, f) && LastStored(all, callId, i);
  }

  /** How a call that the new report stores comes to have its row. */
  lemma StoredRow(rows: map<string, Row>, reports: seq<Handle>, h: Handle, rates: Rates, d: Detailed)
    requires h.dbOk
    requires h.callId in rows ==> RowOfReports(rows[h.callId], reports, h.callId, rates, d)
    requires h.callId !in rows ==> forall j :: 0 <= j < |reports| ==> !Stores(reports[j], h.callId)
    ensures var rows' := Reported(rows, h, rates, d);
      h.callId in rows' && RowOfReports(rows'[h.callId], reports + [h], h.callId, rates, d)
  {
    PriceIsRight(rates, d, h);
    hide Priced, PriceOf;
    var all, n := reports + [h], |reports|;
    assert LastStored(all, h.callId, n);
    if h.callId in rows {
      var f :| FirstStored(reports, h.callId, f) && rows[h.callId].createdAt == reports[f].now;
      assert FirstStored(all, h.callId, f);
    } else {
      assert FirstStored(all, h.callId, n);
    }
  }

  /** After any reports, a call has a row exactly if some report of it was stored, and the row is that of
      its first and last stored reports. */
  lemma {:induction false} EveryRowIsReported(reports: seq<Handle>, rates: Rates, d: Detailed, callId: string)
    ensures var rows := After(reports, rates, d);
      && (callId in rows <==> exists j :: 0 <= j < |reports| && Stores(reports[j], callId))
      && (callId in rows ==> RowOfReports(rows[callId], reports, callId, rates, d))
  {
    hide RowOfReports, PriceOf;
    if reports != [] {
      var n := |reports| - 1;
      var prev, h := reports[..n], reports[n];
      EveryRowIsReported(prev, rates, d, callId);
      assert prev + [h] == reports;
      var rows := After(prev, rates, d);
      assert h.dbOk ==> PriceOf(rates, d, h.callId, h.tenant, h.provider, h.input).callId == h.callId by {
        PriceIsRight(rates, d, h);
      }
      if Stores(h, callId) {
        StoredRow(rows, prev, h, rates, d);
      } else if callId in rows {
        ReportedRow(rows[callId], prev, h, callId, rates, d);
      }
    }
  }

  /** What a stored report is charged, in the words of the rate tables: each component at the price of the last
      rate for it, speech at the higher of its two prices, and, if that is nothing, 10 000 for every full cent
      of the provider's price a minute. */
  ghost predicate ChargedFully(u: Usage, rates: Rates, entries: seq<Entry>) {
    var (p, r) := (u.provider, u.report);
    && IsPrice(u.stt, LastEntry(entries, p, "stt"), r.sttSeconds)
    && (exists input, output ::
          && IsPrice(input, LastEntry(entries, p, "llm_input"), r.llmInputTokens)
          && IsPrice(output, LastEntry(entries, p, "llm_output"), r.llmOutputTokens)
          && u.llm == input + output)
    && (exists byChar, bySec ::
          && IsPrice(byChar, LastEntry(entries, p, "tts"), r.ttsChars)
          && IsPrice(bySec, LastEntry(entries, p, "tts_sec"), r.ttsSeconds)
          && u.tts == if bySec > byChar then bySec else byChar)
    && u.trunk == 0
    && (if u.stt == 0 && u.llm == 0 && u.tts == 0 && r.durationSec > 0 && p in rates
        then u.other % 10_000 == 0 && RoundedDown(u.other / 10_000, r.durationSec * rates[p], 60)
        else u.other == 0)
    && u.total == u.stt + u.llm + u.tts + u.other
  }

  lemma PricedIsCharged(u: Usage, rates: Rates, d: Detailed, entries: seq<Entry>)
    requires Priced(u, rates, d) && forall p, c :: RateOf(d, p, c) == LastEntry(entries, p, c)
    ensures ChargedFully(u, rates, entries)
  {
    var (p, r) := (u.provider, u.report);
    ComponentPrice(d, p, "stt", r.sttSeconds);
    ComponentPrice(d, p, "llm_input", r.llmInputTokens);
    ComponentPrice(d, p, "llm_output", r.llmOutputTokens);
    ComponentPrice(d, p, "tts", r.ttsChars);
    ComponentPrice(d, p, "tts_sec", r.ttsSeconds);
    FlatPrice(rates, p, r.durationSec);
    hide CostByComponent, IsPrice, RateOf, LastEntry, Cost;
  }

  /** After any reports every stored row is charged in full, for what its last stored report says. */
  lemma EveryRowIsCharged(reports: seq<Handle>, rates: Rates, entries: seq<Entry>, d: Detailed, callId: string)
    returns (i: int)
    requires forall p, c :: RateOf(d, p, c) == LastEntry(entries, p, c)
    requires callId in After(reports, rates, d)
    ensures LastStored(reports, callId, i)
    ensures var u := After(reports, rates, d)[callId].usage;
      u.provider == reports[i].provider && u.report == reports[i].input && ChargedFully(u, rates, entries)
  {
    EveryRowIsReported(reports, rates, d, callId);
    var row := After(reports, rates, d)[callId];
    hide Priced, After;
    var f, j :| FirstStored(reports, callId, f) && LastStored(reports, callId, j)
      && row.createdAt == reports[f].now
      && row.usage.callId == callId && row.usage.tenant == reports[j].tenant
      && row.usage.provider == reports[j].provider && row.usage.report == reports[j].input
      && Priced(row.usage, rates, d);
    i := j;
    PricedIsCharged(row.usage, rates, d, entries);
  }

  // ----- the summary

  datatype SummaryRow<K> = SummaryRow(key: K, calls: int, seconds: int, micro: int)

  const ROW_ONE := (r: Row) => 1
  const ROW_SECONDS := (r: Row) => r.usage.report.durationSec
  const ROW_MICRO := (r: Row) => r.usage.total

  /** What GROUP BY answers: one row per key, with the count and the sums of its rows. */
  ghost predicate Summary<K>(out: seq<SummaryRow<K>>, rows: seq<Row>, key: Row -> K) {
    && (forall i, j :: 0 <= i < j < |out| ==> out[i].key != out[j].key)
    && (forall i :: 0 <= i < |rows| ==> exists j :: 0 <= j < |out| && out[j].key == key(rows[i]))
    && forall j :: 0 <= j < |out| ==>
         var own := Select(rows, key, out[j].key);
         && out[j].calls == Total(own, ROW_ONE)
         && out[j].seconds == Total(own, ROW_SECONDS)
         && out[j].micro == Total(own, ROW_MICRO)
  }

  method SummaryTotals<K(==)>(out: seq<SummaryRow<K>>) returns (calls: int, seconds: int, micro: int)
    ensures calls == Total(out, (r: SummaryRow<K>) => r.calls)
    ensures seconds == Total(out, (r: SummaryRow<K>) => r.seconds)
    ensures micro == Total(out, (r: SummaryRow<K>) => r.micro)
  {
    calls, seconds, micro := 0, 0, 0;
    for i := 0 to |out|
      invariant calls == Total(out[..i], (r: SummaryRow<K>) => r.calls)
      invariant seconds == Total(out[..i], (r: SummaryRow<K>) => r.seconds)
      invariant micro == Total(out[..i], (r: SummaryRow<K>) => r.micro)
    {
      assert out[..i + 1][..i] == out[..i];
      calls := calls + out[i].calls;
      seconds := seconds + out[i].seconds;
      micro := micro + out[i].micro;
    }
    assert out[..|out|] == out;
  }

  function Keys<K>(out: seq<SummaryRow<K>>): seq<K> {
    seq(|out|, i requires 0 <= i < |out| => out[i].key)
  }

  lemma {:induction false} ColumnByKey<K>(out: seq<SummaryRow<K>>, rows: seq<Row>, key: Row -> K,
                                         column: SummaryRow<K> -> int, weight: Row -> int)
    requires forall j :: 0 <= j < |out| ==> column(out[j]) == Total(Select(rows, key, out[j].key), weight)
    ensures Total(out, column) == TotalByKey(Keys(out), rows, key, weight)
  {
    if out != [] {
      ColumnByKey(out[..|out| - 1], rows, key, column, weight);
      assert Keys(out)[..|out| - 1] == Keys(out[..|out| - 1]);
    }
  }

  /** Whatever the grouping, the totals of the summary are those of the stored rows. */
  lemma SummaryConserves<K>(out: seq<SummaryRow<K>>, rows: seq<Row>, key: Row -> K)
    requires Summary(out, rows, key)
    ensures Total(out, (r: SummaryRow<K>) => r.calls) == |rows|
    ensures Total(out, (r: SummaryRow<K>) => r.seconds) == Total(rows, ROW_SECONDS)
    ensures Total(out, (r: SummaryRow<K>) => r.micro) == Total(rows, ROW_MICRO)
  {
    var ks := Keys(out);
    forall i | 0 <= i < |rows|
      ensures key(rows[i]) in ks
    {
      var j :| 0 <= j < |out| && out[j].key == key(rows[i]);
      assert ks[j] == key(rows[i]);
    }
    ColumnByKey(out, rows, key, (r: SummaryRow<K>) => r.calls, ROW_ONE);
    ColumnByKey(out, rows, key, (r: SummaryRow<K>) => r.seconds, ROW_SECONDS);
    ColumnByKey(out, rows, key, (r: SummaryRow<K>) => r.micro, ROW_MICRO);
    GroupsAddUp(ks, rows, key, ROW_ONE);
    GroupsAddUp(ks, rows, key, ROW_SECONDS);
    GroupsAddUp(ks, rows, key, ROW_MICRO);
    RowsCount(rows);
  }

  lemma {:induction false} RowsCount(rows: seq<Row>)
    ensures Total(rows, ROW_ONE) == |rows|
  {
    if rows != [] {
      RowsCount(rows[..|rows| - 1]);
    }
  }

  // ----- the summary of a run

  predicate InWindow(row: Row, tenant: string, from: int, to: int) {
    row.usage.tenant == tenant && from <= row.createdAt < to
  }

  /** The calls whose rows the query selects, in any order. */
  ghost predicate Chosen(rows: map<string, Row>, tenant: string, from: int, to: int, ids: seq<string>) {
    Distinct(ids) && forall id :: id in ids <==> id in rows && InWindow(rows[id], tenant, from, to)
  }

  function RowsOf(rows: map<string, Row>, ids: seq<string>): seq<Row>
    requires forall id :: id in ids ==> id in rows
  {
    seq(|ids|, i requires 0 <= i < |ids| => rows[ids[i]])
  }

  lemma TotalConcatOf(rows: map<string, Row>, xs: seq<string>, ys: seq<string>, weight: Row -> int)
    requires forall id :: id in xs + ys ==> id in rows
    ensures (forall id :: id in xs ==> id in rows) && (forall id :: id in ys ==> id in rows)
    ensures Total(RowsOf(rows, xs + ys), weight) == Total(RowsOf(rows, xs), weight) + Total(RowsOf(rows, ys), weight)
  {
    assert forall id :: id in xs ==> id in xs + ys;
    assert forall id :: id in ys ==> id in xs + ys;
    assert RowsOf(rows, xs + ys) == RowsOf(rows, xs) + RowsOf(rows, ys);
    TotalConcat(RowsOf(rows, xs), RowsOf(rows, ys), weight);
  }

  lemma {:induction false} TotalConcat<R>(a: seq<R>, b: seq<R>, weight: R -> int)
    ensures Total(a + b, weight) == Total(a, weight) + Total(b, weight)
  {
    if b == [] {
      assert a + b == a;
    } else {
      var n := |b| - 1;
      TotalConcat(a, b[..n], weight);
      assert (a + b)[..|a + b| - 1] == a + b[..n];
    }
  }

  /** Two windows side by side select together, and add up to, what the window over both does. */
  lemma AdjacentWindowsAddUp(rows: map<string, Row>, tenant: string, from: int, mid: int, to: int,
                             xs: seq<string>, ys: seq<string>, zs: seq<string>, weight: Row -> int)
    requires from <= mid <= to
    requires Chosen(rows, tenant, from, mid, xs) && Chosen(rows, tenant, mid, to, ys)
    requires Chosen(rows, tenant, from, to, zs)
    ensures Total(RowsOf(rows, xs), weight) + Total(RowsOf(rows, ys), weight) == Total(RowsOf(rows, zs), weight)
  {
    assert forall id :: id in xs + ys <==> id in xs || id in ys;
    assert Distinct(xs + ys) by {
      assert forall i :: 0 <= i < |xs| ==> xs[i] in xs;
      assert forall i :: 0 <= i < |ys| ==> ys[i] in ys;
    }
    hide Total, Distinct;
    TotalConcatOf(rows, xs, ys, weight);
    OrderDoesNotCount(rows, xs + ys, zs, weight);
  }

  lemma {:induction false} TotalWithout<R>(rows: seq<R>, j: nat, weight: R -> int)
    requires j < |rows|
    ensures Total(rows, weight) == Total(rows[..j] + rows[j + 1..], weight) + weight(rows[j])
  {
    var n := |rows| - 1;
    if j == n {
      assert rows[..j] + rows[j + 1..] == rows[..n];
    } else {
      TotalWithout(rows[..n], j, weight);
      var left := rows[..j] + rows[j + 1..];
      assert left[..n - 1] == rows[..n][..j] + rows[..n][j + 1..];
    }
  }

  lemma {:induction false} OrderDoesNotCount(rows: map<string, Row>, xs: seq<string>, ys: seq<string>,
                                             weight: Row -> int)
    requires Distinct(xs) && Distinct(ys) && forall id :: id in xs <==> id in ys
    requires forall id :: id in xs ==> id in rows
    ensures |xs| == |ys| && Total(RowsOf(rows, xs), weight) == Total(RowsOf(rows, ys), weight)
  {
    assert xs == [] ==> ys == [] by {
      assert |ys| > 0 ==> ys[0] in ys;
    }
    if xs != [] {
      var n := |xs| - 1;
      assert xs[n] in ys;
      var j :| 0 <= j < |ys| && ys[j] == xs[n];
      var left := ys[..j] + ys[j + 1..];
      LeftWithout(xs, ys, j);
      hide Distinct;
      OrderDoesNotCount(rows, xs[..n], left, weight);
      RowsWithout(rows, ys, j, weight);
      assert RowsOf(rows, xs)[..n] == RowsOf(rows, xs[..n]);
    }
  }

  lemma RowsWithout(rows: map<string, Row>, ids: seq<string>, j: nat, weight: Row -> int)
    requires (forall id :: id in ids ==> id in rows) && j < |ids|
    ensures forall id :: id in ids[..j] + ids[j + 1..] ==> id in rows
    ensures Total(RowsOf(rows, ids), weight)
            == Total(RowsOf(rows, ids[..j] + ids[j + 1..]), weight) + weight(rows[ids[j]])
  {
    TotalWithout(RowsOf(rows, ids), j, weight);
    assert RowsOf(rows, ids)[..j] + RowsOf(rows, ids)[j + 1..] == RowsOf(rows, ids[..j] + ids[j + 1..]);
  }

  lemma LeftWithout(xs: seq<string>, ys: seq<string>, j: nat)
    requires Distinct(xs) && Distinct(ys) && (forall id :: id in xs <==> id in ys)
    requires xs != [] && j < |ys| && ys[j] == xs[|xs| - 1]
    ensures var left := ys[..j] + ys[j + 1..];
      Distinct(left) && (forall id :: id in xs[..|xs| - 1] <==> id in left) && (forall id :: id in left ==> id in ys)
      && Distinct(xs[..|xs| - 1]) && forall id :: id in xs[..|xs| - 1] ==> id in xs
  {
    var n, left := |xs| - 1, ys[..j] + ys[j + 1..];
    forall id
      ensures id in xs[..n] <==> id in xs && id != xs[n]
      ensures id in left <==> id in ys && id != ys[j]
    {
      if id in ys && id != ys[j] {
        var i :| 0 <= i < |ys| && ys[i] == id;
        assert id == left[if i < j then i else i - 1];
      }
    }
  }

  /** After any reports, for any tenant, window and grouping, the totals of the summary are the sums over
      the tenant's rows of that window, each of them the row of the first and last stored reports of its call. */
  lemma SummaryOfRun<K>(reports: seq<Handle>, rates: Rates, d: Detailed, tenant: string, from: int, to: int,
                        ids: seq<string>, key: Row -> K, out: seq<SummaryRow<K>>)
    requires Chosen(After(reports, rates, d), tenant, from, to, ids)
    requires Summary(out, RowsOf(After(reports, rates, d), ids), key)
    ensures var rows := After(reports, rates, d);
      && Total(out, (r: SummaryRow<K>) => r.calls) == |ids|
      && Total(out, (r: SummaryRow<K>) => r.seconds) == Total(RowsOf(rows, ids), ROW_SECONDS)
      && Total(out, (r: SummaryRow<K>) => r.micro) == Total(RowsOf(rows, ids), ROW_MICRO)
      && forall id :: id in ids ==>
           InWindow(rows[id], tenant, from, to) && RowOfReports(rows[id], reports, id, rates, d)
  {
    SummaryConserves(out, RowsOf(After(reports, rates, d), ids), key);
    forall id | id in ids
      ensures RowOfReports(After(reports, rates, d)[id], reports, id, rates, d)
    {
      EveryRowIsReported(reports, rates, d, id);
    }
  }

  /** Two summaries of the same window have the same totals, however they group the rows. */
  lemma GroupingDoesNotCount<K, L>(rows: map<string, Row>, tenant: string, from: int, to: int,
                                   xs: seq<string>, key: Row -> K, out: seq<SummaryRow<K>>,
                                   ys: seq<string>, other: Row -> L, out': seq<SummaryRow<L>>)
    requires Chosen(rows, tenant, from, to, xs) && Summary(out, RowsOf(rows, xs), key)
    requires Chosen(rows, tenant, from, to, ys) && Summary(out', RowsOf(rows, ys), other)
    ensures Total(out, (r: SummaryRow<K>) => r.calls) == Total(out', (r: SummaryRow<L>) => r.calls)
    ensures Total(out, (r: SummaryRow<K>) => r.seconds) == Total(out', (r: SummaryRow<L>) => r.seconds)
    ensures Total(out, (r: SummaryRow<K>) => r.micro) == Total(out', (r: SummaryRow<L>) => r.micro)
  {
    hide Summary;
    SummaryConserves(out, RowsOf(rows, xs), key);
    SummaryConserves(out', RowsOf(rows, ys), other);
    OrderDoesNotCount(rows, xs, ys, ROW_SECONDS);
    OrderDoesNotCount(rows, xs, ys, ROW_MICRO);
  }
}
