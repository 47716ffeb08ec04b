/**
 * ParkingService (src/services/postgres/ParkingService.js): the parking fee, the
 * INSERT statement for a new record and the filtered SELECT statement.
 * The connection pool is a parameter `pool` that maps the issued query to the
 * driver's result; what Postgres does with the statement is not modelled.
 */
module ParkingService {
  import opened Wrappers
  import opened Exceptions
  import opened ParkingUtils

  // ----------------------------------------------------------------------------
  // Fee calculation (calculatePrice)
  // ----------------------------------------------------------------------------

  const MsPerMinute := 60000
  const MsPerHour := 3600000
  const MsPerDay := 86400000

  /** `Math.floor(a / d)` for a positive divisor (Dafny's `/` rounds down when d > 0). */
  function FloorDiv(a: int, d: int): (q: int)
    requires d > 0
    ensures q * d <= a < q * d + d
  {
    a / d
  }

  /** JavaScript's `a % d`: truncating, so the remainder takes the sign of `a`. */
  function JsRem(a: int, d: int): (r: int)
    requires d > 0
    ensures -d < r < d
    ensures a >= 0 ==> 0 <= r && r == a % d
    ensures a <= 0 ==> r <= 0
  {
    if a >= 0 then a % d else -((-a) % d)
  }

  /** The stay split as the code splits it: whole days, leftover hours, leftover minutes. */
  datatype Stay = Stay(days: int, hours: int, minutes: int)

  function SplitStay(range: int): Stay {
    Stay(FloorDiv(range, MsPerDay),
         FloorDiv(JsRem(range, MsPerDay), MsPerHour),
         FloorDiv(JsRem(range, MsPerHour), MsPerMinute))
  }

  /**
   * calculatePrice(type, enterTime, exitTime). Only the exact string "car" gets car
   * rates; every other string, including "Car", is charged the motorcycle rates.
   */
  function CalculatePrice(vehicleType: string, enterTime: int, exitTime: int): (price: int)
    ensures exitTime >= enterTime ==> price >= 0
  {
    var stay := SplitStay(exitTime - enterTime);
    if vehicleType == "car" then
      stay.days * 80000 + stay.hours * 5000 + (if stay.minutes >= 1 then 5000 else 0)
    else
      stay.days * 40000 + stay.hours * 2000 + (if stay.minutes >= 1 then 2000 else 0)
  }

  /** The two tariffs: a charge per whole day and a charge per started hour. */
  datatype Tariff = Tariff(perDay: int, perHour: int)

  const CarTariff := Tariff(80000, 5000)
  const MotorcycleTariff := Tariff(40000, 2000)

  function TariffFor(vehicleType: string): Tariff {
    if vehicleType == "car" then CarTariff else MotorcycleTariff
  }

  /** Division with the quotient and remainder it must have. */
  lemma DivModUnique(a: int, d: int, q: int, r: int)
    requires d > 0 && 0 <= r < d && a == q * d + r
    ensures a / d == q && a % d == r
  {
    var q', r' := a / d, a % d;
    assert a == q' * d + r';
    if q' < q {
      MulAtLeastDivisor(q - q', d);
      assert false;
    } else if q' > q {
      MulAtLeastDivisor(q' - q, d);
      assert false;
    }
  }

  lemma {:induction false} MulAtLeastDivisor(k: int, d: int)
    requires k >= 1 && d > 0
    ensures k * d >= d
    decreases k
  {
    if k > 1 {
      MulAtLeastDivisor(k - 1, d);
      assert k * d == (k - 1) * d + d;
    }
  }

  /**
   * For a non-negative stay the split is exactly its mixed-radix decomposition:
   * range = days·1d + hours·1h + minutes·1min + ms with hours in 0..23, minutes in
   * 0..59 and ms in 0..59999, and no other (days, hours, minutes) has that form.
   */
  lemma SplitStayDecomposes(range: int, d: int, h: int, m: int, ms: int)
    requires range >= 0
    requires d >= 0 && 0 <= h < 24 && 0 <= m < 60 && 0 <= ms < MsPerMinute
    ensures range == d * MsPerDay + h * MsPerHour + m * MsPerMinute + ms <==> (SplitStay(range) == Stay(d, h, m) && range % MsPerMinute == ms)
  {
    var s := SplitStay(range);
    var dayRem := range % MsPerDay;
    var hourRem := range % MsPerHour;
    assert s.days == range / MsPerDay;
    assert s.hours == dayRem / MsPerHour;
    assert s.minutes == hourRem / MsPerMinute;
    // The split always yields a decomposition of this form.
    assert range == s.days * MsPerDay + dayRem;
    assert dayRem == s.hours * MsPerHour + dayRem % MsPerHour;
    DivModUnique(range, MsPerHour, s.days * 24 + s.hours, dayRem % MsPerHour);
    assert hourRem == dayRem % MsPerHour;
    assert hourRem == s.minutes * MsPerMinute + hourRem % MsPerMinute;
    DivModUnique(range, MsPerMinute, (s.days * 24 + s.hours) * 60 + s.minutes, hourRem % MsPerMinute);
    if range == d * MsPerDay + h * MsPerHour + m * MsPerMinute + ms {
      DivModUnique(range, MsPerDay, d, h * MsPerHour + m * MsPerMinute + ms);
      DivModUnique(dayRem, MsPerHour, h, m * MsPerMinute + ms);
      DivModUnique(range, MsPerHour, d * 24 + h, m * MsPerMinute + ms);
      DivModUnique(hourRem, MsPerMinute, m, ms);
      DivModUnique(range, MsPerMinute, (d * 24 + h) * 60 + m, ms);
    }
  }

  /** Bounds on the split for a non-negative stay. */
  lemma SplitStayBounds(range: int)
    requires range >= 0
    ensures SplitStay(range).days == range / MsPerDay >= 0
    ensures 0 <= SplitStay(range).hours <= 23
    ensures 0 <= SplitStay(range).minutes <= 59
  {
  }

  /** Hours started, counting only whole minutes: ceil(whole minutes past the last whole day / 60). */
  function StartedHours(range: int): int
    requires range >= 0
  {
    ((range / MsPerMinute) % 1440 + 59) / 60
  }

  /**
   * The fee for a stay of at least zero length, stated independently of the split:
   * the per-day rate for each whole day plus the per-hour rate for each started hour
   * of the remainder, where seconds under a minute are not counted. `TariffFor`
   * makes "car" (only that exact string) take the car tariff.
   */
  lemma {:induction false} CalculatePriceCharges(vehicleType: string, enterTime: int, exitTime: int)
    requires exitTime >= enterTime
    ensures var range := exitTime - enterTime;
            var t := TariffFor(vehicleType);
            CalculatePrice(vehicleType, enterTime, exitTime)
              == t.perDay * (range / MsPerDay) + t.perHour * StartedHours(range)
  {
    var range := exitTime - enterTime;
    var s := SplitStay(range);
    SplitStayBounds(range);
    var ms := range % MsPerMinute;
    SplitStayDecomposes(range, s.days, s.hours, s.minutes, ms);
    // whole minutes = days·1440 + hours·60 + minutes
    DivModUnique(range, MsPerMinute, s.days * 1440 + s.hours * 60 + s.minutes, ms);
    DivModUnique(range / MsPerMinute, 1440, s.days, s.hours * 60 + s.minutes);
    if s.minutes >= 1 {
      DivModUnique(s.hours * 60 + s.minutes + 59, 60, s.hours + 1, s.minutes - 1);
    } else {
      DivModUnique(s.hours * 60 + s.minutes + 59, 60, s.hours, 59);
    }
  }

  /** A stay shorter than one minute is free, whatever the vehicle. */
  lemma UnderOneMinuteIsFree(vehicleType: string, enterTime: int, exitTime: int)
    requires enterTime <= exitTime < enterTime + MsPerMinute
    ensures CalculatePrice(vehicleType, enterTime, exitTime) == 0
  {
  }

  /** Seconds under a minute past whole hours cost nothing: 1 h + 1 ms is one hour. */
  lemma SubMinuteRemainderNotCharged(enterTime: int)
    ensures CalculatePrice("car", enterTime, enterTime + MsPerHour + 1) == 5000
    ensures CalculatePrice("car", enterTime, enterTime + MsPerHour + MsPerMinute - 1) == 5000
  {
  }

  /** The fixed points of the tariff. */
  lemma CalculatePriceExamples(enterTime: int)
    ensures CalculatePrice("car", enterTime, enterTime + MsPerHour) == 5000
    ensures CalculatePrice("motorcycle", enterTime, enterTime + MsPerHour) == 2000
    ensures CalculatePrice("car", enterTime, enterTime + MsPerDay) == 80000
    ensures CalculatePrice("motorcycle", enterTime, enterTime + MsPerDay) == 40000
    ensures CalculatePrice("car", enterTime, enterTime + MsPerHour + MsPerMinute) == 10000
  {
  }

  /** The fee is not monotone in the stay: 23 h 59 min costs more than 24 h. */
  lemma CalculatePriceNotMonotone(enterTime: int)
    ensures CalculatePrice("car", enterTime, enterTime + 23 * MsPerHour + 59 * MsPerMinute) == 120000
    ensures CalculatePrice("car", enterTime, enterTime + MsPerDay) == 80000
  {
  }

  // ----------------------------------------------------------------------------
  // Values sent to the database
  // ----------------------------------------------------------------------------

  datatype SqlValue = SqlText(s: string) | SqlInt(i: int)

  /** A parameterised statement: `{ text, values }`; `$k` binds `values[k-1]`. */
  datatype Query = Query(text: string, values: seq<SqlValue>)

  /** What `pool.query` resolves to. */
  datatype QueryResult = QueryResult(rowCount: nat, rows: seq<DbRow>)

  // ----------------------------------------------------------------------------
  // addParkingData
  // ----------------------------------------------------------------------------

  const InsertText := "INSERT INTO parking(type, enter_time, exit_time, price) VALUES($1, $2, $3, $4) RETURNING id"
  const InsertFailedMessage := "Insertion of parking data failed"

  /**
   * addParkingData({type, enterTime, exitTime}). The code calls `this._calculatePrice`,
   * a member the class does not have (only the static `calculatePrice` exists); this
   * model calls `CalculatePrice`, as evidently intended. The code also has no `return`
   * after the rowCount check, so a successful insert yields no id: the success value
   * here is `()`.
   */
  method AddParkingData(vehicleType: string, enterTime: int, exitTime: int, pool: Query -> QueryResult)
    returns (issued: Query, outcome: Result<(), ErrorObj>)
    ensures issued.text == InsertText
    ensures issued.values == [SqlText(vehicleType), SqlInt(enterTime), SqlInt(exitTime),
                              SqlInt(CalculatePrice(vehicleType, enterTime, exitTime))]
    ensures outcome.Failure? <==> pool(issued).rowCount == 0
    ensures outcome.Failure? ==> outcome.error == InvariantError(InsertFailedMessage)
  {
    var price := CalculatePrice(vehicleType, enterTime, exitTime);
    issued := Query(InsertText, [SqlText(vehicleType), SqlInt(enterTime), SqlInt(exitTime), SqlInt(price)]);
    var result := pool(issued);
    if result.rowCount == 0 {
      outcome := Failure(InvariantError(InsertFailedMessage));
      return;
    }
    outcome := Success(());
  }

  // ----------------------------------------------------------------------------
  // getParkingData and its filter clauses
  // ----------------------------------------------------------------------------

  datatype TimeRange = TimeRange(start: Option<int>, end: Option<int>)
  datatype PriceRange = PriceRange(min: Option<int>, max: Option<int>)

  /** The argument `{ type, timeRange, priceRange }`. */
  datatype Filter = Filter(vehicleType: Option<string>, timeRange: Option<TimeRange>, priceRange: Option<PriceRange>)

  /** JavaScript truthiness of an optional string: present and not empty. */
  predicate TruthyText(o: Option<string>) {
    o.Some? && o.value != ""
  }

  /** JavaScript truthiness of an optional number: present and not zero. */
  predicate TruthyInt(o: Option<int>) {
    o.Some? && o.value != 0
  }

  datatype Column = TypeColumn | EnterTimeColumn | ExitTimeColumn | PriceColumn
  datatype Operator = Equal | AtLeast | AtMost

  /** One ` AND <column> <operator> $<placeholder>` piece of the WHERE text. */
  datatype Clause = Clause(column: Column, op: Operator, placeholder: nat)

  /** The five conditions the builder can add, named by what they test. */
  datatype Condition = TypeEquals | EnterFrom | ExitUntil | PriceFrom | PriceUpTo

  /** The order in which the builder tests the conditions. */
  const FixedOrder: seq<Condition> := [TypeEquals, EnterFrom, ExitUntil, PriceFrom, PriceUpTo]

  function Rank(c: Condition): nat {
    match c
    case TypeEquals => 0
    case EnterFrom => 1
    case ExitUntil => 2
    case PriceFrom => 3
    case PriceUpTo => 4
  }

  function ColumnOf(c: Condition): Column {
    match c
    case TypeEquals => TypeColumn
    case EnterFrom => EnterTimeColumn
    case ExitUntil => ExitTimeColumn
    case PriceFrom => PriceColumn
    case PriceUpTo => PriceColumn
  }

  function OperatorOf(c: Condition): Operator {
    match c
    case TypeEquals => Equal
    case EnterFrom => AtLeast
    case ExitUntil => AtMost
    case PriceFrom => AtLeast
    case PriceUpTo => AtMost
  }

  /** Whether the filter's field for `c` is truthy, so that the builder adds `c`. */
  predicate Tests(f: Filter, c: Condition) {
    match c
    case TypeEquals => TruthyText(f.vehicleType)
    case EnterFrom => f.timeRange.Some? && TruthyInt(f.timeRange.value.start)
    case ExitUntil => f.timeRange.Some? && TruthyInt(f.timeRange.value.end)
    case PriceFrom => f.priceRange.Some? && TruthyInt(f.priceRange.value.min)
    case PriceUpTo => f.priceRange.Some? && TruthyInt(f.priceRange.value.max)
  }

  /** The value the filter gives for condition `c` (meaningful when `Tests(f, c)`). */
  function FieldValue(f: Filter, c: Condition): SqlValue {
    match c
    case TypeEquals => SqlText(f.vehicleType.GetOr(""))
    case EnterFrom => SqlInt(if f.timeRange.Some? then f.timeRange.value.start.GetOr(0) else 0)
    case ExitUntil => SqlInt(if f.timeRange.Some? then f.timeRange.value.end.GetOr(0) else 0)
    case PriceFrom => SqlInt(if f.priceRange.Some? then f.priceRange.value.min.GetOr(0) else 0)
    case PriceUpTo => SqlInt(if f.priceRange.Some? then f.priceRange.value.max.GetOr(0) else 0)
  }

  /** The conditions the filter switches on, in the fixed order. */
  function ActiveConditions(f: Filter): seq<Condition> {
    Only(f, TypeEquals) + Only(f, EnterFrom) + Only(f, ExitUntil) + Only(f, PriceFrom) + Only(f, PriceUpTo)
  }

  /** `c` alone when the filter tests it, nothing otherwise. */
  function Only(f: Filter, c: Condition): seq<Condition> {
    if Tests(f, c) then [c] else []
  }

  /** Clauses for `cs`, numbered consecutively from `first`. */
  function Numbered(cs: seq<Condition>, first: nat): (r: seq<Clause>)
    ensures |r| == |cs|
  {
    if cs == [] then [] else [Clause(ColumnOf(cs[0]), OperatorOf(cs[0]), first)] + Numbered(cs[1..], first + 1)
  }

  /** The clauses of the filter's WHERE text, placeholders from `$1`. */
  function FilterClauses(f: Filter): seq<Clause> {
    Numbered(ActiveConditions(f), 1)
  }

  /** The values the code pushes for `cs`: one per condition except `ExitUntil`. */
  function PushedValues(f: Filter, cs: seq<Condition>): seq<SqlValue> {
    if cs == [] then []
    else (if cs[0] == ExitUntil then [] else [FieldValue(f, cs[0])]) + PushedValues(f, cs[1..])
  }

  const SelectBase := "SELECT * FROM parking WHERE TRUE"

  function ColumnText(c: Column): string {
    match c
    case TypeColumn => "type"
    case EnterTimeColumn => "enter_time"
    case ExitTimeColumn => "exit_time"
    case PriceColumn => "price"
  }

  function OperatorText(op: Operator): string {
    match op
    case Equal => "="
    case AtLeast => ">="
    case AtMost => "<="
  }

  predicate AllDigits(t: string) {
    forall i :: 0 <= i < |t| ==> '0' <= t[i] <= '9'
  }

  /** Decimal digits of `n`, as `${n}` writes them: no sign and no leading zero. */
  function NatText(n: nat): (t: string)
    ensures |t| >= 1
    ensures AllDigits(t)
    ensures n >= 10 ==> t[0] != '0'
    decreases n
  {
    if n < 10 then ["0123456789"[n]] else NatText(n / 10) + ["0123456789"[n % 10]]
  }

  /** The number the decimal digit `d` stands for. */
  function DigitValue(d: char): int {
    d as int - '0' as int
  }

  /** The number a string of decimal digits spells, most significant digit first. */
  function DecimalValue(t: string): int
    decreases |t|
  {
    if t == [] then 0 else 10 * DecimalValue(t[..|t| - 1]) + DigitValue(t[|t| - 1])
  }

  /** `${n}` spells `n`: reading the digits back gives the number. */
  lemma {:induction false} NatTextSpellsValue(n: nat)
    ensures DecimalValue(NatText(n)) == n
    decreases n
  {
    var t := NatText(n);
    var d := "0123456789"[n % 10];
    assert DigitValue(d) == n % 10 by {
      var r := n % 10;
      if r == 0 {} else if r == 1 {} else if r == 2 {} else if r == 3 {} else if r == 4 {}
      else if r == 5 {} else if r == 6 {} else if r == 7 {} else if r == 8 {} else {}
    }
    if n < 10 {
      assert t == [d];
      assert t[..|t| - 1] == [];
    } else {
      NatTextSpellsValue(n / 10);
      assert t == NatText(n / 10) + [d];
      assert t[..|t| - 1] == NatText(n / 10);
    }
  }

  function ClauseText(c: Clause): string {
    " AND " + ColumnText(c.column) + " " + OperatorText(c.op) + " $" + NatText(c.placeholder)
  }

  function Render(cs: seq<Clause>): string {
    if cs == [] then "" else ClauseText(cs[0]) + Render(cs[1..])
  }

  // --- facts about the specification functions ---

  lemma {:induction false} NumberedAppend(a: seq<Condition>, b: seq<Condition>, first: nat)
    ensures Numbered(a + b, first) == Numbered(a, first) + Numbered(b, first + |a|)
  {
    if a == [] {
      assert a + b == b;
    } else {
      assert (a + b)[1..] == a[1..] + b;
      NumberedAppend(a[1..], b, first + 1);
    }
  }

  lemma {:induction false} RenderAppend(a: seq<Clause>, b: seq<Clause>)
    ensures Render(a + b) == Render(a) + Render(b)
  {
    if a == [] {
      assert a + b == b;
    } else {
      assert (a + b)[1..] == a[1..] + b;
      RenderAppend(a[1..], b);
    }
  }

  lemma {:induction false} PushedValuesAppend(f: Filter, a: seq<Condition>, b: seq<Condition>)
    ensures PushedValues(f, a + b) == PushedValues(f, a) + PushedValues(f, b)
  {
    if a == [] {
      assert a + b == b;
    } else {
      assert (a + b)[1..] == a[1..] + b;
      PushedValuesAppend(f, a[1..], b);
    }
  }

  /** Placeholders are numbered consecutively: clause k carries `$(first + k)`. */
  lemma {:induction false} NumberedConsecutive(cs: seq<Condition>, first: nat, k: nat)
    requires k < |cs|
    ensures Numbered(cs, first)[k] == Clause(ColumnOf(cs[k]), OperatorOf(cs[k]), first + k)
  {
    if k > 0 {
      NumberedConsecutive(cs[1..], first + 1, k - 1);
    }
  }

  /** Without `ExitUntil` among them, each condition pushes exactly its own value. */
  lemma {:induction false} PushedValuesWithoutExit(f: Filter, cs: seq<Condition>)
    requires ExitUntil !in cs
    ensures |PushedValues(f, cs)| == |cs|
    ensures forall k :: 0 <= k < |cs| ==> PushedValues(f, cs)[k] == FieldValue(f, cs[k])
  {
    if cs != [] {
      assert cs[0] != ExitUntil;
      assert ExitUntil !in cs[1..] by {
        forall c | c in cs[1..] ensures c != ExitUntil { assert c in cs; }
      }
      PushedValuesWithoutExit(f, cs[1..]);
    }
  }

  /** A condition list holding `ExitUntil` once pushes one value fewer than it has conditions. */
  lemma {:induction false} PushedValuesWithOneExit(f: Filter, a: seq<Condition>, b: seq<Condition>)
    requires ExitUntil !in a && ExitUntil !in b
    ensures PushedValues(f, a + [ExitUntil] + b) == PushedValues(f, a) + PushedValues(f, b)
    ensures |PushedValues(f, a + [ExitUntil] + b)| == |a + [ExitUntil] + b| - 1
  {
    PushedValuesAppend(f, a + [ExitUntil], b);
    PushedValuesAppend(f, a, [ExitUntil]);
    assert PushedValues(f, [ExitUntil]) == [];
    PushedValuesWithoutExit(f, a);
    PushedValuesWithoutExit(f, b);
  }

  /** Exactly the tested conditions are active. */
  lemma ActiveConditionsAreTested(f: Filter)
    ensures forall c :: c in ActiveConditions(f) <==> Tests(f, c)
  {
  }

  /** The active conditions never leave the fixed order. */
  lemma ActiveConditionsInFixedOrder(f: Filter)
    ensures forall i :: 0 <= i < |ActiveConditions(f)| - 1 ==> Rank(ActiveConditions(f)[i]) < Rank(ActiveConditions(f)[i + 1])
  {
  }

  /** The values are one fewer than the clauses exactly when the exit-time clause is present. */
  lemma FilterValueCount(f: Filter)
    ensures |PushedValues(f, ActiveConditions(f))|
         == |FilterClauses(f)| - (if Tests(f, ExitUntil) then 1 else 0)
  {
    var a := Only(f, TypeEquals) + Only(f, EnterFrom);
    var b := Only(f, PriceFrom) + Only(f, PriceUpTo);
    if Tests(f, ExitUntil) {
      assert ActiveConditions(f) == a + [ExitUntil] + b;
      PushedValuesWithOneExit(f, a, b);
    } else {
      assert ActiveConditions(f) == a + b;
      PushedValuesWithoutExit(f, a + b);
    }
  }

  /**
   * Without an exit-time bound the statement is consistent: clause k carries `$(k+1)`
   * and `values[k]` is the filter value that clause tests.
   */
  lemma PlaceholdersBindTheirValues(f: Filter)
    requires !Tests(f, ExitUntil)
    ensures var cs, vs := FilterClauses(f), PushedValues(f, ActiveConditions(f));
            |vs| == |cs| &&
            forall k :: 0 <= k < |cs| ==>
              cs[k].placeholder == k + 1 && vs[cs[k].placeholder - 1] == FieldValue(f, ActiveConditions(f)[k])
  {
    var acs := ActiveConditions(f);
    ActiveConditionsAreTested(f);
    PushedValuesWithoutExit(f, acs);
    forall k | 0 <= k < |acs| ensures FilterClauses(f)[k].placeholder == k + 1 {
      NumberedConsecutive(acs, 1, k);
    }
  }

  /**
   * With an exit-time bound the exit clause takes a placeholder but pushes no value:
   * clauses before it bind their own values, every clause after it finds its value
   * one slot earlier than its placeholder names, and the last placeholder has no
   * value at all.
   */
  lemma ExitClauseShiftsLaterBindings(f: Filter)
    requires Tests(f, ExitUntil)
    ensures var acs, cs, vs := ActiveConditions(f), FilterClauses(f), PushedValues(f, ActiveConditions(f));
            && |vs| == |cs| - 1
            && (forall k :: 0 <= k < |cs| ==> cs[k].placeholder == k + 1)
            && (forall k :: 0 <= k < |vs| && Rank(acs[k]) < Rank(ExitUntil) ==> vs[k] == FieldValue(f, acs[k]))
            && (forall k :: 1 <= k < |acs| && Rank(acs[k]) > Rank(ExitUntil) ==> vs[k - 1] == FieldValue(f, acs[k]))
            && cs[|cs| - 1].placeholder == |vs| + 1
  {
    var acs := ActiveConditions(f);
    var a, b := BeforeExit(f), AfterExit(f);
    ExitSplitsConditions(f);
    FilterPlaceholdersConsecutive(f);
    PushedValuesWithOneExit(f, a, b);
    EarlierBindOwnValues(f);
    LaterBindShiftedValues(f);
  }

  /** The conditions the code handles before and after the exit-time bound. */
  function BeforeExit(f: Filter): seq<Condition> {
    Only(f, TypeEquals) + Only(f, EnterFrom)
  }

  function AfterExit(f: Filter): seq<Condition> {
    Only(f, PriceFrom) + Only(f, PriceUpTo)
  }

  lemma ExitSplitsConditions(f: Filter)
    requires Tests(f, ExitUntil)
    ensures ActiveConditions(f) == BeforeExit(f) + [ExitUntil] + AfterExit(f)
    ensures ExitUntil !in BeforeExit(f) && ExitUntil !in AfterExit(f)
    ensures forall c :: c in BeforeExit(f) ==> Rank(c) < Rank(ExitUntil)
    ensures forall c :: c in AfterExit(f) ==> Rank(c) > Rank(ExitUntil)
  {
  }

  /** Clause k of the filter carries placeholder `$(k+1)`. */
  lemma FilterPlaceholdersConsecutive(f: Filter)
    ensures forall k :: 0 <= k < |FilterClauses(f)| ==> FilterClauses(f)[k].placeholder == k + 1
  {
    forall k | 0 <= k < |FilterClauses(f)| ensures FilterClauses(f)[k].placeholder == k + 1 {
      NumberedConsecutive(ActiveConditions(f), 1, k);
    }
  }

  lemma EarlierBindOwnValues(f: Filter)
    requires Tests(f, ExitUntil)
    ensures var acs, vs := ActiveConditions(f), PushedValues(f, ActiveConditions(f));
            forall k :: 0 <= k < |vs| && k < |acs| && Rank(acs[k]) < Rank(ExitUntil) ==> vs[k] == FieldValue(f, acs[k])
  {
    var acs, a, b := ActiveConditions(f), BeforeExit(f), AfterExit(f);
    ExitSplitsConditions(f);
    PushedValuesWithOneExit(f, a, b);
    PushedValuesWithoutExit(f, a);
    forall k | 0 <= k < |PushedValues(f, acs)| && k < |acs| && Rank(acs[k]) < Rank(ExitUntil)
      ensures PushedValues(f, acs)[k] == FieldValue(f, acs[k])
    {
      assert acs[k] == a[k];
    }
  }

  lemma LaterBindShiftedValues(f: Filter)
    requires Tests(f, ExitUntil)
    ensures var acs, vs := ActiveConditions(f), PushedValues(f, ActiveConditions(f));
            forall k :: 1 <= k < |acs| && k - 1 < |vs| && Rank(acs[k]) > Rank(ExitUntil) ==> vs[k - 1] == FieldValue(f, acs[k])
  {
    var acs, a, b := ActiveConditions(f), BeforeExit(f), AfterExit(f);
    ExitSplitsConditions(f);
    PushedValuesWithOneExit(f, a, b);
    PushedValuesWithoutExit(f, b);
    forall k | 1 <= k < |acs| && k - 1 < |PushedValues(f, acs)| && Rank(acs[k]) > Rank(ExitUntil)
      ensures PushedValues(f, acs)[k - 1] == FieldValue(f, acs[k])
    {
      assert acs[k] == b[k - |a| - 1];
    }
  }

  /** With no truthy filter field the statement is the bare base text with no values. */
  lemma NoFilterIsBaseQuery(f: Filter)
    requires forall c :: c in FixedOrder ==> !Tests(f, c)
    ensures SelectBase + Render(FilterClauses(f)) == "SELECT * FROM parking WHERE TRUE"
    ensures PushedValues(f, ActiveConditions(f)) == []
  {
    assert !Tests(f, TypeEquals) && !Tests(f, EnterFrom) && !Tests(f, ExitUntil);
    assert !Tests(f, PriceFrom) && !Tests(f, PriceUpTo);
    assert ActiveConditions(f) == [];
  }

  /** A type-only filter binds the type to `$1`. */
  lemma TypeOnlyQuery(t: string)
    requires t != ""
    ensures var f := Filter(Some(t), None, None);
            SelectBase + Render(FilterClauses(f)) == SelectBase + " AND type = $1"
            && PushedValues(f, ActiveConditions(f)) == [SqlText(t)]
  {
    var f := Filter(Some(t), None, None);
    assert ActiveConditions(f) == [TypeEquals];
    assert FilterClauses(f) == [Clause(TypeColumn, Equal, 1)];
    ConditionClauseText(TypeEquals, 1);
    SmallNumerals();
    assert Render(FilterClauses(f)) == ClauseText(Clause(TypeColumn, Equal, 1)) + Render([]);
  }

  /** All five fields: five clauses in the fixed order, `$1`..`$5`, but only four values. */
  lemma FullFilterQuery(t: string, start: int, end: int, min: int, max: int)
    requires t != "" && start != 0 && end != 0 && min != 0 && max != 0
    ensures var f := Filter(Some(t), Some(TimeRange(Some(start), Some(end))), Some(PriceRange(Some(min), Some(max))));
            && Render(FilterClauses(f))
               == " AND type = $1" + " AND enter_time >= $2" + " AND exit_time <= $3" + " AND price >= $4" + " AND price <= $5"
            && PushedValues(f, ActiveConditions(f)) == [SqlText(t), SqlInt(start), SqlInt(min), SqlInt(max)]
  {
    var f := Filter(Some(t), Some(TimeRange(Some(start), Some(end))), Some(PriceRange(Some(min), Some(max))));
    FullFilterRender(f);
    FullFilterValues(f);
  }

  lemma FullFilterRender(f: Filter)
    requires forall c :: Tests(f, c)
    ensures Render(FilterClauses(f))
         == " AND type = $1" + " AND enter_time >= $2" + " AND exit_time <= $3" + " AND price >= $4" + " AND price <= $5"
  {
    assert Tests(f, TypeEquals) && Tests(f, EnterFrom) && Tests(f, ExitUntil) && Tests(f, PriceFrom) && Tests(f, PriceUpTo);
    FilterTextByPieces(f);
    FullFilterPieces(f);
  }

  /** The five pieces of a filter that tests every condition, numbered `$1`..`$5`. */
  lemma FullFilterPieces(f: Filter)
    requires forall c :: Tests(f, c)
    ensures Piece(f, TypeEquals, 1) == " AND type = $1"
    ensures Piece(f, EnterFrom, 2) == " AND enter_time >= $2"
    ensures Piece(f, ExitUntil, 3) == " AND exit_time <= $3"
    ensures Piece(f, PriceFrom, 4) == " AND price >= $4"
    ensures Piece(f, PriceUpTo, 5) == " AND price <= $5"
  {
    assert Tests(f, TypeEquals) && Tests(f, EnterFrom) && Tests(f, ExitUntil) && Tests(f, PriceFrom) && Tests(f, PriceUpTo);
    SmallNumerals();
  }

  lemma SmallNumerals()
    ensures NatText(1) == "1" && NatText(2) == "2" && NatText(3) == "3" && NatText(4) == "4" && NatText(5) == "5"
  {
  }

  /** Different placeholder numbers are written differently. */
  lemma NatTextInjective(a: nat, b: nat)
    requires NatText(a) == NatText(b)
    ensures a == b
  {
    NatTextSpellsValue(a);
    NatTextSpellsValue(b);
  }

  lemma FullFilterValues(f: Filter)
    requires forall c :: Tests(f, c)
    ensures PushedValues(f, ActiveConditions(f))
         == [FieldValue(f, TypeEquals), FieldValue(f, EnterFrom), FieldValue(f, PriceFrom), FieldValue(f, PriceUpTo)]
  {
    assert Tests(f, TypeEquals) && Tests(f, EnterFrom) && Tests(f, ExitUntil) && Tests(f, PriceFrom) && Tests(f, PriceUpTo);
    FilterValuesByPieces(f);
    var t, e, p, q := TypeEquals, EnterFrom, PriceFrom, PriceUpTo;
    assert PushedValues(f, [t]) == [FieldValue(f, t)] + PushedValues(f, []);
    assert PushedValues(f, [e]) == [FieldValue(f, e)] + PushedValues(f, []);
    assert PushedValues(f, [p]) == [FieldValue(f, p)] + PushedValues(f, []);
    assert PushedValues(f, [q]) == [FieldValue(f, q)] + PushedValues(f, []);
  }

  /** The literal text the code writes before `${index}` for each condition. */
  function ConditionPrefix(c: Condition): string {
    match c
    case TypeEquals => " AND type = $"
    case EnterFrom => " AND enter_time >= $"
    case ExitUntil => " AND exit_time <= $"
    case PriceFrom => " AND price >= $"
    case PriceUpTo => " AND price <= $"
  }

  lemma ConditionClauseText(c: Condition, n: nat)
    ensures ClauseText(Clause(ColumnOf(c), OperatorOf(c), n)) == ConditionPrefix(c) + NatText(n)
  {
    ConditionPrefixSpelled(c);
  }

  /** The prefix of each condition is the column and operator text the template spells. */
  lemma ConditionPrefixSpelled(c: Condition)
    ensures " AND " + ColumnText(ColumnOf(c)) + " " + OperatorText(OperatorOf(c)) + " $" == ConditionPrefix(c)
  {
    match c
    case TypeEquals => assert " AND " + "type" + " " + "=" + " $" == " AND type = $";
    case EnterFrom => assert " AND " + "enter_time" + " " + ">=" + " $" == " AND enter_time >= $";
    case ExitUntil => assert " AND " + "exit_time" + " " + "<=" + " $" == " AND exit_time <= $";
    case PriceFrom => assert " AND " + "price" + " " + ">=" + " $" == " AND price >= $";
    case PriceUpTo => assert " AND " + "price" + " " + "<=" + " $" == " AND price <= $";
  }

  // --- the builder itself ---

  /** The text condition `c` contributes when it is numbered `n`. */
  function Piece(f: Filter, c: Condition, n: nat): string {
    if Tests(f, c) then ConditionPrefix(c) + NatText(n) else ""
  }

  lemma PieceRender(f: Filter, c: Condition, n: nat)
    ensures Render(Numbered(Only(f, c), n)) == Piece(f, c, n)
  {
    if Tests(f, c) {
      ConditionClauseText(c, n);
      assert Numbered([c], n) == [Clause(ColumnOf(c), OperatorOf(c), n)];
    }
  }

  /** The clauses, numbered block by block: each block starts one past the clauses before it. */
  lemma FilterClausesByPieces(f: Filter, n1: nat, n2: nat, n3: nat, n4: nat)
    requires n1 == 1 + |Only(f, TypeEquals)| && n2 == n1 + |Only(f, EnterFrom)|
    requires n3 == n2 + |Only(f, ExitUntil)| && n4 == n3 + |Only(f, PriceFrom)|
    ensures FilterClauses(f)
              == Numbered(Only(f, TypeEquals), 1) + Numbered(Only(f, EnterFrom), n1) + Numbered(Only(f, ExitUntil), n2)
               + Numbered(Only(f, PriceFrom), n3) + Numbered(Only(f, PriceUpTo), n4)
  {
    var t, e, x, p, q := Only(f, TypeEquals), Only(f, EnterFrom), Only(f, ExitUntil), Only(f, PriceFrom), Only(f, PriceUpTo);
    assert ActiveConditions(f) == t + e + x + p + q;
    NumberedAppend(t + e + x + p, q, 1);
    NumberedAppend(t + e + x, p, 1);
    NumberedAppend(t + e, x, 1);
    NumberedAppend(t, e, 1);
  }

  lemma RenderFive(a: seq<Clause>, b: seq<Clause>, c: seq<Clause>, d: seq<Clause>, e: seq<Clause>)
    ensures Render(a + b + c + d + e) == Render(a) + Render(b) + Render(c) + Render(d) + Render(e)
  {
    RenderAppend(a + b + c + d, e);
    RenderAppend(a + b + c, d);
    RenderAppend(a + b, c);
    RenderAppend(a, b);
  }

  /** The WHERE text, written piece by piece with each placeholder counting the pieces before it. */
  lemma FilterTextByPieces(f: Filter)
    ensures var n1 := 1 + |Only(f, TypeEquals)|;
            var n2 := n1 + |Only(f, EnterFrom)|;
            var n3 := n2 + |Only(f, ExitUntil)|;
            var n4 := n3 + |Only(f, PriceFrom)|;
            Render(FilterClauses(f))
              == Piece(f, TypeEquals, 1) + Piece(f, EnterFrom, n1) + Piece(f, ExitUntil, n2)
               + Piece(f, PriceFrom, n3) + Piece(f, PriceUpTo, n4)
  {
    var t, e, x, p, q := Only(f, TypeEquals), Only(f, EnterFrom), Only(f, ExitUntil), Only(f, PriceFrom), Only(f, PriceUpTo);
    FilterClausesByPieces(f, 1 + |t|, 1 + |t| + |e|, 1 + |t| + |e| + |x|, 1 + |t| + |e| + |x| + |p|);
    RenderFive(Numbered(t, 1), Numbered(e, 1 + |t|), Numbered(x, 1 + |t| + |e|),
               Numbered(p, 1 + |t| + |e| + |x|), Numbered(q, 1 + |t| + |e| + |x| + |p|));
    PieceRender(f, TypeEquals, 1);
    PieceRender(f, EnterFrom, 1 + |t|);
    PieceRender(f, ExitUntil, 1 + |t| + |e|);
    PieceRender(f, PriceFrom, 1 + |t| + |e| + |x|);
    PieceRender(f, PriceUpTo, 1 + |t| + |e| + |x| + |p|);
  }

  /** The pushed values, piece by piece; the exit-time condition contributes none. */
  lemma FilterValuesByPieces(f: Filter)
    ensures PushedValues(f, ActiveConditions(f))
         == PushedValues(f, Only(f, TypeEquals)) + PushedValues(f, Only(f, EnterFrom))
          + PushedValues(f, Only(f, PriceFrom)) + PushedValues(f, Only(f, PriceUpTo))
  {
    var t, e, x, p, q := Only(f, TypeEquals), Only(f, EnterFrom), Only(f, ExitUntil), Only(f, PriceFrom), Only(f, PriceUpTo);
    assert ActiveConditions(f) == t + e + x + p + q;
    PushedValuesAppend(f, t + e + x + p, q);
    PushedValuesAppend(f, t + e + x, p);
    PushedValuesAppend(f, t + e, x);
    PushedValuesAppend(f, t, e);
    assert PushedValues(f, x) == [];
  }

  /** The builder's locals are the clauses, the values and the next placeholder for `added`. */
  ghost predicate Tracks(f: Filter, added: seq<Condition>, clauses: seq<Clause>, values: seq<SqlValue>, index: nat) {
    clauses == Numbered(added, 1) && values == PushedValues(f, added) && index == |added| + 1
  }

  /**
   * One `if (field) { ... }` step of the builder keeps `Tracks`: when `c` is tested the
   * step appended `c`'s clause numbered `index` and (except for exit time) its value,
   * and otherwise changed nothing.
   */
  lemma StepTracks(f: Filter, added: seq<Condition>, c: Condition,
                   clauses: seq<Clause>, values: seq<SqlValue>, index: nat,
                   clauses': seq<Clause>, values': seq<SqlValue>, index': nat)
    requires Tracks(f, added, clauses, values, index)
    requires Tests(f, c) ==>
               && clauses' == clauses + [Clause(ColumnOf(c), OperatorOf(c), index)]
               && values' == values + (if c == ExitUntil then [] else [FieldValue(f, c)])
               && index' == index + 1
    requires !Tests(f, c) ==> clauses' == clauses && values' == values && index' == index
    ensures Tracks(f, added + Only(f, c), clauses', values', index')
  {
    if Tests(f, c) {
      NumberedSnoc(added, c);
      PushedValuesSnoc(f, added, c);
    } else {
      assert added + Only(f, c) == added;
    }
  }

  /**
   * Once every condition is handled, the locals are the filter's clauses and values,
   * one value fewer than clauses exactly when the exit time is tested, and `index`
   * is one past the last placeholder.
   */
  lemma TracksAllConditions(f: Filter, clauses: seq<Clause>, values: seq<SqlValue>, index: nat)
    requires Tracks(f, ActiveConditions(f), clauses, values, index)
    ensures clauses == FilterClauses(f)
    ensures values == PushedValues(f, ActiveConditions(f))
    ensures |values| == |FilterClauses(f)| - (if Tests(f, ExitUntil) then 1 else 0)
    ensures index == |clauses| + 1
  {
    FilterValueCount(f);
  }

  lemma NumberedSnoc(cs: seq<Condition>, c: Condition)
    ensures Numbered(cs + [c], 1) == Numbered(cs, 1) + [Clause(ColumnOf(c), OperatorOf(c), |cs| + 1)]
  {
    NumberedAppend(cs, [c], 1);
  }

  lemma PushedValuesSnoc(f: Filter, cs: seq<Condition>, c: Condition)
    ensures PushedValues(f, cs + [c]) == PushedValues(f, cs) + (if c == ExitUntil then [] else [FieldValue(f, c)])
  {
    PushedValuesAppend(f, cs, [c]);
    assert PushedValues(f, [c]) == (if c == ExitUntil then [] else [FieldValue(f, c)]) + PushedValues(f, []);
  }

  /**
   * The query-building part of getParkingData: the base text, then one clause per
   * truthy field in the fixed order, `index` counting placeholders from 1. As in the
   * code, the exit-time clause advances `index` but pushes no value. The text being
   * appended is held as the clauses it spells and rendered once at the end;
   * `RenderAppend` shows that rendering clause by clause gives the same string.
   */
  method BuildFilterQuery(f: Filter) returns (query: Query)
    ensures query.text == SelectBase + Render(FilterClauses(f))
    ensures query.values == PushedValues(f, ActiveConditions(f))
    ensures |query.values| == |FilterClauses(f)| - (if Tests(f, ExitUntil) then 1 else 0)
  {
    query := Query(SelectBase, []);
    var textToAppend: seq<Clause> := [];
    var valuesToPush: seq<SqlValue> := [];
    var index: nat := 1;
    // `added` is the conditions handled so far; `t0, v0, i0` and `t1, v1, i1` are the
    // locals before and between steps, for the step lemma.
    ghost var added: seq<Condition> := [];
    ghost var t0, v0, i0 := textToAppend, valuesToPush, index;
    if TruthyText(f.vehicleType) {
      textToAppend := textToAppend + [Clause(TypeColumn, Equal, index)];
      valuesToPush := valuesToPush + [SqlText(f.vehicleType.value)];
      index := index + 1;
    }
    StepTracks(f, added, TypeEquals, t0, v0, i0, textToAppend, valuesToPush, index);
    assert added + Only(f, TypeEquals) == Only(f, TypeEquals);
    added := Only(f, TypeEquals);
    t0, v0, i0 := textToAppend, valuesToPush, index;
    ghost var t1, v1, i1 := t0, v0, i0;
    if f.timeRange.Some? {
      var timeRange := f.timeRange.value;
      if TruthyInt(timeRange.start) {
        textToAppend := textToAppend + [Clause(EnterTimeColumn, AtLeast, index)];
        valuesToPush := valuesToPush + [SqlInt(timeRange.start.value)];
        index := index + 1;
      }
      t1, v1, i1 := textToAppend, valuesToPush, index;
      if TruthyInt(timeRange.end) {
        textToAppend := textToAppend + [Clause(ExitTimeColumn, AtMost, index)];
        index := index + 1;
      }
    }
    StepTracks(f, added, EnterFrom, t0, v0, i0, t1, v1, i1);
    added := added + Only(f, EnterFrom);
    StepTracks(f, added, ExitUntil, t1, v1, i1, textToAppend, valuesToPush, index);
    added := added + Only(f, ExitUntil);
    t0, v0, i0 := textToAppend, valuesToPush, index;
    t1, v1, i1 := t0, v0, i0;
    if f.priceRange.Some? {
      var priceRange := f.priceRange.value;
      if TruthyInt(priceRange.min) {
        textToAppend := textToAppend + [Clause(PriceColumn, AtLeast, index)];
        valuesToPush := valuesToPush + [SqlInt(priceRange.min.value)];
        index := index + 1;
      }
      t1, v1, i1 := textToAppend, valuesToPush, index;
      if TruthyInt(priceRange.max) {
        textToAppend := textToAppend + [Clause(PriceColumn, AtMost, index)];
        valuesToPush := valuesToPush + [SqlInt(priceRange.max.value)];
        index := index + 1;
      }
    }
    StepTracks(f, added, PriceFrom, t0, v0, i0, t1, v1, i1);
    added := added + Only(f, PriceFrom);
    StepTracks(f, added, PriceUpTo, t1, v1, i1, textToAppend, valuesToPush, index);
    added := added + Only(f, PriceUpTo);
    assert added == ActiveConditions(f);
    TracksAllConditions(f, textToAppend, valuesToPush, index);
    assert index == |textToAppend| + 1;
    query := query.(text := query.text + Render(textToAppend));
    query := query.(values := query.values + valuesToPush);
    assert query.values == valuesToPush;
  }

  /** getParkingData: issue the built statement and map every returned row, in order. */
  method GetParkingData(f: Filter, pool: Query -> QueryResult) returns (issued: Query, records: seq<ParkingRecord>)
    ensures issued.text == SelectBase + Render(FilterClauses(f))
    ensures issued.values == PushedValues(f, ActiveConditions(f))
    ensures |records| == |pool(issued).rows|
    ensures forall i :: 0 <= i < |records| ==> records[i] == MapParkingDBToModel(pool(issued).rows[i])
  {
    issued := BuildFilterQuery(f);
    var result := pool(issued);
    records := MapRows(result.rows);
  }
}
