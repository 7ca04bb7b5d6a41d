/** The dashboard (mytailor5/components/Stats.tsx): income and order counts,
    the overdue alert, the per-day task dots of the week calendar, the
    monthly report by week of the month and the weekday labels. Dates enter
    as parameters: `dateKey` is `toLocaleDateString('zh-CN')` of a
    timestamp, `dayOf` its `getDate()`, `inMonth` the test that it falls in
    the month on display. */
module Stats {
  import opened Wrappers
  import opened Orders
  import opened ListEdits

  // ---------------------------------------------------------------- totals

  /** `orders.reduce((sum, o) => sum + o.price, 0)`. */
  function TotalIncome(orders: seq<Order>): JsNumber {
    if orders == [] then Finite(0.0)
    else TotalIncome(orders[..|orders| - 1]).Plus(orders[|orders| - 1].price)
  }

  /** One price that is not a number makes the whole income not a number;
      otherwise the income is the plain sum of the prices. */
  lemma {:induction false} TotalIncomeMeaning(orders: seq<Order>)
    ensures TotalIncome(orders).NaN? <==> exists k :: 0 <= k < |orders| && orders[k].price.NaN?
    ensures TotalIncome(orders).Finite? ==> TotalIncome(orders).value == Revenue(orders)
  {
    if orders != [] {
      var init := orders[..|orders| - 1];
      TotalIncomeMeaning(init);
      if TotalIncome(init).NaN? {
        var k :| 0 <= k < |init| && init[k].price.NaN?;
        assert orders[k] == init[k];
      }
    }
  }

  /** The sum of the prices with a price that is not a number counted as 0
      (`(o.price || 0)`, which the PDF report sums). */
  function Revenue(orders: seq<Order>): real {
    if orders == [] then 0.0
    else Revenue(orders[..|orders| - 1]) + orders[|orders| - 1].price.OrZero().value
  }

  /** `orders.filter(o => o.status === 'pending')`. */
  function PendingOrders(orders: seq<Order>): (r: seq<Order>)
    ensures forall o :: o in r <==> o in orders && o.status == Pending
    ensures |r| <= |orders|
  {
    if orders == [] then []
    else
      var init := PendingOrders(orders[..|orders| - 1]);
      var last := orders[|orders| - 1];
      assert orders == orders[..|orders| - 1] + [last];
      if last.status == Pending then init + [last] else init
  }

  /** The orders of the overdue alert: more than five whole days old. */
  function CriticalOrders(pending: seq<Order>, now: int): (r: seq<Order>)
    ensures forall o :: o in r <==> o in pending && OlderThanDays(now, o.createdAt, 5)
    ensures |r| <= |pending|
  {
    if pending == [] then []
    else
      var init := CriticalOrders(pending[..|pending| - 1], now);
      var last := pending[|pending| - 1];
      assert pending == pending[..|pending| - 1] + [last];
      if OlderThanDays(now, last.createdAt, 5) then init + [last] else init
  }

  /** The pending list keeps every pending order once, in list order: the parts
      of a list are filtered one after the other, and an order is kept exactly
      when it is pending. So its length is the number of pending orders. */
  lemma {:induction false} PendingOrdersAppend(a: seq<Order>, b: seq<Order>)
    ensures PendingOrders(a + b) == PendingOrders(a) + PendingOrders(b)
    ensures forall o :: PendingOrders([o]) == if o.status == Pending then [o] else []
    decreases |b|
  {
    if b == [] {
      assert a + b == a;
    } else {
      var init, last := b[..|b| - 1], b[|b| - 1];
      var kept := if last.status == Pending then [last] else [];
      assert (a + b)[..|a + b| - 1] == a + init && (a + b)[|a + b| - 1] == last;
      assert PendingOrders(a + b) == PendingOrders(a + init) + kept;
      assert PendingOrders(b) == PendingOrders(init) + kept;
      PendingOrdersAppend(a, init);
    }
    forall o
      ensures PendingOrders([o]) == if o.status == Pending then [o] else []
    {
      assert [o][..0] == [];
    }
  }

  /** Likewise the overdue list keeps every order more than five days old once,
      in list order. */
  lemma {:induction false} CriticalOrdersAppend(a: seq<Order>, b: seq<Order>, now: int)
    ensures CriticalOrders(a + b, now) == CriticalOrders(a, now) + CriticalOrders(b, now)
    ensures forall o :: CriticalOrders([o], now) == if OlderThanDays(now, o.createdAt, 5) then [o] else []
    decreases |b|
  {
    if b == [] {
      assert a + b == a;
    } else {
      var init, last := b[..|b| - 1], b[|b| - 1];
      var kept := if OlderThanDays(now, last.createdAt, 5) then [last] else [];
      assert (a + b)[..|a + b| - 1] == a + init && (a + b)[|a + b| - 1] == last;
      assert CriticalOrders(a + b, now) == CriticalOrders(a + init, now) + kept;
      assert CriticalOrders(b, now) == CriticalOrders(init, now) + kept;
      CriticalOrdersAppend(a, init, now);
    }
    forall o
      ensures CriticalOrders([o], now) == if OlderThanDays(now, o.createdAt, 5) then [o] else []
    {
      assert [o][..0] == [];
    }
  }

  // ---------------------------------------------------------------- tasks by date

  datatype Tally = Tally(pending: nat, completed: nat)

  function Size(t: Tally): nat {
    t.pending + t.completed
  }

  /** How many orders of day `key` have `status`. */
  function CountOn(orders: seq<Order>, dateKey: int -> string, key: string, status: Status): nat {
    if orders == [] then 0
    else
      var last := orders[|orders| - 1];
      CountOn(orders[..|orders| - 1], dateKey, key, status)
      + (if dateKey(last.createdAt) == key && last.status == status then 1 else 0)
  }

  /** How many orders fall on day `key`. */
  function DayCount(orders: seq<Order>, dateKey: int -> string, key: string): nat {
    if orders == [] then 0
    else
      DayCount(orders[..|orders| - 1], dateKey, key)
      + (if dateKey(orders[|orders| - 1].createdAt) == key then 1 else 0)
  }

  /** The dots of a day count every order of that day once, as pending or
      as completed. */
  lemma {:induction false} TallyCountsDay(orders: seq<Order>, dateKey: int -> string, key: string)
    ensures CountOn(orders, dateKey, key, Pending) + CountOn(orders, dateKey, key, Completed)
         == DayCount(orders, dateKey, key)
  {
    if orders != [] {
      TallyCountsDay(orders[..|orders| - 1], dateKey, key);
    }
  }

  /** The tally of day `key`: its pending and its completed orders. */
  function TallyOf(orders: seq<Order>, dateKey: int -> string, key: string): Tally {
    Tally(CountOn(orders, dateKey, key, Pending), CountOn(orders, dateKey, key, Completed))
  }

  /** One more order in a tally: `completed++` when it is completed,
      `pending++` otherwise. */
  function Bump(t: Tally, status: Status): Tally {
    if status == Completed then t.(completed := t.completed + 1) else t.(pending := t.pending + 1)
  }

  lemma TallyOfAppend(orders: seq<Order>, o: Order, dateKey: int -> string, key: string)
    ensures TallyOf(orders + [o], dateKey, key)
         == if dateKey(o.createdAt) == key then Bump(TallyOf(orders, dateKey, key), o.status)
            else TallyOf(orders, dateKey, key)
  {
    assert (orders + [o])[..|orders|] == orders;
  }

  /** `m` holds a tally for exactly the days of `orders`, each with its
      orders counted. */
  ghost predicate Tallies(m: map<string, Tally>, orders: seq<Order>, dateKey: int -> string) {
    forall key :: TallyIs(m, key, TallyOf(orders, dateKey, key))
  }

  /** Day `key` has tally `t` in `m`, and has an entry exactly when `t`
      counts some order. */
  predicate TallyIs(m: map<string, Tally>, key: string, t: Tally) {
    if key in m then m[key] == t && Size(t) > 0 else t == Tally(0, 0)
  }

  /** The update of the loop of `tasksByDate`, seen from one day `key`: the
      day `d` of the order gets its tally (a new one if it had none) with
      the order counted in it, and every other day keeps its tally. */
  lemma TallyIsStep(m: map<string, Tally>, d: string, status: Status, key: string, t: Tally)
    requires TallyIs(m, key, t)
    ensures TallyIs(m[d := Bump(if d in m then m[d] else Tally(0, 0), status)], key,
                    if d == key then Bump(t, status) else t)
  {
  }

  lemma TalliesStep(m: map<string, Tally>, orders: seq<Order>, o: Order, dateKey: int -> string)
    requires Tallies(m, orders, dateKey)
    ensures var d := dateKey(o.createdAt);
            Tallies(m[d := Bump(if d in m then m[d] else Tally(0, 0), o.status)], orders + [o], dateKey)
  {
    var d := dateKey(o.createdAt);
    var m' := m[d := Bump(if d in m then m[d] else Tally(0, 0), o.status)];
    forall key
      ensures TallyIs(m', key, TallyOf(orders + [o], dateKey, key))
    {
      var t := TallyOf(orders, dateKey, key);
      assert TallyIs(m, key, t);
      TallyIsStep(m, d, o.status, key, t);
      TallyOfAppend(orders, o, dateKey, key);
    }
  }

  /** The number of orders that the tallies of `days` count together. */
  ghost function TallyTotal(m: map<string, Tally>, days: set<string>): nat
    requires days <= m.Keys
    decreases days
  {
    if days == {} then 0
    else
      var d :| d in days;
      Size(m[d]) + TallyTotal(m, days - {d})
  }

  /** The number of orders all the tallies of `m` count. */
  ghost function TasksTotal(m: map<string, Tally>): nat {
    TallyTotal(m, m.Keys)
  }

  /** Any day may be counted first. */
  lemma {:induction false} TallyTotalPick(m: map<string, Tally>, days: set<string>, d: string)
    requires days <= m.Keys && d in days
    ensures TallyTotal(m, days) == Size(m[d]) + TallyTotal(m, days - {d})
    decreases days
  {
    var e :| e in days && TallyTotal(m, days) == Size(m[e]) + TallyTotal(m, days - {e});
    if e != d {
      TallyTotalPick(m, days - {e}, d);
      assert days - {e} - {d} == days - {d} - {e};
      TallyTotalPick(m, days - {d}, e);
    }
  }

  /** Days outside `days` do not enter their total. */
  lemma {:induction false} TallyTotalFrame(m: map<string, Tally>, m': map<string, Tally>, days: set<string>)
    requires days <= m.Keys && days <= m'.Keys
    requires forall d :: d in days ==> m[d] == m'[d]
    ensures TallyTotal(m, days) == TallyTotal(m', days)
    decreases days
  {
    if days != {} {
      var d :| d in days;
      TallyTotalPick(m, days, d);
      TallyTotalPick(m', days, d);
      TallyTotalFrame(m, m', days - {d});
    }
  }

  /** Counting one more order on day `d` adds one to the total. */
  lemma TasksTotalStep(m: map<string, Tally>, d: string, status: Status)
    ensures TasksTotal(m[d := Bump(if d in m then m[d] else Tally(0, 0), status)]) == TasksTotal(m) + 1
  {
    var t := Bump(if d in m then m[d] else Tally(0, 0), status);
    var m' := m[d := t];
    TallyTotalPick(m', m'.Keys, d);
    TallyTotalFrame(m, m', m.Keys - {d});
    if d in m {
      TallyTotalPick(m, m.Keys, d);
      assert m'.Keys == m.Keys;
      assert Size(t) == Size(m[d]) + 1;
    } else {
      assert m'.Keys - {d} == m.Keys - {d} == m.Keys;
      assert Size(t) == 1;
    }
  }

  /** `tasksByDate`: one tally per day that has orders, counting its
      completed orders and its other orders; the tallies together count
      every order once. */
  method TasksByDate(orders: seq<Order>, dateKey: int -> string) returns (m: map<string, Tally>)
    ensures forall key :: key in m <==> exists k :: 0 <= k < |orders| && dateKey(orders[k].createdAt) == key
    ensures forall key :: key in m ==> m[key] == TallyOf(orders, dateKey, key)
    ensures forall key :: key in m ==> Size(m[key]) == DayCount(orders, dateKey, key)
    ensures TasksTotal(m) == |orders|
  {
    m := map[];
    var i := 0;
    while i < |orders|
      invariant 0 <= i <= |orders|
      invariant Tallies(m, orders[..i], dateKey)
      invariant TasksTotal(m) == i
    {
      var o := orders[i];
      var d := dateKey(o.createdAt);
      var t := if d in m then m[d] else Tally(0, 0);
      TalliesStep(m, orders[..i], o, dateKey);
      TasksTotalStep(m, d, o.status);
      assert orders[..i + 1] == orders[..i] + [o];
      m := m[d := Bump(t, o.status)];
      i := i + 1;
    }
    assert orders[..i] == orders;
    forall key
      ensures key in m ==> m[key] == TallyOf(orders, dateKey, key)
      ensures key in m ==> Size(m[key]) == DayCount(orders, dateKey, key)
      ensures key in m <==> exists k :: 0 <= k < |orders| && dateKey(orders[k].createdAt) == key
    {
      assert TallyIs(m, key, TallyOf(orders, dateKey, key));
      TallyCountsDay(orders, dateKey, key);
      DayCountSeen(orders, dateKey, key);
    }
  }

  /** A day has a tally exactly when some order falls on it. */
  lemma {:induction false} DayCountSeen(orders: seq<Order>, dateKey: int -> string, key: string)
    ensures DayCount(orders, dateKey, key) > 0 <==> exists k :: 0 <= k < |orders| && dateKey(orders[k].createdAt) == key
  {
    if orders != [] {
      var init := orders[..|orders| - 1];
      DayCountSeen(init, dateKey, key);
      if exists k :: 0 <= k < |init| && dateKey(init[k].createdAt) == key {
        var k :| 0 <= k < |init| && dateKey(init[k].createdAt) == key;
        assert orders[k] == init[k];
      }
      if exists k :: 0 <= k < |orders| && dateKey(orders[k].createdAt) == key {
        var k :| 0 <= k < |orders| && dateKey(orders[k].createdAt) == key;
        if k < |init| {
          assert init[k] == orders[k];
        }
      }
    }
  }

  // ---------------------------------------------------------------- the month by weeks

  /** The day ranges of the five weeks, `startDay` to `endDay` inclusive. */
  const WeekStarts: seq<int> := [1, 8, 15, 22, 29]
  const WeekEnds: seq<int> := [7, 14, 21, 28, 32]
  const WeekNames: seq<string> := ["第一周", "第二周", "第三周", "第四周", "第五周"]

  predicate InWeek(day: int, k: nat)
    requires k < 5
  {
    WeekStarts[k] <= day <= WeekEnds[k]
  }

  /** `weeklyBreakdown.findIndex(w => day >= w.startDay && day <= w.endDay)`
      from week `k` on. */
  function FindWeekFrom(day: int, k: nat): (r: int)
    requires k <= 5
    ensures r == -1 || k <= r < 5
    ensures r != -1 ==> InWeek(day, r) && forall j :: k <= j < r ==> !InWeek(day, j)
    ensures r == -1 ==> forall j :: k <= j < 5 ==> !InWeek(day, j)
    decreases 5 - k
  {
    if k == 5 then -1 else if InWeek(day, k) then k else FindWeekFrom(day, k + 1)
  }

  function FindWeek(day: int): (r: int)
    ensures r == -1 || 0 <= r < 5
  {
    FindWeekFrom(day, 0)
  }

  /** The five ranges cover every day of a month and do not overlap, so
      every real day has exactly one week. */
  lemma WeeksPartitionDays(day: int)
    requires 1 <= day <= 31
    ensures 0 <= FindWeek(day) < 5
    ensures FindWeek(day) == if day <= 28 then (day - 1) / 7 else 4
    ensures forall k :: 0 <= k < 5 && InWeek(day, k) ==> k == FindWeek(day)
  {
  }

  /** The month's orders whose day falls in week `k` (`-1`: in none). */
  function Bucket(orders: seq<Order>, dayOf: int -> int, k: int): (r: seq<Order>)
    ensures |r| <= |orders|
  {
    if orders == [] then []
    else
      var last := orders[|orders| - 1];
      Bucket(orders[..|orders| - 1], dayOf, k) + (if FindWeek(dayOf(last.createdAt)) == k then [last] else [])
  }

  /** Filing one more order extends only the bucket of its week. */
  lemma BucketAppend(orders: seq<Order>, o: Order, dayOf: int -> int, k: int)
    ensures FindWeek(dayOf(o.createdAt)) == k ==> Bucket(orders + [o], dayOf, k) == Bucket(orders, dayOf, k) + [o]
    ensures FindWeek(dayOf(o.createdAt)) != k ==> Bucket(orders + [o], dayOf, k) == Bucket(orders, dayOf, k)
  {
    assert (orders + [o])[..|orders|] == orders;
    assert Bucket(orders, dayOf, k) + [] == Bucket(orders, dayOf, k);
  }

  lemma TotalIncomeAppend(orders: seq<Order>, o: Order)
    ensures TotalIncome(orders + [o]) == TotalIncome(orders).Plus(o.price)
  {
    assert (orders + [o])[..|orders|] == orders;
  }

  datatype Week = Week(name: string, startDay: int, endDay: int, income: JsNumber, count: nat, orders: seq<Order>)

  /** Week `k` of the month once every order is filed: its orders, their
      count and their income. */
  function WeekOf(month: seq<Order>, dayOf: int -> int, k: nat): Week
    requires k < 5
  {
    var b := Bucket(month, dayOf, k);
    Week(WeekNames[k], WeekStarts[k], WeekEnds[k], TotalIncome(b), |b|, b)
  }

  function AllWeeks(month: seq<Order>, dayOf: int -> int): (r: seq<Week>)
    ensures |r| == 5 && forall k :: 0 <= k < 5 ==> r[k] == WeekOf(month, dayOf, k)
  {
    seq(5, k requires 0 <= k < 5 => WeekOf(month, dayOf, k))
  }

  /** One order added to a week: `income += o.price`, `count += 1`,
      `orders.push(o)`. */
  function File(w: Week, o: Order): Week {
    w.(income := w.income.Plus(o.price), count := w.count + 1, orders := w.orders + [o])
  }

  /** Filing one more order changes only the week it falls in. */
  lemma FileOrder(month: seq<Order>, o: Order, dayOf: int -> int)
    ensures forall k :: 0 <= k < 5 ==>
      WeekOf(month + [o], dayOf, k)
      == if k == FindWeek(dayOf(o.createdAt)) then File(WeekOf(month, dayOf, k), o) else WeekOf(month, dayOf, k)
  {
    forall k | 0 <= k < 5
      ensures WeekOf(month + [o], dayOf, k)
           == if k == FindWeek(dayOf(o.createdAt)) then File(WeekOf(month, dayOf, k), o) else WeekOf(month, dayOf, k)
    {
      BucketAppend(month, o, dayOf, k);
      if k == FindWeek(dayOf(o.createdAt)) {
        TotalIncomeAppend(Bucket(month, dayOf, k), o);
      } else {
        assert Bucket(month + [o], dayOf, k) == Bucket(month, dayOf, k);
      }
    }
  }

  /** The `forEach` that files each order of the month under its week,
      adding its price to the week's income and counting it. */
  method WeeklyBreakdown(monthOrders: seq<Order>, dayOf: int -> int) returns (weeks: seq<Week>)
    ensures weeks == AllWeeks(monthOrders, dayOf)
  {
    var a := new Week[5](k requires 0 <= k < 5 => WeekOf([], dayOf, k));
    var i := 0;
    while i < |monthOrders|
      invariant 0 <= i <= |monthOrders|
      invariant forall k :: 0 <= k < 5 ==> a[k] == WeekOf(monthOrders[..i], dayOf, k)
    {
      var o := monthOrders[i];
      assert monthOrders[..i + 1] == monthOrders[..i] + [o];
      var w := FindWeek(dayOf(o.createdAt));
      FileOrder(monthOrders[..i], o, dayOf);
      if w != -1 {
        a[w] := File(a[w], o);
      }
      i := i + 1;
    }
    assert monthOrders[..i] == monthOrders;
    weeks := a[..];
  }

  predicate KeepWeek(w: Week) {
    w.income.Positive() || w.name != WeekNames[4]
  }

  /** `weeklyBreakdown.filter(w => w.income > 0 || w.name !== '第五周')`. */
  function ShownWeeks(weeks: seq<Week>): (r: seq<Week>)
    ensures forall w :: w in r <==> w in weeks && KeepWeek(w)
  {
    if weeks == [] then []
    else
      var init := ShownWeeks(weeks[..|weeks| - 1]);
      var w := weeks[|weeks| - 1];
      assert weeks == weeks[..|weeks| - 1] + [w];
      if KeepWeek(w) then init + [w] else init
  }

  /** On the five weeks of a month the filter keeps the first four always
      and the fifth only when its income is above zero. */
  lemma ShownWeeksOfMonth(weeks: seq<Week>)
    requires |weeks| == 5 && forall k :: 0 <= k < 5 ==> weeks[k].name == WeekNames[k]
    ensures weeks[4].income.Positive() ==> ShownWeeks(weeks) == weeks
    ensures !weeks[4].income.Positive() ==> ShownWeeks(weeks) == weeks[..4]
  {
    forall w | w in weeks[..4] ensures KeepWeek(w) {
      var k :| 0 <= k < 4 && weeks[..4][k] == w;
      assert w.name == WeekNames[k];
    }
    ShownWeeksKeepsAll(weeks[..4]);
    assert weeks[..|weeks| - 1] == weeks[..4];
  }

  lemma {:induction false} ShownWeeksKeepsAll(weeks: seq<Week>)
    requires forall w :: w in weeks ==> KeepWeek(w)
    ensures ShownWeeks(weeks) == weeks
  {
    if weeks != [] {
      ShownWeeksKeepsAll(weeks[..|weeks| - 1]);
      assert weeks[..|weeks| - 1] + [weeks[|weeks| - 1]] == weeks;
    }
  }

  /** The month report: the month's orders, their income and count, and the
      weeks on display. */
  method MonthlyData(orders: seq<Order>, inMonth: int -> bool, dayOf: int -> int)
    returns (totalIncome: JsNumber, totalCount: nat, weeks: seq<Week>)
    ensures totalIncome == TotalIncome(MonthOrders(orders, inMonth))
    ensures totalCount == |MonthOrders(orders, inMonth)|
    ensures weeks == ShownWeeks(AllWeeks(MonthOrders(orders, inMonth), dayOf))
  {
    var month := MonthOrders(orders, inMonth);
    totalIncome := TotalIncome(month);
    totalCount := |month|;
    var all := WeeklyBreakdown(month, dayOf);
    weeks := ShownWeeks(all);
  }

  /** `orders.filter(o => <o was created in the month on display>)`. */
  function MonthOrders(orders: seq<Order>, inMonth: int -> bool): (r: seq<Order>)
    ensures forall o :: o in r <==> o in orders && inMonth(o.createdAt)
  {
    if orders == [] then []
    else
      var init := MonthOrders(orders[..|orders| - 1], inMonth);
      var last := orders[|orders| - 1];
      assert orders == orders[..|orders| - 1] + [last];
      if inMonth(last.createdAt) then init + [last] else init
  }

  /** Likewise the month's list keeps every order of the month once, in list
      order. */
  lemma {:induction false} MonthOrdersAppend(a: seq<Order>, b: seq<Order>, inMonth: int -> bool)
    ensures MonthOrders(a + b, inMonth) == MonthOrders(a, inMonth) + MonthOrders(b, inMonth)
    ensures forall o :: MonthOrders([o], inMonth) == if inMonth(o.createdAt) then [o] else []
    decreases |b|
  {
    if b == [] {
      assert a + b == a;
    } else {
      var init, last := b[..|b| - 1], b[|b| - 1];
      var kept := if inMonth(last.createdAt) then [last] else [];
      assert (a + b)[..|a + b| - 1] == a + init && (a + b)[|a + b| - 1] == last;
      assert MonthOrders(a + b, inMonth) == MonthOrders(a + init, inMonth) + kept;
      assert MonthOrders(b, inMonth) == MonthOrders(init, inMonth) + kept;
      MonthOrdersAppend(a, init, inMonth);
    }
    forall o
      ensures MonthOrders([o], inMonth) == if inMonth(o.createdAt) then [o] else []
    {
      assert [o][..0] == [];
    }
  }

  /** The five weeks' counts together. */
  function WeeksCount(month: seq<Order>, dayOf: int -> int): nat {
    |Bucket(month, dayOf, 0)| + |Bucket(month, dayOf, 1)| + |Bucket(month, dayOf, 2)|
    + |Bucket(month, dayOf, 3)| + |Bucket(month, dayOf, 4)|
  }

  /** The five weeks' revenues together. */
  function WeeksRevenue(month: seq<Order>, dayOf: int -> int): real {
    Revenue(Bucket(month, dayOf, 0)) + Revenue(Bucket(month, dayOf, 1)) + Revenue(Bucket(month, dayOf, 2))
    + Revenue(Bucket(month, dayOf, 3)) + Revenue(Bucket(month, dayOf, 4))
  }

  lemma RevenueAppend(orders: seq<Order>, o: Order)
    ensures Revenue(orders + [o]) == Revenue(orders) + o.price.OrZero().value
  {
    assert (orders + [o])[..|orders|] == orders;
  }

  /** Filing one more order adds one to the count and its price to the
      revenue of its week, and of no other. */
  lemma BucketStep(orders: seq<Order>, o: Order, dayOf: int -> int, k: int)
    ensures |Bucket(orders + [o], dayOf, k)|
         == |Bucket(orders, dayOf, k)| + (if FindWeek(dayOf(o.createdAt)) == k then 1 else 0)
    ensures Revenue(Bucket(orders + [o], dayOf, k))
         == Revenue(Bucket(orders, dayOf, k)) + (if FindWeek(dayOf(o.createdAt)) == k then o.price.OrZero().value else 0.0)
  {
    BucketAppend(orders, o, dayOf, k);
    if FindWeek(dayOf(o.createdAt)) == k {
      RevenueAppend(Bucket(orders, dayOf, k), o);
    }
  }

  /** Every order of the month lies in one week or in none: the five
      weeks and the orders of no week together make the month's count and
      its revenue. */
  lemma {:induction false} BucketsSplitMonth(month: seq<Order>, dayOf: int -> int)
    ensures WeeksCount(month, dayOf) + |Bucket(month, dayOf, -1)| == |month|
    ensures WeeksRevenue(month, dayOf) + Revenue(Bucket(month, dayOf, -1)) == Revenue(month)
  {
    if month != [] {
      var init := month[..|month| - 1];
      var o := month[|month| - 1];
      assert init + [o] == month;
      BucketsSplitMonth(init, dayOf);
      RevenueAppend(init, o);
      BucketStep(init, o, dayOf, -1);
      BucketStep(init, o, dayOf, 0);
      BucketStep(init, o, dayOf, 1);
      BucketStep(init, o, dayOf, 2);
      BucketStep(init, o, dayOf, 3);
      BucketStep(init, o, dayOf, 4);
    }
  }

  lemma {:induction false} NoWeekIsEmpty(month: seq<Order>, dayOf: int -> int)
    requires forall k :: 0 <= k < |month| ==> 1 <= dayOf(month[k].createdAt) <= 31
    ensures Bucket(month, dayOf, -1) == []
  {
    if month != [] {
      WeeksPartitionDays(dayOf(month[|month| - 1].createdAt));
      NoWeekIsEmpty(month[..|month| - 1], dayOf);
    }
  }

  /** Before the week-5 filter, for real days of the month, the week counts
      add up to `totalCount` and the week revenues to the month's revenue
      (which is `totalIncome` when every price is a number). */
  lemma WeeksAddUp(month: seq<Order>, dayOf: int -> int)
    requires forall k :: 0 <= k < |month| ==> 1 <= dayOf(month[k].createdAt) <= 31
    ensures WeeksCount(month, dayOf) == |month|
    ensures WeeksRevenue(month, dayOf) == Revenue(month)
  {
    BucketsSplitMonth(month, dayOf);
    NoWeekIsEmpty(month, dayOf);
  }

  /** Each week lists its orders in the order of the month. */
  lemma {:induction false} BucketKeepsOrder(month: seq<Order>, dayOf: int -> int, k: int)
    ensures SubsequenceOf(Bucket(month, dayOf, k), month)
  {
    if month != [] {
      var init := month[..|month| - 1];
      var last := month[|month| - 1];
      BucketKeepsOrder(init, dayOf, k);
      assert init + [last] == month;
      SubsequenceAppend(Bucket(init, dayOf, k), init, last, FindWeek(dayOf(last.createdAt)) == k);
    }
  }

  /** A week holds no price that is not a number when the month holds none. */
  lemma {:induction false} BucketPricesFinite(month: seq<Order>, dayOf: int -> int, k: int)
    requires forall j :: 0 <= j < |month| ==> month[j].price.Finite?
    ensures forall j :: 0 <= j < |Bucket(month, dayOf, k)| ==> Bucket(month, dayOf, k)[j].price.Finite?
  {
    if month != [] {
      var init := month[..|month| - 1];
      BucketPricesFinite(init, dayOf, k);
    }
  }

  /** When every price of the month is a number, the five week incomes are
      numbers and add up to the month's `totalIncome`. */
  lemma WeekIncomesAddUp(month: seq<Order>, dayOf: int -> int)
    requires forall k :: 0 <= k < |month| ==> 1 <= dayOf(month[k].createdAt) <= 31
    requires forall k :: 0 <= k < |month| ==> month[k].price.Finite?
    ensures TotalIncome(month).Finite?
    ensures forall k :: 0 <= k < 5 ==> WeekOf(month, dayOf, k).income.Finite?
    ensures WeekOf(month, dayOf, 0).income.value + WeekOf(month, dayOf, 1).income.value
            + WeekOf(month, dayOf, 2).income.value + WeekOf(month, dayOf, 3).income.value
            + WeekOf(month, dayOf, 4).income.value == TotalIncome(month).value
  {
    WeeksAddUp(month, dayOf);
    TotalIncomeMeaning(month);
    forall k | 0 <= k < 5 ensures WeekOf(month, dayOf, k).income.Finite? {
      WeekIncomeIsRevenue(month, dayOf, k);
    }
    WeekIncomeIsRevenue(month, dayOf, 0);
    WeekIncomeIsRevenue(month, dayOf, 1);
    WeekIncomeIsRevenue(month, dayOf, 2);
    WeekIncomeIsRevenue(month, dayOf, 3);
    WeekIncomeIsRevenue(month, dayOf, 4);
  }

  lemma WeekIncomeIsRevenue(month: seq<Order>, dayOf: int -> int, k: nat)
    requires k < 5
    requires forall j :: 0 <= j < |month| ==> month[j].price.Finite?
    ensures WeekOf(month, dayOf, k).income.Finite?
    ensures WeekOf(month, dayOf, k).income.value == Revenue(Bucket(month, dayOf, k))
  {
    BucketPricesFinite(month, dayOf, k);
    TotalIncomeMeaning(Bucket(month, dayOf, k));
  }

  /** A fifth week whose orders add up to no income is hidden together with
      its orders. */
  lemma FreeFifthWeekHidden(weeks: seq<Week>)
    requires |weeks| == 5 && forall k :: 0 <= k < 5 ==> weeks[k].name == WeekNames[k]
    requires weeks[4].income == Finite(0.0) && weeks[4].count > 0
    ensures weeks[4] !in ShownWeeks(weeks) && |ShownWeeks(weeks)| == 4
  {
    ShownWeeksOfMonth(weeks);
  }

  // ---------------------------------------------------------------- weekdays

  /** `date.getDay() === 0 ? 6 : date.getDay() - 1`: Monday first. */
  function WeekdayIndex(day: int): (i: int)
    requires 0 <= day < 7
    ensures 0 <= i < 7
  {
    if day == 0 then 6 else day - 1
  }

  const WeekdayLabels: seq<string> := ["一", "二", "三", "四", "五", "六", "日"]

  /** The `getDay()` of the weekday on label `i`. */
  function DayOfLabel(i: int): (day: int)
    requires 0 <= i < 7
    ensures 0 <= day < 7
  {
    if i == 6 then 0 else i + 1
  }

  /** Every weekday gets its own label: the map is a bijection on 0..6 (it
      and `DayOfLabel` undo each other), with Monday (1) on the first label
      and Sunday (0) on the last. */
  lemma WeekdayIndexBijective(day: int, i: int)
    requires 0 <= day < 7 && 0 <= i < 7
    ensures DayOfLabel(WeekdayIndex(day)) == day
    ensures WeekdayIndex(DayOfLabel(i)) == i
    ensures WeekdayLabels[WeekdayIndex(1)] == "一" && WeekdayLabels[WeekdayIndex(0)] == "日"
  {
  }
}

/** The overdue alert of the dashboard set against the urgency colours of
    the order list (mytailor5/components/OrderList.tsx). */
module OverdueAlert {
  import opened Orders
  import Stats
  import OrderList

  /** The alert never counts more orders than are pending, and it counts
      exactly the pending orders that the list highlights as overdue. */
  lemma CriticalAmongPending(orders: seq<Order>, now: int, o: Order)
    ensures |Stats.CriticalOrders(Stats.PendingOrders(orders), now)| <= |Stats.PendingOrders(orders)|
    ensures o in Stats.CriticalOrders(Stats.PendingOrders(orders), now)
        <==> o in orders && o.status == Pending
             && OrderList.CardUrgency(o.status, now, o.createdAt) != OrderList.Normal
  {
  }
}
