/** The account balance forecast chart: one balance series per active
    account, month by month from the current month, plus a TOTAL series. */
module AccountEvolution {
  import opened Calendar
  import opened Records
  import FrequencyCalculation

  // ---------------------------------------------------------------------
  // One item in one month

  /** getAmountForMonth: what one item contributes to the month of `date`,
      given the item's anchor date `originalDate`. */
  function AmountForMonth(amount: real, frequency: Frequency, date: Date, originalDate: Date): (r: real)
    ensures frequency.Once? || frequency.Unknown? ==> r == 0.0
    ensures frequency.Monthly? ==> r == amount
    ensures frequency.Weekly? ==> r == amount * 4.33
    ensures frequency.Daily? ==> r == amount * DaysInMonth(date.year, date.month) as real
    ensures frequency.Yearly? && IsYearlyOccurrence(date, originalDate) ==> r == amount
    ensures frequency.Yearly? && !IsYearlyOccurrence(date, originalDate) ==> r == 0.0
    ensures amount >= 0.0 ==> 0.0 <= r <= 31.0 * amount
  {
    match frequency
    case Once => 0.0
    case Daily => amount * DaysInMonth(date.year, date.month) as real
    case Weekly => amount * 4.33
    case Monthly => amount
    case Yearly => if IsYearlyOccurrence(date, originalDate) then amount else 0.0
    case Unknown(_) => 0.0
  }

  /** isYearlyOccurence: the anchor's month, in the anchor's year or later,
      that is, a whole number of years (possibly none) after the anchor's month. */
  predicate IsYearlyOccurrence(currentDate: Date, originalDate: Date)
    ensures 1 <= currentDate.month <= 12 && 1 <= originalDate.month <= 12 ==>
              (IsYearlyOccurrence(currentDate, originalDate) <==>
                 MonthIndex(originalDate) <= MonthIndex(currentDate) && (MonthIndex(currentDate) - MonthIndex(originalDate)) % 12 == 0)
  {
    WholeYearsOfMonths(currentDate, originalDate);
    currentDate.month == originalDate.month && currentDate.year >= originalDate.year
  }

  /** isItemActiveForDate. The source moves `date` to endOfMonth for the
      start check and to startOfMonth for the end check; it stays in the same
      month, and nothing here or in its callers reads more than the month.
      An end date before the month makes the item inactive. Otherwise it is
      active exactly when its start check passes: always without a start
      date; for a yearly item, in its start month of a year not before its
      start year; for any other item, when it starts by the month's last
      day. */
  predicate IsItemActiveForDate(item: Item, date: Date)
    ensures item.startDate.None? && item.endDate.None? ==> IsItemActiveForDate(item, date)
    ensures item.endDate.Some? && Before(item.endDate.value, StartOfMonth(date)) ==> !IsItemActiveForDate(item, date)
    ensures item.frequency.Yearly? && item.startDate.Some? && IsItemActiveForDate(item, date) ==>
              item.startDate.value.month == date.month && item.startDate.value.year <= date.year
    ensures item.startDate.None? ==>
              (IsItemActiveForDate(item, date) <==> item.endDate.None? || LessEq(StartOfMonth(date), item.endDate.value))
    ensures !item.frequency.Yearly? && item.startDate.Some?
            && (item.endDate.None? || LessEq(StartOfMonth(date), item.endDate.value)) ==>
              (IsItemActiveForDate(item, date) <==> LessEq(item.startDate.value, EndOfMonth(date)))
    ensures item.frequency.Yearly? && item.startDate.Some?
            && (item.endDate.None? || LessEq(StartOfMonth(date), item.endDate.value)) ==>
              (IsItemActiveForDate(item, date) <==>
                 item.startDate.value.month == date.month && item.startDate.value.year <= date.year)
  {
    var startDateCheck :=
      if item.frequency.Yearly? then
        item.startDate.None? || (item.startDate.value.month == date.month && item.startDate.value.year <= date.year)
      else
        item.startDate.None? || LessEq(item.startDate.value, EndOfMonth(date));
    var endDateCheck := item.endDate.None? || LessEq(StartOfMonth(date), item.endDate.value);
    startDateCheck && endDateCheck
  }

  // ---------------------------------------------------------------------
  // Properties of a single item

  /** Two forecast months less than a year apart with the same calendar
      month are the same month. */
  lemma SameMonthWithinYear(now: Date, i: nat, j: nat)
    requires Valid(now) && i <= j < i + 12
    requires MonthStart(now, i).month == MonthStart(now, j).month
    ensures i == j
  {
    MonthStartIndex(now, i);
    MonthStartIndex(now, j);
    var ki, kj := MonthIndex(now) + i, MonthIndex(now) + j;
    assert ki == 12 * (ki / 12) + ki % 12;
    assert kj == 12 * (kj / 12) + kj % 12;
  }

  /** A yearly item contributes in at most one month of any twelve
      consecutive forecast months. */
  lemma YearlyAtMostOncePerYear(amount: real, anchor: Date, now: Date, i: nat, j: nat)
    requires Valid(now) && i <= j < i + 12
    requires AmountForMonth(amount, Yearly, MonthStart(now, i), anchor) != 0.0
    requires AmountForMonth(amount, Yearly, MonthStart(now, j), anchor) != 0.0
    ensures i == j
  {
    SameMonthWithinYear(now, i, j);
  }

  /** ... and in exactly one of them once the anchor month has been reached:
      the month whose calendar month is the anchor's. */
  lemma YearlyFiresOncePerYear(amount: real, anchor: Date, now: Date, k: nat)
    requires Valid(now) && Valid(anchor)
    requires MonthIndex(anchor) <= MonthIndex(now) + k
    ensures exists i :: k <= i < k + 12 && AmountForMonth(amount, Yearly, MonthStart(now, i), anchor) == amount
  {
    var base, target := MonthIndex(now) + k, MonthIndex(anchor);
    var offset := (target - base) % 12;
    var q := (target - base) / 12;
    var i := k + offset;
    MonthStartIndex(now, i);
    var d := MonthStart(now, i);
    assert MonthIndex(d) - target == -12 * q;
    ModUnique(MonthIndex(d) - target, -q, 0);
    assert IsYearlyOccurrence(d, anchor);
  }

  /** A daily item contributes its amount once for every day of the month:
      the day count calculateOccurrences finds from the first to the last
      day of that month. */
  lemma DailyCountsEveryDay(amount: real, date: Date, anchor: Date)
    requires Valid(date)
    ensures AmountForMonth(amount, Daily, date, anchor)
            == amount * FrequencyCalculation.Occurrences(StartOfMonth(date), EndOfMonth(date), Daily) as real
  {
    DaysOfMonth(date);
  }

  lemma DaysOfMonth(date: Date)
    requires Valid(date)
    ensures FrequencyCalculation.Occurrences(StartOfMonth(date), EndOfMonth(date), Daily) == DaysInMonth(date.year, date.month)
  {
    var first, last := StartOfMonth(date), EndOfMonth(date);
    assert Valid(first) && Valid(last) && LessEq(first, last);
    assert DayNumber(last) - DayNumber(first) == DaysInMonth(date.year, date.month) - 1;
    FrequencyCalculation.CountDaily(first, last);
  }

  /** The weekly approximation 4.33 lies between the four or five weekly
      occurrences a month actually holds from its first day. */
  lemma WeeklyApproximation(amount: real, date: Date, anchor: Date)
    requires Valid(date) && amount >= 0.0
    ensures var n := FrequencyCalculation.Occurrences(StartOfMonth(date), EndOfMonth(date), Weekly);
            && (n == 4 || n == 5)
            && 4.0 * amount <= AmountForMonth(amount, Weekly, date, anchor) <= 5.0 * amount
  {
    FrequencyCalculation.OccurrencesInWholeUnits(StartOfMonth(date), EndOfMonth(date), Weekly);
  }

  /** A non-yearly item is active over one unbroken run of forecast months. */
  lemma ActiveMonthsContiguous(item: Item, now: Date, i: nat, k: nat, j: nat)
    requires Valid(now) && !item.frequency.Yearly?
    requires i <= k <= j
    requires IsItemActiveForDate(item, MonthStart(now, i)) && IsItemActiveForDate(item, MonthStart(now, j))
    ensures IsItemActiveForDate(item, MonthStart(now, k))
  {
    MonthStartIndex(now, i);
    MonthStartIndex(now, k);
    MonthStartIndex(now, j);
    var mi, mk, mj := MonthStart(now, i), MonthStart(now, k), MonthStart(now, j);
    if i < k {
      MonthIndexOrder(EndOfMonth(mi), EndOfMonth(mk));
    }
    if k < j {
      MonthIndexOrder(mk, mj);
    }
  }

  /** A yearly item with a start date is active in at most one month of any
      twelve consecutive forecast months. */
  lemma YearlyActiveOncePerYear(item: Item, now: Date, i: nat, j: nat)
    requires Valid(now) && item.frequency.Yearly? && item.startDate.Some?
    requires i <= j < i + 12
    requires IsItemActiveForDate(item, MonthStart(now, i)) && IsItemActiveForDate(item, MonthStart(now, j))
    ensures i == j
  {
    SameMonthWithinYear(now, i, j);
  }

  // ---------------------------------------------------------------------
  // The snapshot the chart reads

  datatype Kind = Income | Expense | TransferIn | TransferOut

  /** One item as one account sees it: an income or an expense of the
      account, or the incoming or outgoing leg of a transfer. */
  datatype Flow = Flow(kind: Kind, accountId: int, item: Item)

  datatype Transfer = Transfer(fromAccountId: int, toAccountId: int, item: Item)

  /** A transfer is read twice, grouped by destination and by source. */
  function TransferLegs(t: Transfer): seq<Flow> {
    [Flow(TransferIn, t.toAccountId, t.item), Flow(TransferOut, t.fromAccountId, t.item)]
  }

  datatype Account = Account(id: int, name: string, currentBalance: real, isActive: bool)

  datatype Adjustment = Adjustment(accountId: int, adjustmentDate: Date, actualBalance: real, isActive: bool)

  datatype Dataset = Dataset(name: string, data: seq<real>)

  datatype Chart = Chart(datasets: seq<Dataset>, labels: seq<Date>)

  /** The loading queries keep active items that are not one-off. */
  predicate Loaded(f: Flow) {
    f.item.isActive && !f.item.frequency.Once?
  }

  predicate Counts(f: Flow, kind: Kind, accountId: int, date: Date) {
    f.kind == kind && f.accountId == accountId && Loaded(f) && IsItemActiveForDate(f.item, date)
  }

  function Contribution(f: Flow, date: Date): real {
    AmountForMonth(f.item.amount, f.item.frequency, date, f.item.date)
  }

  /** The sum one foreach of getData forms: the contributions of the active
      items of one kind on one account in the month of `date`. */
  function KindTotal(flows: seq<Flow>, kind: Kind, accountId: int, date: Date): real
    decreases |flows|
  {
    if flows == [] then 0.0
    else
      var f := flows[|flows| - 1];
      KindTotal(flows[..|flows| - 1], kind, accountId, date) + (if Counts(f, kind, accountId, date) then Contribution(f, date) else 0.0)
  }

  /** The change getData applies to a balance in a month without adjustment. */
  function MonthlyDelta(flows: seq<Flow>, accountId: int, date: Date): real {
    KindTotal(flows, Income, accountId, date) - KindTotal(flows, Expense, accountId, date)
    + KindTotal(flows, TransferIn, accountId, date) - KindTotal(flows, TransferOut, accountId, date)
  }

  /** One foreach over an account's items of one kind. */
  method SumKind(flows: seq<Flow>, kind: Kind, accountId: int, date: Date) returns (total: real)
    ensures total == KindTotal(flows, kind, accountId, date)
  {
    total := 0.0;
    for j := 0 to |flows|
      invariant total == KindTotal(flows[..j], kind, accountId, date)
    {
      var f := flows[j];
      if f.kind == kind && f.accountId == accountId && Loaded(f) && IsItemActiveForDate(f.item, date) {
        total := total + AmountForMonth(f.item.amount, f.item.frequency, date, f.item.date);
      }
      assert flows[..j + 1][..j] == flows[..j];
    }
    assert flows[..|flows|] == flows;
  }

  lemma {:induction false} KindTotalAppend(a: seq<Flow>, b: seq<Flow>, kind: Kind, accountId: int, date: Date)
    ensures KindTotal(a + b, kind, accountId, date) == KindTotal(a, kind, accountId, date) + KindTotal(b, kind, accountId, date)
    decreases |b|
  {
    if b == [] {
      assert a + b == a;
    } else {
      var b' := b[..|b| - 1];
      assert (a + b)[..|a + b| - 1] == a + b';
      KindTotalAppend(a, b', kind, accountId, date);
    }
  }

  lemma {:induction false} KindTotalNone(b: seq<Flow>, kind: Kind, accountId: int, date: Date)
    requires forall f :: f in b ==> !Loaded(f) || f.accountId != accountId
    ensures KindTotal(b, kind, accountId, date) == 0.0
    decreases |b|
  {
    if b != [] {
      assert forall f :: f in b[..|b| - 1] ==> f in b;
      KindTotalNone(b[..|b| - 1], kind, accountId, date);
    }
  }

  lemma KindTotalPair(f0: Flow, f1: Flow, kind: Kind, accountId: int, date: Date)
    ensures KindTotal([f0], kind, accountId, date) == (if Counts(f0, kind, accountId, date) then Contribution(f0, date) else 0.0)
    ensures KindTotal([f0, f1], kind, accountId, date)
            == KindTotal([f0], kind, accountId, date) + (if Counts(f1, kind, accountId, date) then Contribution(f1, date) else 0.0)
  {
    assert [f0][..0] == [];
    assert [f0, f1][..1] == [f0];
  }

  /** An account's monthly change does not depend on other accounts' items
      nor on inactive or one-off items: adding any of them changes nothing. */
  lemma DeltaIgnoresOthers(flows: seq<Flow>, others: seq<Flow>, accountId: int, date: Date)
    requires forall f :: f in others ==> !Loaded(f) || f.accountId != accountId
    ensures MonthlyDelta(flows + others, accountId, date) == MonthlyDelta(flows, accountId, date)
  {
    forall kind: Kind
      ensures KindTotal(flows + others, kind, accountId, date) == KindTotal(flows, kind, accountId, date)
    {
      KindTotalAppend(flows, others, kind, accountId, date);
      KindTotalNone(others, kind, accountId, date);
    }
  }

  /** A transfer between two accounts raises the destination's monthly change
      by exactly what it lowers the source's. */
  lemma TransferMovesAmount(flows: seq<Flow>, t: Transfer, date: Date)
    requires t.fromAccountId != t.toAccountId
    ensures var moved := if Loaded(TransferLegs(t)[0]) && IsItemActiveForDate(t.item, date)
                         then Contribution(TransferLegs(t)[0], date) else 0.0;
            && MonthlyDelta(flows + TransferLegs(t), t.toAccountId, date) == MonthlyDelta(flows, t.toAccountId, date) + moved
            && MonthlyDelta(flows + TransferLegs(t), t.fromAccountId, date) == MonthlyDelta(flows, t.fromAccountId, date) - moved
  {
    var legs := TransferLegs(t);
    var moved := if Loaded(legs[0]) && IsItemActiveForDate(t.item, date) then Contribution(legs[0], date) else 0.0;
    forall kind: Kind, id: int | id == t.toAccountId || id == t.fromAccountId
      ensures KindTotal(flows + legs, kind, id, date) == KindTotal(flows, kind, id, date)
                + (if kind == TransferIn && id == t.toAccountId then moved
                   else if kind == TransferOut && id == t.fromAccountId then moved
                   else 0.0)
    {
      KindTotalAppend(flows, legs, kind, id, date);
      KindTotalPair(legs[0], legs[1], kind, id, date);
    }
  }

  // ---------------------------------------------------------------------
  // Balance adjustments

  predicate MatchesKey(a: Adjustment, accountId: int, key: YearMonth) {
    a.accountId == accountId && a.isActive && KeyOf(a.adjustmentDate) == key
  }

  /** The account's active adjustments keyed by Y-m in list order, so that a
      later adjustment of the same month replaces an earlier one
      (AdjustmentIndexLastWins states what it holds). */
  function AdjustmentIndex(adjustments: seq<Adjustment>, accountId: int): map<YearMonth, real>
    decreases |adjustments|
  {
    if adjustments == [] then map[]
    else
      var a := adjustments[|adjustments| - 1];
      var index := AdjustmentIndex(adjustments[..|adjustments| - 1], accountId);
      if a.accountId == accountId && a.isActive then index[KeyOf(a.adjustmentDate) := a.actualBalance] else index
  }

  predicate SortedByDate(adjustments: seq<Adjustment>) {
    forall i, j :: 0 <= i < j < |adjustments| ==> LessEq(adjustments[i].adjustmentDate, adjustments[j].adjustmentDate)
  }

  /** Adjustment w is the account's last active adjustment in the month. */
  predicate LastMatch(adjustments: seq<Adjustment>, accountId: int, key: YearMonth, w: int) {
    && 0 <= w < |adjustments| && MatchesKey(adjustments[w], accountId, key)
    && forall j :: w < j < |adjustments| ==> !MatchesKey(adjustments[j], accountId, key)
  }

  /** A month is overridden exactly when the account has an active
      adjustment in it, and the override is the balance of the last one in
      list order. */
  lemma {:induction false} AdjustmentIndexLastWins(adjustments: seq<Adjustment>, accountId: int, key: YearMonth)
    ensures key in AdjustmentIndex(adjustments, accountId) <==>
              exists i :: 0 <= i < |adjustments| && MatchesKey(adjustments[i], accountId, key)
    ensures forall w :: LastMatch(adjustments, accountId, key, w) ==>
              key in AdjustmentIndex(adjustments, accountId)
              && AdjustmentIndex(adjustments, accountId)[key] == adjustments[w].actualBalance
    decreases |adjustments|
  {
    if adjustments != [] {
      var n := |adjustments| - 1;
      var prefix := adjustments[..n];
      AdjustmentIndexLastWins(prefix, accountId, key);
      assert forall i :: 0 <= i < n ==> prefix[i] == adjustments[i];
      forall w | LastMatch(adjustments, accountId, key, w)
        ensures key in AdjustmentIndex(adjustments, accountId)
                && AdjustmentIndex(adjustments, accountId)[key] == adjustments[w].actualBalance
      {
        if w < n {
          assert LastMatch(prefix, accountId, key, w);
        }
      }
    }
  }

  /** With the adjustments in ascending date order, as the query returns
      them, the override of a month is the balance of the adjustment with the
      latest date in that month. */
  lemma LatestAdjustmentWins(adjustments: seq<Adjustment>, accountId: int, key: YearMonth, w: int)
    requires SortedByDate(adjustments) && LastMatch(adjustments, accountId, key, w)
    ensures key in AdjustmentIndex(adjustments, accountId)
    ensures AdjustmentIndex(adjustments, accountId)[key] == adjustments[w].actualBalance
    ensures forall i :: 0 <= i < |adjustments| && MatchesKey(adjustments[i], accountId, key) ==>
              LessEq(adjustments[i].adjustmentDate, adjustments[w].adjustmentDate)
  {
    AdjustmentIndexLastWins(adjustments, accountId, key);
    forall i | 0 <= i < |adjustments| && MatchesKey(adjustments[i], accountId, key)
      ensures LessEq(adjustments[i].adjustmentDate, adjustments[w].adjustmentDate)
    {
      if i != w {
        assert i < w;
      }
    }
  }

  // ---------------------------------------------------------------------
  // The forecast

  /** The number of months the chart's loops run for a filter value. */
  function Horizon(months: int): nat {
    if months > 0 then months else 0
  }

  /** The balance getData records for an account in forecast month i: the
      adjustment of that month if there is one; otherwise the current balance
      in month 0, and the previous month's balance plus the month's change
      after that. */
  function BalanceAt(account: Account, flows: seq<Flow>, index: map<YearMonth, real>, now: Date, i: nat): real
    decreases i
  {
    var date := MonthStart(now, i);
    if KeyOf(date) in index then index[KeyOf(date)]
    else if i == 0 then account.currentBalance
    else BalanceAt(account, flows, index, now, i - 1) + MonthlyDelta(flows, account.id, date)
  }

  function AccountSeries(account: Account, flows: seq<Flow>, adjustments: seq<Adjustment>, now: Date, months: int): (s: seq<real>)
    ensures |s| == Horizon(months)
  {
    var index := AdjustmentIndex(adjustments, account.id);
    seq(Horizon(months), i requires 0 <= i => BalanceAt(account, flows, index, now, i))
  }

  /** The monthly changes of months lo through hi. */
  function DeltaSum(flows: seq<Flow>, accountId: int, now: Date, lo: nat, hi: int): real
    decreases hi - lo
  {
    if hi < lo then 0.0 else DeltaSum(flows, accountId, now, lo, hi - 1) + MonthlyDelta(flows, accountId, MonthStart(now, hi))
  }

  predicate NoAdjustmentBetween(index: map<YearMonth, real>, now: Date, lo: nat, hi: nat) {
    forall k :: lo <= k <= hi ==> KeyOf(MonthStart(now, k)) !in index
  }

  /** Without any adjustment up to month i, the balance is the current
      balance plus the changes of months 1 through i. */
  lemma {:induction false} BalanceWithoutAdjustment(account: Account, flows: seq<Flow>, index: map<YearMonth, real>, now: Date, i: nat)
    requires NoAdjustmentBetween(index, now, 0, i)
    ensures BalanceAt(account, flows, index, now, i) == account.currentBalance + DeltaSum(flows, account.id, now, 1, i)
    decreases i
  {
    if i > 0 {
      BalanceWithoutAdjustment(account, flows, index, now, i - 1);
    }
  }

  /** After an adjustment in month j and none since, the balance of month i
      is the adjusted balance plus the changes of months j+1 through i. */
  lemma {:induction false} BalanceFromAdjustment(account: Account, flows: seq<Flow>, index: map<YearMonth, real>,
                                                 now: Date, j: nat, i: nat)
    requires j <= i && KeyOf(MonthStart(now, j)) in index
    requires NoAdjustmentBetween(index, now, j + 1, i)
    ensures BalanceAt(account, flows, index, now, i) == index[KeyOf(MonthStart(now, j))] + DeltaSum(flows, account.id, now, j + 1, i)
    decreases i
  {
    if i > j {
      BalanceFromAdjustment(account, flows, index, now, j, i - 1);
    }
  }

  /** An adjustment discards everything before it: from its month on, the
      balances do not depend on the account's current balance. */
  lemma {:induction false} AdjustmentResetsHistory(a1: Account, a2: Account, flows: seq<Flow>, index: map<YearMonth, real>,
                                                   now: Date, j: nat, i: nat)
    requires a1.id == a2.id && j <= i && KeyOf(MonthStart(now, j)) in index
    ensures BalanceAt(a1, flows, index, now, i) == BalanceAt(a2, flows, index, now, i)
    decreases i
  {
    if i > j {
      AdjustmentResetsHistory(a1, a2, flows, index, now, j, i - 1);
    }
  }

  /** getData's loop for one account. */
  method ProjectAccount(account: Account, flows: seq<Flow>, adjustments: seq<Adjustment>, now: Date, months: int)
    returns (data: seq<real>)
    ensures data == AccountSeries(account, flows, adjustments, now, months)
  {
    var adjustmentsByMonth := AdjustmentIndex(adjustments, account.id);
    data := [];
    var currentBalance := account.currentBalance;
    var i := 0;
    while i < months
      invariant 0 <= i <= Horizon(months)
      invariant |data| == i
      invariant forall k :: 0 <= k < i ==> data[k] == BalanceAt(account, flows, adjustmentsByMonth, now, k)
      invariant currentBalance == if i == 0 then account.currentBalance else BalanceAt(account, flows, adjustmentsByMonth, now, i - 1)
    {
      var date := MonthStart(now, i);
      var dateKey := KeyOf(date);
      if dateKey in adjustmentsByMonth {
        currentBalance := adjustmentsByMonth[dateKey];
      } else if i > 0 {
        var monthlyIncomes := SumKind(flows, Income, account.id, date);
        var monthlyExpenses := SumKind(flows, Expense, account.id, date);
        var transfersIn := SumKind(flows, TransferIn, account.id, date);
        var transfersOut := SumKind(flows, TransferOut, account.id, date);
        currentBalance := currentBalance + monthlyIncomes - monthlyExpenses + transfersIn - transfersOut;
      }
      assert currentBalance == BalanceAt(account, flows, adjustmentsByMonth, now, i);
      data := data + [currentBalance];
      i := i + 1;
    }
    assert forall k :: 0 <= k < |data| ==> data[k] == AccountSeries(account, flows, adjustments, now, months)[k];
  }

  /** The accounts query keeps active accounts. */
  function ActiveAccounts(accounts: seq<Account>): (r: seq<Account>)
    ensures forall a :: a in r <==> a in accounts && a.isActive
    decreases |accounts|
  {
    if accounts == [] then []
    else
      var rest := ActiveAccounts(accounts[..|accounts| - 1]);
      var a := accounts[|accounts| - 1];
      assert accounts == accounts[..|accounts| - 1] + [a];
      if a.isActive then rest + [a] else rest
  }

  /** The sum of the datasets' values at month i. */
  function ColumnSum(datasets: seq<Dataset>, i: nat): real
    requires forall d :: d in datasets ==> i < |d.data|
    decreases |datasets|
  {
    if datasets == [] then 0.0
    else
      var last := datasets[|datasets| - 1];
      assert last in datasets;
      assert forall d :: d in datasets[..|datasets| - 1] ==> d in datasets;
      ColumnSum(datasets[..|datasets| - 1], i) + last.data[i]
  }

  /** The inner loop of the TOTAL dataset: one month summed over the
      accounts. */
  method SumColumn(datasets: seq<Dataset>, m: nat) returns (monthTotal: real)
    requires forall d :: d in datasets ==> m < |d.data|
    ensures monthTotal == ColumnSum(datasets, m)
  {
    monthTotal := 0.0;
    for b := 0 to |datasets|
      invariant monthTotal == ColumnSum(datasets[..b], m)
    {
      assert datasets[b] in datasets;
      monthTotal := monthTotal + datasets[b].data[m];
      assert datasets[..b + 1][..b] == datasets[..b];
    }
    assert datasets[..|datasets|] == datasets;
  }

  /** getData: labels for the forecast months, one dataset per active
      account, then the TOTAL dataset. */
  method GetData(accounts: seq<Account>, flows: seq<Flow>, adjustments: seq<Adjustment>, now: Date, months: int)
    returns (chart: Chart)
    ensures |chart.labels| == Horizon(months)
    ensures forall i :: 0 <= i < |chart.labels| ==> chart.labels[i] == MonthStart(now, i)
    ensures |chart.datasets| == |ActiveAccounts(accounts)| + 1
    ensures forall a :: 0 <= a < |ActiveAccounts(accounts)| ==>
              var account := ActiveAccounts(accounts)[a];
              chart.datasets[a] == Dataset(account.name, AccountSeries(account, flows, adjustments, now, months))
    ensures var n := |chart.datasets| - 1;
            && chart.datasets[n].name == "TOTAL"
            && |chart.datasets[n].data| == Horizon(months)
            && (forall d :: d in chart.datasets[..n] ==> |d.data| == Horizon(months))
            && forall i :: 0 <= i < Horizon(months) ==> chart.datasets[n].data[i] == ColumnSum(chart.datasets[..n], i)
  {
    var active := ActiveAccounts(accounts);
    var labels: seq<Date> := [];
    var i := 0;
    while i < months
      invariant 0 <= i <= Horizon(months)
      invariant |labels| == i && forall k :: 0 <= k < i ==> labels[k] == MonthStart(now, k)
    {
      labels := labels + [MonthStart(now, i)];
      i := i + 1;
    }

    var datasets: seq<Dataset> := [];
    for a := 0 to |active|
      invariant |datasets| == a
      invariant forall b :: 0 <= b < a ==>
                  datasets[b] == Dataset(active[b].name, AccountSeries(active[b], flows, adjustments, now, months))
    {
      var data := ProjectAccount(active[a], flows, adjustments, now, months);
      datasets := datasets + [Dataset(active[a].name, data)];
    }

    assert forall d :: d in datasets ==> |d.data| == Horizon(months);
    var totalData: seq<real> := [];
    for m := 0 to |labels|
      invariant |totalData| == m
      invariant forall k :: 0 <= k < m ==> totalData[k] == ColumnSum(datasets, k)
    {
      var monthTotal := SumColumn(datasets, m);
      totalData := totalData + [monthTotal];
    }

    var all := datasets + [Dataset("TOTAL", totalData)];
    assert all[..|all| - 1] == datasets;
    chart := Chart(all, labels);
  }

  // ---------------------------------------------------------------------
  // A worked forecast: a 1000 balance, a 200 monthly rent from this month,
  // three months, with and without a 5000 adjustment in the second month.

  lemma ForecastExample(now: Date, account: Account, rent: Flow)
    requires now == Date(2025, 1, 15) && account == Account(1, "Courant", 1000.0, true)
    requires rent == Flow(Expense, 1, Item("Loyer", 200.0, Date(2025, 1, 1), Monthly, Some(Date(2025, 1, 1)), None, true))
    ensures AccountSeries(account, [rent], [], now, 3) == [1000.0, 800.0, 600.0]
    ensures AccountSeries(account, [rent], [Adjustment(1, Date(2025, 2, 10), 5000.0, true)], now, 3) == [1000.0, 5000.0, 4800.0]
  {
    ForecastMonths();
    RentDelta(rent, Date(2025, 2, 1));
    RentDelta(rent, Date(2025, 3, 1));
    var none := AdjustmentIndex([], 1);
    assert BalanceAt(account, [rent], none, now, 0) == 1000.0;
    assert BalanceAt(account, [rent], none, now, 1) == 800.0;
    assert BalanceAt(account, [rent], none, now, 2) == 600.0;
    SeriesOfThree(account, [rent], [], now);
    ForecastIndex();
    var one := AdjustmentIndex([Adjustment(1, Date(2025, 2, 10), 5000.0, true)], 1);
    assert KeyOf(MonthStart(now, 2)) !in one;
    assert BalanceAt(account, [rent], one, now, 0) == 1000.0;
    assert BalanceAt(account, [rent], one, now, 1) == 5000.0;
    assert BalanceAt(account, [rent], one, now, 2) == 4800.0;
    SeriesOfThree(account, [rent], [Adjustment(1, Date(2025, 2, 10), 5000.0, true)], now);
  }

  lemma SeriesOfThree(account: Account, flows: seq<Flow>, adjustments: seq<Adjustment>, now: Date)
    ensures var index := AdjustmentIndex(adjustments, account.id);
            AccountSeries(account, flows, adjustments, now, 3)
            == [BalanceAt(account, flows, index, now, 0), BalanceAt(account, flows, index, now, 1), BalanceAt(account, flows, index, now, 2)]
  {
  }

  /** The rent of ForecastExample is the account's only change in a later month. */
  lemma RentDelta(rent: Flow, date: Date)
    requires rent == Flow(Expense, 1, Item("Loyer", 200.0, Date(2025, 1, 1), Monthly, Some(Date(2025, 1, 1)), None, true))
    requires date == Date(2025, 2, 1) || date == Date(2025, 3, 1)
    ensures MonthlyDelta([rent], 1, date) == -200.0
  {
    forall kind: Kind
      ensures KindTotal([rent], kind, 1, date) == if kind == Expense then 200.0 else 0.0
    {
      KindTotalPair(rent, rent, kind, 1, date);
    }
  }

  /** The three months of ForecastExample. */
  lemma ForecastMonths()
    ensures MonthStart(Date(2025, 1, 15), 0) == Date(2025, 1, 1)
    ensures MonthStart(Date(2025, 1, 15), 1) == Date(2025, 2, 1)
    ensures MonthStart(Date(2025, 1, 15), 2) == Date(2025, 3, 1)
  {
    assert MonthIndex(Date(2025, 1, 1)) == 24300;
    assert 24301 / 12 == 2025 && 24301 % 12 == 1;
    assert 24302 / 12 == 2025 && 24302 % 12 == 2;
    assert DaysInMonth(2025, 2) == 28 && DaysInMonth(2025, 3) == 31;
  }

  /** The adjustment of ForecastExample, indexed by its month. */
  lemma ForecastIndex()
    ensures AdjustmentIndex([Adjustment(1, Date(2025, 2, 10), 5000.0, true)], 1) == map[YearMonth(2025, 2) := 5000.0]
  {
    assert [Adjustment(1, Date(2025, 2, 10), 5000.0, true)][..0] == [];
  }
}
