/** The income and expense chart: the monthly income and expense totals
    from the current month on, and for each month a list of what changed
    since the previous month (new, modified, ending, terminated items). */
module IncomeExpense {
  import opened Calendar
  import opened Records
  import FrequencyCalculation
  import AccountEvolution

  // ---------------------------------------------------------------------
  // One item in one month

  /** getAmountForMonth, this widget's own copy: nothing for one-off and
      unknown frequencies, the amount for a monthly item, 4.33 times it for
      a weekly one, once per day of the month for a daily one, and the
      amount in the anchor's month only for a yearly one. */
  function AmountForMonth(amount: real, frequency: Frequency, date: Date, originalDate: Date): (r: real)
    ensures frequency.Once? || frequency.Unknown? ==> r == 0.0
    ensures frequency.Monthly? ==> r == amount
    ensures frequency.Weekly? ==> r == amount * 4.33
    ensures frequency.Daily? ==> r == amount * DaysInMonth(date.year, date.month) as real
    ensures frequency.Yearly? && IsYearlyOccurrence(date, originalDate) ==> r == amount
    ensures frequency.Yearly? && !IsYearlyOccurrence(date, originalDate) ==> r == 0.0
    ensures amount >= 0.0 ==> 0.0 <= r <= 31.0 * amount
  {
    match frequency
    case Once => 0.0
    case Daily => amount * DaysInMonth(date.year, date.month) as real
    case Weekly => amount * 4.33
    case Monthly => amount
    case Yearly => if IsYearlyOccurrence(date, originalDate) then amount else 0.0
    case Unknown(_) => 0.0
  }

  /** isYearlyOccurence, this widget's own copy: a whole number of years
      (possibly none) after the anchor's month. */
  predicate IsYearlyOccurrence(currentDate: Date, originalDate: Date)
    ensures 1 <= currentDate.month <= 12 && 1 <= originalDate.month <= 12 ==>
              (IsYearlyOccurrence(currentDate, originalDate) <==>
                 MonthIndex(originalDate) <= MonthIndex(currentDate) && (MonthIndex(currentDate) - MonthIndex(originalDate)) % 12 == 0)
  {
    WholeYearsOfMonths(currentDate, originalDate);
    currentDate.month == originalDate.month && currentDate.year >= originalDate.year
  }

  /** The two widgets' copies compute the same contribution. */
  lemma SameContributionAsProjector(amount: real, frequency: Frequency, date: Date, originalDate: Date)
    ensures IsYearlyOccurrence(date, originalDate) == AccountEvolution.IsYearlyOccurrence(date, originalDate)
    ensures AmountForMonth(amount, frequency, date, originalDate)
            == AccountEvolution.AmountForMonth(amount, frequency, date, originalDate)
  {
  }

  /** calculateRemainingPayments: the whole days, weeks, months or years
      between the month and the end date, plus one; 0 for any other
      frequency. */
  function CalculateRemainingPayments(frequency: Frequency, currentDate: Date, endDate: Date): (r: nat)
    requires Valid(currentDate) && Valid(endDate)
    ensures r == 0 <==> !FrequencyCalculation.Steps(frequency)
  {
    match frequency
    case Daily => DiffInDays(currentDate, endDate) + 1
    case Weekly => DiffInWeeks(currentDate, endDate) + 1
    case Monthly => DiffInMonths(currentDate, endDate) + 1
    case Yearly => DiffInYears(currentDate, endDate) + 1
    case _ => 0
  }

  /** The remaining payments shown for an ending item are the dates the
      form's occurrence loop would count from the first of the month to the
      end date. */
  lemma RemainingPaymentsCountOccurrences(frequency: Frequency, currentDate: Date, endDate: Date)
    requires Valid(currentDate) && Valid(endDate) && currentDate.day == 1 && LessEq(currentDate, endDate)
    requires FrequencyCalculation.Steps(frequency)
    ensures CalculateRemainingPayments(frequency, currentDate, endDate)
            == FrequencyCalculation.Occurrences(currentDate, endDate, frequency)
  {
    FrequencyCalculation.OccurrencesInWholeUnits(currentDate, endDate, frequency);
  }

  // ---------------------------------------------------------------------
  // The monthly query

  /** The filter of the monthly query (active, not one-off,
      addDateConstraints and the end-date condition) as it runs. The
      constraint built from `$date->endOfMonth()` binds the Carbon object
      itself, and the end-date condition then moves that object back to
      startOfMonth before `get()` formats the bindings, so a non-yearly
      start date is compared with the first day of the month. An item is
      fetched exactly when it is active, not one-off and active for the month
      by the balance projector's test, unless it is a non-yearly item that
      starts after the first day of that very month. */
  predicate IsFetched(item: Item, date: Date)
    ensures IsFetched(item, date) <==>
              && item.isActive && !item.frequency.Once? && AccountEvolution.IsItemActiveForDate(item, date)
              && !(!item.frequency.Yearly? && item.startDate.Some?
                   && KeyOf(item.startDate.value) == KeyOf(date) && item.startDate.value.day > 1)
  {
    && item.isActive
    && !item.frequency.Once?
    && (if item.frequency.Yearly? then
          item.startDate.None? || (item.startDate.value.month == date.month && item.startDate.value.year <= date.year)
        else
          item.startDate.None? || LessEq(item.startDate.value, StartOfMonth(date)))
    && (item.endDate.None? || LessEq(StartOfMonth(date), item.endDate.value))
  }

  function Fetch(items: seq<Item>, date: Date): (r: seq<Item>)
    ensures forall it :: it in r <==> it in items && IsFetched(it, date)
    decreases |items|
  {
    if items == [] then []
    else
      var last := items[|items| - 1];
      assert items == items[..|items| - 1] + [last];
      Fetch(items[..|items| - 1], date) + (if IsFetched(last, date) then [last] else [])
  }

  /** Every fetched item is one the balance projector also counts for that
      month; the only items the projector counts and this query misses are
      non-yearly items starting after the first day of that very month. */
  lemma FetchedVersusProjector(item: Item, date: Date)
    ensures IsFetched(item, date) ==>
              AccountEvolution.Loaded(AccountEvolution.Flow(AccountEvolution.Income, 0, item))
              && AccountEvolution.IsItemActiveForDate(item, date)
    ensures item.isActive && !item.frequency.Once? && AccountEvolution.IsItemActiveForDate(item, date)
            && !IsFetched(item, date) ==>
              && !item.frequency.Yearly? && item.startDate.Some?
              && KeyOf(item.startDate.value) == KeyOf(date) && item.startDate.value.day > 1
  {
  }

  /** A monthly income starting on 2025-03-15 counts in the projector's
      March but not in this chart's March. */
  lemma MidMonthStartExample()
    ensures var salary := Item("Salaire", 2000.0, Date(2025, 3, 15), Monthly, Some(Date(2025, 3, 15)), None, true);
            && AccountEvolution.IsItemActiveForDate(salary, Date(2025, 3, 1))
            && !IsFetched(salary, Date(2025, 3, 1))
            && IsFetched(salary, Date(2025, 4, 1))
  {
  }


  // ---------------------------------------------------------------------
  // PHP arrays keyed by item name

  /** An ordered array from names to amounts: assigning to an existing key
      replaces its value in place, assigning to a new key appends it. */
  type Assoc = seq<(string, real)>

  predicate UniqueKeys(a: Assoc) {
    forall i, j :: 0 <= i < j < |a| ==> a[i].0 != a[j].0
  }

  /** `$a[$k]` (None when the key is not set). */
  function Find(a: Assoc, k: string): Option<real>
    decreases |a|
  {
    if a == [] then None
    else if a[0].0 == k then Some(a[0].1)
    else Find(a[1..], k)
  }

  /** `$a[$k] = $v`. */
  function Put(a: Assoc, k: string, v: real): Assoc
    decreases |a|
  {
    if a == [] then [(k, v)]
    else if a[0].0 == k then [(k, v)] + a[1..]
    else [a[0]] + Put(a[1..], k, v)
  }

  /** A key is unset exactly when no entry carries it; a value found is an
      entry of the array. */
  lemma {:induction false} FindSpec(a: Assoc, k: string)
    ensures Find(a, k).None? <==> forall i :: 0 <= i < |a| ==> a[i].0 != k
    ensures Find(a, k).Some? ==> (k, Find(a, k).value) in a
    decreases |a|
  {
    if a != [] && a[0].0 != k {
      FindSpec(a[1..], k);
      assert forall i :: 0 < i < |a| ==> a[i] == a[1..][i - 1];
    }
  }

  /** With unique keys, the value found for a key is the one of its entry. */
  lemma {:induction false} FindUnique(a: Assoc, k: string, v: real)
    requires UniqueKeys(a) && (k, v) in a
    ensures Find(a, k) == Some(v)
    decreases |a|
  {
    if a[0].0 != k {
      var i :| 0 <= i < |a| && a[i] == (k, v);
      assert a[1..][i - 1] == (k, v);
      FindUnique(a[1..], k, v);
    }
  }

  /** Find on all but the last entry, and on the last one. */
  lemma FindSnoc(a: Assoc, k: string)
    requires a != []
    ensures Find(a, k).Some? <==> Find(a[..|a| - 1], k).Some? || a[|a| - 1].0 == k
    ensures UniqueKeys(a) ==> UniqueKeys(a[..|a| - 1])
    ensures UniqueKeys(a) && a[|a| - 1].0 == k ==> Find(a[..|a| - 1], k).None?
  {
    var prefix := a[..|a| - 1];
    FindSpec(a, k);
    FindSpec(prefix, k);
    assert forall i :: 0 <= i < |prefix| ==> prefix[i] == a[i];
  }

  /** After `$a[$k] = $v`, `$a[$k]` is v and every other key keeps its value. */
  lemma {:induction false} PutFind(a: Assoc, k: string, v: real, k': string)
    ensures Find(Put(a, k, v), k') == if k' == k then Some(v) else Find(a, k')
    decreases |a|
  {
    if a != [] && a[0].0 != k {
      PutFind(a[1..], k, v, k');
    }
  }

  /** Assigning to a new key appends; assigning to an existing key keeps
      every key in its place. */
  lemma {:induction false} PutShape(a: Assoc, k: string, v: real)
    ensures Find(a, k).None? ==> Put(a, k, v) == a + [(k, v)]
    ensures Find(a, k).Some? ==> |Put(a, k, v)| == |a| && forall i :: 0 <= i < |a| ==> Put(a, k, v)[i].0 == a[i].0
    decreases |a|
  {
    if a != [] && a[0].0 != k {
      PutShape(a[1..], k, v);
      if Find(a, k).None? {
        assert [a[0]] + (a[1..] + [(k, v)]) == a + [(k, v)];
      } else {
        var r := Put(a, k, v);
        assert forall i :: 0 < i < |a| ==> r[i] == Put(a[1..], k, v)[i - 1];
      }
    }
  }

  lemma PutUnique(a: Assoc, k: string, v: real)
    requires UniqueKeys(a)
    ensures UniqueKeys(Put(a, k, v))
  {
    PutShape(a, k, v);
    FindSpec(a, k);
  }

  function SumValues(a: Assoc): real
    decreases |a|
  {
    if a == [] then 0.0 else SumValues(a[..|a| - 1]) + a[|a| - 1].1
  }

  // ---------------------------------------------------------------------
  // One month's totals and current items

  function ItemAmount(it: Item, date: Date): real {
    AmountForMonth(it.amount, it.frequency, date, it.date)
  }

  /** `$monthlyIncomes`: the sum of the positive contributions. */
  function MonthTotal(fetched: seq<Item>, date: Date): real
    decreases |fetched|
  {
    if fetched == [] then 0.0
    else
      var amount := ItemAmount(fetched[|fetched| - 1], date);
      MonthTotal(fetched[..|fetched| - 1], date) + (if amount > 0.0 then amount else 0.0)
  }

  /** `$currentIncomes`: name => contribution, for positive contributions,
      in fetch order. */
  function CurrentItems(fetched: seq<Item>, date: Date): Assoc
    decreases |fetched|
  {
    if fetched == [] then []
    else
      var it := fetched[|fetched| - 1];
      var amount := ItemAmount(it, date);
      var rest := CurrentItems(fetched[..|fetched| - 1], date);
      if amount > 0.0 then Put(rest, it.name, amount) else rest
  }

  /** The foreach over the fetched items of one month. */
  method CollectMonth(fetched: seq<Item>, date: Date) returns (monthly: real, current: Assoc)
    ensures monthly == MonthTotal(fetched, date)
    ensures current == CurrentItems(fetched, date)
  {
    monthly := 0.0;
    current := [];
    for k := 0 to |fetched|
      invariant monthly == MonthTotal(fetched[..k], date)
      invariant current == CurrentItems(fetched[..k], date)
    {
      var it := fetched[k];
      var amount := AmountForMonth(it.amount, it.frequency, date, it.date);
      if amount > 0.0 {
        monthly := monthly + amount;
        current := Put(current, it.name, amount);
      }
      assert fetched[..k + 1][..k] == fetched[..k];
    }
    assert fetched[..|fetched|] == fetched;
  }

  lemma {:induction false} CurrentItemsUnique(fetched: seq<Item>, date: Date)
    ensures UniqueKeys(CurrentItems(fetched, date))
    decreases |fetched|
  {
    if fetched != [] {
      var n := |fetched| - 1;
      CurrentItemsUnique(fetched[..n], date);
      if ItemAmount(fetched[n], date) > 0.0 {
        PutUnique(CurrentItems(fetched[..n], date), fetched[n].name, ItemAmount(fetched[n], date));
      }
    }
  }

  /** Item i is the last fetched item named `name` with a positive
      contribution. */
  predicate LastPositive(fetched: seq<Item>, date: Date, name: string, i: int) {
    && 0 <= i < |fetched| && fetched[i].name == name && ItemAmount(fetched[i], date) > 0.0
    && forall j :: i < j < |fetched| && fetched[j].name == name ==> ItemAmount(fetched[j], date) <= 0.0
  }

  /** A name is among the current items exactly when some fetched item of
      that name contributes a positive amount, and its value is the
      contribution of the last such item (later assignments win). */
  lemma {:induction false} CurrentItemsFind(fetched: seq<Item>, date: Date, name: string)
    ensures Find(CurrentItems(fetched, date), name).None? <==>
              forall i :: 0 <= i < |fetched| && fetched[i].name == name ==> ItemAmount(fetched[i], date) <= 0.0
    ensures forall i :: LastPositive(fetched, date, name, i) ==>
              Find(CurrentItems(fetched, date), name) == Some(ItemAmount(fetched[i], date))
    decreases |fetched|
  {
    if fetched != [] {
      var n := |fetched| - 1;
      var prefix := fetched[..n];
      var it := fetched[n];
      CurrentItemsFind(prefix, date, name);
      if ItemAmount(it, date) > 0.0 {
        PutFind(CurrentItems(prefix, date), it.name, ItemAmount(it, date), name);
      }
      assert forall i :: 0 <= i < n ==> prefix[i] == fetched[i];
      forall i | LastPositive(fetched, date, name, i)
        ensures Find(CurrentItems(fetched, date), name) == Some(ItemAmount(fetched[i], date))
      {
        if i < n {
          assert LastPositive(prefix, date, name, i);
        }
      }
    }
  }

  predicate DistinctNames(items: seq<Item>) {
    forall i, j :: 0 <= i < j < |items| ==> items[i].name != items[j].name
  }

  /** When no two fetched items share a name, the month's total is the sum
      of the current items; with shared names the total still counts every
      item while the array keeps only the last (DuplicateNameExample). */
  lemma {:induction false} TotalMatchesCurrentItems(fetched: seq<Item>, date: Date)
    requires DistinctNames(fetched)
    ensures MonthTotal(fetched, date) == SumValues(CurrentItems(fetched, date))
    decreases |fetched|
  {
    if fetched != [] {
      var n := |fetched| - 1;
      var prefix := fetched[..n];
      var it := fetched[n];
      TotalMatchesCurrentItems(prefix, date);
      if ItemAmount(it, date) > 0.0 {
        var rest := CurrentItems(prefix, date);
        CurrentItemsFind(prefix, date, it.name);
        assert forall i :: 0 <= i < n ==> prefix[i].name != it.name;
        PutShape(rest, it.name, ItemAmount(it, date));
        var r := Put(rest, it.name, ItemAmount(it, date));
        assert r[..|r| - 1] == rest;
      }
    }
  }

  lemma DuplicateNameExample(date: Date)
    ensures var a := Item("Prime", 100.0, Date(2025, 1, 1), Monthly, None, None, true);
            var b := Item("Prime", 250.0, Date(2025, 1, 1), Monthly, None, None, true);
            && MonthTotal([a, b], date) == 350.0
            && CurrentItems([a, b], date) == [("Prime", 250.0)]
  {
    var a := Item("Prime", 100.0, Date(2025, 1, 1), Monthly, None, None, true);
    var b := Item("Prime", 250.0, Date(2025, 1, 1), Monthly, None, None, true);
    assert [a, b][..1] == [a] && [a][..0] == [];
    assert MonthTotal([a], date) == 100.0;
    assert CurrentItems([a], date) == [("Prime", 100.0)];
  }

  // ---------------------------------------------------------------------
  // generateTooltipDetails

  /** One tooltip entry (the source renders a temporary item as three
      lines: name and amount, end date, remaining payments). */
  datatype Detail =
    | New(name: string, amount: real)
    | Modified(name: string, amount: real, diff: real)
    | Temporary(name: string, amount: real, endDate: Date, remainingPayments: nat)
    | Terminated(name: string)

  /** `$allItems->firstWhere('name', $name)`: the first item with that name. */
  function FirstWhere(items: seq<Item>, name: string): (r: Option<Item>)
    ensures r.Some? ==> r.value in items && r.value.name == name
    ensures r.Some? ==> exists i :: 0 <= i < |items| && items[i] == r.value
                                    && forall j :: 0 <= j < i ==> items[j].name != name
    ensures r.None? ==> forall it :: it in items ==> it.name != name
    decreases |items|
  {
    if items == [] then None
    else if items[0].name == name then Some(items[0])
    else FirstWhere(items[1..], name)
  }

  predicate AllValid(items: seq<Item>) {
    forall it :: it in items ==> ValidItem(it)
  }

  /** The entry the first loop emits for one current item, if any. */
  function ClassifyCurrent(name: string, amount: real, previousItems: Assoc, allItems: seq<Item>, date: Date): seq<Detail>
    requires Valid(date) && AllValid(allItems)
  {
    var item := FirstWhere(allItems, name);
    var previous := Find(previousItems, name);
    if previous.None? then [New(name, amount)]
    else if previous.value != amount then [Modified(name, amount, amount - previous.value)]
    else if item.Some? && item.value.endDate.Some? then
      [Temporary(name, amount, item.value.endDate.value,
                 CalculateRemainingPayments(item.value.frequency, date, item.value.endDate.value))]
    else []
  }

  function CurrentDetails(currentItems: Assoc, previousItems: Assoc, allItems: seq<Item>, date: Date): seq<Detail>
    requires Valid(date) && AllValid(allItems)
    decreases |currentItems|
  {
    if currentItems == [] then []
    else
      var (name, amount) := currentItems[|currentItems| - 1];
      CurrentDetails(currentItems[..|currentItems| - 1], previousItems, allItems, date)
      + ClassifyCurrent(name, amount, previousItems, allItems, date)
  }

  function TerminatedDetails(previousItems: Assoc, currentItems: Assoc): seq<Detail>
    decreases |previousItems|
  {
    if previousItems == [] then []
    else
      var name := previousItems[|previousItems| - 1].0;
      TerminatedDetails(previousItems[..|previousItems| - 1], currentItems)
      + (if Find(currentItems, name).None? then [Terminated(name)] else [])
  }

  function TooltipDetails(currentItems: Assoc, previousItems: Assoc, allItems: seq<Item>, date: Date): seq<Detail>
    requires Valid(date) && AllValid(allItems)
  {
    CurrentDetails(currentItems, previousItems, allItems, date) + TerminatedDetails(previousItems, currentItems)
  }

  /** generateTooltipDetails: one pass over the current items, then one over
      the previous items. */
  method GenerateTooltipDetails(currentItems: Assoc, previousItems: Assoc, allItems: seq<Item>, date: Date)
    returns (details: seq<Detail>)
    requires Valid(date) && AllValid(allItems)
    ensures details == TooltipDetails(currentItems, previousItems, allItems, date)
  {
    details := [];
    for k := 0 to |currentItems|
      invariant details == CurrentDetails(currentItems[..k], previousItems, allItems, date)
    {
      var (name, amount) := currentItems[k];
      var item := FirstWhere(allItems, name);
      var hasEndDate := item.Some? && item.value.endDate.Some?;
      var previous := Find(previousItems, name);
      if previous.None? {
        details := details + [New(name, amount)];
      } else if previous.value != amount {
        details := details + [Modified(name, amount, amount - previous.value)];
      } else if hasEndDate {
        var endDate := item.value.endDate.value;
        var remainingPayments := CalculateRemainingPayments(item.value.frequency, date, endDate);
        details := details + [Temporary(name, amount, endDate, remainingPayments)];
      }
      assert currentItems[..k + 1][..k] == currentItems[..k];
    }
    assert currentItems[..|currentItems|] == currentItems;

    for k := 0 to |previousItems|
      invariant details == CurrentDetails(currentItems, previousItems, allItems, date)
                           + TerminatedDetails(previousItems[..k], currentItems)
    {
      var name := previousItems[k].0;
      if Find(currentItems, name).None? {
        details := details + [Terminated(name)];
      }
      assert previousItems[..k + 1][..k] == previousItems[..k];
    }
    assert previousItems[..|previousItems|] == previousItems;
  }

  // ---------------------------------------------------------------------
  // What the entries mean

  lemma {:induction false} CurrentDetailsMembers(currentItems: Assoc, previousItems: Assoc, allItems: seq<Item>, date: Date, d: Detail)
    requires Valid(date) && AllValid(allItems)
    ensures d in CurrentDetails(currentItems, previousItems, allItems, date) <==>
              exists k :: 0 <= k < |currentItems| && d in ClassifyCurrent(currentItems[k].0, currentItems[k].1, previousItems, allItems, date)
    decreases |currentItems|
  {
    if currentItems != [] {
      var n := |currentItems| - 1;
      var prefix := currentItems[..n];
      CurrentDetailsMembers(prefix, previousItems, allItems, date, d);
      var last := ClassifyCurrent(currentItems[n].0, currentItems[n].1, previousItems, allItems, date);
      assert CurrentDetails(currentItems, previousItems, allItems, date)
             == CurrentDetails(prefix, previousItems, allItems, date) + last;
      if d in CurrentDetails(prefix, previousItems, allItems, date) {
        var k :| 0 <= k < |prefix| && d in ClassifyCurrent(prefix[k].0, prefix[k].1, previousItems, allItems, date);
        assert prefix[k] == currentItems[k];
      }
      if exists k :: 0 <= k < |currentItems| && d in ClassifyCurrent(currentItems[k].0, currentItems[k].1, previousItems, allItems, date) {
        var k :| 0 <= k < |currentItems| && d in ClassifyCurrent(currentItems[k].0, currentItems[k].1, previousItems, allItems, date);
        if k < n {
          assert prefix[k] == currentItems[k];
        }
      }
    }
  }

  lemma {:induction false} TerminatedDetailsMembers(previousItems: Assoc, currentItems: Assoc, d: Detail)
    ensures d in TerminatedDetails(previousItems, currentItems) <==>
              d.Terminated? && Find(previousItems, d.name).Some? && Find(currentItems, d.name).None?
    decreases |previousItems|
  {
    if previousItems != [] {
      TerminatedDetailsMembers(previousItems[..|previousItems| - 1], currentItems, d);
      if d.Terminated? {
        FindSnoc(previousItems, d.name);
      }
    }
  }

  /** The entry of one current item, by kind. */
  lemma ClassifyCurrentIff(name: string, amount: real, previousItems: Assoc, allItems: seq<Item>, date: Date, d: Detail)
    requires Valid(date) && AllValid(allItems)
    ensures d in ClassifyCurrent(name, amount, previousItems, allItems, date) ==> d.name == name && !d.Terminated?
    ensures d.New? ==>
              (d in ClassifyCurrent(name, amount, previousItems, allItems, date) <==>
                 d.name == name && d.amount == amount && Find(previousItems, name).None?)
    ensures d.Modified? ==>
              (d in ClassifyCurrent(name, amount, previousItems, allItems, date) <==>
                 && d.name == name && d.amount == amount && Find(previousItems, name).Some?
                 && Find(previousItems, name).value != amount && d.diff == amount - Find(previousItems, name).value)
    ensures d.Temporary? ==>
              (d in ClassifyCurrent(name, amount, previousItems, allItems, date) <==>
                 && d.name == name && d.amount == amount && Find(previousItems, name) == Some(amount)
                 && FirstWhere(allItems, name).Some? && FirstWhere(allItems, name).value.endDate == Some(d.endDate)
                 && d.remainingPayments == CalculateRemainingPayments(FirstWhere(allItems, name).value.frequency, date, d.endDate))
  {
  }

  /** A current item absent last month is reported new. */
  lemma NewIff(currentItems: Assoc, previousItems: Assoc, allItems: seq<Item>, date: Date, name: string, amount: real)
    requires Valid(date) && AllValid(allItems)
    ensures New(name, amount) in TooltipDetails(currentItems, previousItems, allItems, date) <==>
              (name, amount) in currentItems && Find(previousItems, name).None?
  {
    var d := New(name, amount);
    CurrentDetailsMembers(currentItems, previousItems, allItems, date, d);
    TerminatedDetailsMembers(previousItems, currentItems, d);
    if d in CurrentDetails(currentItems, previousItems, allItems, date) {
      var k :| 0 <= k < |currentItems| && d in ClassifyCurrent(currentItems[k].0, currentItems[k].1, previousItems, allItems, date);
      ClassifyCurrentIff(currentItems[k].0, currentItems[k].1, previousItems, allItems, date, d);
      assert currentItems[k] == (name, amount);
    }
    if (name, amount) in currentItems && Find(previousItems, name).None? {
      var k :| 0 <= k < |currentItems| && currentItems[k] == (name, amount);
      ClassifyCurrentIff(currentItems[k].0, currentItems[k].1, previousItems, allItems, date, d);
    }
  }

  /** A current item whose amount changed is reported modified, with the
      difference from last month. */
  lemma ModifiedIff(currentItems: Assoc, previousItems: Assoc, allItems: seq<Item>, date: Date, name: string, amount: real, diff: real)
    requires Valid(date) && AllValid(allItems)
    ensures Modified(name, amount, diff) in TooltipDetails(currentItems, previousItems, allItems, date) <==>
              && (name, amount) in currentItems && Find(previousItems, name).Some?
              && Find(previousItems, name).value != amount && diff == amount - Find(previousItems, name).value
  {
    var d := Modified(name, amount, diff);
    CurrentDetailsMembers(currentItems, previousItems, allItems, date, d);
    TerminatedDetailsMembers(previousItems, currentItems, d);
    if d in CurrentDetails(currentItems, previousItems, allItems, date) {
      var k :| 0 <= k < |currentItems| && d in ClassifyCurrent(currentItems[k].0, currentItems[k].1, previousItems, allItems, date);
      ClassifyCurrentIff(currentItems[k].0, currentItems[k].1, previousItems, allItems, date, d);
      assert currentItems[k] == (name, amount);
    }
    if && (name, amount) in currentItems && Find(previousItems, name).Some?
       && Find(previousItems, name).value != amount && diff == amount - Find(previousItems, name).value {
      var k :| 0 <= k < |currentItems| && currentItems[k] == (name, amount);
      ClassifyCurrentIff(currentItems[k].0, currentItems[k].1, previousItems, allItems, date, d);
    }
  }

  /** A current item unchanged since last month is reported as ending when
      the first fetched item of that name has an end date, with the payments
      left until then. */
  lemma TemporaryIff(currentItems: Assoc, previousItems: Assoc, allItems: seq<Item>, date: Date,
                     name: string, amount: real, endDate: Date, remaining: nat)
    requires Valid(date) && AllValid(allItems)
    ensures Temporary(name, amount, endDate, remaining) in TooltipDetails(currentItems, previousItems, allItems, date) <==>
              && (name, amount) in currentItems && Find(previousItems, name) == Some(amount)
              && FirstWhere(allItems, name).Some? && FirstWhere(allItems, name).value.endDate == Some(endDate)
              && remaining == CalculateRemainingPayments(FirstWhere(allItems, name).value.frequency, date, endDate)
  {
    var d := Temporary(name, amount, endDate, remaining);
    CurrentDetailsMembers(currentItems, previousItems, allItems, date, d);
    TerminatedDetailsMembers(previousItems, currentItems, d);
    if d in CurrentDetails(currentItems, previousItems, allItems, date) {
      var k :| 0 <= k < |currentItems| && d in ClassifyCurrent(currentItems[k].0, currentItems[k].1, previousItems, allItems, date);
      ClassifyCurrentIff(currentItems[k].0, currentItems[k].1, previousItems, allItems, date, d);
      assert currentItems[k] == (name, amount);
    }
    if && (name, amount) in currentItems && Find(previousItems, name) == Some(amount)
       && FirstWhere(allItems, name).Some? && FirstWhere(allItems, name).value.endDate == Some(endDate)
       && remaining == CalculateRemainingPayments(FirstWhere(allItems, name).value.frequency, date, endDate) {
      var k :| 0 <= k < |currentItems| && currentItems[k] == (name, amount);
      ClassifyCurrentIff(currentItems[k].0, currentItems[k].1, previousItems, allItems, date, d);
    }
  }

  /** A name present last month and absent now is reported terminated. */
  lemma TerminatedIff(currentItems: Assoc, previousItems: Assoc, allItems: seq<Item>, date: Date, name: string)
    requires Valid(date) && AllValid(allItems)
    ensures Terminated(name) in TooltipDetails(currentItems, previousItems, allItems, date) <==>
              Find(previousItems, name).Some? && Find(currentItems, name).None?
  {
    CurrentDetailsMembers(currentItems, previousItems, allItems, date, Terminated(name));
    TerminatedDetailsMembers(previousItems, currentItems, Terminated(name));
  }

  /** An item present in both months with the same amount and no end date
      on its first fetched namesake produces no entry at all. */
  lemma StableItemSilent(currentItems: Assoc, previousItems: Assoc, allItems: seq<Item>, date: Date, name: string, amount: real)
    requires Valid(date) && AllValid(allItems) && UniqueKeys(currentItems)
    requires (name, amount) in currentItems && Find(previousItems, name) == Some(amount)
    requires FirstWhere(allItems, name).None? || FirstWhere(allItems, name).value.endDate.None?
    ensures forall d :: d in TooltipDetails(currentItems, previousItems, allItems, date) ==> d.name != name
  {
    FindUnique(currentItems, name, amount);
    var i :| 0 <= i < |currentItems| && currentItems[i] == (name, amount);
    assert ClassifyCurrent(name, amount, previousItems, allItems, date) == [];
    forall d | d in CurrentDetails(currentItems, previousItems, allItems, date) ensures d.name != name {
      CurrentDetailsMembers(currentItems, previousItems, allItems, date, d);
      var k :| 0 <= k < |currentItems| && d in ClassifyCurrent(currentItems[k].0, currentItems[k].1, previousItems, allItems, date);
      assert d.name == currentItems[k].0;
      if k != i {
        assert currentItems[k].0 != currentItems[i].0;
      }
    }
    forall d | d in TerminatedDetails(previousItems, currentItems) ensures d.name != name {
      TerminatedDetailsMembers(previousItems, currentItems, d);
    }
  }

  lemma {:induction false} TerminatedCount(previousItems: Assoc, currentItems: Assoc, name: string)
    requires UniqueKeys(previousItems)
    ensures multiset(TerminatedDetails(previousItems, currentItems))[Terminated(name)]
            == if Find(previousItems, name).Some? && Find(currentItems, name).None? then 1 else 0
    decreases |previousItems|
  {
    if previousItems != [] {
      FindSnoc(previousItems, name);
      TerminatedCount(previousItems[..|previousItems| - 1], currentItems, name);
    }
  }

  lemma {:induction false} CurrentDetailsNotTerminated(currentItems: Assoc, previousItems: Assoc, allItems: seq<Item>, date: Date, name: string)
    requires Valid(date) && AllValid(allItems)
    ensures multiset(CurrentDetails(currentItems, previousItems, allItems, date))[Terminated(name)] == 0
    decreases |currentItems|
  {
    if currentItems != [] {
      CurrentDetailsNotTerminated(currentItems[..|currentItems| - 1], previousItems, allItems, date, name);
    }
  }

  /** A name that disappears is reported terminated exactly once; any other
      name is never reported terminated. */
  lemma TerminatedExactlyOnce(currentItems: Assoc, previousItems: Assoc, allItems: seq<Item>, date: Date, name: string)
    requires Valid(date) && AllValid(allItems) && UniqueKeys(previousItems)
    ensures multiset(TooltipDetails(currentItems, previousItems, allItems, date))[Terminated(name)]
            == if Find(previousItems, name).Some? && Find(currentItems, name).None? then 1 else 0
  {
    TerminatedCount(previousItems, currentItems, name);
    CurrentDetailsNotTerminated(currentItems, previousItems, allItems, date, name);
  }

  lemma {:induction false} AllNewWithoutPrevious(currentItems: Assoc, allItems: seq<Item>, date: Date)
    requires Valid(date) && AllValid(allItems)
    ensures var details := CurrentDetails(currentItems, [], allItems, date);
            && |details| == |currentItems|
            && forall k :: 0 <= k < |currentItems| ==> details[k] == New(currentItems[k].0, currentItems[k].1)
    decreases |currentItems|
  {
    if currentItems != [] {
      var n := |currentItems| - 1;
      AllNewWithoutPrevious(currentItems[..n], allItems, date);
      assert forall k :: 0 <= k < n ==> currentItems[..n][k] == currentItems[k];
    }
  }

  // ---------------------------------------------------------------------
  // getData: the month fold

  datatype ChartData = ChartData(
    labels: seq<Date>,
    incomeData: seq<real>,
    expenseData: seq<real>,
    incomeDetails: map<nat, seq<Detail>>,
    expenseDetails: map<nat, seq<Detail>>)

  function FetchFor(items: seq<Item>, now: Date, i: nat): seq<Item> {
    Fetch(items, MonthStart(now, i))
  }

  function TotalFor(items: seq<Item>, now: Date, i: nat): real {
    MonthTotal(FetchFor(items, now, i), MonthStart(now, i))
  }

  function CurrentFor(items: seq<Item>, now: Date, i: nat): Assoc {
    CurrentItems(FetchFor(items, now, i), MonthStart(now, i))
  }

  /** The array the fold carries into month i: month i-1's current items,
      and nothing before the first month. */
  function PreviousFor(items: seq<Item>, now: Date, i: nat): Assoc {
    if i == 0 then [] else CurrentFor(items, now, i - 1)
  }

  function DetailsFor(items: seq<Item>, now: Date, i: nat): seq<Detail>
    requires Valid(now) && AllValid(items)
  {
    MonthStartIndex(now, i);
    TooltipDetails(CurrentFor(items, now, i), PreviousFor(items, now, i), FetchFor(items, now, i), MonthStart(now, i))
  }

  /** One kind's series after the first i months: a total per month, and
      the tooltip entries of exactly the months that have some. */
  ghost predicate SeriesSoFar(items: seq<Item>, now: Date, i: nat, data: seq<real>, details: map<nat, seq<Detail>>)
    requires Valid(now) && AllValid(items)
  {
    && |data| == i
    && (forall k :: 0 <= k < i ==> data[k] == TotalFor(items, now, k))
    && (forall k: nat :: k in details <==> k < i && DetailsFor(items, now, k) != [])
    && (forall k: nat :: k in details ==> details[k] == DetailsFor(items, now, k))
  }

  /** The body of the fold for one kind: query the month, total it, compare
      with the previous month. */
  method ProcessMonth(items: seq<Item>, now: Date, i: nat, previous: Assoc)
    returns (monthly: real, current: Assoc, details: seq<Detail>)
    requires Valid(now) && AllValid(items) && previous == PreviousFor(items, now, i)
    ensures monthly == TotalFor(items, now, i)
    ensures current == CurrentFor(items, now, i)
    ensures details == DetailsFor(items, now, i)
  {
    var date := MonthStart(now, i);
    MonthStartIndex(now, i);
    var all := Fetch(items, date);
    monthly, current := CollectMonth(all, date);
    details := GenerateTooltipDetails(current, previous, all, date);
  }

  /** getData: month by month, the incomes then the expenses, keeping the
      non-empty tooltip lists and carrying the current items over. */
  method GetData(incomes: seq<Item>, expenses: seq<Item>, now: Date, months: int) returns (result: ChartData)
    requires Valid(now) && AllValid(incomes) && AllValid(expenses)
    ensures |result.labels| == AccountEvolution.Horizon(months)
    ensures forall i :: 0 <= i < |result.labels| ==> result.labels[i] == MonthStart(now, i)
    ensures SeriesSoFar(incomes, now, AccountEvolution.Horizon(months), result.incomeData, result.incomeDetails)
    ensures SeriesSoFar(expenses, now, AccountEvolution.Horizon(months), result.expenseData, result.expenseDetails)
  {
    var labels: seq<Date> := [];
    var incomeData: seq<real> := [];
    var expenseData: seq<real> := [];
    var incomeDetails: map<nat, seq<Detail>> := map[];
    var expenseDetails: map<nat, seq<Detail>> := map[];
    var previousIncomes: Assoc := [];
    var previousExpenses: Assoc := [];
    var i: nat := 0;
    while i < months
      invariant i <= AccountEvolution.Horizon(months)
      invariant |labels| == i && forall k :: 0 <= k < i ==> labels[k] == MonthStart(now, k)
      invariant SeriesSoFar(incomes, now, i, incomeData, incomeDetails)
      invariant SeriesSoFar(expenses, now, i, expenseData, expenseDetails)
      invariant previousIncomes == PreviousFor(incomes, now, i)
      invariant previousExpenses == PreviousFor(expenses, now, i)
    {
      ghost var labels0 := labels;
      labels := labels + [MonthStart(now, i)];
      forall k | 0 <= k < i + 1
        ensures labels[k] == MonthStart(now, k)
      {
        if k < i {
          assert labels[k] == labels0[k];
        }
      }

      var monthlyIncomes, currentIncomes, incomeDetailForMonth := ProcessMonth(incomes, now, i, previousIncomes);
      var monthlyExpenses, currentExpenses, expenseDetailForMonth := ProcessMonth(expenses, now, i, previousExpenses);

      SeriesStep(incomes, now, i, incomeData, incomeDetails, monthlyIncomes, incomeDetailForMonth);
      SeriesStep(expenses, now, i, expenseData, expenseDetails, monthlyExpenses, expenseDetailForMonth);
      incomeData := incomeData + [monthlyIncomes];
      expenseData := expenseData + [monthlyExpenses];
      if incomeDetailForMonth != [] {
        incomeDetails := incomeDetails[i := incomeDetailForMonth];
      }
      if expenseDetailForMonth != [] {
        expenseDetails := expenseDetails[i := expenseDetailForMonth];
      }

      previousIncomes := currentIncomes;
      previousExpenses := currentExpenses;
      i := i + 1;
    }
    result := ChartData(labels, incomeData, expenseData, incomeDetails, expenseDetails);
  }

  lemma SeriesStep(items: seq<Item>, now: Date, i: nat, data: seq<real>, details: map<nat, seq<Detail>>,
                   monthly: real, detailsForMonth: seq<Detail>)
    requires Valid(now) && AllValid(items) && SeriesSoFar(items, now, i, data, details)
    requires monthly == TotalFor(items, now, i) && detailsForMonth == DetailsFor(items, now, i)
    ensures SeriesSoFar(items, now, i + 1, data + [monthly],
                        if detailsForMonth != [] then details[i := detailsForMonth] else details)
  {
    var data' := data + [monthly];
    var details' := if detailsForMonth != [] then details[i := detailsForMonth] else details;
    forall k | 0 <= k < i + 1
      ensures data'[k] == TotalFor(items, now, k)
    {
      if k < i {
        assert data'[k] == data[k];
      }
    }
    forall k: nat
      ensures k in details' <==> k < i + 1 && DetailsFor(items, now, k) != []
      ensures k in details' ==> details'[k] == DetailsFor(items, now, k)
    {
      if k != i {
        assert k in details' <==> k in details;
      }
    }
  }

  // ---------------------------------------------------------------------
  // Consequences of the fold

  /** In the first month every current item is reported new, in order. */
  lemma FirstMonthAllNew(items: seq<Item>, now: Date)
    requires Valid(now) && AllValid(items)
    ensures var current := CurrentFor(items, now, 0);
            var details := DetailsFor(items, now, 0);
            && |details| == |current|
            && forall k :: 0 <= k < |current| ==> details[k] == New(current[k].0, current[k].1)
  {
    MonthStartIndex(now, 0);
    AllNewWithoutPrevious(CurrentFor(items, now, 0), FetchFor(items, now, 0), MonthStart(now, 0));
  }

  /** Forecast months fewer than twelve apart fall in different calendar
      months; twelve apart, in the same calendar month a year later. */
  lemma MonthsApart(now: Date, i: nat, j: nat)
    requires Valid(now) && i < j
    ensures j < i + 12 ==> MonthStart(now, i).month != MonthStart(now, j).month
    ensures j == i + 12 ==> MonthStart(now, j).month == MonthStart(now, i).month
                            && MonthStart(now, j).year == MonthStart(now, i).year + 1
  {
    MonthStartIndex(now, i);
    MonthStartIndex(now, j);
    if j < i + 12 {
      if MonthStart(now, i).month == MonthStart(now, j).month {
        AccountEvolution.SameMonthWithinYear(now, i, j);
      }
    } else if j == i + 12 {
      var k := MonthIndex(now) + i;
      assert (k + 12) / 12 == k / 12 + 1 && (k + 12) % 12 == k % 12;
    }
  }

  /** The current items of a single item. */
  lemma SingleItemCurrent(it: Item, date: Date)
    ensures CurrentItems(Fetch([it], date), date)
            == if IsFetched(it, date) && ItemAmount(it, date) > 0.0 then [(it.name, ItemAmount(it, date))] else []
  {
    assert [it][..0] == [];
    if IsFetched(it, date) {
      assert Fetch([it], date) == [it];
    } else {
      assert Fetch([it], date) == [];
    }
  }

  /** A yearly item contributes nothing in the eleven months after a month
      where it is paid. */
  lemma YearlyUnpaidBetween(it: Item, now: Date, i: nat, j: nat)
    requires Valid(now) && it.frequency == Yearly && IsYearlyOccurrence(MonthStart(now, i), it.date)
    requires i < j < i + 12
    ensures CurrentFor([it], now, j) == []
  {
    MonthsApart(now, i, j);
    SingleItemCurrent(it, MonthStart(now, j));
  }

  lemma YearlyTerminatedNextMonth(it: Item, now: Date, i: nat)
    requires Valid(now) && ValidItem(it)
    requires it.frequency == Yearly && it.amount > 0.0
    requires IsFetched(it, MonthStart(now, i)) && IsYearlyOccurrence(MonthStart(now, i), it.date)
    ensures DetailsFor([it], now, i + 1) == [Terminated(it.name)]
  {
    var fired: Assoc := [(it.name, it.amount)];
    SingleItemCurrent(it, MonthStart(now, i));
    YearlyUnpaidBetween(it, now, i, i + 1);
    assert PreviousFor([it], now, i + 1) == fired;
    assert fired[..0] == [];
    assert TerminatedDetails(fired, []) == [Terminated(it.name)];
    MonthStartIndex(now, i + 1);
    assert CurrentDetails([], fired, FetchFor([it], now, i + 1), MonthStart(now, i + 1)) == [];
  }

  /** A yearly item fetched and paid in a month is fetched and paid again
      twelve months later. */
  lemma YearlyPaidAgain(it: Item, now: Date, i: nat)
    requires Valid(now) && it.frequency == Yearly && it.endDate.None?
    requires IsFetched(it, MonthStart(now, i)) && IsYearlyOccurrence(MonthStart(now, i), it.date)
    ensures IsFetched(it, MonthStart(now, i + 12)) && ItemAmount(it, MonthStart(now, i + 12)) == it.amount
  {
    MonthsApart(now, i, i + 12);
  }

  lemma YearlyNewAYearLater(it: Item, now: Date, i: nat)
    requires Valid(now) && ValidItem(it)
    requires it.frequency == Yearly && it.amount > 0.0 && it.endDate.None?
    requires IsFetched(it, MonthStart(now, i)) && IsYearlyOccurrence(MonthStart(now, i), it.date)
    ensures DetailsFor([it], now, i + 12) == [New(it.name, it.amount)]
  {
    var fired: Assoc := [(it.name, it.amount)];
    var m := MonthStart(now, i + 12);
    YearlyUnpaidBetween(it, now, i, i + 11);
    assert PreviousFor([it], now, i + 12) == [];
    YearlyPaidAgain(it, now, i);
    SingleItemCurrent(it, m);
    assert CurrentFor([it], now, i + 12) == fired;
    MonthStartIndex(now, i + 12);
    var all := FetchFor([it], now, i + 12);
    assert AllValid(all);
    assert fired[..0] == [];
    assert ClassifyCurrent(it.name, it.amount, [], all, m) == [New(it.name, it.amount)];
    assert CurrentDetails(fired, [], all, m) == [New(it.name, it.amount)];
  }

  /** A yearly item is reported terminated the month after it is paid and
      new again when it is paid a year later: the months in between leave it
      out of the current items. */
  lemma YearlyItemFlickers(it: Item, now: Date, i: nat)
    requires Valid(now) && ValidItem(it)
    requires it.frequency == Yearly && it.amount > 0.0 && it.endDate.None?
    requires IsFetched(it, MonthStart(now, i)) && IsYearlyOccurrence(MonthStart(now, i), it.date)
    ensures DetailsFor([it], now, i + 1) == [Terminated(it.name)]
    ensures DetailsFor([it], now, i + 12) == [New(it.name, it.amount)]
  {
    YearlyTerminatedNextMonth(it, now, i);
    YearlyNewAYearLater(it, now, i);
  }
}
