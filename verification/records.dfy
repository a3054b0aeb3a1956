/** The records the projection engine reads: the frequency column and the
    shape shared by incomes, expenses and transfers. */
module Records {
  import opened Calendar

  datatype Option<T> = None | Some(value: T)

  /** The frequency column. A code other than the five the forms offer is
      kept verbatim, because every `match` in the widgets has a default arm
      for it. */
  datatype Frequency = Once | Daily | Weekly | Monthly | Yearly | Unknown(code: string)

  function FrequencyFromCode(code: string): Frequency {
    if code == "once" then Once
    else if code == "daily" then Daily
    else if code == "weekly" then Weekly
    else if code == "monthly" then Monthly
    else if code == "yearly" then Yearly
    else Unknown(code)
  }

  function CodeOf(f: Frequency): string {
    match f
    case Once => "once"
    case Daily => "daily"
    case Weekly => "weekly"
    case Monthly => "monthly"
    case Yearly => "yearly"
    case Unknown(c) => c
  }

  /** A frequency value FrequencyFromCode can produce. */
  predicate Canonical(f: Frequency) {
    f.Unknown? ==> f.code !in {"once", "daily", "weekly", "monthly", "yearly"}
  }

  /** Reading the column and writing it back loses nothing, in both directions. */
  lemma CodeRoundTrip(code: string, f: Frequency)
    ensures CodeOf(FrequencyFromCode(code)) == code
    ensures Canonical(FrequencyFromCode(code))
    ensures Canonical(f) ==> FrequencyFromCode(CodeOf(f)) == f
  {
  }

  /** The columns of an income, an expense or a transfer that the widgets
      read: `date` is the anchor date the item was entered with. */
  datatype Item = Item(
    name: string,
    amount: real,
    date: Date,
    frequency: Frequency,
    startDate: Option<Date>,
    endDate: Option<Date>,
    isActive: bool)

  predicate ValidItem(it: Item) {
    && Valid(it.date)
    && (it.startDate.Some? ==> Valid(it.startDate.value))
    && (it.endDate.Some? ==> Valid(it.endDate.value))
  }
}
