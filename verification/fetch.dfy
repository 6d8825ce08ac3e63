/**
 * `fetch_records` of tmd.py: walk the yearly history endpoint backwards from
 * the current year, decode its positional rows, and stop at the first past
 * year that has nothing, a failed request, or after thirty years.
 */
module RecordFetcher {
  import opened Wrappers
  import opened Entities

  /** How many years the walk covers at most: `this_year` down to `this_year - 29`. */
  const MAX_YEARS: nat := 30

  /** The history endpoint for one account, asked for one year. */
  type History = int -> Result<seq<Month>, Error>

  /** The two lists a fetch returns, in fetch order. */
  datatype Fetched = Fetched(settlements: seq<Settlement>, payments: seq<Payment>)

  /** A charge row of `year`: sign flipped, the year taken from the request. */
  function DecodeSettlement(year: int, rec: ChargeRecord): Settlement {
    Settlement(rec.id, year, rec.period, rec.title, rec.dueDate, -rec.amount)
  }

  /** A payment row: its amount as it stands. */
  function DecodePayment(rec: PaymentRecord): Payment {
    Payment(rec.date, rec.amount)
  }

  function MonthSettlements(year: int, m: Month): seq<Settlement> {
    seq(|m.charges|, k requires 0 <= k < |m.charges| => DecodeSettlement(year, m.charges[k]))
  }

  function MonthPayments(m: Month): seq<Payment> {
    seq(|m.payments|, k requires 0 <= k < |m.payments| => DecodePayment(m.payments[k]))
  }

  /** The settlements of one year's answer: month after month, row after row. */
  function YearSettlements(year: int, months: seq<Month>): seq<Settlement>
    decreases |months|
  {
    if months == [] then []
    else YearSettlements(year, months[..|months| - 1]) + MonthSettlements(year, months[|months| - 1])
  }

  /** The payments of one year's answer: month after month, row after row. */
  function YearPayments(months: seq<Month>): seq<Payment>
    decreases |months|
  {
    if months == [] then []
    else YearPayments(months[..|months| - 1]) + MonthPayments(months[|months| - 1])
  }

  /** Whether the walk goes on below `year` once that year answered `months`. */
  predicate Continues(thisYear: int, year: int, months: seq<Month>) {
    months != [] || year == thisYear
  }

  /** `acc` in front of whatever the rest of the walk yields. */
  function Prepend(acc: Fetched, rest: Result<Fetched, Error>): Result<Fetched, Error> {
    match rest
    case Err(e) => Err(e)
    case Ok(f) => Ok(Fetched(acc.settlements + f.settlements, acc.payments + f.payments))
  }

  /** What the walk yields from `year` downwards. */
  function Walk(resp: History, thisYear: int, year: int): Result<Fetched, Error>
    decreases year - (thisYear - MAX_YEARS)
  {
    if year <= thisYear - MAX_YEARS then Ok(Fetched([], []))
    else
      match resp(year)
      case Err(e) => Err(e)
      case Ok(months) =>
        if !Continues(thisYear, year, months) then Ok(Fetched([], []))
        else Prepend(Fetched(YearSettlements(year, months), YearPayments(months)), Walk(resp, thisYear, year - 1))
  }

  /** The years the walk asks for from `year` downwards, in the order it asks. */
  function Queried(resp: History, thisYear: int, year: int): seq<int>
    decreases year - (thisYear - MAX_YEARS)
  {
    if year <= thisYear - MAX_YEARS then []
    else
      match resp(year)
      case Err(_) => [year]
      case Ok(months) =>
        if !Continues(thisYear, year, months) then [year]
        else [year] + Queried(resp, thisYear, year - 1)
  }

  /** The settlements of `years`, one year after another, each answered. */
  function SettlementsOf(resp: History, years: seq<int>): seq<Settlement>
    requires forall y :: y in years ==> resp(y).Ok?
    decreases |years|
  {
    if years == [] then []
    else
      var y := years[0];
      assert y in years;
      YearSettlements(y, resp(y).value) + SettlementsOf(resp, years[1..])
  }

  /** The payments of `years`, one year after another, each answered. */
  function PaymentsOf(resp: History, years: seq<int>): seq<Payment>
    requires forall y :: y in years ==> resp(y).Ok?
    decreases |years|
  {
    if years == [] then []
    else
      var y := years[0];
      assert y in years;
      YearPayments(resp(y).value) + PaymentsOf(resp, years[1..])
  }

  /** One answered year that lets the walk go on: its rows, then the rest of the walk. */
  lemma WalkStep(resp: History, thisYear: int, year: int, months: seq<Month>)
    requires thisYear - MAX_YEARS < year && resp(year) == Ok(months) && Continues(thisYear, year, months)
    ensures Walk(resp, thisYear, year) == Prepend(Fetched(YearSettlements(year, months), YearPayments(months)), Walk(resp, thisYear, year - 1))
    ensures Queried(resp, thisYear, year) == [year] + Queried(resp, thisYear, year - 1)
  {
  }

  lemma PrependNothing(acc: Fetched)
    ensures Prepend(acc, Ok(Fetched([], []))) == Ok(acc)
  {
    assert acc.settlements + [] == acc.settlements && acc.payments + [] == acc.payments;
  }

  lemma PrependTwice(a: Fetched, b: Fetched, rest: Result<Fetched, Error>)
    ensures Prepend(a, Prepend(b, rest)) == Prepend(Fetched(a.settlements + b.settlements, a.payments + b.payments), rest)
  {
    match rest {
      case Ok(f) =>
        assert a.settlements + (b.settlements + f.settlements) == a.settlements + b.settlements + f.settlements;
        assert a.payments + (b.payments + f.payments) == a.payments + b.payments + f.payments;
      case Err(_) =>
    }
  }

  lemma YearRowsSnoc(year: int, months: seq<Month>, i: nat)
    requires i < |months|
    ensures YearSettlements(year, months[..i + 1]) == YearSettlements(year, months[..i]) + MonthSettlements(year, months[i])
    ensures YearPayments(months[..i + 1]) == YearPayments(months[..i]) + MonthPayments(months[i])
  {
    assert months[..i + 1][..i] == months[..i];
  }

  /**
   * The body of the walk for one answered year: every charge row of every
   * month, then every payment row of it, appended in the answer's order.
   */
  method AppendYear(year: int, months: seq<Month>, settlements0: seq<Settlement>, payments0: seq<Payment>)
    returns (settlements: seq<Settlement>, payments: seq<Payment>)
    ensures settlements == settlements0 + YearSettlements(year, months)
    ensures payments == payments0 + YearPayments(months)
  {
    settlements, payments := settlements0, payments0;
    var i := 0;
    while i < |months|
      invariant 0 <= i <= |months|
      invariant settlements == settlements0 + YearSettlements(year, months[..i])
      invariant payments == payments0 + YearPayments(months[..i])
    {
      var month := months[i];
      ghost var settlementsMid, paymentsMid := settlements, payments;
      var j := 0;
      while j < |month.charges|
        invariant 0 <= j <= |month.charges|
        invariant settlements == settlementsMid + MonthSettlements(year, month)[..j]
      {
        settlements := settlements + [DecodeSettlement(year, month.charges[j])];
        j := j + 1;
        assert MonthSettlements(year, month)[..j] == MonthSettlements(year, month)[..j - 1] + [DecodeSettlement(year, month.charges[j - 1])];
      }
      j := 0;
      while j < |month.payments|
        invariant 0 <= j <= |month.payments|
        invariant payments == paymentsMid + MonthPayments(month)[..j]
      {
        payments := payments + [DecodePayment(month.payments[j])];
        j := j + 1;
        assert MonthPayments(month)[..j] == MonthPayments(month)[..j - 1] + [DecodePayment(month.payments[j - 1])];
      }
      YearRowsSnoc(year, months, i);
      assert MonthSettlements(year, month)[..|month.charges|] == MonthSettlements(year, month);
      assert MonthPayments(month)[..|month.payments|] == MonthPayments(month);
      i := i + 1;
    }
    assert months[..|months|] == months;
  }

  /**
   * The year walk: it returns what `Walk` yields from the current year and
   * the years it asked for, in order. `resp` stands for the history endpoint
   * (the account id and the session are fixed in it); `thisYear` is today's year.
   */
  method FetchRecords(resp: History, thisYear: int) returns (result: Result<Fetched, Error>, queried: seq<int>)
    ensures result == Walk(resp, thisYear, thisYear)
    ensures queried == Queried(resp, thisYear, thisYear)
  {
    var settlements: seq<Settlement> := [];
    var payments: seq<Payment> := [];
    queried := [];
    var year := thisYear;
    assert Prepend(Fetched([], []), Walk(resp, thisYear, year)) == Walk(resp, thisYear, year) by {
      match Walk(resp, thisYear, year) {
        case Ok(f) => assert [] + f.settlements == f.settlements && [] + f.payments == f.payments;
        case Err(_) =>
      }
    }
    while year > thisYear - MAX_YEARS
      invariant thisYear - MAX_YEARS <= year <= thisYear
      invariant Prepend(Fetched(settlements, payments), Walk(resp, thisYear, year)) == Walk(resp, thisYear, thisYear)
      invariant queried + Queried(resp, thisYear, year) == Queried(resp, thisYear, thisYear)
      decreases year - (thisYear - MAX_YEARS)
    {
      ghost var queriedBefore := queried;
      queried := queried + [year];
      var response := resp(year);
      if response.Err? {
        assert Queried(resp, thisYear, year) == [year];
        return Err(response.error), queried;
      }
      var months := response.value;
      if months == [] && year != thisYear {
        assert Queried(resp, thisYear, year) == [year];
        assert Walk(resp, thisYear, year) == Ok(Fetched([], []));
        break;
      }
      ghost var before := Fetched(settlements, payments);
      settlements, payments := AppendYear(year, months, settlements, payments);
      WalkStep(resp, thisYear, year, months);
      PrependTwice(before, Fetched(YearSettlements(year, months), YearPayments(months)), Walk(resp, thisYear, year - 1));
      assert queried + Queried(resp, thisYear, year - 1) == queriedBefore + ([year] + Queried(resp, thisYear, year - 1));
      year := year - 1;
    }
    PrependNothing(Fetched(settlements, payments));
    result := Ok(Fetched(settlements, payments));
  }

  /**
   * The years asked for are consecutive and descending from `year`, at most
   * as many as remain above `thisYear - MAX_YEARS`, and at least one when any remains.
   */
  lemma {:induction false} QueriedYearsDescend(resp: History, thisYear: int, year: int)
    requires year <= thisYear
    ensures var q := Queried(resp, thisYear, year);
      && (year > thisYear - MAX_YEARS ==> 1 <= |q| <= year - (thisYear - MAX_YEARS))
      && (year <= thisYear - MAX_YEARS ==> q == [])
      && forall i :: 0 <= i < |q| ==> q[i] == year - i
    decreases year - (thisYear - MAX_YEARS)
  {
    if year > thisYear - MAX_YEARS && resp(year).Ok? && Continues(thisYear, year, resp(year).value) {
      QueriedYearsDescend(resp, thisYear, year - 1);
    }
  }

  /**
   * Why the walk stopped where it did: every year but the last answered and
   * let it go on; the last one either is the thirtieth, failed, or was a past
   * year that answered nothing.
   */
  lemma {:induction false} QueriedStopRule(resp: History, thisYear: int, year: int)
    requires thisYear - MAX_YEARS < year <= thisYear
    ensures var q := Queried(resp, thisYear, year);
      && q != []
      && (forall i :: 0 <= i < |q| - 1 ==> resp(q[i]).Ok? && Continues(thisYear, q[i], resp(q[i]).value))
      && var last := q[|q| - 1];
        || last == thisYear - MAX_YEARS + 1
        || resp(last).Err?
        || !Continues(thisYear, last, resp(last).value)
    decreases year - (thisYear - MAX_YEARS)
  {
    if resp(year).Ok? && Continues(thisYear, year, resp(year).value) && year - 1 > thisYear - MAX_YEARS {
      QueriedStopRule(resp, thisYear, year - 1);
      var q, rest := Queried(resp, thisYear, year), Queried(resp, thisYear, year - 1);
      assert q == [year] + rest;
      forall i | 0 <= i < |q| - 1 ensures resp(q[i]).Ok? && Continues(thisYear, q[i], resp(q[i]).value) {
        if i > 0 {
          assert q[i] == rest[i - 1];
        }
      }
    }
  }

  /**
   * The walk succeeds exactly when every year it asked for answered, and then
   * its lists are the rows of those years, most recent year first, each year
   * in the order of its answer.
   */
  lemma {:induction false} WalkGathersQueriedYears(resp: History, thisYear: int, year: int)
    ensures var q := Queried(resp, thisYear, year);
      Walk(resp, thisYear, year).Ok? <==> forall y :: y in q ==> resp(y).Ok?
    ensures var q := Queried(resp, thisYear, year);
      Walk(resp, thisYear, year).Ok? ==>
        && (forall y :: y in q ==> resp(y).Ok?)
        && Walk(resp, thisYear, year).value == Fetched(SettlementsOf(resp, q), PaymentsOf(resp, q))
    decreases year - (thisYear - MAX_YEARS)
  {
    var q := Queried(resp, thisYear, year);
    if year > thisYear - MAX_YEARS {
      match resp(year) {
        case Err(_) =>
          assert year in q;
        case Ok(months) =>
          if !Continues(thisYear, year, months) {
            assert q == [year] && months == [];
            assert q[1..] == [];
          } else {
            var rest := Queried(resp, thisYear, year - 1);
            WalkGathersQueriedYears(resp, thisYear, year - 1);
            assert q == [year] + rest && q[1..] == rest;
            assert forall y :: y in rest ==> y in q;
          }
      }
    }
  }

  /**
   * A past year that answers nothing ends the walk: it is the last year asked
   * for, so no earlier year is asked for, and it adds no rows.
   */
  lemma EarlyStop(resp: History, thisYear: int, y: int)
    requires y != thisYear && resp(y) == Ok([])
    requires y in Queried(resp, thisYear, thisYear)
    ensures var q := Queried(resp, thisYear, thisYear); q[|q| - 1] == y
    ensures forall y' :: y' in Queried(resp, thisYear, thisYear) ==> y' >= y
    ensures Walk(resp, thisYear, y) == Ok(Fetched([], []))
  {
    var q := Queried(resp, thisYear, thisYear);
    QueriedYearsDescend(resp, thisYear, thisYear);
    QueriedStopRule(resp, thisYear, thisYear);
    var i :| 0 <= i < |q| && q[i] == y;
    if i < |q| - 1 {
      assert false;
    }
  }

  /**
   * Once a past year has answered nothing, what the history says for the
   * years before it makes no difference: any endpoint that gives the same
   * answers from that year upwards yields the same walk and the same
   * requests, from every year at or above it.
   */
  lemma {:induction false} EarlierYearsIgnored(resp: History, other: History, thisYear: int, y: int, year: int)
    requires y != thisYear && resp(y) == Ok([])
    requires y <= year
    requires forall z :: y <= z ==> other(z) == resp(z)
    ensures Walk(other, thisYear, year) == Walk(resp, thisYear, year)
    ensures Queried(other, thisYear, year) == Queried(resp, thisYear, year)
    decreases year - (thisYear - MAX_YEARS)
  {
    if year > thisYear - MAX_YEARS {
      assert other(year) == resp(year);
      if year > y {
        EarlierYearsIgnored(resp, other, thisYear, y, year - 1);
      }
    }
  }

  /** An empty answer for the current year does not stop the walk: the year before is asked for next. */
  lemma CurrentYearExempt(resp: History, thisYear: int)
    requires resp(thisYear) == Ok([])
    ensures var q := Queried(resp, thisYear, thisYear); |q| >= 2 && q[0] == thisYear && q[1] == thisYear - 1
  {
    QueriedYearsDescend(resp, thisYear, thisYear - 1);
  }

  /** A settlement came from a charge row `rec` of the answer for `year`. */
  ghost predicate SettlementFrom(s: Settlement, year: int, rec: ChargeRecord) {
    && s.id == rec.id
    && s.year == year
    && s.period == rec.period
    && s.title == rec.title
    && s.dueDate == rec.dueDate
    && s.value == -rec.amount
  }

  /** A payment came from a payment row `rec`. */
  ghost predicate PaymentFrom(p: Payment, rec: PaymentRecord) {
    p.date == rec.date && p.value == rec.amount
  }

  lemma {:induction false} YearSettlementsDecoded(year: int, months: seq<Month>, s: Settlement)
    requires s in YearSettlements(year, months)
    ensures exists i, j :: 0 <= i < |months| && 0 <= j < |months[i].charges| && SettlementFrom(s, year, months[i].charges[j])
    decreases |months|
  {
    var n := |months| - 1;
    if s in YearSettlements(year, months[..n]) {
      YearSettlementsDecoded(year, months[..n], s);
      var i, j :| 0 <= i < n && 0 <= j < |months[..n][i].charges| && SettlementFrom(s, year, months[..n][i].charges[j]);
      assert months[..n][i] == months[i];
    } else {
      var j :| 0 <= j < |months[n].charges| && MonthSettlements(year, months[n])[j] == s;
      assert SettlementFrom(s, year, months[n].charges[j]);
    }
  }

  lemma {:induction false} YearPaymentsDecoded(months: seq<Month>, p: Payment)
    requires p in YearPayments(months)
    ensures exists i, j :: 0 <= i < |months| && 0 <= j < |months[i].payments| && PaymentFrom(p, months[i].payments[j])
    decreases |months|
  {
    var n := |months| - 1;
    if p in YearPayments(months[..n]) {
      YearPaymentsDecoded(months[..n], p);
      var i, j :| 0 <= i < n && 0 <= j < |months[..n][i].payments| && PaymentFrom(p, months[..n][i].payments[j]);
      assert months[..n][i] == months[i];
    } else {
      var j :| 0 <= j < |months[n].payments| && MonthPayments(months[n])[j] == p;
      assert PaymentFrom(p, months[n].payments[j]);
    }
  }

  /**
   * Every settlement of a successful walk is a charge row of a year that was
   * asked for: same id, period, title and due date, that year, the amount negated.
   */
  lemma {:induction false} FetchedSettlementsDecoded(resp: History, years: seq<int>, s: Settlement)
    requires forall y :: y in years ==> resp(y).Ok?
    requires s in SettlementsOf(resp, years)
    ensures exists y, i, j ::
      && y in years && resp(y).Ok?
      && 0 <= i < |resp(y).value| && 0 <= j < |resp(y).value[i].charges|
      && SettlementFrom(s, y, resp(y).value[i].charges[j])
    decreases |years|
  {
    var y := years[0];
    assert y in years;
    if s in YearSettlements(y, resp(y).value) {
      YearSettlementsDecoded(y, resp(y).value, s);
    } else {
      assert forall y' :: y' in years[1..] ==> y' in years;
      FetchedSettlementsDecoded(resp, years[1..], s);
      var y', i, j :| y' in years[1..] && resp(y').Ok? && 0 <= i < |resp(y').value| && 0 <= j < |resp(y').value[i].charges| && SettlementFrom(s, y', resp(y').value[i].charges[j]);
      assert y' in years;
    }
  }

  /** Every payment of a successful walk is a payment row of a year that was asked for, its amount as it stands. */
  lemma {:induction false} FetchedPaymentsDecoded(resp: History, years: seq<int>, p: Payment)
    requires forall y :: y in years ==> resp(y).Ok?
    requires p in PaymentsOf(resp, years)
    ensures exists y, i, j ::
      && y in years && resp(y).Ok?
      && 0 <= i < |resp(y).value| && 0 <= j < |resp(y).value[i].payments|
      && PaymentFrom(p, resp(y).value[i].payments[j])
    decreases |years|
  {
    var y := years[0];
    assert y in years;
    if p in YearPayments(resp(y).value) {
      YearPaymentsDecoded(resp(y).value, p);
    } else {
      assert forall y' :: y' in years[1..] ==> y' in years;
      FetchedPaymentsDecoded(resp, years[1..], p);
      var y', i, j :| y' in years[1..] && resp(y').Ok? && 0 <= i < |resp(y').value| && 0 <= j < |resp(y').value[i].payments| && PaymentFrom(p, resp(y').value[i].payments[j]);
      assert y' in years;
    }
  }
}
