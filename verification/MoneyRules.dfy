// R07, R08, R10 and R18: amounts compared inside one currency, and the foreign invoices that go to
// a person instead of being refused.

module MoneyRules {
  import opened Options
  import opened RuleKit
  import opened EditDistance
  import AccountRules

  /** The last order row with this normalised reference: later rows overwrite earlier ones. */
  function OrderOf(py: Platform, order: string, orders: seq<Order>): Option<Order> {
    if order == "" || orders == [] then None
    else
      var row := orders[|orders| - 1];
      if Key(py, row.purchaseOrder) == order then Some(row)
      else OrderOf(py, order, orders[..|orders| - 1])
  }

  method FindOrder(py: Platform, order: string, orders: seq<Order>) returns (its: Option<Order>)
    ensures its == OrderOf(py, order, orders)
  {
    its := None;
    for i := 0 to |orders|
      invariant its == OrderOf(py, order, orders[..i])
    {
      assert orders[..i + 1][..i] == orders[..i];
      if order != "" && Key(py, orders[i].purchaseOrder) == order {
        its := Some(orders[i]);
      }
    }
    assert orders[..|orders|] == orders;
  }

  ghost predicate IsFor(py: Platform, row: Order, order: string) {
    Key(py, row.purchaseOrder) == order
  }

  /** The row found is the last with this reference, and none is found exactly when there is none. */
  lemma {:induction false} LastOrder(py: Platform, order: string, orders: seq<Order>) returns (k: nat)
    ensures match OrderOf(py, order, orders)
            case None => order == "" || forall j :: 0 <= j < |orders| ==> !IsFor(py, orders[j], order)
            case Some(row) =>
              && order != "" && k < |orders| && orders[k] == row && IsFor(py, row, order)
              && forall j :: k < j < |orders| ==> !IsFor(py, orders[j], order)
  {
    k := 0;
    if order != "" && orders != [] {
      var last := |orders| - 1;
      if IsFor(py, orders[last], order) {
        k := last;
      } else {
        k := LastOrder(py, order, orders[..last]);
        forall j | 0 <= j <= last && (OrderOf(py, order, orders) == None || k < j)
          ensures !IsFor(py, orders[j], order)
        {
          assert j < last ==> orders[..last][j] == orders[j];
        }
      }
    }
  }

  /** The base rate times the amount, in whole cents. */
  function ImpliedVat(base: real, rate: real): real {
    Quantize(base * rate / 100.0)
  }

  /** The total is the amount ordered. */
  function R07(py: Platform, invoice: Invoice, orders: seq<Order>): Verdict {
    var order := Key(py, invoice.purchaseOrder);
    if !InEuros(py, invoice.currency) || order == "" || Empty(invoice.total) then Passes
    else
      match OrderOf(py, order, orders)
      case None => Passes
      case Some(its) =>
        if Empty(its.totalAmount) then Passes
        else Compare(Number(py, invoice.total), Number(py, its.totalAmount))
  }

  /** A rule's last step: raise when an amount cannot be read, fire when they do not match. */
  function Compare(one: Option<real>, other: Option<real>): Verdict {
    if one == None || other == None then Raises
    else if Matches(one.value, other.value) then Passes else Fires
  }

  /** The VAT is the one the printed base and rate imply. */
  function R08(py: Platform, invoice: Invoice): Verdict {
    if !InEuros(py, invoice.currency) then Passes
    else if Empty(invoice.base) || Empty(invoice.vatRate) || Empty(invoice.vatAmount) then Passes
    else
      var base, rate := Number(py, invoice.base), Number(py, invoice.vatRate);
      if base == None || rate == None then Raises
      else Compare(Number(py, invoice.vatAmount), Some(ImpliedVat(base.value, rate.value)))
  }

  /** The invoice adds up, in any currency. */
  function R10(py: Platform, invoice: Invoice): Verdict {
    if Empty(invoice.base) || Empty(invoice.vatAmount) || Empty(invoice.total) then Passes
    else
      var base, vat := Number(py, invoice.base), Number(py, invoice.vatAmount);
      if base == None || vat == None then Raises
      else Compare(Number(py, invoice.total), Some(base.value + vat.value))
  }

  /** The text says something. */
  ghost predicate Says(v: Option<string>) {
    v.Some? && Strip(v.value) != ""
  }

  /** In euros, that is without a currency or with that one. */
  ghost predicate IsEuro(py: Platform, v: Option<string>) {
    Upper(py, Text(v)) == "" || Upper(py, Text(v)) == "EUR"
  }

  ghost predicate FurtherApart(one: real, other: real) {
    Cents(one) - Cents(other) > 1 || Cents(other) - Cents(one) > 1
  }

  /** R07 refuses a euro invoice whose total is not the amount of the order it names, where the table has
      one; it raises where one of the two cannot be read. */
  lemma {:induction false} R07Means(py: Platform, invoice: Invoice, orders: seq<Order>)
    ensures var its := OrderOf(py, Key(py, invoice.purchaseOrder), orders);
            R07(py, invoice, orders) ==
            if !(IsEuro(py, invoice.currency) && Key(py, invoice.purchaseOrder) != "" && Says(invoice.total)) then
              Passes
            else if its == None || !Says(its.value.totalAmount) then Passes
            else
              var total, ordered := Number(py, invoice.total), Number(py, its.value.totalAmount);
              if total == None || ordered == None then Raises
              else if FurtherApart(total.value, ordered.value) then Fires
              else Passes
  {
  }

  /** R08 refuses a euro invoice with base, rate and VAT whose VAT is not the base's share in whole cents. */
  lemma R08Means(py: Platform, invoice: Invoice)
    ensures var base, rate, vat := Number(py, invoice.base), Number(py, invoice.vatRate), Number(py, invoice.vatAmount);
            R08(py, invoice) ==
            if !(IsEuro(py, invoice.currency) && Says(invoice.base) && Says(invoice.vatRate) && Says(invoice.vatAmount))
            then Passes
            else if base == None || rate == None || vat == None then Raises
            else if FurtherApart(vat.value, HalfUp(base.value * rate.value / 100.0 * 100.0) as real / 100.0) then Fires
            else Passes
  {
  }

  /** R10 refuses an invoice, in any currency, whose total is not its base and its VAT together. */
  lemma R10Means(py: Platform, invoice: Invoice)
    ensures var base, vat, total := Number(py, invoice.base), Number(py, invoice.vatAmount), Number(py, invoice.total);
            R10(py, invoice) ==
            if !(Says(invoice.base) && Says(invoice.vatAmount) && Says(invoice.total)) then Passes
            else if base == None || vat == None || total == None then Raises
            else if FurtherApart(total.value, base.value + vat.value) then Fires
            else Passes
  {
  }

  // ----- R18

  predicate BrokenArithmetic(py: Platform, invoice: Invoice) {
    && !Empty(invoice.base) && !Empty(invoice.vatAmount) && !Empty(invoice.total)
    && var base, vat, total := Number(py, invoice.base), Number(py, invoice.vatAmount), Number(py, invoice.total);
    && base.Some? && vat.Some? && total.Some?
    && !Matches(total.value, base.value + vat.value)
  }

  predicate VatDisagrees(py: Platform, invoice: Invoice) {
    && !Empty(invoice.base) && !Empty(invoice.vatRate) && !Empty(invoice.vatAmount)
    && var base, rate, amount := Number(py, invoice.base), Number(py, invoice.vatRate), Number(py, invoice.vatAmount);
    && base.Some? && rate.Some? && amount.Some?
    && !Matches(amount.value, ImpliedVat(base.value, rate.value))
  }

  /** R03 once the approved account is known. */
  lemma {:induction false} R03Compares(py: Platform, invoice: Invoice, suppliers: seq<Supplier>, mine: string,
                                       approved: string)
    requires AccountRules.ApprovedAccount(py, invoice, suppliers) == Some(approved)
    requires mine == Iban(py, invoice.iban)
    ensures AccountRules.R03(py, invoice, suppliers) == Fires <==> mine != approved && Distance(mine, approved) > 4
  {
  }

  /** R18's copy of R03: the same table look-up, and then the loop. */
  method AnotherAccount(py: Platform, invoice: Invoice, suppliers: seq<Supplier>) returns (another: bool)
    ensures another <==> AccountRules.R03(py, invoice, suppliers) == Fires
  {
    var nif := Key(py, invoice.issuerNif);
    if nif == "" || Empty(invoice.iban) {
      return false;
    }
    var theirs := AccountRules.Theirs(py, nif, suppliers);
    if theirs == [] || |AccountRules.Ids(theirs)| > 1 || |AccountRules.Accounts(py, theirs)| > 1 {
      return false;
    }
    var approved := Iban(py, theirs[0].iban);
    var mine := Iban(py, invoice.iban);
    R03Compares(py, invoice, suppliers, mine, approved);
    another := FarFrom(mine, approved);
  }

  /** The same function's second half: the two-row loop written out again. */
  method FarFrom(mine: string, approved: string) returns (far: bool)
    ensures far <==> mine != approved && Distance(mine, approved) > 4
  {
    if mine == approved {
      return false;
    }
    var previous: seq<nat> := seq(|approved| + 1, (j: nat) => j);
    FirstRow(previous, approved);
    assert mine[..0] == "";
    for i := 0 to |mine|
      invariant IsRow(previous, mine[..i], approved, |approved|)
    {
      var current: seq<nat> := [i + 1];
      assert approved[..0] == "";
      for j := 0 to |approved|
        invariant IsRow(current, mine[..i + 1], approved, j)
      {
        ExtendRow(previous, current, mine, approved, i, j);
        current := current
          + [NextCell(previous[j + 1], current[j], previous[j], mine[i] != approved[j])];
      }
      previous := current;
    }
    assert mine[..|mine|] == mine && approved[..|approved|] == approved;
    return previous[|previous| - 1] > 4;
  }

  /** A row that may convert this currency on this day. */
  predicate InForce(py: Platform, row: Rate, currency: string, day: int) {
    && Upper(py, Text(row.currency)) == currency
    && row.asOf.Some? && row.validUntil.Some? && row.asOf.value <= day <= row.validUntil.value
    && Number(py, row.eurPerUnit).Some?
  }

  /** The first row in force: never the nearest one. */
  function PublishedRate(py: Platform, rates: seq<Rate>, currency: string, day: Option<int>): Option<Rate> {
    if day == None || rates == [] then None
    else if InForce(py, rates[0], currency, day.value) then Some(rates[0])
    else PublishedRate(py, rates[1..], currency, day)
  }

  method FindRate(py: Platform, rates: seq<Rate>, currency: string, day: Option<int>) returns (rate: Option<Rate>)
    ensures rate == PublishedRate(py, rates, currency, day)
  {
    if day == None {
      return None;
    }
    for i := 0 to |rates|
      invariant PublishedRate(py, rates, currency, day) == PublishedRate(py, rates[i..], currency, day)
    {
      var row := rates[i];
      if Upper(py, Text(row.currency)) != currency {
        continue;
      }
      if row.asOf == None || row.validUntil == None || !(row.asOf.value <= day.value <= row.validUntil.value) {
        continue;
      }
      if Number(py, row.eurPerUnit) == None {
        continue;
      }
      return Some(row);
    }
    return None;
  }

  /** The percentage of a rate's row; one that cannot be read is none. */
  function Percent(py: Platform, rate: Rate): real {
    match Number(py, rate.tolerancePct) case Some(p) => p case None => 0.0
  }

  /** The total times the euros per unit. */
  function Exact(py: Platform, rate: Rate, total: real): real
    requires Number(py, rate.eurPerUnit).Some?
  {
    total * Number(py, rate.eurPerUnit).value
  }

  /** A total in whole cents of a euro. */
  function Converted(py: Platform, rate: Rate, total: real): real
    requires Number(py, rate.eurPerUnit).Some?
  {
    Quantize(Exact(py, rate, total))
  }

  function Share(converted: real, pct: real): real {
    Abs(converted * pct / 100.0)
  }

  /** Further apart than a cent and than a share of the conversion. */
  predicate Off(converted: real, share: real, expected: real) {
    Abs(converted - expected) > if share > 0.01 then share else 0.01
  }

  /** The converted total is outside the tolerance the rate's row allows. */
  predicate ConversionOff(py: Platform, rate: Rate, total: real, expected: real)
    requires Number(py, rate.eurPerUnit).Some?
  {
    var converted := Converted(py, rate, total);
    Off(converted, Share(converted, Percent(py, rate)), expected)
  }

  lemma QuantizeIsNear(x: real)
    ensures Abs(Quantize(x) - x) <= 0.005
  {
    HalfUpIsNearest(x * 100.0, Cents(x));
  }

  /** The conversion is the total times the euros per unit, to half a cent. */
  lemma ConvertedIsNear(py: Platform, rate: Rate, total: real)
    requires Number(py, rate.eurPerUnit).Some?
    ensures Abs(Converted(py, rate, total) - total * Number(py, rate.eurPerUnit).value) <= 0.005
    ensures Abs(Converted(py, rate, total) - Exact(py, rate, total)) <= 0.005
  {
    QuantizeIsNear(Exact(py, rate, total));
  }

  ghost predicate NearestCents(n: int, exact: real) {
    && Abs(n as real - exact * 100.0) <= 0.5
    && (Abs(n as real - exact * 100.0) == 0.5 ==> Abs(n as real) > Abs(exact * 100.0))
  }

  /** In whole cents, and of two equally near ones the one further from zero. */
  lemma ConvertedIsWhole(py: Platform, rate: Rate, total: real) returns (n: int)
    requires Number(py, rate.eurPerUnit).Some?
    ensures Converted(py, rate, total) == n as real / 100.0 && NearestCents(n, Exact(py, rate, total))
  {
    n := Cents(Exact(py, rate, total));
    CentsAreNearest(Exact(py, rate, total));
  }

  lemma CentsAreNearest(x: real)
    ensures NearestCents(Cents(x), x)
  {
    HalfUpIsNearest(x * 100.0, Cents(x));
  }

  lemma AbsProduct(x: real, y: real)
    ensures Abs(x * y / 100.0) == Abs(x) * Abs(y) / 100.0
  {
    if x < 0.0 && y < 0.0 {
      assert x * y == (-x) * (-y);
    } else if x < 0.0 {
      assert x * y == -((-x) * y);
    } else if y < 0.0 {
      assert x * y == -(x * (-y));
    }
  }

  lemma ShareBetween(share: real, converted: real, exact: real, pct: real)
    requires share == converted * pct / 100.0 && pct >= 0.0
    requires exact - 0.005 <= converted <= exact + 0.005
    ensures (exact - 0.005) * pct / 100.0 <= share <= (exact + 0.005) * pct / 100.0
  {
    var above, below := converted - (exact - 0.005), exact + 0.005 - converted;
    assert above * pct >= 0.0 && below * pct >= 0.0;
    assert above * pct == converted * pct - (exact - 0.005) * pct;
    assert below * pct == (exact + 0.005) * pct - converted * pct;
  }

  /** The least and the most a percentage of the exact conversion can be of the rounded one. */
  function Least(exact: real, pct: real): real {
    (Abs(exact) - 0.005) * Abs(pct) / 100.0
  }

  function Most(exact: real, pct: real): real {
    (Abs(exact) + 0.005) * Abs(pct) / 100.0
  }

  lemma ShareIsNear(converted: real, exact: real, pct: real)
    requires Abs(converted - exact) <= 0.005
    ensures Least(exact, pct) <= Share(converted, pct) <= Most(exact, pct)
  {
    AbsProduct(converted, pct);
    ShareBetween(Share(converted, pct), Abs(converted), Abs(exact), Abs(pct));
  }

  /** Near the order: within a cent or the most the percentage can be, with half a cent for the rounding. */
  predicate IsConverted(exact: real, most: real, expected: real) {
    Abs(exact - expected) <= 0.015 || Abs(exact - expected) <= 0.005 + most
  }

  /** So near the order that rounding cannot part them. */
  predicate IsClose(exact: real, least: real, expected: real) {
    Abs(exact - expected) <= 0.005 || Abs(exact - expected) <= least - 0.005
  }

  lemma RoundedGap(converted: real, share: real, exact: real, least: real, most: real, expected: real)
    requires Abs(converted - exact) <= 0.005 && least <= share <= most
    ensures !Off(converted, share, expected) ==> IsConverted(exact, most, expected)
    ensures IsClose(exact, least, expected) ==> !Off(converted, share, expected)
  {
  }

  /** The percentage printed in the row, and none where that is no number. */
  ghost function Tolerance(py: Platform, rate: Rate): real {
    var printed := py.decimal(Text(rate.tolerancePct));
    if printed == None then 0.0 else printed.value
  }

  /** The total times the row's euros per unit is near the order. */
  ghost predicate ConvertsTo(py: Platform, rate: Rate, total: real, expected: real)
    requires Number(py, rate.eurPerUnit).Some?
  {
    IsConverted(Exact(py, rate, total), Most(Exact(py, rate, total), Tolerance(py, rate)), expected)
  }

  ghost predicate ConvertsClosely(py: Platform, rate: Rate, total: real, expected: real)
    requires Number(py, rate.eurPerUnit).Some?
  {
    IsClose(Exact(py, rate, total), Least(Exact(py, rate, total), Tolerance(py, rate)), expected)
  }

  /** A conversion that is let through is near the order, and one that is nearer still is let through:
      both said of the exact product. */
  lemma ConversionOffMeans(py: Platform, rate: Rate, total: real, expected: real)
    requires Number(py, rate.eurPerUnit).Some?
    ensures !ConversionOff(py, rate, total, expected) ==> ConvertsTo(py, rate, total, expected)
    ensures ConvertsClosely(py, rate, total, expected) ==> !ConversionOff(py, rate, total, expected)
  {
    var exact, pct, converted := Exact(py, rate, total), Percent(py, rate), Converted(py, rate, total);
    ConvertedIsNear(py, rate, total);
    ShareIsNear(converted, exact, pct);
    RoundedGap(converted, Share(converted, pct), exact, Least(exact, pct), Most(exact, pct), expected);
  }

  predicate ThreeLetters(py: Platform, currency: string) {
    |currency| == 3 && forall c :: c in currency ==> py.alpha(c)
  }

  lemma {:induction false} RateIsReadable(py: Platform, rates: seq<Rate>, currency: string, day: Option<int>)
    ensures var rate := PublishedRate(py, rates, currency, day);
            rate.Some? ==> rate.value in rates && day.Some? && InForce(py, rate.value, currency, day.value)
  {
    if rates != [] {
      RateIsReadable(py, rates[1..], currency, day);
    }
  }

  /** The row is the first of this currency whose two dates enclose the day and whose figure can be read;
      none is found exactly when there is none, or no date. */
  lemma {:induction false} FirstInForce(py: Platform, rates: seq<Rate>, currency: string, day: Option<int>)
    returns (k: nat)
    ensures match PublishedRate(py, rates, currency, day)
            case None => day.Some? ==> forall j :: 0 <= j < |rates| ==> !Converts(py, rates[j], currency, day.value)
            case Some(rate) =>
              && k < |rates| && rates[k] == rate && day.Some? && Converts(py, rate, currency, day.value)
              && forall j :: 0 <= j < k ==> !Converts(py, rates[j], currency, day.value)
  {
    k := 0;
    if day.Some? && rates != [] && !InForce(py, rates[0], currency, day.value) {
      var later := FirstInForce(py, rates[1..], currency, day);
      k := later + 1;
    }
  }

  /** The rate's row is of the currency and in force on the day, both ends included, and readable. */
  ghost predicate Converts(py: Platform, row: Rate, currency: string, day: int) {
    && Upper(py, Text(row.currency)) == currency && Number(py, row.eurPerUnit) != None
    && exists from, to :: row.asOf == Some(from) && row.validUntil == Some(to) && from <= day <= to
  }

  /** What R18 asks a person about, once the two refusals have been left to R10 and R03. */
  ghost predicate NeedsAPerson(py: Platform, invoice: Invoice, orders: seq<Order>, rates: seq<Rate>) {
    var currency := Upper(py, Text(invoice.currency));
    var rate := PublishedRate(py, rates, currency, invoice.date);
    var total := Number(py, invoice.total);
    var expected := Expected(py, invoice, orders);
    RateIsReadable(py, rates, currency, invoice.date);
    || VatDisagrees(py, invoice)
    || !ThreeLetters(py, currency)
    || rate == None
    || (total.Some? && expected.Some? && ConversionOff(py, rate.value, total.value, expected.value))
  }

  /** The order's amount; no order reads as no text. */
  function Expected(py: Platform, invoice: Invoice, orders: seq<Order>): Option<real> {
    match OrderOf(py, Key(py, invoice.purchaseOrder), orders)
    case None => Number(py, None)
    case Some(order) => Number(py, order.totalAmount)
  }

  ghost function R18(py: Platform, invoice: Invoice, suppliers: seq<Supplier>, orders: seq<Order>,
                     rates: seq<Rate>): Verdict {
    if InEuros(py, invoice.currency) then Passes
    else if BrokenArithmetic(py, invoice) || AccountRules.R03(py, invoice, suppliers) == Fires then Passes
    else if NeedsAPerson(py, invoice, orders, rates) then Fires
    else Passes
  }

  method EvaluateR18(py: Platform, invoice: Invoice, suppliers: seq<Supplier>, orders: seq<Order>,
                     rates: seq<Rate>) returns (verdict: Verdict)
    ensures verdict == R18(py, invoice, suppliers, orders, rates)
  {
    var currency := Upper(py, Text(invoice.currency));
    if currency in ["", "EUR"] {
      return Passes;
    }
    var another := false;
    if !BrokenArithmetic(py, invoice) {
      another := AnotherAccount(py, invoice, suppliers);
    }
    if BrokenArithmetic(py, invoice) || another {
      return Passes;
    }
    var reasons: seq<string> := [];
    if !ThreeLetters(py, currency) {
      reasons := reasons + ["UNKNOWN_CURRENCY"];
    } else {
      var rate := FindRate(py, rates, currency, invoice.date);
      RateIsReadable(py, rates, currency, invoice.date);
      var order := FindOrder(py, Key(py, invoice.purchaseOrder), orders);
      var total := Number(py, invoice.total);
      var expected := Number(py, match order case None => None case Some(o) => o.totalAmount);
      if rate == None {
        reasons := reasons + ["NO_PUBLISHED_RATE"];
      } else if total.Some? && expected.Some? {
        if ConversionOff(py, rate.value, total.value, expected.value) {
          reasons := reasons + ["CONVERSION_OUTSIDE_TOLERANCE"];
        }
      }
    }
    if VatDisagrees(py, invoice) {
      reasons := reasons + ["VAT"];
    }
    return if reasons != [] then Fires else Passes;
  }

  // ----- the rules never speak over each other

  /** R18's first carve-out is R10, on every invoice. */
  lemma BrokenArithmeticIsR10(py: Platform, invoice: Invoice)
    ensures BrokenArithmetic(py, invoice) <==> R10(py, invoice) == Fires
  {
  }

  /** R18's VAT check is R08's on the same document printed in euros. */
  lemma VatDisagreesIsR08InEuros(py: Platform, invoice: Invoice, euros: Invoice)
    requires InEuros(py, euros.currency) && euros == invoice.(currency := euros.currency)
    ensures VatDisagrees(py, invoice) <==> R08(py, euros) == Fires
  {
  }

  /** A foreign invoice that R18 sends to a person is refused by nobody, and an invoice that R07 or
      R08 refuses is one R18 does not look at. */
  lemma R18IsAloneWhenItFires(py: Platform, invoice: Invoice, suppliers: seq<Supplier>, orders: seq<Order>,
                              rates: seq<Rate>)
    requires R18(py, invoice, suppliers, orders, rates) == Fires
    ensures AccountRules.R03(py, invoice, suppliers) != Fires
    ensures R10(py, invoice) != Fires
    ensures R07(py, invoice, orders) == Passes && R08(py, invoice) == Passes
  {
  }

  /** When R18 fires, in full: a foreign invoice that R10 and R03 leave alone, and of which one of four things
      is true: its VAT is not what R08 would have in euros, its currency is not three letters, no row converts
      it on its day, or the conversion is off. */
  lemma {:induction false} R18FiresIff(py: Platform, invoice: Invoice, euros: Invoice, suppliers: seq<Supplier>,
                                       orders: seq<Order>, rates: seq<Rate>)
    requires InEuros(py, euros.currency) && euros == invoice.(currency := euros.currency)
    ensures R18(py, invoice, suppliers, orders, rates) == Fires <==>
            var currency := Upper(py, Text(invoice.currency));
            && currency != "" && currency != "EUR"
            && R10(py, invoice) != Fires && AccountRules.R03(py, invoice, suppliers) != Fires
            && (|| R08(py, euros) == Fires
                || |currency| != 3 || (exists i :: 0 <= i < |currency| && !py.alpha(currency[i]))
                || NothingConverts(py, rates, currency, invoice.date)
                || (exists rate :: PublishedRate(py, rates, currency, invoice.date) == Some(rate)
                                   && IsOff(py, rate, Number(py, invoice.total), Expected(py, invoice, orders))))
  {
    var currency := Upper(py, Text(invoice.currency));
    BrokenArithmeticIsR10(py, invoice);
    VatDisagreesIsR08InEuros(py, invoice, euros);
    RateIsReadable(py, rates, currency, invoice.date);
    var k := FirstInForce(py, rates, currency, invoice.date);
    assert ThreeLetters(py, currency) <==> |currency| == 3 && forall i :: 0 <= i < |currency| ==> py.alpha(currency[i]);
  }

  ghost predicate NothingConverts(py: Platform, rates: seq<Rate>, currency: string, day: Option<int>) {
    day.Some? ==> forall j :: 0 <= j < |rates| ==> !Converts(py, rates[j], currency, day.value)
  }

  ghost predicate IsOff(py: Platform, rate: Rate, total: Option<real>, expected: Option<real>) {
    Number(py, rate.eurPerUnit).Some? && total.Some? && expected.Some?
    && ConversionOff(py, rate, total.value, expected.value)
  }

  /** A foreign invoice R18 lets through, and R03 and R10 do not refuse, was converted with a rate in
      force on its day and lands near its order. */
  lemma PassingForeignInvoice(py: Platform, invoice: Invoice, suppliers: seq<Supplier>, orders: seq<Order>,
                              rates: seq<Rate>) returns (rate: Rate)
    requires !InEuros(py, invoice.currency)
    requires R18(py, invoice, suppliers, orders, rates) == Passes
    requires AccountRules.R03(py, invoice, suppliers) != Fires && R10(py, invoice) != Fires
    ensures rate in rates && invoice.date.Some?
    ensures Converts(py, rate, Upper(py, Text(invoice.currency)), invoice.date.value)
    ensures Number(py, invoice.total).Some? && Expected(py, invoice, orders).Some? ==>
              ConvertsTo(py, rate, Number(py, invoice.total).value, Expected(py, invoice, orders).value)
  {
    assert !NeedsAPerson(py, invoice, orders, rates) by {
      assert !BrokenArithmetic(py, invoice);
    }
    rate := RateOfPassing(py, invoice, orders, rates);
  }

  lemma RateOfPassing(py: Platform, invoice: Invoice, orders: seq<Order>, rates: seq<Rate>) returns (rate: Rate)
    requires !NeedsAPerson(py, invoice, orders, rates)
    ensures rate in rates && invoice.date.Some?
    ensures Converts(py, rate, Upper(py, Text(invoice.currency)), invoice.date.value)
    ensures Number(py, invoice.total).Some? && Expected(py, invoice, orders).Some? ==>
              ConvertsTo(py, rate, Number(py, invoice.total).value, Expected(py, invoice, orders).value)
  {
    var currency := Upper(py, Text(invoice.currency));
    RateIsReadable(py, rates, currency, invoice.date);
    rate := PublishedRate(py, rates, currency, invoice.date).value;
    var total, expected := Number(py, invoice.total), Expected(py, invoice, orders);
    if total.Some? && expected.Some? {
      ConversionOffMeans(py, rate, total.value, expected.value);
    }
  }

  /** A foreign invoice whose VAT agrees and whose total converts to its order with half a cent to spare
      passes, with the rate the search finds. */
  lemma {:induction false} CloseForeignInvoicePasses(py: Platform, invoice: Invoice, suppliers: seq<Supplier>,
                                                     orders: seq<Order>, rates: seq<Rate>, rate: Rate)
    requires !VatDisagrees(py, invoice) && ThreeLetters(py, Upper(py, Text(invoice.currency)))
    requires PublishedRate(py, rates, Upper(py, Text(invoice.currency)), invoice.date) == Some(rate)
    requires Number(py, rate.eurPerUnit).Some?
    requires Number(py, invoice.total).Some? && Expected(py, invoice, orders).Some?
    requires ConvertsClosely(py, rate, Number(py, invoice.total).value, Expected(py, invoice, orders).value)
    ensures R18(py, invoice, suppliers, orders, rates) == Passes
  {
    ConversionOffMeans(py, rate, Number(py, invoice.total).value, Expected(py, invoice, orders).value);
    assert !NeedsAPerson(py, invoice, orders, rates);
  }

  // ----- how far three passing checks let an order drift

  ghost predicate Complete(py: Platform, invoice: Invoice, orders: seq<Order>) {
    && InEuros(py, invoice.currency)
    && !Empty(invoice.base) && !Empty(invoice.vatRate) && !Empty(invoice.vatAmount) && !Empty(invoice.total)
    && var order := OrderOf(py, Key(py, invoice.purchaseOrder), orders);
    && order.Some? && !Empty(order.value.totalAmount)
  }

  /** How far an order is from the base plus its exact VAT. */
  function Drift(base: real, rate: real, order: real): real {
    Abs(order - base * (1.0 + rate / 100.0))
  }

  predicate PassesAll(base: real, rate: real, vat: real, total: real, order: real) {
    Matches(vat, ImpliedVat(base, rate)) && Matches(total, base + vat) && Matches(total, order)
  }

  lemma PassingVerdicts(py: Platform, invoice: Invoice, orders: seq<Order>)
    requires Complete(py, invoice, orders)
    requires R07(py, invoice, orders) == R08(py, invoice) == R10(py, invoice) == Passes
    ensures Number(py, invoice.base).Some? && Number(py, invoice.vatRate).Some?
    ensures Number(py, invoice.vatAmount).Some? && Number(py, invoice.total).Some?
    ensures Expected(py, invoice, orders).Some?
    ensures PassesAll(Number(py, invoice.base).value, Number(py, invoice.vatRate).value,
                      Number(py, invoice.vatAmount).value, Number(py, invoice.total).value,
                      Expected(py, invoice, orders).value)
  {
  }

  /** R07, R08 and R10 together keep a complete invoice's order within five cents of base plus VAT. */
  lemma PassingInvoiceIsNearItsOrder(py: Platform, invoice: Invoice, orders: seq<Order>)
    requires Complete(py, invoice, orders)
    requires R07(py, invoice, orders) == R08(py, invoice) == R10(py, invoice) == Passes
    ensures Number(py, invoice.base).Some? && Number(py, invoice.vatRate).Some?
    ensures Expected(py, invoice, orders).Some?
    ensures var base, rate := Number(py, invoice.base).value, Number(py, invoice.vatRate).value;
            Drift(base, rate, Expected(py, invoice, orders).value) < 0.05
  {
    PassingVerdicts(py, invoice, orders);
    ThreeChecks(Number(py, invoice.base).value, Number(py, invoice.vatRate).value,
                Number(py, invoice.vatAmount).value, Number(py, invoice.total).value,
                Expected(py, invoice, orders).value);
  }

  lemma ThreeChecks(base: real, rate: real, vat: real, total: real, order: real)
    requires PassesAll(base, rate, vat, total, order)
    ensures Drift(base, rate, order) < 0.05
  {
    var exact := base * rate / 100.0;
    assert base * (1.0 + rate / 100.0) == base + exact;
    MatchesWholeCents(vat, Cents(exact));
    HalfUpIsNearest(exact * 100.0, Cents(exact));
    HalfUpIsNearest(order * 100.0, Cents(order));
    HalfUpIsNearest((base + vat) * 100.0, Cents(base + vat));
  }

  /** Five cents is the least such bound: amounts that pass all three checks come as close to it as
      one likes. */
  lemma FiveCentsIsTight(slack: real) returns (base: real, rate: real, vat: real, total: real, order: real)
    requires 0.0 < slack <= 0.01
    ensures PassesAll(base, rate, vat, total, order)
    ensures 0.05 - slack < Drift(base, rate, order) < 0.05
  {
    var e := slack / 4.0;
    base, vat, total, order := 1.0 + e, 0.025 - e, 1.04, 1.055 - e;
    rate := 0.5 / base;
    assert base * rate == 0.5;
    assert base * rate / 100.0 == 0.005;
    assert base * (1.0 + rate / 100.0) == base + base * rate / 100.0;
    assert ImpliedVat(base, rate) == 0.01;
  }
}
