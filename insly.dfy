/**
 * insly.py: the customer-policy fetch with its date window and record
 * assembly, the classifier lookup, the customer list, and the module-level
 * queue that throttled requests are put on.
 *
 * The HTTP exchanges are supplied as `HttpAnswer` values; the clock reading
 * `datetime.today()` is supplied as an `Instant`.
 */
module Insly {

  import opened Wrappers
  import opened Py
  import opened Dates

  // =====================================================================
  // The decoded getpolicy response

  /** One element of a policy's `payment` list: its `policy_installment_status`, if the key is there. */
  datatype Payment = Payment(installmentStatus: Option<Value>)

  /**
   * One element of the response's `policy` list.  Keys read with `.get`
   * hold `Null` when absent; `policy_no` is also read with `[...]`, so its
   * absence is kept apart (`None`).  A missing `payment` key fails at the
   * same point as an empty list, and is written as one.
   */
  datatype Policy = Policy(
    dateEnd: Value,
    number: Option<Value>,
    currency: Value,
    paymentSum: Value,
    description: Value,
    insurer: Value,
    productType: Value,
    payments: seq<Payment>)

  /** One element of the response's `address` list; `None` marks a missing key. */
  datatype AddressEntry = AddressEntry(value: Option<Value>, country: Option<Value>, zip: Option<Value>)

  /** The decoded getpolicy response; `None` marks a missing `policy` or `address` key. */
  datatype CustomerData = CustomerData(
    policies: Option<seq<Policy>>,
    addresses: Option<seq<AddressEntry>>,
    name: Value,
    email: Value,
    phone: Value,
    customerType: Value)

  /** `(oid, c_name, c_email, c_phone, c_type)`. */
  datatype CustomerRow = CustomerRow(oid: Value, name: Value, email: Value, phone: Value, customerType: Value)

  /**
   * `(p_title, p_currency, p_summ, p_description, p_date_end, p_number,
   * p_insurer, p_installment_status, p_type)`.
   */
  datatype PolicyRow = PolicyRow(
    title: string,
    currency: Value,
    sum: Value,
    description: Value,
    dateEnd: string,
    number: Value,
    insurer: Value,
    installmentStatus: Value,
    productType: Value)

  /** `(a_value, a_country, a_postal_code)`. */
  datatype AddressRow = AddressRow(value: Value, country: Value, zip: Value)

  /** The triple `customer_info, policy_info, address_info`. */
  datatype Shaped = Shaped(customers: seq<CustomerRow>, policies: seq<PolicyRow>, addresses: seq<AddressRow>)

  /** A decoded getclassifier response: classifier name to code table. */
  type Classifiers = map<string, Value>

  /**
   * Everything one call of `get_customer_policy` receives from outside: the
   * clock, the getpolicy answer and the getclassifier answer (`None` as a
   * body means it is not valid JSON).
   */
  datatype PolicyFetch = PolicyFetch(
    now: Instant,
    answer: HttpAnswer<Option<CustomerData>>,
    classifier: HttpAnswer<Option<Classifiers>>)

  /** What a call returns: the three lists, `None`, or an exception. */
  datatype FetchOutcome = Fetched(shaped: Shaped) | NoResult | Raised(error: Exception)

  /** An element `(oid, counter)` of `retry_buffer`. */
  datatype RetryEntry = RetryEntry(oid: Value, counter: int)

  const HttpOk: int := 200
  const HttpTooManyRequests: int := 429

  // =====================================================================
  // get_classifier_value

  /** `value` is a code the classifier table `field` translates. */
  predicate KnownCode(body: Classifiers, field: string, value: Value) {
    field in body && body[field].Obj? && value.Str? && value.s in body[field].fields
  }

  /**
   * `get_classifier_value(value, field)`: on 200 the body's table `field`
   * (an empty one when absent) maps a known code to its label and returns
   * anything else unchanged; another status gives `None`.  A table that is
   * not an object has no `.get`, and a list or object is not a hashable key.
   */
  function GetClassifierValue(answer: HttpAnswer<Option<Classifiers>>, value: Value, field: string): (r: Result<Value, Exception>)
    ensures answer.Raise? ==> r == Failure(answer.error)
    ensures answer.Response? && answer.status != HttpOk ==> r == Success(Null)
    ensures answer.Response? && answer.status == HttpOk && answer.body.None? ==> r == Failure(ValueErr)
    ensures answer.Response? && answer.status == HttpOk && answer.body.Some? ==>
              var body := answer.body.value;
              && (KnownCode(body, field, value) ==> r == Success(body[field].fields[value.s]))
              && (r.Success? && !KnownCode(body, field, value) ==> r == Success(value))
              && (r.Failure? <==> r == Failure(Other))
              && (r.Failure? <==> (field in body && !body[field].Obj?) || value.Arr? || value.Obj?)
  {
    match answer
    case Raise(e) => Failure(e)
    case Response(status, body) =>
      if status != HttpOk then Success(Null)
      else if body.None? then Failure(ValueErr)
      else
        var table := if field in body.value then body.value[field] else Obj(map[]);
        match table
        case Obj(labels) =>
          (match value
           case Arr(_) => Failure(Other)
           case Obj(_) => Failure(Other)
           case Str(k) => Success(if k in labels then labels[k] else value)
           case _ => Success(value))
        case _ => Failure(Other)
  }

  // =====================================================================
  // get_customer_policy: one policy

  /** `datetime.strptime(v, "%d.%m.%Y")`: a string that does not match is a ValueError, a non-string a TypeError. */
  function ParseEnd(v: Value): (r: Result<Date, Exception>)
    ensures r.Success? ==> v.Str? && ParseDayMonthYear(v.s) == Some(r.value) && r.value.Valid()
    ensures r.Failure? ==> r.error == (if v.Str? then ValueErr else Other)
    ensures v.Str? && ParseDayMonthYear(v.s).None? ==> r == Failure(ValueErr)
  {
    match v
    case Str(s) =>
      (match ParseDayMonthYear(s)
       case Some(d) => Success(d)
       case None => Failure(ValueErr))
    case _ => Failure(Other)
  }

  /** Number of days `future_date` lies after `current_date`. */
  const WindowDays: int := 30

  /** `current_date + timedelta(days=30)` stays below `datetime.max`; otherwise it is an OverflowError. */
  predicate WindowRepresentable(now: Instant) {
    now + WindowDays * MicrosPerDay < MaxOrdinal * MicrosPerDay
  }

  /** `current_date <= exp_date <= future_date`, with `exp_date` at midnight of `d`. */
  predicate InWindow(now: Instant, d: Date)
    requires d.Valid()
  {
    now <= Midnight(d) <= now + WindowDays * MicrosPerDay
  }

  /** `data.get('customer_name') + " " + policy.get('policy_no')`; anything but two strings is a TypeError. */
  function Title(name: Value, number: Option<Value>): (r: Result<string, Exception>)
    ensures r.Success? <==> name.Str? && number.Some? && number.value.Str?
    ensures r.Success? ==> r.value == name.s + " " + number.value.s
    ensures r.Failure? ==> r.error == Other
  {
    if name.Str? && number.Some? && number.value.Str? then Success(name.s + " " + number.value.s)
    else Failure(Other)
  }

  /** `policy.get('policy_no')`. */
  function NumberOrNull(number: Option<Value>): Value {
    if number.Some? then number.value else Null
  }

  /** `policy['payment'][0]['policy_installment_status']`. */
  function FirstInstallmentStatus(payments: seq<Payment>): (r: Result<Value, Exception>)
    ensures r.Success? <==> payments != [] && payments[0].installmentStatus.Some?
    ensures r.Success? ==> r.value == payments[0].installmentStatus.value
    ensures r.Failure? ==> r.error == Other
  {
    if payments == [] then Failure(Other)
    else if payments[0].installmentStatus.None? then Failure(Other)
    else Success(payments[0].installmentStatus.value)
  }

  /** The nine-field tuple of an in-window policy, evaluated left to right. */
  function MakePolicyRow(data: CustomerData, p: Policy, d: Date, cls: HttpAnswer<Option<Classifiers>>): Result<PolicyRow, Exception>
    requires d.Valid()
  {
    match Title(data.name, p.number)
    case Failure(e) => Failure(e)
    case Success(title) =>
      match GetClassifierValue(cls, p.insurer, "insurer")
      case Failure(e) => Failure(e)
      case Success(insurer) =>
        match FirstInstallmentStatus(p.payments)
        case Failure(e) => Failure(e)
        case Success(status) =>
          match GetClassifierValue(cls, p.productType, "product")
          case Failure(e) => Failure(e)
          case Success(productType) =>
            Success(PolicyRow(title, p.currency, p.paymentSum, p.description, IsoDate(d),
                              NumberOrNull(p.number), insurer, status, productType))
  }

  /** `data['address'][0]` and its three keys. */
  function FirstAddress(addresses: seq<AddressEntry>): (r: Result<AddressRow, Exception>)
    ensures r.Success? <==> addresses != [] && addresses[0].value.Some? && addresses[0].country.Some? && addresses[0].zip.Some?
    ensures r.Success? ==> r.value == AddressRow(addresses[0].value.value, addresses[0].country.value, addresses[0].zip.value)
    ensures r.Failure? ==> r.error == Other
  {
    if addresses == [] then Failure(Other)
    else
      var a := addresses[0];
      if a.value.None? || a.country.None? || a.zip.None? then Failure(Other)
      else Success(AddressRow(a.value.value, a.country.value, a.zip.value))
  }

  /** The `if not customer_info_added` block: the address row (if any) and the customer row. */
  function AddCustomer(oid: Value, data: CustomerData, acc: Shaped): Result<Shaped, Exception> {
    var row := CustomerRow(oid, data.name, data.email, data.phone, data.customerType);
    match data.addresses
    case None => Success(acc.(customers := acc.customers + [row]))
    case Some(list) =>
      match FirstAddress(list)
      case Failure(e) => Failure(e)
      case Success(a) => Success(acc.(customers := acc.customers + [row], addresses := acc.addresses + [a]))
  }

  /** One iteration of the loop over `data['policy']`, from the lists built so far. */
  function PolicyStep(oid: Value, data: CustomerData, p: Policy, now: Instant,
                      cls: HttpAnswer<Option<Classifiers>>, acc: Shaped): Result<Shaped, Exception>
  {
    match ParseEnd(p.dateEnd)
    case Failure(e) => Failure(e)
    case Success(d) =>
      if !WindowRepresentable(now) then Failure(Other)
      else if !InWindow(now, d) then
        // the message for a skipped policy reads `policy['policy_no']`
        if p.number.None? then Failure(Other) else Success(acc)
      else
        match (if acc.customers == [] then AddCustomer(oid, data, acc) else Success(acc))
        case Failure(e) => Failure(e)
        case Success(acc1) =>
          match MakePolicyRow(data, p, d, cls)
          case Failure(e) => Failure(e)
          case Success(row) => Success(acc1.(policies := acc1.policies + [row]))
  }

  /** The three lists after the loop has run over `ps`, or the exception that stopped it. */
  function ShapeFrom(oid: Value, data: CustomerData, ps: seq<Policy>, now: Instant,
                     cls: HttpAnswer<Option<Classifiers>>): Result<Shaped, Exception>
    decreases |ps|
  {
    if ps == [] then Success(Shaped([], [], []))
    else
      match ShapeFrom(oid, data, ps[..|ps| - 1], now, cls)
      case Failure(e) => Failure(e)
      case Success(acc) => PolicyStep(oid, data, ps[|ps| - 1], now, cls, acc)
  }

  /** What `get_customer_policy(oid, counter)` returns for the answers in `fetch`. */
  function PolicyOutcome(oid: Value, fetch: PolicyFetch): FetchOutcome {
    match fetch.answer
    case Raise(e) => Raised(e)
    case Response(status, body) =>
      if status != HttpOk then NoResult
      else if body.None? then Raised(ValueErr)
      else if body.value.policies.None? then Fetched(Shaped([], [], []))
      else
        match ShapeFrom(oid, body.value, body.value.policies.value, fetch.now, fetch.classifier)
        case Success(sh) => Fetched(sh)
        case Failure(e) => Raised(e)
  }

  /** What the call appends to `retry_buffer`: its own `(oid, counter)` on a 429. */
  function Enqueued(oid: Value, counter: int, fetch: PolicyFetch): seq<RetryEntry> {
    if fetch.answer.Response? && fetch.answer.status == HttpTooManyRequests then [RetryEntry(oid, counter)] else []
  }

  // =====================================================================
  // Properties of the fetch

  /** A policy that the window keeps. */
  predicate Kept(p: Policy, now: Instant) {
    ParseEnd(p.dateEnd).Success? && InWindow(now, ParseEnd(p.dateEnd).value)
  }

  /** The policies of `ps` that the window keeps, in order. */
  function KeptPolicies(ps: seq<Policy>, now: Instant): (r: seq<Policy>)
    ensures |r| <= |ps|
    ensures forall j | 0 <= j < |r| :: Kept(r[j], now)
  {
    if ps == [] then []
    else KeptPolicies(ps[..|ps| - 1], now) + (if Kept(ps[|ps| - 1], now) then [ps[|ps| - 1]] else [])
  }

  /**
   * The row the loop appends for a kept policy, as a function of that
   * policy and the classifier answer: the insurer and the product type are
   * what `get_classifier_value` makes of the policy's codes.
   */
  predicate RowFor(row: PolicyRow, data: CustomerData, p: Policy, cls: HttpAnswer<Option<Classifiers>>)
  {
    && ParseEnd(p.dateEnd).Success?
    && data.name.Str? && p.number.Some? && p.number.value.Str?
    && row.title == data.name.s + " " + p.number.value.s
    && row.number == p.number.value
    && row.dateEnd == IsoDate(ParseEnd(p.dateEnd).value)
    && p.payments != [] && p.payments[0].installmentStatus == Some(row.installmentStatus)
    && row.currency == p.currency && row.sum == p.paymentSum && row.description == p.description
    && GetClassifierValue(cls, p.insurer, "insurer") == Success(row.insurer)
    && GetClassifierValue(cls, p.productType, "product") == Success(row.productType)
  }

  lemma MakePolicyRowRowFor(data: CustomerData, p: Policy, d: Date, cls: HttpAnswer<Option<Classifiers>>)
    requires ParseEnd(p.dateEnd) == Success(d)
    requires MakePolicyRow(data, p, d, cls).Success?
    ensures RowFor(MakePolicyRow(data, p, d, cls).value, data, p, cls)
  {
  }

  /**
   * After any prefix of the policies: one policy row per kept policy, in
   * order, each built from its policy; at most one customer row, present
   * exactly when some policy was kept; an address row, built from
   * `data['address'][0]`, only with the customer row, and exactly then when
   * the response has an `address` key.
   */
  lemma {:induction false} ShapeInvariant(oid: Value, data: CustomerData, ps: seq<Policy>, now: Instant,
                                          cls: HttpAnswer<Option<Classifiers>>)
    requires ShapeFrom(oid, data, ps, now, cls).Success?
    ensures ShapeMatches(ShapeFrom(oid, data, ps, now, cls).value, oid, data, KeptPolicies(ps, now), cls)
    decreases |ps|
  {
    if ps != [] {
      var init := ps[..|ps| - 1];
      ShapeInvariant(oid, data, init, now, cls);
      StepKeepsShape(oid, data, ps[|ps| - 1], now, cls, ShapeFrom(oid, data, init, now, cls).value, KeptPolicies(init, now));
    }
  }

  /**
   * The lists match the kept policies: one policy row per kept policy, in
   * order, each built from its policy; at most one customer row, present
   * exactly when some policy was kept; an address row, built from
   * `data['address'][0]`, only with the customer row, and exactly then when
   * the response has an `address` key.
   */
  predicate ShapeMatches(sh: Shaped, oid: Value, data: CustomerData, kept: seq<Policy>, cls: HttpAnswer<Option<Classifiers>>) {
    RowsMatch(sh.policies, data, kept, cls) && CustomerOnce(sh, oid, data, kept != [])
  }

  /** One policy row per kept policy, in order, each built from its policy. */
  predicate RowsMatch(rows: seq<PolicyRow>, data: CustomerData, kept: seq<Policy>, cls: HttpAnswer<Option<Classifiers>>) {
    |rows| == |kept| && forall j | 0 <= j < |kept| :: RowFor(rows[j], data, kept[j], cls)
  }

  /**
   * The customer row, present exactly when `added`, and beside it the
   * address row built from `data['address'][0]` exactly when the response
   * has an `address` key.
   */
  predicate CustomerOnce(sh: Shaped, oid: Value, data: CustomerData, added: bool) {
    && (if added then sh.customers == [CustomerRow(oid, data.name, data.email, data.phone, data.customerType)]
        else sh.customers == [])
    && (if added && data.addresses.Some?
        then FirstAddress(data.addresses.value).Success? && sh.addresses == [FirstAddress(data.addresses.value).value]
        else sh.addresses == [])
  }

  lemma RowsAppend(rows: seq<PolicyRow>, data: CustomerData, kept: seq<Policy>, row: PolicyRow, p: Policy,
                    cls: HttpAnswer<Option<Classifiers>>)
    requires RowsMatch(rows, data, kept, cls) && RowFor(row, data, p, cls)
    ensures RowsMatch(rows + [row], data, kept + [p], cls)
  {
  }

  /** One iteration keeps the lists matched to the kept policies. */
  lemma StepKeepsShape(oid: Value, data: CustomerData, p: Policy, now: Instant,
                       cls: HttpAnswer<Option<Classifiers>>, acc: Shaped, kept: seq<Policy>)
    requires ShapeMatches(acc, oid, data, kept, cls)
    requires PolicyStep(oid, data, p, now, cls, acc).Success?
    ensures ShapeMatches(PolicyStep(oid, data, p, now, cls, acc).value, oid, data,
                         kept + (if Kept(p, now) then [p] else []), cls)
  {
    if Kept(p, now) {
      var d := ParseEnd(p.dateEnd).value;
      var acc1 := if acc.customers == [] then AddCustomer(oid, data, acc).value else acc;
      var row := MakePolicyRow(data, p, d, cls).value;
      assert PolicyStep(oid, data, p, now, cls, acc).value == acc1.(policies := acc.policies + [row]);
      assert CustomerOnce(acc1, oid, data, true);
      MakePolicyRowRowFor(data, p, d, cls);
      RowsAppend(acc.policies, data, kept, row, p, cls);
    } else {
      assert kept + [] == kept;
    }
  }

  /** Once one policy has raised, the rest of the loop does not run: the whole fetch raises the same. */
  lemma {:induction false} ShapeFailureSticks(oid: Value, data: CustomerData, ps: seq<Policy>, i: nat, now: Instant,
                                              cls: HttpAnswer<Option<Classifiers>>)
    requires i <= |ps|
    requires ShapeFrom(oid, data, ps[..i], now, cls).Failure?
    ensures ShapeFrom(oid, data, ps, now, cls) == ShapeFrom(oid, data, ps[..i], now, cls)
    decreases |ps| - i
  {
    if i < |ps| {
      assert ps[..i + 1][..i] == ps[..i];
      ShapeFailureSticks(oid, data, ps, i + 1, now, cls);
    } else {
      assert ps[..i] == ps;
    }
  }

  /** One appended policy: the loop's state after `ps[..i + 1]` is one step on that after `ps[..i]`. */
  lemma StepUnfold(oid: Value, data: CustomerData, ps: seq<Policy>, i: nat, now: Instant,
                   cls: HttpAnswer<Option<Classifiers>>, acc: Shaped)
    requires i < |ps|
    requires ShapeFrom(oid, data, ps[..i], now, cls) == Success(acc)
    ensures ShapeFrom(oid, data, ps[..i + 1], now, cls) == PolicyStep(oid, data, ps[i], now, cls, acc)
  {
    assert ps[..i + 1][..i] == ps[..i];
  }

  /** With a readable classifier answer, a policy row fails only with `Other`. */
  lemma MakePolicyRowError(data: CustomerData, p: Policy, d: Date, cls: HttpAnswer<Option<Classifiers>>)
    requires d.Valid()
    requires cls.Response? && (cls.status == HttpOk ==> cls.body.Some?)
    ensures MakePolicyRow(data, p, d, cls).Failure? ==> MakePolicyRow(data, p, d, cls).error == Other
  {
  }

  /** A step raises ValueError only on an end date that does not parse. */
  lemma PolicyStepValueErr(oid: Value, data: CustomerData, p: Policy, now: Instant,
                           cls: HttpAnswer<Option<Classifiers>>, acc: Shaped)
    requires cls.Response? && (cls.status == HttpOk ==> cls.body.Some?)
    requires PolicyStep(oid, data, p, now, cls, acc) == Failure(ValueErr)
    ensures p.dateEnd.Str? && ParseDayMonthYear(p.dateEnd.s).None?
  {
    if ParseEnd(p.dateEnd).Success? {
      MakePolicyRowError(data, p, ParseEnd(p.dateEnd).value, cls);
    }
  }

  /** A ValueError out of the fetch always comes from an end date that does not parse. */
  lemma {:induction false} ShapeValueErrorIsDate(oid: Value, data: CustomerData, ps: seq<Policy>, now: Instant,
                                                 cls: HttpAnswer<Option<Classifiers>>)
    requires ShapeFrom(oid, data, ps, now, cls) == Failure(ValueErr)
    requires cls.Response? && (cls.status == HttpOk ==> cls.body.Some?)
    ensures exists j | 0 <= j < |ps| :: ps[j].dateEnd.Str? && ParseDayMonthYear(ps[j].dateEnd.s).None?
    decreases |ps|
  {
    var init := ps[..|ps| - 1];
    var p := ps[|ps| - 1];
    if ShapeFrom(oid, data, init, now, cls).Failure? {
      ShapeValueErrorIsDate(oid, data, init, now, cls);
      var j :| 0 <= j < |init| && init[j].dateEnd.Str? && ParseDayMonthYear(init[j].dateEnd.s).None?;
      assert ps[j] == init[j];
    } else {
      PolicyStepValueErr(oid, data, p, now, cls, ShapeFrom(oid, data, init, now, cls).value);
    }
  }

  /** Nothing is kept from a response whose policies all end outside the window. */
  lemma NoKeptNoRows(oid: Value, data: CustomerData, ps: seq<Policy>, now: Instant,
                     cls: HttpAnswer<Option<Classifiers>>)
    requires ShapeFrom(oid, data, ps, now, cls).Success?
    requires forall j | 0 <= j < |ps| :: !Kept(ps[j], now)
    ensures ShapeFrom(oid, data, ps, now, cls).value == Shaped([], [], [])
  {
    NoKeptEmpty(ps, now);
    ShapeInvariant(oid, data, ps, now, cls);
  }

  lemma {:induction false} NoKeptEmpty(ps: seq<Policy>, now: Instant)
    requires forall j | 0 <= j < |ps| :: !Kept(ps[j], now)
    ensures KeptPolicies(ps, now) == []
    decreases |ps|
  {
    if ps != [] {
      NoKeptEmpty(ps[..|ps| - 1], now);
    }
  }

  /**
   * The window on whole days: with a non-zero time of day, a policy is kept
   * exactly when it ends after today and at most 30 days from today; one
   * ending today falls before `current_date`.
   */
  lemma WindowByDays(now: Instant, d: Date)
    requires d.Valid()
    requires now % MicrosPerDay != 0
    ensures var today := now / MicrosPerDay + 1;
            InWindow(now, d) <==> today < Ordinal(d) <= today + WindowDays
  {
    var q := now / MicrosPerDay;
    var t := now % MicrosPerDay;
    assert now == q * MicrosPerDay + t;
    var o := Ordinal(d) - 1;
    assert Midnight(d) == o * MicrosPerDay;
    assert now <= Midnight(d) <==> q < o by {
      if q < o {
        assert (q + 1) * MicrosPerDay <= o * MicrosPerDay;
      } else {
        assert o * MicrosPerDay <= q * MicrosPerDay;
      }
    }
    assert Midnight(d) <= now + WindowDays * MicrosPerDay <==> o <= q + WindowDays by {
      if o <= q + WindowDays {
        assert o * MicrosPerDay <= (q + WindowDays) * MicrosPerDay;
      } else {
        assert (q + WindowDays + 1) * MicrosPerDay <= o * MicrosPerDay;
      }
    }
  }

  /** At exactly midnight a policy ending today is kept. */
  lemma WindowAtMidnight(now: Instant, d: Date)
    requires d.Valid()
    requires now % MicrosPerDay == 0
    ensures var today := now / MicrosPerDay + 1;
            InWindow(now, d) <==> today <= Ordinal(d) <= today + WindowDays
  {
    var q := now / MicrosPerDay;
    assert now == q * MicrosPerDay;
    var o := Ordinal(d) - 1;
    assert now <= Midnight(d) <==> q <= o by {
      if q <= o {
        assert q * MicrosPerDay <= o * MicrosPerDay;
      } else {
        assert (o + 1) * MicrosPerDay <= q * MicrosPerDay;
      }
    }
    assert Midnight(d) <= now + WindowDays * MicrosPerDay <==> o <= q + WindowDays by {
      if o <= q + WindowDays {
        assert o * MicrosPerDay <= (q + WindowDays) * MicrosPerDay;
      } else {
        assert (q + WindowDays + 1) * MicrosPerDay <= o * MicrosPerDay;
      }
    }
  }

  /** A kept policy's row carries the same calendar date, now written "%Y-%m-%d". */
  lemma KeptDateRoundTrip(row: PolicyRow, data: CustomerData, p: Policy, cls: HttpAnswer<Option<Classifiers>>)
    requires RowFor(row, data, p, cls)
    ensures ParseIsoDate(row.dateEnd) == ParseDayMonthYear(p.dateEnd.s)
  {
    IsoRoundTrip(ParseEnd(p.dateEnd).value);
  }

  /**
   * The loop over `data['policy']` in `get_customer_policy`: it appends to
   * `customer_info`, `policy_info` and `address_info` and flips
   * `customer_info_added`; the first exception ends it.
   */
  method ShapePolicies(oid: Value, data: CustomerData, ps: seq<Policy>, now: Instant,
                       cls: HttpAnswer<Option<Classifiers>>) returns (r: Result<Shaped, Exception>)
    ensures r == ShapeFrom(oid, data, ps, now, cls)
  {
    var customerInfo: seq<CustomerRow> := [];
    var policyInfo: seq<PolicyRow> := [];
    var addressInfo: seq<AddressRow> := [];
    var customerInfoAdded := false;
    for i := 0 to |ps|
      invariant ShapeFrom(oid, data, ps[..i], now, cls) == Success(Shaped(customerInfo, policyInfo, addressInfo))
      invariant customerInfoAdded == (customerInfo != [])
    {
      var policy := ps[i];
      StepUnfold(oid, data, ps, i, now, cls, Shaped(customerInfo, policyInfo, addressInfo));
      var parsed := ParseEnd(policy.dateEnd);
      if parsed.Failure? {
        ShapeFailureSticks(oid, data, ps, i + 1, now, cls);
        return Failure(parsed.error);
      }
      var expDate := parsed.value;
      if !WindowRepresentable(now) {
        ShapeFailureSticks(oid, data, ps, i + 1, now, cls);
        return Failure(Other);
      }
      if InWindow(now, expDate) {
        if !customerInfoAdded {
          if data.addresses.Some? {
            var address := FirstAddress(data.addresses.value);
            if address.Failure? {
              ShapeFailureSticks(oid, data, ps, i + 1, now, cls);
              return Failure(address.error);
            }
            addressInfo := addressInfo + [address.value];
          }
          customerInfo := customerInfo + [CustomerRow(oid, data.name, data.email, data.phone, data.customerType)];
          customerInfoAdded := true;
        }
        var row := MakePolicyRow(data, policy, expDate, cls);
        if row.Failure? {
          ShapeFailureSticks(oid, data, ps, i + 1, now, cls);
          return Failure(row.error);
        }
        policyInfo := policyInfo + [row.value];
      } else if policy.number.None? {
        ShapeFailureSticks(oid, data, ps, i + 1, now, cls);
        return Failure(Other);
      }
    }
    assert ps[..|ps|] == ps;
    return Success(Shaped(customerInfo, policyInfo, addressInfo));
  }

  // =====================================================================
  // The module state and the fetch as the source writes it

  /** The state `insly.py` keeps at module level. */
  class Client {
    /** `retry_buffer`: the `(oid, counter)` pairs answered with 429, oldest first. */
    var retryBuffer: seq<RetryEntry>

    constructor ()
      ensures retryBuffer == []
    {
      retryBuffer := [];
    }

    /**
     * `get_customer_policy(oid, counter)`: the loop over the policies
     * appends to the three lists step by step; a 429 puts the pair on the
     * retry queue.
     */
    method GetCustomerPolicy(oid: Value, counter: int, fetch: PolicyFetch) returns (outcome: FetchOutcome)
      modifies this
      ensures outcome == PolicyOutcome(oid, fetch)
      ensures retryBuffer == old(retryBuffer) + Enqueued(oid, counter, fetch)
    {
      if fetch.answer.Raise? {
        return Raised(fetch.answer.error);
      }
      var status := fetch.answer.status;
      if status == HttpOk {
        assert retryBuffer + Enqueued(oid, counter, fetch) == retryBuffer;
        if fetch.answer.body.None? {
          return Raised(ValueErr);
        }
        var data := fetch.answer.body.value;
        if data.policies.None? {
          return Fetched(Shaped([], [], []));
        }
        var shaped := ShapePolicies(oid, data, data.policies.value, fetch.now, fetch.classifier);
        if shaped.Failure? {
          return Raised(shaped.error);
        }
        return Fetched(shaped.value);
      } else if status == HttpTooManyRequests {
        retryBuffer := retryBuffer + [RetryEntry(oid, counter)];
        return NoResult;
      } else {
        return NoResult;
      }
    }
  }

  // =====================================================================
  // get_customer_list

  /** `[customer['customer_oid'] for customer in items]`; a non-object element or a missing key raises. */
  function CollectOids(items: seq<Value>): (r: Result<seq<Value>, Exception>)
    ensures r.Success? <==> forall j | 0 <= j < |items| :: items[j].Obj? && "customer_oid" in items[j].fields
    ensures r.Success? ==> |r.value| == |items|
                           && forall j | 0 <= j < |items| :: r.value[j] == items[j].fields["customer_oid"]
    ensures r.Failure? ==> r.error == Other
  {
    if items == [] then Success([])
    else
      match CollectOids(items[..|items| - 1])
      case Failure(e) => Failure(e)
      case Success(init) =>
        var last := items[|items| - 1];
        if last.Obj? && "customer_oid" in last.fields then Success(init + [last.fields["customer_oid"]])
        else Failure(Other)
  }

  /**
   * Iterating `data['customers']`: a list yields its elements, an empty
   * string or object yields nothing, and any other value fails on the
   * first step (a character or a key is not subscriptable by a string, a
   * scalar is not iterable).
   */
  function CustomerOids(customers: Value): (r: Result<seq<Value>, Exception>)
    ensures customers.Arr? ==> r == CollectOids(customers.items)
    ensures !customers.Arr? ==> (r.Success? <==> !Truthy(customers) && (customers.Str? || customers.Obj?))
    ensures r.Success? && customers.Str? ==> r.value == []
    ensures r.Failure? ==> r.error == Other
  {
    match customers
    case Arr(items) => CollectOids(items)
    case Str(s) => if s == "" then Success([]) else Failure(Other)
    case Obj(m) => if m == map[] then Success([]) else Failure(Other)
    case _ => Failure(Other)
  }

  /** `get_customer_list()`: the oids on 200, `None` on any other status. */
  function GetCustomerList(answer: HttpAnswer<Option<map<string, Value>>>): (r: Result<Option<seq<Value>>, Exception>)
    ensures answer.Raise? ==> r == Failure(answer.error)
    ensures answer.Response? && answer.status != HttpOk ==> r == Success(None)
    ensures answer.Response? && answer.status == HttpOk ==>
              (r.Success? ==> r.value.Some?)
              && (answer.body.None? ==> r == Failure(ValueErr))
              && (answer.body.Some? && "customers" !in answer.body.value ==> r == Failure(Other))
    ensures answer.Response? && answer.status == HttpOk && answer.body.Some? && "customers" in answer.body.value
            && answer.body.value["customers"].Arr? ==>
              var items := answer.body.value["customers"].items;
              r.Success? ==> && |r.value.value| == |items|
                             && (forall j | 0 <= j < |items| :: items[j].Obj? && "customer_oid" in items[j].fields)
                             && (forall j | 0 <= j < |items| :: r.value.value[j] == items[j].fields["customer_oid"])
  {
    match answer
    case Raise(e) => Failure(e)
    case Response(status, body) =>
      if status != HttpOk then Success(None)
      else if body.None? then Failure(ValueErr)
      else if "customers" !in body.value then Failure(Other)
      else
        match CustomerOids(body.value["customers"])
        case Failure(e) => Failure(e)
        case Success(oids) => Success(Some(oids))
  }
}
