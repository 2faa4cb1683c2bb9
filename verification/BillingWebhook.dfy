/**
 Stripe's webhook: deliveries that may repeat, arrive again after a failure, or fail half way, recorded
 once each and applied to the agencies' plans.
 */
module BillingWebhook {
  import opened Options

  datatype Plan = Freelancer | AgencyPlan | AgencyPro

  datatype Agency = Agency(
    plan: Plan, customer: Option<string>, subscription: Option<string>, price: Option<string>, status: string,
    periodEnd: Option<int>)

  type Agencies = map<string, Agency>

  datatype Prices = Prices(agency: Option<string>, agencyPro: Option<string>)

  function PlanFromPriceId(price: string, prices: Prices): Plan {
    if prices.agencyPro == Some(price) then AgencyPro
    else if prices.agency == Some(price) then AgencyPlan
    else Freelancer
  }

  datatype Subscription = Subscription(
    id: string, tenant: Option<string>, customer: string, price: Option<string>, status: string, periodEnd: Option<int>)

  datatype Payload =
    | CheckoutCompleted(session: string, tenant: Option<string>, sessionCustomer: Option<string>)
    | SubscriptionChanged(sub: Subscription)
    | SubscriptionDeleted(subscription: string)
    | PaymentFailed(customer: string)
    | PaymentSucceeded(customer: string)
    | Unhandled

  /** Which database statements of one delivery fail: the insert, those before and after the write, the error record. */
  datatype Fault = Fault(insert: bool, before: bool, after: bool, record: bool)

  datatype Delivery = Delivery(id: string, payload: Payload, verified: bool, at: int, fault: Fault)

  datatype BillingEvent = BillingEvent(payload: Payload, tenant: Option<string>, processedAt: Option<int>, failed: bool)

  type Events = map<string, BillingEvent>

  datatype State = State(agencies: Agencies, events: Events)

  datatype Outcome = Acknowledged | Thrown

  // ---------- the agencies table ----------

  /** The unique columns. */
  ghost predicate Unique(agencies: Agencies) {
    forall a, b :: a in agencies && b in agencies && a != b ==> !Collide(agencies[a], agencies[b])
  }

  predicate Collide(a: Agency, b: Agency) {
    (a.customer.Some? && a.customer == b.customer) || (a.subscription.Some? && a.subscription == b.subscription)
  }

  predicate Clash(agencies: Agencies, id: string, row: Agency) {
    exists other :: other in agencies && other != id && Collide(agencies[other], row)
  }

  /** An update of one row: refused when it breaks a unique column. */
  function Write(agencies: Agencies, id: string, row: Agency): (Agencies, bool) {
    if Clash(agencies, id, row) then (agencies, false) else (agencies[id := row], true)
  }

  ghost function ByCustomer(agencies: Agencies, customer: string): (r: Option<string>)
    ensures r.Some? ==> r.value in agencies && agencies[r.value].customer == Some(customer)
    ensures r.None? ==> forall id :: id in agencies ==> agencies[id].customer != Some(customer)
  {
    if exists id :: id in agencies && agencies[id].customer == Some(customer)
    then var id :| id in agencies && agencies[id].customer == Some(customer); Some(id) else None
  }

  ghost function BySubscription(agencies: Agencies, subscription: string): (r: Option<string>)
    ensures r.Some? ==> r.value in agencies && agencies[r.value].subscription == Some(subscription)
    ensures r.None? ==> forall id :: id in agencies ==> agencies[id].subscription != Some(subscription)
  {
    if exists id :: id in agencies && agencies[id].subscription == Some(subscription)
    then var id :| id in agencies && agencies[id].subscription == Some(subscription); Some(id) else None
  }

  lemma OneHolder(agencies: Agencies, id: string)
    requires Unique(agencies) && id in agencies
    ensures forall other :: other in agencies && other != id ==> !Collide(agencies[other], agencies[id])
  {
  }

  // ---------- the five handlers ----------

  predicate Named(tenant: Option<string>) { tenant.Some? && tenant.value != "" }

  function OnCheckoutCompleted(agencies: Agencies, tenant: Option<string>, customer: Option<string>): (Agencies, bool) {
    if !Named(tenant) then (agencies, true)
    else if tenant.value !in agencies then (agencies, false)
    else Write(agencies, tenant.value, agencies[tenant.value].(customer := customer))
  }

  ghost function AgencyOf(agencies: Agencies, sub: Subscription): (r: Option<string>)
    ensures r.Some? ==> r.value in agencies
  {
    if !Named(sub.tenant) then ByCustomer(agencies, sub.customer)
    else if sub.tenant.value in agencies then sub.tenant else None
  }

  function Subscribed(row: Agency, sub: Subscription, prices: Prices): Agency {
    row.(subscription := Some(sub.id), price := if sub.price.Some? then sub.price else row.price, status := sub.status,
         periodEnd := sub.periodEnd,
         plan := if sub.price.Some? && sub.price.value != "" then PlanFromPriceId(sub.price.value, prices) else Freelancer)
  }

  ghost function OnSubscriptionChanged(agencies: Agencies, sub: Subscription, prices: Prices): (Agencies, bool) {
    match AgencyOf(agencies, sub)
    case None => (agencies, true)
    case Some(id) =>
      if sub.periodEnd.None? then (agencies, false) else Write(agencies, id, Subscribed(agencies[id], sub, prices))
  }

  ghost function OnSubscriptionDeleted(agencies: Agencies, subscription: string): (Agencies, bool) {
    match BySubscription(agencies, subscription)
    case None => (agencies, true)
    case Some(id) =>
      Write(agencies, id, agencies[id].(plan := Freelancer, status := "canceled", subscription := None, price := None))
  }

  ghost function OnPaymentFailed(agencies: Agencies, customer: string): (Agencies, bool) {
    match ByCustomer(agencies, customer)
    case None => (agencies, true)
    case Some(id) => Write(agencies, id, agencies[id].(status := "past_due"))
  }

  ghost function OnPaymentSucceeded(agencies: Agencies, customer: string): (Agencies, bool) {
    match ByCustomer(agencies, customer)
    case None => (agencies, true)
    case Some(id) =>
      if agencies[id].status == "past_due" then Write(agencies, id, agencies[id].(status := "active")) else (agencies, true)
  }

  // ---------- what the handlers do to which agency ----------

  predicate CustomerTaken(agencies: Agencies, id: string, customer: Option<string>) {
    customer.Some? && exists other :: other in agencies && other != id && agencies[other].customer == customer
  }

  predicate SubscriptionTaken(agencies: Agencies, id: string, subscription: string) {
    exists other :: other in agencies && other != id && agencies[other].subscription == Some(subscription)
  }

  lemma NoClash(agencies: Agencies, id: string, row: Agency)
    requires Unique(agencies) && id in agencies
    ensures row.subscription == agencies[id].subscription || row.subscription == None ==>
              (Clash(agencies, id, row) <==> row.customer != agencies[id].customer && CustomerTaken(agencies, id, row.customer))
    ensures row.customer == agencies[id].customer ==>
              (Clash(agencies, id, row) <==> row.subscription.Some? && SubscriptionTaken(agencies, id, row.subscription.value))
  {
    OneHolder(agencies, id);
  }

  /** A checkout gives the customer to the named agency and touches nothing else; it fails for an unknown agency and a customer in use. */
  lemma CheckoutMeaning(agencies: Agencies, tenant: Option<string>, customer: Option<string>)
    requires Unique(agencies)
    ensures var (after, ok) := OnCheckoutCompleted(agencies, tenant, customer);
            (ok <==> !Named(tenant) || (tenant.value in agencies && !CustomerTaken(agencies, tenant.value, customer)))
            && after.Keys == agencies.Keys
            && forall id :: id in after ==>
                 after[id] == if ok && Named(tenant) && id == tenant.value then agencies[id].(customer := customer) else agencies[id]
  {
    hide Clash, CustomerTaken;
    if Named(tenant) && tenant.value in agencies {
      NoClash(agencies, tenant.value, agencies[tenant.value].(customer := customer));
      SameCustomerFree(agencies, tenant.value);
    }
  }

  lemma SameCustomerFree(agencies: Agencies, id: string)
    requires Unique(agencies) && id in agencies
    ensures !CustomerTaken(agencies, id, agencies[id].customer)
  {
    OneHolder(agencies, id);
  }

  /** A failed payment puts exactly the customer's agency past due. */
  lemma PaymentFailedMeaning(agencies: Agencies, customer: string)
    requires Unique(agencies)
    ensures var (after, ok) := OnPaymentFailed(agencies, customer);
            ok && after.Keys == agencies.Keys
            && forall id :: id in after ==>
                 after[id] == if agencies[id].customer == Some(customer) then agencies[id].(status := "past_due") else agencies[id]
  {
    hide Clash;
    var r := ByCustomer(agencies, customer);
    if r.Some? {
      NoClash(agencies, r.value, agencies[r.value].(status := "past_due"));
      OneHolder(agencies, r.value);
    }
  }

  /** A payment brings exactly the customer's agency back, and only from past due. */
  lemma PaymentSucceededMeaning(agencies: Agencies, customer: string)
    requires Unique(agencies)
    ensures var (after, ok) := OnPaymentSucceeded(agencies, customer);
            ok && after.Keys == agencies.Keys
            && forall id :: id in after ==>
                 after[id] == if agencies[id].customer == Some(customer) && agencies[id].status == "past_due"
                              then agencies[id].(status := "active") else agencies[id]
  {
    hide Clash;
    var r := ByCustomer(agencies, customer);
    if r.Some? {
      NoClash(agencies, r.value, agencies[r.value].(status := "active"));
      OneHolder(agencies, r.value);
    }
  }

  lemma DeletedMeaning(agencies: Agencies, subscription: string)
    requires Unique(agencies)
    ensures var (after, ok) := OnSubscriptionDeleted(agencies, subscription);
            ok && after.Keys == agencies.Keys
            && forall id :: id in after ==>
                 after[id] == if agencies[id].subscription == Some(subscription)
                              then agencies[id].(plan := Freelancer, status := "canceled", subscription := None, price := None)
                              else agencies[id]
  {
    hide Clash;
    var r := BySubscription(agencies, subscription);
    if r.Some? {
      NoClash(agencies, r.value, agencies[r.value].(plan := Freelancer, status := "canceled", subscription := None, price := None));
      OneHolder(agencies, r.value);
    }
  }

  /** The agency a subscription event is for: the one named in it, else the customer's. */
  predicate IsFor(id: string, row: Agency, sub: Subscription) {
    if sub.tenant == None || sub.tenant == Some("") then row.customer == Some(sub.customer) else sub.tenant == Some(id)
  }

  predicate IsPrice(price: Option<string>, configured: Option<string>) {
    price.Some? && price.value != "" && price == configured
  }

  /** The row a subscription event leaves: its plan is the one its price stands for, the price stays when none is given. */
  predicate FollowsSubscription(row: Agency, before: Agency, sub: Subscription, prices: Prices) {
    row == before.(subscription := Some(sub.id), status := sub.status, periodEnd := sub.periodEnd,
                   price := if sub.price.Some? then sub.price else before.price, plan := row.plan)
    && (row.plan == AgencyPro <==> IsPrice(sub.price, prices.agencyPro))
    && (row.plan == AgencyPlan <==> IsPrice(sub.price, prices.agency) && prices.agency != prices.agencyPro)
  }

  /** A subscription event changes exactly the agency it is for; it fails without a period end and for a subscription in use. */
  lemma ChangedMeaning(agencies: Agencies, sub: Subscription, prices: Prices)
    requires Unique(agencies)
    ensures var (after, ok) := OnSubscriptionChanged(agencies, sub, prices);
            (ok <==> forall id :: id in agencies && IsFor(id, agencies[id], sub) ==>
                       sub.periodEnd.Some? && !SubscriptionTaken(agencies, id, sub.id))
            && after.Keys == agencies.Keys
            && forall id :: id in after ==>
                 if ok && IsFor(id, agencies[id], sub) then FollowsSubscription(after[id], agencies[id], sub, prices)
                 else after[id] == agencies[id]
  {
    hide Clash, SubscriptionTaken;
    var r := AgencyOf(agencies, sub);
    if r.Some? {
      NoClash(agencies, r.value, Subscribed(agencies[r.value], sub, prices));
      OneHolder(agencies, r.value);
    }
  }

  // ---------- payments over time ----------

  datatype Invoice = Invoice(customer: string, paid: bool)

  predicate Concerns(a: Agency, x: Invoice) { a.customer == Some(x.customer) }

  /** The last invoice of the agency's customer. */
  function LastInvoice(a: Agency, invoices: seq<Invoice>): Option<Invoice> {
    if invoices == [] then None
    else if Concerns(a, invoices[|invoices| - 1]) then Some(invoices[|invoices| - 1])
    else LastInvoice(a, invoices[..|invoices| - 1])
  }

  predicate EverUnpaid(a: Agency, invoices: seq<Invoice>) { exists x :: x in invoices && Concerns(a, x) && !x.paid }

  /** Past due after an unpaid last invoice, active after a paid one that followed an unpaid one or past due, else as before. */
  function StatusAfter(a: Agency, invoices: seq<Invoice>): string {
    match LastInvoice(a, invoices)
    case None => a.status
    case Some(x) =>
      if !x.paid then "past_due"
      else if a.status == "past_due" || EverUnpaid(a, invoices) then "active" else a.status
  }

  lemma NoInvoices(a: Agency)
    ensures StatusAfter(a, []) == a.status
  {
  }

  lemma StatusStep(a: Agency, invoices: seq<Invoice>)
    requires invoices != []
    ensures var n := |invoices| - 1; var x := invoices[n]; var status := StatusAfter(a, invoices[..n]);
            StatusAfter(a, invoices) == if !Concerns(a, x) then status
                                        else if !x.paid then "past_due"
                                        else if status == "past_due" then "active" else status
  {
    var n := |invoices| - 1;
    assert invoices == invoices[..n] + [invoices[n]];
    LastConcerns(a, invoices[..n]);
    LastConcerns(a, invoices);
    if y :| y in invoices[..n] && Concerns(a, y) && !y.paid { assert y in invoices; }
  }

  lemma {:induction false} LastConcerns(a: Agency, invoices: seq<Invoice>)
    ensures LastInvoice(a, invoices).Some? ==> LastInvoice(a, invoices).value in invoices && Concerns(a, LastInvoice(a, invoices).value)
    ensures LastInvoice(a, invoices).None? ==> forall x :: x in invoices ==> !Concerns(a, x)
  {
    if invoices != [] {
      LastConcerns(a, invoices[..|invoices| - 1]);
      assert invoices == invoices[..|invoices| - 1] + [invoices[|invoices| - 1]];
    }
  }

  predicate UsesDatabase(p: Payload) { !p.Unhandled? && (p.CheckoutCompleted? ==> Named(p.tenant)) }

  ghost function Handle(agencies: Agencies, p: Payload, prices: Prices): (Agencies, bool) {
    match p
    case CheckoutCompleted(_, tenant, customer) => OnCheckoutCompleted(agencies, tenant, customer)
    case SubscriptionChanged(sub) => OnSubscriptionChanged(agencies, sub, prices)
    case SubscriptionDeleted(subscription) => OnSubscriptionDeleted(agencies, subscription)
    case PaymentFailed(customer) => OnPaymentFailed(agencies, customer)
    case PaymentSucceeded(customer) => OnPaymentSucceeded(agencies, customer)
    case Unhandled => (agencies, true)
  }

  /** The link written after a checkout: to the event whose id equals the session's, not the event's own. */
  function Linked(events: Events, p: Payload): Events {
    if p.CheckoutCompleted? && Named(p.tenant) && p.session in events
    then events[p.session := events[p.session].(tenant := p.tenant)] else events
  }

  /** dispatch, with the statements that fail; false when it throws. */
  ghost function Dispatch(s: State, p: Payload, prices: Prices, fault: Fault): (State, bool) {
    if fault.before && UsesDatabase(p) then (s, false) else
    var (agencies, ok) := Handle(s.agencies, p, prices);
    if !ok || fault.after then (s.(agencies := agencies), false) else (State(agencies, Linked(s.events, p)), true)
  }

  // ---------- handleWebhook ----------

  predicate IsFirst(d: Delivery, seen: set<string>) { d.verified && !d.fault.insert && d.id !in seen }

  ghost function Process(s: State, d: Delivery, prices: Prices): (State, Outcome) {
    var s1 := s.(events := s.events[d.id := BillingEvent(d.payload, None, None, false)]);
    var (s2, ok) := Dispatch(s1, d.payload, prices, d.fault);
    if ok && d.id in s2.events then
      (s2.(events := s2.events[d.id := s2.events[d.id].(processedAt := Some(d.at))]), Acknowledged)
    else if !d.fault.record && d.id in s2.events then
      (s2.(events := s2.events[d.id := s2.events[d.id].(failed := true)]), Thrown)
    else (s2, Thrown)
  }

  ghost function Step(s: State, d: Delivery, prices: Prices): (State, Outcome) {
    if !d.verified then (s, Thrown)
    else if d.fault.insert then (s, Thrown)
    else if d.id in s.events then (s, Acknowledged)
    else Process(s, d, prices)
  }

  ghost function Run(s: State, ds: seq<Delivery>, prices: Prices): State
    decreases |ds|
  {
    if ds == [] then s else Run(Step(s, ds[0], prices).0, ds[1..], prices)
  }

  // ---------- deduplication ----------

  /** Only the first delivery of each event that was recorded; seen are those recorded before. */
  function Firsts(ds: seq<Delivery>, seen: set<string>): seq<Delivery>
    decreases |ds|
  {
    if ds == [] then []
    else if IsFirst(ds[0], seen) then [ds[0]] + Firsts(ds[1..], seen + {ds[0].id})
    else Firsts(ds[1..], seen)
  }

  lemma DispatchKeepsIds(s: State, p: Payload, prices: Prices, fault: Fault)
    ensures Dispatch(s, p, prices, fault).0.events.Keys == s.events.Keys
  {
    hide Handle;
  }

  lemma ProcessRecords(s: State, d: Delivery, prices: Prices)
    ensures Process(s, d, prices).0.events.Keys == s.events.Keys + {d.id}
  {
    hide Dispatch;
    DispatchKeepsIds(s.(events := s.events[d.id := BillingEvent(d.payload, None, None, false)]), d.payload, prices, d.fault);
  }

  /** Deliveries other than the first recorded one of each event change nothing at all. */
  lemma {:induction false} Deduplicated(s: State, ds: seq<Delivery>, prices: Prices)
    ensures Run(s, ds, prices) == Run(s, Firsts(ds, s.events.Keys), prices)
    decreases |ds|
  {
    hide Process;
    if ds != [] {
      var t := Step(s, ds[0], prices).0;
      Deduplicated(t, ds[1..], prices);
      if IsFirst(ds[0], s.events.Keys) {
        ProcessRecords(s, ds[0], prices);
        var rest := Firsts(ds[1..], s.events.Keys + {ds[0].id});
        assert ([ds[0]] + rest)[1..] == rest;
      }
    }
  }

  function CountOf(ds: seq<Delivery>, id: string): nat {
    if ds == [] then 0 else (if ds[0].id == id then 1 else 0) + CountOf(ds[1..], id)
  }

  /** How often the handler of an event is run. */
  ghost function HandlerRuns(s: State, ds: seq<Delivery>, prices: Prices, id: string): nat
    decreases |ds|
  {
    if ds == [] then 0 else
    (if IsFirst(ds[0], s.events.Keys) && ds[0].id == id then 1 else 0)
    + HandlerRuns(Step(s, ds[0], prices).0, ds[1..], prices, id)
  }

  /** At most once, whether it succeeds or fails; and exactly once when some delivery could be recorded. */
  lemma {:induction false} HandledOnce(s: State, ds: seq<Delivery>, prices: Prices, id: string)
    ensures HandlerRuns(s, ds, prices, id) ==
            if id !in s.events && exists d :: d in ds && d.id == id && d.verified && !d.fault.insert then 1 else 0
    decreases |ds|
  {
    hide Process;
    if ds != [] {
      var t := Step(s, ds[0], prices).0;
      if IsFirst(ds[0], s.events.Keys) { ProcessRecords(s, ds[0], prices); }
      HandledOnce(t, ds[1..], prices, id);
      assert ds == [ds[0]] + ds[1..];
      if d :| d in ds && d.id == id && d.verified && !d.fault.insert { assert d == ds[0] || d in ds[1..]; }
    }
  }

  // ---------- failures ----------

  lemma {:induction false} RecordStays(s: State, ds: seq<Delivery>, prices: Prices, id: string)
    requires id in s.events
    ensures id in Run(s, ds, prices).events
    ensures Run(s, ds, prices).events[id].processedAt == s.events[id].processedAt
    ensures Run(s, ds, prices).events[id].failed == s.events[id].failed
    decreases |ds|
  {
    hide Process;
    if ds != [] {
      if IsFirst(ds[0], s.events.Keys) { OtherRecordsStay(s, ds[0], prices, id); }
      RecordStays(Step(s, ds[0], prices).0, ds[1..], prices, id);
    }
  }

  lemma OtherRecordsStay(s: State, d: Delivery, prices: Prices, id: string)
    requires id in s.events && d.id != id
    ensures id in Process(s, d, prices).0.events
    ensures Process(s, d, prices).0.events[id].processedAt == s.events[id].processedAt
    ensures Process(s, d, prices).0.events[id].failed == s.events[id].failed
  {
    hide Handle;
  }

  /** The writes a handler is refused, seen before the call: an unknown agency, a customer or subscription in use, no period end. */
  ghost predicate Refused(agencies: Agencies, p: Payload) {
    match p
    case CheckoutCompleted(_, tenant, customer) =>
      Named(tenant) && (tenant.value !in agencies || CustomerTaken(agencies, tenant.value, customer))
    case SubscriptionChanged(sub) =>
      var id := AgencyOf(agencies, sub);
      id.Some? && (sub.periodEnd.None? || SubscriptionTaken(agencies, id.value, sub.id))
    case _ => false
  }

  ghost predicate Fails(agencies: Agencies, p: Payload, fault: Fault) {
    (fault.before && UsesDatabase(p)) || Refused(agencies, p) || fault.after
  }

  lemma RefusedExactly(agencies: Agencies, p: Payload, prices: Prices)
    requires Unique(agencies)
    ensures Handle(agencies, p, prices).1 <==> !Refused(agencies, p)
  {
    hide Clash, CustomerTaken, SubscriptionTaken, Unique;
    match p
    case CheckoutCompleted(_, tenant, customer) => CheckoutMeaning(agencies, tenant, customer);
    case SubscriptionChanged(sub) =>
      var id := AgencyOf(agencies, sub);
      if id.Some? { NoClash(agencies, id.value, Subscribed(agencies[id.value], sub, prices)); }
    case SubscriptionDeleted(subscription) => DeletedMeaning(agencies, subscription);
    case PaymentFailed(customer) => PaymentFailedMeaning(agencies, customer);
    case PaymentSucceeded(customer) => PaymentSucceededMeaning(agencies, customer);
    case Unhandled =>
  }

  /** A first delivery is answered with an error, and left unprocessed, exactly when it fails in this sense. */
  lemma ThrownExactly(s: State, d: Delivery, prices: Prices)
    requires Unique(s.agencies)
    ensures Process(s, d, prices).1 == Thrown <==> Fails(s.agencies, d.payload, d.fault)
    ensures d.id in Process(s, d, prices).0.events
    ensures Process(s, d, prices).0.events[d.id].processedAt.Some? <==> !Fails(s.agencies, d.payload, d.fault)
  {
    hide Handle, Refused, Unique;
    RefusedExactly(s.agencies, d.payload, prices);
    ProcessRecords(s, d, prices);
    if Process(s, d, prices).1 == Thrown { UnprocessedWhenThrown(s, d, prices); }
  }

  predicate CanRecord(d: Delivery) { d.verified && !d.fault.insert }

  /** Delivery i is the first of the event that could be recorded. */
  ghost predicate FirstAt(ds: seq<Delivery>, i: int, id: string) {
    0 <= i < |ds| && ds[i].id == id && CanRecord(ds[i])
    && forall j :: 0 <= j < i && ds[j].id == id ==> !CanRecord(ds[j])
  }

  lemma {:induction false} RunConcat(s: State, a: seq<Delivery>, b: seq<Delivery>, prices: Prices)
    ensures Run(s, a + b, prices) == Run(Run(s, a, prices), b, prices)
    decreases |a|
  {
    hide Step;
    if a == [] {
      assert a + b == b;
    } else {
      assert (a + b)[1..] == a[1..] + b;
      RunConcat(Step(s, a[0], prices).0, a[1..], b, prices);
    }
  }

  lemma {:induction false} NotRecorded(s: State, ds: seq<Delivery>, prices: Prices, id: string)
    requires id !in s.events && forall d :: d in ds && d.id == id ==> !CanRecord(d)
    ensures id !in Run(s, ds, prices).events
    decreases |ds|
  {
    hide Process;
    if ds != [] {
      assert ds[0] in ds && forall d :: d in ds[1..] ==> d in ds;
      if IsFirst(ds[0], s.events.Keys) { ProcessRecords(s, ds[0], prices); }
      NotRecorded(Step(s, ds[0], prices).0, ds[1..], prices, id);
    }
  }

  /**
   An event is on record exactly when some delivery of it could be recorded, and it is marked processed
   exactly when the first of those met none of the conditions of Fails at the time. Later deliveries of it
   change neither.
   */
  lemma ProcessedExactly(s: State, ds: seq<Delivery>, prices: Prices, id: string, i: nat)
    requires Unique(s.agencies) && id !in s.events && FirstAt(ds, i, id)
    ensures var z := Run(s, ds, prices); var t := Run(s, ds[..i], prices);
            id in z.events && (z.events[id].processedAt.Some? <==> !Fails(t.agencies, ds[i].payload, ds[i].fault))
  {
    hide Unique, Fails, Process;
    var t := Run(s, ds[..i], prices);
    assert ds == ds[..i] + ([ds[i]] + ds[i + 1..]);
    RunConcat(s, ds[..i], [ds[i]] + ds[i + 1..], prices);
    assert ([ds[i]] + ds[i + 1..])[1..] == ds[i + 1..];
    forall d | d in ds[..i] && d.id == id ensures !CanRecord(d) {
      var j :| 0 <= j < i && ds[..i][j] == d;
      assert ds[j] == d;
    }
    NotRecorded(s, ds[..i], prices, id);
    RunUnique(s, ds[..i], prices);
    ThrownExactly(t, ds[i], prices);
    RecordStays(Process(t, ds[i], prices).0, ds[i + 1..], prices, id);
  }

  /**
   A delivery whose handler failed is answered with an error, so Stripe delivers it again; but it is on
   record, so every later delivery is acknowledged without running the handler, and the event is never
   marked processed. Only a failure to record leaves it to a later delivery.
   */
  lemma FailureIsFinal(s: State, d: Delivery, prices: Prices, ds: seq<Delivery>, again: Delivery)
    requires Unique(s.agencies) && IsFirst(d, s.events.Keys) && Fails(s.agencies, d.payload, d.fault)
    requires again.id == d.id && CanRecord(again)
    ensures Step(s, d, prices).1 == Thrown
    ensures var t := Run(Step(s, d, prices).0, ds, prices);
            Step(t, again, prices) == (t, Acknowledged) && t.events[d.id].processedAt == None
  {
    hide Dispatch, Run, Fails, Unique;
    ThrownExactly(s, d, prices);
    RecordStays(Step(s, d, prices).0, ds, prices, d.id);
  }

  lemma UnprocessedWhenThrown(s: State, d: Delivery, prices: Prices)
    requires Process(s, d, prices).1 == Thrown
    ensures d.id in Process(s, d, prices).0.events && Process(s, d, prices).0.events[d.id].processedAt == None
  {
    hide Handle;
  }

  // ---------- the link from an event to its tenant ----------

  /** A checkout for a named agency that goes through, for the session whose id is this event's. */
  ghost predicate LinksNow(s: State, d: Delivery, id: string) {
    IsFirst(d, s.events.Keys) && d.payload.CheckoutCompleted? && Named(d.payload.tenant) && d.payload.session == id
    && (id in s.events || id == d.id) && !Fails(s.agencies, d.payload, d.fault)
  }

  predicate IsLinked(events: Events, id: string) { id in events && events[id].tenant.Some? }

  lemma StepLinks(s: State, d: Delivery, prices: Prices, id: string)
    requires Unique(s.agencies)
    ensures IsLinked(Step(s, d, prices).0.events, id) <==> IsLinked(s.events, id) || LinksNow(s, d, id)
  {
    hide Handle, Refused, Unique;
    RefusedExactly(s.agencies, d.payload, prices);
  }

  ghost predicate LinksAt(s: State, ds: seq<Delivery>, prices: Prices, i: int, id: string) {
    0 <= i < |ds| && LinksNow(Run(s, ds[..i], prices), ds[i], id)
  }

  /** Over every run: an event has a tenant exactly when it had one or some delivery of the run linked it. */
  lemma {:induction false} LinkedExactly(s: State, ds: seq<Delivery>, prices: Prices, id: string)
    requires Unique(s.agencies)
    ensures IsLinked(Run(s, ds, prices).events, id) <==> IsLinked(s.events, id) || exists i :: LinksAt(s, ds, prices, i, id)
    decreases |ds|
  {
    hide Unique, LinksNow, Step, IsLinked, Run;
    if ds == [] {
      NothingDelivered(s, prices);
    } else {
      hide LinksAt;
      var n := |ds| - 1;
      var before := Run(s, ds[..n], prices);
      LinkedExactly(s, ds[..n], prices, id);
      RunUnique(s, ds[..n], prices);
      StepLinks(before, ds[n], prices, id);
      assert ds == ds[..n] + [ds[n]];
      RunConcat(s, ds[..n], [ds[n]], prices);
      OneStep(before, ds[n], prices);
      LinksSplit(s, ds, prices, id);
    }
  }

  lemma LinksSplit(s: State, ds: seq<Delivery>, prices: Prices, id: string)
    requires ds != []
    ensures var n := |ds| - 1;
            (exists i :: LinksAt(s, ds, prices, i, id)) <==>
            (exists i :: LinksAt(s, ds[..n], prices, i, id)) || LinksNow(Run(s, ds[..n], prices), ds[n], id)
  {
    hide LinksNow, Run;
    var n := |ds| - 1;
    if i :| LinksAt(s, ds, prices, i, id) {
      if i < n {
        assert ds[..n][..i] == ds[..i];
        assert LinksAt(s, ds[..n], prices, i, id);
      }
    }
    if i :| LinksAt(s, ds[..n], prices, i, id) {
      assert ds[..n][..i] == ds[..i];
      assert LinksAt(s, ds, prices, i, id);
    }
    if LinksNow(Run(s, ds[..n], prices), ds[n], id) { assert LinksAt(s, ds, prices, n, id); }
  }

  lemma NothingDelivered(s: State, prices: Prices)
    ensures Run(s, [], prices) == s
  {
  }

  /**
   The link is looked up under the session's id. So the event of a checkout stays without a tenant, over
   every run, exactly when no later checkout has a session with this event's id.
   */
  lemma CheckoutStaysUnlinked(s: State, d: Delivery, prices: Prices, ds: seq<Delivery>)
    requires Unique(s.agencies) && IsFirst(d, s.events.Keys) && d.payload.CheckoutCompleted? && d.payload.session != d.id
    ensures var t := Step(s, d, prices).0;
            d.id in Run(t, ds, prices).events &&
            (Run(t, ds, prices).events[d.id].tenant == None <==> !exists i :: LinksAt(t, ds, prices, i, d.id))
  {
    hide Process, Unique, LinksAt, Run;
    var t := Step(s, d, prices).0;
    StepLinks(s, d, prices, d.id);
    ProcessRecords(s, d, prices);
    OneStep(s, d, prices);
    RunUnique(s, [d], prices);
    LinkedExactly(t, ds, prices, d.id);
    RecordStays(t, ds, prices, d.id);
  }

  // ---------- the unique columns over a run ----------

  lemma WriteUnique(agencies: Agencies, id: string, row: Agency)
    requires Unique(agencies)
    ensures Unique(Write(agencies, id, row).0)
  {
    var after := Write(agencies, id, row).0;
    if !Clash(agencies, id, row) {
      forall a, b | a in after && b in after && a != b ensures !Collide(after[a], after[b]) {
        assert a == id ==> !Collide(agencies[b], row);
        assert b == id ==> !Collide(agencies[a], row);
      }
    }
  }

  lemma HandleUnique(agencies: Agencies, p: Payload, prices: Prices)
    requires Unique(agencies)
    ensures Unique(Handle(agencies, p, prices).0)
  {
    hide Unique, Clash;
    forall id: string, row: Agency ensures Unique(Write(agencies, id, row).0) { WriteUnique(agencies, id, row); }
  }

  lemma {:induction false} RunUnique(s: State, ds: seq<Delivery>, prices: Prices)
    requires Unique(s.agencies)
    ensures Unique(Run(s, ds, prices).agencies)
    decreases |ds|
  {
    hide Handle, Unique;
    if ds != [] {
      HandleUnique(s.agencies, ds[0].payload, prices);
      RunUnique(Step(s, ds[0], prices).0, ds[1..], prices);
    }
  }

  /**
   What an agency is after a subscription event that met none of the conditions of Fails: its plan is the
   one its price stands for; after a deletion the entry plan, whatever it was.
   */
  lemma PlanFollowsPrice(s: State, d: Delivery, prices: Prices)
    requires Unique(s.agencies) && IsFirst(d, s.events.Keys) && !Fails(s.agencies, d.payload, d.fault)
    ensures Step(s, d, prices).1 == Acknowledged && Step(s, d, prices).0.agencies.Keys == s.agencies.Keys
    ensures d.payload.SubscriptionChanged? ==> forall id :: id in s.agencies && IsFor(id, s.agencies[id], d.payload.sub) ==>
              FollowsSubscription(Step(s, d, prices).0.agencies[id], s.agencies[id], d.payload.sub, prices)
    ensures d.payload.SubscriptionDeleted? ==>
              BySubscription(Step(s, d, prices).0.agencies, d.payload.subscription).None?
    ensures d.payload.SubscriptionDeleted? ==>
              forall id :: id in s.agencies && s.agencies[id].subscription == Some(d.payload.subscription) ==>
                Step(s, d, prices).0.agencies[id].plan == Freelancer
  {
    hide Refused, Unique, FollowsSubscription, Process, Step;
    DeliveryRows(s, d, prices);
    DeliveryRecords(s, d, prices);
  }

  /** What an event that is applied does to one agency. */
  predicate RowAfter(p: Payload, id: string, before: Agency, after: Agency, prices: Prices) {
    match p
    case CheckoutCompleted(_, tenant, customer) =>
      after == if tenant == Some(id) && id != "" then before.(customer := customer) else before
    case SubscriptionChanged(sub) =>
      if IsFor(id, before, sub) then FollowsSubscription(after, before, sub, prices) else after == before
    case SubscriptionDeleted(subscription) =>
      after == if before.subscription == Some(subscription)
               then before.(plan := Freelancer, status := "canceled", subscription := None, price := None) else before
    case PaymentFailed(customer) =>
      after == if before.customer == Some(customer) then before.(status := "past_due") else before
    case PaymentSucceeded(customer) =>
      after == if before.customer == Some(customer) && before.status == "past_due" then before.(status := "active") else before
    case Unhandled => after == before
  }

  ghost predicate RowsAfter(p: Payload, before: Agencies, after: Agencies, prices: Prices) {
    after.Keys == before.Keys && forall id :: id in after ==> RowAfter(p, id, before[id], after[id], prices)
  }

  lemma HandleRows(agencies: Agencies, p: Payload, prices: Prices)
    requires Unique(agencies)
    ensures if Refused(agencies, p) then Handle(agencies, p, prices).0 == agencies
            else RowsAfter(p, agencies, Handle(agencies, p, prices).0, prices)
  {
    hide Unique, IsFor, FollowsSubscription, OnSubscriptionChanged, OnSubscriptionDeleted, OnCheckoutCompleted,
         OnPaymentFailed, OnPaymentSucceeded, SubscriptionTaken, CustomerTaken, Refused;
    RefusedExactly(agencies, p, prices);
    match p
    case CheckoutCompleted(_, tenant, customer) => CheckoutMeaning(agencies, tenant, customer); SameMap(agencies, Handle(agencies, p, prices).0);
    case SubscriptionChanged(sub) => ChangedMeaning(agencies, sub, prices); SameMap(agencies, Handle(agencies, p, prices).0);
    case SubscriptionDeleted(subscription) => DeletedMeaning(agencies, subscription);
    case PaymentFailed(customer) => PaymentFailedMeaning(agencies, customer);
    case PaymentSucceeded(customer) => PaymentSucceededMeaning(agencies, customer);
    case Unhandled =>
  }

  lemma SameMap(a: Agencies, b: Agencies)
    ensures a.Keys == b.Keys && (forall id :: id in b ==> b[id] == a[id]) ==> b == a
  {
  }

  /** The agencies are written by a delivery: the first on record, past the statements before, and not refused. */
  ghost predicate Writes(agencies: Agencies, p: Payload, fault: Fault) {
    !(fault.before && UsesDatabase(p)) && !Refused(agencies, p)
  }

  lemma DispatchRows(s: State, p: Payload, prices: Prices, fault: Fault)
    requires Unique(s.agencies)
    ensures if Writes(s.agencies, p, fault) then RowsAfter(p, s.agencies, Dispatch(s, p, prices, fault).0.agencies, prices)
            else Dispatch(s, p, prices, fault).0.agencies == s.agencies
    ensures Dispatch(s, p, prices, fault).1 <==> !Fails(s.agencies, p, fault)
  {
    hide Unique, Handle, Refused, RowsAfter;
    HandleRows(s.agencies, p, prices);
    RefusedExactly(s.agencies, p, prices);
  }

  /** Every delivery: which event changes which agency in which way, and that all others change none. */
  lemma DeliveryRows(s: State, d: Delivery, prices: Prices)
    requires Unique(s.agencies)
    ensures if IsFirst(d, s.events.Keys) && Writes(s.agencies, d.payload, d.fault)
            then RowsAfter(d.payload, s.agencies, Step(s, d, prices).0.agencies, prices)
            else Step(s, d, prices).0.agencies == s.agencies
  {
    hide Unique, Dispatch, Writes, RowsAfter;
    DispatchRows(s.(events := s.events[d.id := BillingEvent(d.payload, None, None, false)]), d.payload, prices, d.fault);
  }

  /** And every record: the new one with its outcome, and the link to the tenant wherever one is written. */
  ghost predicate RecordAfter(s: State, d: Delivery, id: string, after: BillingEvent)
    requires id == d.id || id in s.events
  {
    var before := if id == d.id then BillingEvent(d.payload, None, None, false) else s.events[id];
    after.payload == before.payload
    && after.tenant == (if LinksNow(s, d, id) then d.payload.tenant else before.tenant)
    && (if id == d.id
        then after.processedAt == (if Fails(s.agencies, d.payload, d.fault) then None else Some(d.at))
             && (after.failed <==> Fails(s.agencies, d.payload, d.fault) && !d.fault.record)
        else after.processedAt == before.processedAt && after.failed == before.failed)
  }

  lemma DeliveryRecords(s: State, d: Delivery, prices: Prices)
    requires Unique(s.agencies)
    ensures var t := Step(s, d, prices).0;
            if IsFirst(d, s.events.Keys)
            then t.events.Keys == s.events.Keys + {d.id} && forall id :: id in t.events ==> RecordAfter(s, d, id, t.events[id])
            else t.events == s.events
    ensures Step(s, d, prices).1 == Acknowledged <==>
            d.verified && !d.fault.insert && (d.id in s.events || !Fails(s.agencies, d.payload, d.fault))
  {
    hide Unique, Handle, Refused;
    var s1 := s.(events := s.events[d.id := BillingEvent(d.payload, None, None, false)]);
    RefusedExactly(s.agencies, d.payload, prices);
    DispatchKeepsIds(s1, d.payload, prices, d.fault);
  }

  /** An event with nothing to look up is acknowledged whatever fails before a write, and no other event is. */
  lemma FailsBeforeWriting(s: State, d: Delivery, prices: Prices)
    requires Unique(s.agencies) && IsFirst(d, s.events.Keys) && d.fault.before && !d.fault.after
    ensures Step(s, d, prices).1 == Acknowledged <==>
            d.payload.Unhandled? || (d.payload.CheckoutCompleted? && d.payload.tenant in {None, Some("")})
  {
    hide Unique, Process;
    DeliveryRecords(s, d, prices);
  }

  // ---------- payments over runs of deliveries ----------

  /** The invoices of the deliveries that take effect; seen are the events on record before. */
  function InvoicesIn(ds: seq<Delivery>, seen: set<string>): seq<Invoice>
    decreases |ds|
  {
    if ds == [] then []
    else if !IsFirst(ds[0], seen) then InvoicesIn(ds[1..], seen)
    else InvoiceOf(ds[0]) + InvoicesIn(ds[1..], seen + {ds[0].id})
  }

  function InvoiceOf(d: Delivery): seq<Invoice> {
    if d.fault.before then []
    else if d.payload.PaymentFailed? then [Invoice(d.payload.customer, false)]
    else if d.payload.PaymentSucceeded? then [Invoice(d.payload.customer, true)]
    else []
  }

  predicate IsPaymentEvent(d: Delivery) { d.payload.PaymentFailed? || d.payload.PaymentSucceeded? || d.payload.Unhandled? }

  ghost predicate Settled(before: Agencies, after: Agencies, invoices: seq<Invoice>) {
    after.Keys == before.Keys
    && forall id :: id in after ==> after[id] == before[id].(status := StatusAfter(before[id], invoices))
  }

  lemma StatusFront(a: Agency, x: Invoice, rest: seq<Invoice>)
    ensures var status := if !Concerns(a, x) then a.status
                          else if !x.paid then "past_due" else if a.status == "past_due" then "active" else a.status;
            StatusAfter(a, [x] + rest) == StatusAfter(a.(status := status), rest)
    decreases |rest|
  {
    hide StatusAfter;
    var status := if !Concerns(a, x) then a.status
                  else if !x.paid then "past_due" else if a.status == "past_due" then "active" else a.status;
    var b := a.(status := status);
    if rest == [] {
      assert [x] + rest == [x] && [x][..0] == [];
      StatusStep(a, [x]);
      NoInvoices(a);
      NoInvoices(b);
    } else {
      var n := |rest| - 1;
      assert ([x] + rest)[..n + 1] == [x] + rest[..n];
      StatusFront(a, x, rest[..n]);
      StatusStep(a, [x] + rest);
      StatusStep(b, rest);
    }
  }

  lemma OneInvoiceSettles(s: State, d: Delivery, prices: Prices, id: string, rest: seq<Invoice>)
    requires Unique(s.agencies) && IsFirst(d, s.events.Keys) && IsPaymentEvent(d) && id in s.agencies
    ensures var t := Step(s, d, prices).0.agencies;
            t.Keys == s.agencies.Keys && t[id].(status := "") == s.agencies[id].(status := "")
            && StatusAfter(t[id], rest) == StatusAfter(s.agencies[id], InvoiceOf(d) + rest)
  {
    hide Unique, Step, StatusAfter;
    DeliveryRows(s, d, prices);
    if InvoiceOf(d) != [] {
      StatusFront(s.agencies[id], InvoiceOf(d)[0], rest);
      assert InvoiceOf(d) == [InvoiceOf(d)[0]];
    } else {
      assert [] + rest == rest;
    }
  }

  /**
   Over every run of payment deliveries, repeated, failing and unhandled ones among them: an agency keeps
   everything but its status, which the last invoice of its customer to take effect decides, with the
   unpaid ones before it.
   */
  lemma {:induction false} InvoicesSettle(s: State, ds: seq<Delivery>, prices: Prices)
    requires Unique(s.agencies) && forall d :: d in ds ==> IsPaymentEvent(d)
    ensures Settled(s.agencies, Run(s, ds, prices).agencies, InvoicesIn(ds, s.events.Keys))
    decreases |ds|
  {
    hide Unique, StatusAfter, Step, InvoiceOf, IsPaymentEvent;
    if ds == [] {
      forall id | id in s.agencies ensures StatusAfter(s.agencies[id], []) == s.agencies[id].status { NoInvoices(s.agencies[id]); }
    } else {
      var d, t := ds[0], Step(s, ds[0], prices).0;
      assert d in ds && forall x :: x in ds[1..] ==> x in ds;
      OneStep(s, d, prices);
      RunUnique(s, [d], prices);
      InvoicesSettle(t, ds[1..], prices);
      DeliveryIds(s, d, prices);
      if IsFirst(d, s.events.Keys) {
        var rest := InvoicesIn(ds[1..], s.events.Keys + {d.id});
        SameKeys(s, d, prices);
        forall id | id in s.agencies
          ensures StatusAfter(t.agencies[id], rest) == StatusAfter(s.agencies[id], InvoiceOf(d) + rest)
          ensures t.agencies[id].(status := "") == s.agencies[id].(status := "")
        {
          OneInvoiceSettles(s, d, prices, id, rest);
        }
      } else {
        NotFirstNoRows(s, d, prices);
        assert t.events.Keys == s.events.Keys;
      }
    }
  }

  lemma SameKeys(s: State, d: Delivery, prices: Prices)
    requires Unique(s.agencies)
    ensures Step(s, d, prices).0.agencies.Keys == s.agencies.Keys
  {
    hide Unique, Step;
    DeliveryRows(s, d, prices);
  }

  lemma NotFirstNoRows(s: State, d: Delivery, prices: Prices)
    requires Unique(s.agencies) && !IsFirst(d, s.events.Keys)
    ensures Step(s, d, prices).0.agencies == s.agencies
  {
    DeliveryRows(s, d, prices);
  }

  lemma DeliveryIds(s: State, d: Delivery, prices: Prices)
    ensures Step(s, d, prices).0.events.Keys == s.events.Keys + if IsFirst(d, s.events.Keys) then {d.id} else {}
  {
    hide Process;
    ProcessRecords(s, d, prices);
  }

  // ---------- the service ----------

  class WebhookService {
    var agencies: Agencies
    var events: Events
    const prices: Prices

    ghost function Now(): State
      reads this
    {
      State(agencies, events)
    }

    constructor (agencies: Agencies, prices: Prices)
      ensures Now() == State(agencies, map[]) && this.prices == prices
    {
      this.agencies, this.events, this.prices := agencies, map[], prices;
    }

    method FindByCustomer(customer: string) returns (r: Option<string>)
      requires Unique(agencies)
      ensures r == ByCustomer(agencies, customer)
    {
      if id :| id in agencies && agencies[id].customer == Some(customer) {
        OneHolder(agencies, id);
        return Some(id);
      }
      return None;
    }

    method FindBySubscription(subscription: string) returns (r: Option<string>)
      requires Unique(agencies)
      ensures r == BySubscription(agencies, subscription)
    {
      if id :| id in agencies && agencies[id].subscription == Some(subscription) {
        OneHolder(agencies, id);
        return Some(id);
      }
      return None;
    }

    method UpdateAgency(id: string, row: Agency) returns (ok: bool)
      modifies this`agencies
      ensures (agencies, ok) == Write(old(agencies), id, row)
    {
      if other :| other in agencies && other != id && Collide(agencies[other], row) {
        return false;
      }
      agencies := agencies[id := row];
      return true;
    }

    method CheckoutCompletedHandler(tenant: Option<string>, customer: Option<string>) returns (ok: bool)
      requires Unique(agencies)
      modifies this`agencies
      ensures (agencies, ok) == OnCheckoutCompleted(old(agencies), tenant, customer)
      ensures ok <==> !Named(tenant) || (tenant.value in old(agencies) && !CustomerTaken(old(agencies), tenant.value, customer))
      ensures agencies.Keys == old(agencies).Keys
      ensures forall id :: id in agencies ==>
        agencies[id] == if ok && Named(tenant) && id == tenant.value then old(agencies)[id].(customer := customer) else old(agencies)[id]
    {
      CheckoutMeaning(agencies, tenant, customer);
      if !Named(tenant) {
        return true;
      }
      if tenant.value !in agencies {
        return false;
      }
      ok := UpdateAgency(tenant.value, agencies[tenant.value].(customer := customer));
    }

    method SubscriptionChangedHandler(sub: Subscription) returns (ok: bool)
      requires Unique(agencies)
      modifies this`agencies
      ensures (agencies, ok) == OnSubscriptionChanged(old(agencies), sub, prices)
      ensures ok <==> forall id :: id in old(agencies) && IsFor(id, old(agencies)[id], sub) ==>
                        sub.periodEnd.Some? && !SubscriptionTaken(old(agencies), id, sub.id)
      ensures agencies.Keys == old(agencies).Keys
      ensures forall id :: id in agencies ==>
        if ok && IsFor(id, old(agencies)[id], sub) then FollowsSubscription(agencies[id], old(agencies)[id], sub, prices)
        else agencies[id] == old(agencies)[id]
    {
      ChangedMeaning(agencies, sub, prices);
      hide Write, IsFor, FollowsSubscription, SubscriptionTaken;
      var found := None;
      if Named(sub.tenant) {
        if sub.tenant.value in agencies { found := sub.tenant; }
      } else {
        found := FindByCustomer(sub.customer);
      }
      if found.None? {
        return true;
      }
      var plan := Freelancer;
      if sub.price.Some? && sub.price.value != "" {
        plan := PlanFromPriceId(sub.price.value, prices);
      }
      if sub.periodEnd.None? {
        return false;
      }
      var row := agencies[found.value].(subscription := Some(sub.id), status := sub.status, periodEnd := sub.periodEnd, plan := plan);
      if sub.price.Some? {
        row := row.(price := sub.price);
      }
      ok := UpdateAgency(found.value, row);
    }

    method SubscriptionDeletedHandler(subscription: string) returns (ok: bool)
      requires Unique(agencies)
      modifies this`agencies
      ensures (agencies, ok) == OnSubscriptionDeleted(old(agencies), subscription)
      ensures ok && agencies.Keys == old(agencies).Keys
      ensures forall id :: id in agencies ==>
        agencies[id] == if old(agencies)[id].subscription == Some(subscription)
                        then old(agencies)[id].(plan := Freelancer, status := "canceled", subscription := None, price := None)
                        else old(agencies)[id]
    {
      DeletedMeaning(agencies, subscription);
      hide Write;
      var found := FindBySubscription(subscription);
      if found.None? {
        return true;
      }
      var id := found.value;
      ok := UpdateAgency(id, agencies[id].(plan := Freelancer, status := "canceled", subscription := None, price := None));
    }

    method PaymentFailedHandler(customer: string) returns (ok: bool)
      requires Unique(agencies)
      modifies this`agencies
      ensures (agencies, ok) == OnPaymentFailed(old(agencies), customer)
      ensures ok && agencies.Keys == old(agencies).Keys
      ensures forall id :: id in agencies ==>
        agencies[id] == if old(agencies)[id].customer == Some(customer) then old(agencies)[id].(status := "past_due")
                        else old(agencies)[id]
    {
      PaymentFailedMeaning(agencies, customer);
      hide Write;
      var found := FindByCustomer(customer);
      if found.None? {
        return true;
      }
      ok := UpdateAgency(found.value, agencies[found.value].(status := "past_due"));
    }

    method PaymentSucceededHandler(customer: string) returns (ok: bool)
      requires Unique(agencies)
      modifies this`agencies
      ensures (agencies, ok) == OnPaymentSucceeded(old(agencies), customer)
      ensures ok && agencies.Keys == old(agencies).Keys
      ensures forall id :: id in agencies ==>
        agencies[id] == if old(agencies)[id].customer == Some(customer) && old(agencies)[id].status == "past_due"
                        then old(agencies)[id].(status := "active") else old(agencies)[id]
    {
      PaymentSucceededMeaning(agencies, customer);
      hide Write;
      var found := FindByCustomer(customer);
      if found.None? {
        return true;
      }
      if agencies[found.value].status == "past_due" {
        ok := UpdateAgency(found.value, agencies[found.value].(status := "active"));
      } else {
        ok := true;
      }
    }

    method DispatchEvent(p: Payload, fault: Fault) returns (ok: bool)
      requires Unique(agencies)
      modifies this
      ensures (Now(), ok) == Dispatch(old(Now()), p, prices, fault)
      ensures ok <==> !Fails(old(agencies), p, fault)
      ensures if Writes(old(agencies), p, fault) then RowsAfter(p, old(agencies), agencies, prices) else agencies == old(agencies)
    {
      DispatchRows(Now(), p, prices, fault);
      hide OnCheckoutCompleted, OnSubscriptionChanged, OnSubscriptionDeleted, OnPaymentFailed, OnPaymentSucceeded, RowsAfter, Refused;
      if fault.before && UsesDatabase(p) {
        return false;
      }
      match p {
        case CheckoutCompleted(_, tenant, customer) => ok := CheckoutCompletedHandler(tenant, customer);
        case SubscriptionChanged(sub) => ok := SubscriptionChangedHandler(sub);
        case SubscriptionDeleted(subscription) => ok := SubscriptionDeletedHandler(subscription);
        case PaymentFailed(customer) => ok := PaymentFailedHandler(customer);
        case PaymentSucceeded(customer) => ok := PaymentSucceededHandler(customer);
        case Unhandled => ok := true;
      }
      if !ok || fault.after {
        return false;
      }
      if p.CheckoutCompleted? && Named(p.tenant) && p.session in events {
        events := events[p.session := events[p.session].(tenant := p.tenant)];
      }
    }

    method HandleWebhook(d: Delivery) returns (out: Outcome)
      requires Unique(agencies)
      modifies this
      ensures (Now(), out) == Step(old(Now()), d, prices) && Unique(agencies)
      ensures if IsFirst(d, old(events).Keys) && Writes(old(agencies), d.payload, d.fault)
              then RowsAfter(d.payload, old(agencies), agencies, prices) else agencies == old(agencies)
    {
      hide Dispatch, Unique, RowsAfter, Writes;
      DeliveryRows(Now(), d, prices);
      RunUnique(Now(), [d], prices);
      assert Run(Now(), [d], prices) == Step(Now(), d, prices).0 by { OneStep(Now(), d, prices); }
      if !d.verified {
        return Thrown;
      }
      if d.fault.insert {
        return Thrown;
      }
      if d.id in events {
        return Acknowledged;
      }
      events := events[d.id := BillingEvent(d.payload, None, None, false)];
      DispatchKeepsIds(Now(), d.payload, prices, d.fault);
      var ok := DispatchEvent(d.payload, d.fault);
      if ok {
        events := events[d.id := events[d.id].(processedAt := Some(d.at))];
        return Acknowledged;
      }
      if !d.fault.record {
        events := events[d.id := events[d.id].(failed := true)];
      }
      return Thrown;
    }
  }

  lemma OneStep(s: State, d: Delivery, prices: Prices)
    ensures Run(s, [d], prices) == Step(s, d, prices).0
  {
    hide Step;
    assert [d][1..] == [];
    assert Run(Step(s, d, prices).0, [], prices) == Step(s, d, prices).0;
  }
}
