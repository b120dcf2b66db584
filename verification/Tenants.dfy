/**
 * examples/multitenancy-demo.ts: the order store, partitioned by tenant, and the two handlers.
 *
 * A request arrives with its tenant resolved and its body validated.
 */
module Tenants {
  import opened Common

  type Tenant = string

  datatype Order = Order(id: string, item: string, total: real)

  datatype Request =
    | List(tenant: Tenant)
    | Create(tenant: Tenant, item: string, total: real)

  datatype Response =
    | Listed(tenant: Tenant, orders: seq<Order>)
    | Created(order: Order)

  type Store = map<Tenant, seq<Order>>

  function RowsOf(store: Store, tenant: Tenant): seq<Order> {
    if tenant in store then store[tenant] else []
  }

  // ----- the handlers, as functions of the store -----

  function Digit(n: nat): char
    requires n < 10
  {
    "0123456789"[n]
  }

  /** How a template literal prints a whole number. */
  function Decimal(n: nat): (s: string)
    ensures s != ""
  {
    if n < 10 then [Digit(n)] else Decimal(n / 10) + [Digit(n % 10)]
  }

  function OrderId(k: nat): string { "ord-" + Decimal(k) }

  function NewOrder(store: Store, tenant: Tenant, item: string, total: real): Order {
    Order(OrderId(|RowsOf(store, tenant)| + 1), item, total)
  }

  function After(store: Store, r: Request): Store {
    match r
    case List(t) => store[t := RowsOf(store, t)]
    case Create(t, item, total) => store[t := RowsOf(store, t) + [NewOrder(store, t, item, total)]]
  }

  function Answer(store: Store, r: Request): Response {
    match r
    case List(t) => Listed(t, RowsOf(store, t))
    case Create(t, item, total) => Created(NewOrder(store, t, item, total))
  }

  /** The store after a run, and its responses. */
  function Final(store: Store, rs: seq<Request>): Store
    decreases |rs|
  {
    if rs == [] then store else Final(After(store, rs[0]), rs[1..])
  }

  function Responses(store: Store, rs: seq<Request>): (out: seq<Response>)
    ensures |out| == |rs|
    decreases |rs|
  {
    if rs == [] then [] else [Answer(store, rs[0])] + Responses(After(store, rs[0]), rs[1..])
  }

  // ----- tenants do not see each other -----

  /** The requests of one tenant. */
  function Only(t: Tenant, rs: seq<Request>): seq<Request> {
    if rs == [] then []
    else (if rs[0].tenant == t then [rs[0]] else []) + Only(t, rs[1..])
  }

  /** The responses to the requests of one tenant. */
  function SeenBy(t: Tenant, rs: seq<Request>, out: seq<Response>): seq<Response>
    requires |out| == |rs|
  {
    if rs == [] then []
    else (if rs[0].tenant == t then [out[0]] else []) + SeenBy(t, rs[1..], out[1..])
  }

  lemma {:induction false} TenantsAreIsolated(t: Tenant, rs: seq<Request>, store: Store, alone: Store)
    requires RowsOf(store, t) == RowsOf(alone, t)
    ensures SeenBy(t, rs, Responses(store, rs)) == Responses(alone, Only(t, rs))
    ensures RowsOf(Final(store, rs), t) == RowsOf(Final(alone, Only(t, rs)), t)
    decreases |rs|
  {
    if rs != [] {
      var r := rs[0];
      var store' := After(store, r);
      assert Responses(store, rs)[1..] == Responses(store', rs[1..]);
      if r.tenant == t {
        assert RowsOf(store', t) == RowsOf(After(alone, r), t) && Answer(store, r) == Answer(alone, r);
        assert Only(t, rs)[1..] == Only(t, rs[1..]);
        TenantsAreIsolated(t, rs[1..], store', After(alone, r));
      } else {
        assert RowsOf(store', t) == RowsOf(store, t);
        assert [] + Only(t, rs[1..]) == Only(t, rs[1..]);
        TenantsAreIsolated(t, rs[1..], store', alone);
      }
    }
  }

  /** In any interleaving a tenant gets the responses it would get if it were alone. */
  lemma EachTenantIsAlone(t: Tenant, rs: seq<Request>)
    ensures SeenBy(t, rs, Responses(map[], rs)) == Responses(map[], Only(t, rs))
  {
    TenantsAreIsolated(t, rs, map[], map[]);
  }

  // ----- nothing is lost, and ids do not repeat -----

  lemma {:induction false} OrdersAreKept(t: Tenant, rs: seq<Request>, store: Store)
    ensures RowsOf(store, t) <= RowsOf(Final(store, rs), t)
    decreases |rs|
  {
    if rs != [] {
      OrdersAreKept(t, rs[1..], After(store, rs[0]));
    }
  }

  /** The k-th order of a tenant, counted from 1, is `ord-k`. */
  predicate Numbered(rows: seq<Order>) {
    forall k :: 0 <= k < |rows| ==> rows[k].id == OrderId(k + 1)
  }

  lemma {:induction false} RunsNumberOrders(t: Tenant, rs: seq<Request>, store: Store)
    requires Numbered(RowsOf(store, t))
    ensures Numbered(RowsOf(Final(store, rs), t))
    decreases |rs|
  {
    if rs != [] {
      RunsNumberOrders(t, rs[1..], After(store, rs[0]));
    }
  }

  lemma DigitInjective(a: nat, b: nat)
    requires a < 10 && b < 10 && Digit(a) == Digit(b)
    ensures a == b
  {
  }

  lemma {:induction false} DecimalInjective(a: nat, b: nat)
    requires Decimal(a) == Decimal(b)
    ensures a == b
    decreases a
  {
    var s := Decimal(a);
    var last := |s| - 1;
    assert (last == 0 <==> a < 10) && (last == 0 <==> b < 10);
    assert s[last] == Digit(a % 10) && s[last] == Digit(b % 10);
    DigitInjective(a % 10, b % 10);
    if a >= 10 {
      assert s[..last] == Decimal(a / 10) && s[..last] == Decimal(b / 10);
      DecimalInjective(a / 10, b / 10);
    }
  }

  lemma IdsNeverRepeat(t: Tenant, rs: seq<Request>)
    ensures forall i, j :: 0 <= i < j < |RowsOf(Final(map[], rs), t)| ==>
      RowsOf(Final(map[], rs), t)[i].id != RowsOf(Final(map[], rs), t)[j].id
  {
    var rows := RowsOf(Final(map[], rs), t);
    RunsNumberOrders(t, rs, map[]);
    forall i, j | 0 <= i < j < |rows| ensures rows[i].id != rows[j].id {
      if rows[i].id == rows[j].id {
        assert Decimal(i + 1) == OrderId(i + 1)[4..] && Decimal(j + 1) == OrderId(j + 1)[4..];
        DecimalInjective(i + 1, j + 1);
      }
    }
  }

  // ----- a listing is what the tenant created so far -----

  /** The orders handed back by the responses to a tenant's create requests. */
  function CreatedFor(t: Tenant, rs: seq<Request>, out: seq<Response>): seq<Order>
    requires |out| == |rs|
  {
    if rs == [] then []
    else (if rs[0].tenant == t && out[0].Created? then [out[0].order] else []) + CreatedFor(t, rs[1..], out[1..])
  }

  lemma {:induction false} RowsAreCreated(t: Tenant, rs: seq<Request>, store: Store)
    ensures RowsOf(Final(store, rs), t) == RowsOf(store, t) + CreatedFor(t, rs, Responses(store, rs))
    decreases |rs|
  {
    if rs == [] {
      assert RowsOf(store, t) + [] == RowsOf(store, t);
    } else {
      var store' := After(store, rs[0]);
      var out := Responses(store, rs);
      assert out[1..] == Responses(store', rs[1..]);
      RowsAreCreated(t, rs[1..], store');
      Regroup(RowsOf(store, t),
              if rs[0].tenant == t && out[0].Created? then [out[0].order] else [],
              CreatedFor(t, rs[1..], out[1..]));
      if !(rs[0].tenant == t && out[0].Created?) { assert RowsOf(store, t) + [] == RowsOf(store', t); }
    }
  }

  /** After any run a listing returns exactly the orders created for the tenant, in order. */
  lemma ListingIsComplete(t: Tenant, rs: seq<Request>)
    ensures Answer(Final(map[], rs), List(t)) == Listed(t, CreatedFor(t, rs, Responses(map[], rs)))
  {
    RowsAreCreated(t, rs, map[]);
    assert [] + CreatedFor(t, rs, Responses(map[], rs)) == CreatedFor(t, rs, Responses(map[], rs));
  }

  // ----- the store, read off the requests -----

  /** The orders that tenant `t` asks for, in order. */
  function Asked(t: Tenant, rs: seq<Request>): seq<(string, real)> {
    if rs == [] then []
    else
      var n := |rs| - 1;
      Asked(t, rs[..n]) + (if rs[n].Create? && rs[n].tenant == t then [(rs[n].item, rs[n].total)] else [])
  }

  /** The k-th order asked for has the id `ord-k`, and the item and total asked for. */
  predicate AsAsked(rows: seq<Order>, asked: seq<(string, real)>) {
    |rows| == |asked|
    && forall k :: 0 <= k < |rows| ==> rows[k] == Order("ord-" + Decimal(k + 1), asked[k].0, asked[k].1)
  }

  lemma {:induction false} FinalSnoc(store: Store, rs: seq<Request>)
    requires rs != []
    ensures Final(store, rs) == After(Final(store, rs[..|rs| - 1]), rs[|rs| - 1])
    decreases |rs|
  {
    var n := |rs| - 1;
    if n > 0 {
      FinalSnoc(After(store, rs[0]), rs[1..]);
      assert rs[1..][..n - 1] == rs[..n][1..];
    }
  }

  /** After any run a tenant's rows are the orders it asked for, a listing gives those, and a new order is next. */
  lemma {:induction false} RowsAreAsked(t: Tenant, rs: seq<Request>)
    ensures AsAsked(RowsOf(Final(map[], rs), t), Asked(t, rs))
    ensures Answer(Final(map[], rs), List(t)) == Listed(t, RowsOf(Final(map[], rs), t))
    ensures forall item, total ::
      Answer(Final(map[], rs), Create(t, item, total)) ==
      Created(Order("ord-" + Decimal(|Asked(t, rs)| + 1), item, total))
    decreases |rs|
  {
    if rs != [] {
      RowsAreAsked(t, rs[..|rs| - 1]);
      FinalSnoc(map[], rs);
    }
  }

  /** What a decimal numeral stands for. */
  function Numeral(s: string): int {
    if s == "" then 0 else Numeral(s[..|s| - 1]) * 10 + (s[|s| - 1] as int - '0' as int)
  }

  /** `Decimal` prints the number in digits, without a leading zero. */
  lemma {:induction false} DecimalReadsBack(n: nat)
    ensures Numeral(Decimal(n)) == n && (forall c :: c in Decimal(n) ==> '0' <= c <= '9')
    ensures n > 0 ==> Decimal(n)[0] != '0'
  {
    if n < 10 {
      assert Decimal(n)[..0] == "";
      assert Numeral("") == 0;
    } else {
      DecimalReadsBack(n / 10);
      assert Decimal(n)[..|Decimal(n)| - 1] == Decimal(n / 10);
    }
  }

  // ----- the store in place -----

  /** A JavaScript array of orders: one object, shared by everyone who holds it. */
  class Rows {
    var items: seq<Order>

    constructor ()
      ensures items == []
    {
      items := [];
    }

    method Push(order: Order)
      modifies this
      ensures items == old(items) + [order]
    {
      items := items + [order];
    }
  }

  class OrderStore {
    var ordersByTenant: map<Tenant, Rows>

    /** No two tenants share an array. */
    ghost predicate Valid()
      reads this
    {
      forall t, u :: t in ordersByTenant && u in ordersByTenant && t != u ==> ordersByTenant[t] != ordersByTenant[u]
    }

    ghost function AllRows(): set<Rows>
      reads this
    {
      set t | t in ordersByTenant :: ordersByTenant[t]
    }

    ghost function State(): Store
      reads this, AllRows()
    {
      map t | t in ordersByTenant :: ordersByTenant[t].items
    }

    constructor ()
      ensures Valid() && State() == map[]
    {
      ordersByTenant := map[];
    }

    /** `ordersFor` (lines 56-60): the tenant's array, made and stored on first use. */
    method OrdersFor(tenant: Tenant) returns (rows: Rows)
      requires Valid()
      modifies this
      ensures Valid() && ordersByTenant == old(ordersByTenant)[tenant := rows]
      ensures rows in old(AllRows()) || fresh(rows)
      ensures rows.items == RowsOf(old(State()), tenant)
      ensures State() == old(State())[tenant := RowsOf(old(State()), tenant)]
    {
      if tenant in ordersByTenant {
        rows := ordersByTenant[tenant];
      } else {
        rows := new Rows();
        ordersByTenant := ordersByTenant[tenant := rows];
      }
    }

    /** `GET /orders` (lines 90-93): the answer is the array itself, not a copy. */
    method ListOrders(tenant: Tenant) returns (orders: Rows)
      requires Valid()
      modifies this
      ensures Valid() && State() == After(old(State()), List(tenant))
      ensures Listed(tenant, orders.items) == Answer(old(State()), List(tenant))
    {
      orders := OrdersFor(tenant);
    }

    /** Pushing onto one tenant's array changes that tenant's rows only. */
    method PushTo(tenant: Tenant, rows: Rows, order: Order)
      requires Valid() && tenant in ordersByTenant && ordersByTenant[tenant] == rows
      modifies rows
      ensures Valid() && State() == old(State())[tenant := old(rows.items) + [order]]
    {
      rows.Push(order);
      assert forall t :: t in ordersByTenant && t != tenant ==> ordersByTenant[t] != rows;
    }

    /** `ordersFor(tenant).push(order)` (line 116). */
    method Add(tenant: Tenant, order: Order)
      requires Valid()
      modifies this, AllRows()
      ensures Valid() && State() == old(State())[tenant := RowsOf(old(State()), tenant) + [order]]
    {
      var rows := OrdersFor(tenant);
      PushTo(tenant, rows, order);
    }

    /** `POST /orders` (lines 109-118). */
    method CreateOrder(tenant: Tenant, item: string, total: real) returns (order: Order)
      requires Valid()
      modifies this, AllRows()
      ensures Valid() && State() == After(old(State()), Create(tenant, item, total))
      ensures Created(order) == Answer(old(State()), Create(tenant, item, total))
    {
      var rows := OrdersFor(tenant);
      order := Order(OrderId(|rows.items| + 1), item, total);
      Add(tenant, order);
    }
  }
}
