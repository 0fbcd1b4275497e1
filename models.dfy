/**
 * The four tables of the relational store and the repository operations over
 * them (models.py). Rows are records; a table is a sequence of rows; the store
 * is an object whose tables the writing operations replace.
 */
module Models {
  import opened Wrappers
  import opened Ordering

  /** A row of `colleagues`. `password` is NULL when none was given. */
  datatype Colleague = Colleague(colleagueId: int, name: string, isAdmin: bool, password: Option<string>)

  /** A row of `sandwiches`; `price` is in cents. */
  datatype Sandwich = Sandwich(sandwichId: int, sandwichName: string, price: int, isAvailable: bool)

  /** A row of `orders`. */
  datatype Order = Order(orderId: int, colleagueId: int)

  /** A row of `order_items`. */
  datatype OrderItem = OrderItem(orderId: int, sandwichId: int, quantity: int)

  function ColleagueIds(cs: seq<Colleague>): set<int> {
    set c | c in cs :: c.colleagueId
  }

  function ColleagueNames(cs: seq<Colleague>): set<string> {
    set c | c in cs :: c.name
  }

  function SandwichIds(ss: seq<Sandwich>): set<int> {
    set s | s in ss :: s.sandwichId
  }

  function SandwichNames(ss: seq<Sandwich>): set<string> {
    set s | s in ss :: s.sandwichName
  }

  function OrderIds(os: seq<Order>): set<int> {
    set o | o in os :: o.orderId
  }

  /** Ids drawn from a SERIAL sequence: positive, below the next value, never repeated; names UNIQUE. */
  ghost predicate ColleaguesValid(cs: seq<Colleague>, next: int) {
    && (forall i :: 0 <= i < |cs| ==> 0 < cs[i].colleagueId < next)
    && (forall i, j :: 0 <= i < j < |cs| ==> cs[i].colleagueId != cs[j].colleagueId && cs[i].name != cs[j].name)
  }

  ghost predicate SandwichesValid(ss: seq<Sandwich>, next: int) {
    && (forall i :: 0 <= i < |ss| ==> 0 < ss[i].sandwichId < next)
    && (forall i, j :: 0 <= i < j < |ss| ==> ss[i].sandwichId != ss[j].sandwichId && ss[i].sandwichName != ss[j].sandwichName)
  }

  /** Order ids are SERIAL and every order belongs to an existing colleague. */
  ghost predicate OrdersValid(os: seq<Order>, next: int, cs: seq<Colleague>) {
    && (forall i :: 0 <= i < |os| ==> 0 < os[i].orderId < next && os[i].colleagueId in ColleagueIds(cs))
    && (forall i, j :: 0 <= i < j < |os| ==> os[i].orderId != os[j].orderId)
  }

  /** Every order item references an existing order and an existing sandwich. */
  ghost predicate ItemsValid(items: seq<OrderItem>, os: seq<Order>, ss: seq<Sandwich>) {
    forall it :: it in items ==> it.orderId in OrderIds(os) && it.sandwichId in SandwichIds(ss)
  }

  /**
   * Whether the database driver passes `s` on as a text parameter: psycopg2
   * refuses any string holding U+0000 with a `ValueError`, raised before the
   * statement reaches the database.
   */
  predicate DriverAccepts(s: string) {
    '\0' !in s
  }

  // ---------------------------------------------------------------------------
  // Queries (pure reads of the tables)

  /** `ORDER BY name` on colleagues. */
  const ByName: (Colleague, Colleague) -> bool := (a: Colleague, b: Colleague) => StrLe(a.name, b.name)

  /** `ORDER BY sandwich_name` on sandwiches. */
  const BySandwichName: (Sandwich, Sandwich) -> bool := (a: Sandwich, b: Sandwich) => StrLe(a.sandwichName, b.sandwichName)

  lemma ByNameTotal()
    ensures TotalPreorder(ByName)
  {
    forall a: Colleague, b: Colleague ensures ByName(a, b) || ByName(b, a) {
      StrLeTotal(a.name, b.name);
    }
    forall a: Colleague, b: Colleague, c: Colleague | ByName(a, b) && ByName(b, c) ensures ByName(a, c) {
      StrLeTrans(a.name, b.name, c.name);
    }
  }

  lemma BySandwichNameTotal()
    ensures TotalPreorder(BySandwichName)
  {
    forall a: Sandwich, b: Sandwich ensures BySandwichName(a, b) || BySandwichName(b, a) {
      StrLeTotal(a.sandwichName, b.sandwichName);
    }
    forall a: Sandwich, b: Sandwich, c: Sandwich | BySandwichName(a, b) && BySandwichName(b, c)
      ensures BySandwichName(a, c)
    {
      StrLeTrans(a.sandwichName, b.sandwichName, c.sandwichName);
    }
  }

  /** `Colleague.get_all`: every colleague, ordered by name. */
  function AllColleagues(cs: seq<Colleague>): seq<Colleague> {
    SortBy(cs, ByName)
  }

  /** The listing holds exactly the table's rows, in name order. */
  lemma AllColleaguesListing(cs: seq<Colleague>)
    ensures SortedBy(AllColleagues(cs), ByName)
    ensures multiset(AllColleagues(cs)) == multiset(cs)
  {
    ByNameTotal();
    SortBySorted(cs, ByName);
  }

  /** The rows of the sandwich table with `is_available` set, in table order. */
  function Available(ss: seq<Sandwich>): (r: seq<Sandwich>)
    ensures forall s :: s in r <==> s in ss && s.isAvailable
  {
    if ss == [] then []
    else
      var rest := Available(ss[1..]);
      assert forall s :: s in ss <==> s == ss[0] || s in ss[1..];
      if ss[0].isAvailable then [ss[0]] + rest else rest
  }

  /** `Sandwich.get_all`: the available sandwiches, ordered by name. */
  function AvailableSandwiches(ss: seq<Sandwich>): seq<Sandwich> {
    SortBy(Available(ss), BySandwichName)
  }

  /** A sandwich is listed iff it is in the table and available; the listing is in name order. */
  lemma AvailableSandwichesListing(ss: seq<Sandwich>, s: Sandwich)
    ensures s in AvailableSandwiches(ss) <==> s in ss && s.isAvailable
    ensures SortedBy(AvailableSandwiches(ss), BySandwichName)
  {
    SortByMembers(Available(ss), BySandwichName, s);
    BySandwichNameTotal();
    SortBySorted(Available(ss), BySandwichName);
  }

  /** The admin row a name and password select: `name`, `password` and `is_admin` all match. */
  predicate AdminWith(c: Colleague, name: string, password: string) {
    c.name == name && c.password == Some(password) && c.isAdmin
  }

  /** `Colleague.get_admin_by_credentials`: the first admin row with exactly that name and password. */
  function AdminByCredentials(cs: seq<Colleague>, name: string, password: string): (r: Option<Colleague>)
    ensures r.Some? ==> r.value in cs && AdminWith(r.value, name, password)
    ensures r.None? <==> forall c :: c in cs ==> !AdminWith(c, name, password)
  {
    if cs == [] then None
    else if AdminWith(cs[0], name, password) then Some(cs[0])
    else
      assert forall c :: c in cs ==> c == cs[0] || c in cs[1..];
      AdminByCredentials(cs[1..], name, password)
  }

  /** `Colleague.get_admin_exists`: some colleague is an admin. */
  function AdminExists(cs: seq<Colleague>): (b: bool)
    ensures b <==> exists c :: c in cs && c.isAdmin
  {
    if cs == [] then false
    else
      assert forall c :: c in cs ==> c == cs[0] || c in cs[1..];
      cs[0].isAdmin || AdminExists(cs[1..])
  }

  // ---------------------------------------------------------------------------
  // The store

  class Store {
    var colleagues: seq<Colleague>
    var sandwiches: seq<Sandwich>
    var orders: seq<Order>
    var orderItems: seq<OrderItem>
    /** The next values of the three SERIAL id sequences. */
    var nextColleagueId: int
    var nextSandwichId: int
    var nextOrderId: int

    /** The constraints the storage engine enforces. */
    ghost predicate Valid()
      reads this
    {
      && 0 < nextColleagueId && 0 < nextSandwichId && 0 < nextOrderId
      && ColleaguesValid(colleagues, nextColleagueId)
      && SandwichesValid(sandwiches, nextSandwichId)
      && OrdersValid(orders, nextOrderId, colleagues)
      && ItemsValid(orderItems, orders, sandwiches)
    }

    /** An empty database. */
    constructor ()
      ensures Valid()
      ensures colleagues == [] && sandwiches == [] && orders == [] && orderItems == []
    {
      colleagues, sandwiches, orders, orderItems := [], [], [], [];
      nextColleagueId, nextSandwichId, nextOrderId := 1, 1, 1;
    }

    /**
     * `Colleague.add_colleague`: insert a colleague under a fresh id. The driver
     * refuses text holding U+0000 before the statement is sent; the engine
     * refuses a name already taken, and the id sequence advances all the same.
     */
    method AddColleague(name: string, isAdmin: bool, password: Option<string>) returns (ok: bool)
      requires Valid()
      modifies this
      ensures Valid()
      ensures var sent := DriverAccepts(name) && (password.Some? ==> DriverAccepts(password.value));
        && (ok <==> sent && name !in ColleagueNames(old(colleagues)))
        && nextColleagueId == old(nextColleagueId) + (if sent then 1 else 0)
      ensures colleagues == if ok then old(colleagues) + [Colleague(old(nextColleagueId), name, isAdmin, password)]
                            else old(colleagues)
      ensures sandwiches == old(sandwiches) && orders == old(orders) && orderItems == old(orderItems)
      ensures nextSandwichId == old(nextSandwichId) && nextOrderId == old(nextOrderId)
    {
      if !DriverAccepts(name) || (password.Some? && !DriverAccepts(password.value)) {
        return false;
      }
      ok := name !in ColleagueNames(colleagues);
      if ok {
        colleagues := colleagues + [Colleague(nextColleagueId, name, isAdmin, password)];
      }
      nextColleagueId := nextColleagueId + 1;
    }

    /**
     * `Sandwich.add_sandwich`: insert an available sandwich under a fresh id.
     * The driver refuses a name holding U+0000 before the statement is sent;
     * the engine refuses a name already taken.
     */
    method AddSandwich(name: string, price: int) returns (ok: bool)
      requires Valid()
      modifies this
      ensures Valid()
      ensures ok <==> DriverAccepts(name) && name !in SandwichNames(old(sandwiches))
      ensures nextSandwichId == old(nextSandwichId) + (if DriverAccepts(name) then 1 else 0)
      ensures sandwiches == if ok then old(sandwiches) + [Sandwich(old(nextSandwichId), name, price, true)]
                            else old(sandwiches)
      ensures colleagues == old(colleagues) && orders == old(orders) && orderItems == old(orderItems)
      ensures nextColleagueId == old(nextColleagueId) && nextOrderId == old(nextOrderId)
    {
      if !DriverAccepts(name) {
        return false;
      }
      ok := name !in SandwichNames(sandwiches);
      if ok {
        sandwiches := sandwiches + [Sandwich(nextSandwichId, name, price, true)];
      }
      nextSandwichId := nextSandwichId + 1;
    }

    /**
     * `Order.create`: insert an order for a colleague and return its fresh id.
     * The engine refuses a colleague id with no colleague (foreign key).
     */
    method CreateOrder(colleagueId: int) returns (orderId: Option<int>)
      requires Valid()
      modifies this
      ensures Valid()
      ensures orderId.Some? <==> colleagueId in ColleagueIds(colleagues)
      ensures orderId.Some? ==> orderId.value == old(nextOrderId) && orderId.value > 0
                                && orderId.value !in OrderIds(old(orders))
      ensures orders == if orderId.Some? then old(orders) + [Order(old(nextOrderId), colleagueId)] else old(orders)
      ensures colleagues == old(colleagues) && sandwiches == old(sandwiches) && orderItems == old(orderItems)
      ensures nextOrderId == old(nextOrderId) + 1
      ensures nextColleagueId == old(nextColleagueId) && nextSandwichId == old(nextSandwichId)
    {
      if colleagueId in ColleagueIds(colleagues) {
        orders := orders + [Order(nextOrderId, colleagueId)];
        orderId := Some(nextOrderId);
      } else {
        orderId := None;
      }
      nextOrderId := nextOrderId + 1;
    }

    /**
     * `OrderItem.add_item`: insert one line. The engine refuses an order or
     * sandwich id that names no row (foreign keys); the quantity is not checked.
     */
    method AddItem(orderId: int, sandwichId: int, quantity: int) returns (ok: bool)
      requires Valid()
      modifies this
      ensures Valid()
      ensures ok <==> orderId in OrderIds(orders) && sandwichId in SandwichIds(sandwiches)
      ensures orderItems == if ok then old(orderItems) + [OrderItem(orderId, sandwichId, quantity)]
                            else old(orderItems)
      ensures colleagues == old(colleagues) && sandwiches == old(sandwiches) && orders == old(orders)
      ensures nextColleagueId == old(nextColleagueId) && nextSandwichId == old(nextSandwichId)
      ensures nextOrderId == old(nextOrderId)
    {
      ok := orderId in OrderIds(orders) && sandwichId in SandwichIds(sandwiches);
      if ok {
        orderItems := orderItems + [OrderItem(orderId, sandwichId, quantity)];
      }
    }

    /** `Order.clear_all`: delete every order item, then every order. */
    method ClearAll()
      requires Valid()
      modifies this
      ensures Valid()
      ensures orderItems == [] && orders == []
      ensures colleagues == old(colleagues) && sandwiches == old(sandwiches)
      ensures nextColleagueId == old(nextColleagueId) && nextSandwichId == old(nextSandwichId)
      ensures nextOrderId == old(nextOrderId)
    {
      orderItems := [];
      orders := [];
    }
  }
}
