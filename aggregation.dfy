/**
 * The two read views over the order tables (models.py): kitchen totals per
 * sandwich, and the per-colleague itemised bill folded in process.
 */
module Aggregation {
  import opened Wrappers
  import opened Ordering
  import opened Search
  import opened Models

  // ---------------------------------------------------------------------------
  // By sandwich: GROUP BY sandwich, SUM(quantity), ORDER BY sandwich_name

  /** One row of `get_all_orders_by_sandwich`. */
  datatype SandwichTotal = SandwichTotal(sandwichId: int, sandwichName: string, totalQuantity: int)

  /** SUM(quantity) over the order items of one sandwich id. */
  function QuantityOf(items: seq<OrderItem>, id: int): int {
    if items == [] then 0
    else QuantityOf(items[..|items| - 1], id)
         + (if items[|items| - 1].sandwichId == id then items[|items| - 1].quantity else 0)
  }

  /** Some order item joins with this sandwich id. */
  predicate HasItems(items: seq<OrderItem>, id: int) {
    exists it :: it in items && it.sandwichId == id
  }

  function TotalOf(s: Sandwich, items: seq<OrderItem>): SandwichTotal {
    SandwichTotal(s.sandwichId, s.sandwichName, QuantityOf(items, s.sandwichId))
  }

  /** One group per sandwich row that at least one order item joins with, in table order. */
  function Groups(ss: seq<Sandwich>, items: seq<OrderItem>): (r: seq<SandwichTotal>)
    ensures forall t :: t in r <==> exists s :: s in ss && HasItems(items, s.sandwichId) && t == TotalOf(s, items)
  {
    if ss == [] then []
    else
      var rest := Groups(ss[1..], items);
      assert forall s :: s in ss <==> s == ss[0] || s in ss[1..];
      if HasItems(items, ss[0].sandwichId) then [TotalOf(ss[0], items)] + rest else rest
  }

  /** With sandwich ids unique, as the primary key makes them, each sandwich has at most one group. */
  lemma {:induction false} GroupsOnePerSandwich(ss: seq<Sandwich>, items: seq<OrderItem>)
    requires forall i, j :: 0 <= i < j < |ss| ==> ss[i].sandwichId != ss[j].sandwichId
    ensures forall i, j :: 0 <= i < j < |Groups(ss, items)| ==>
              Groups(ss, items)[i].sandwichId != Groups(ss, items)[j].sandwichId
  {
    if ss != [] {
      var rest := Groups(ss[1..], items);
      GroupsOnePerSandwich(ss[1..], items);
      if HasItems(items, ss[0].sandwichId) {
        var r := Groups(ss, items);
        assert r == [TotalOf(ss[0], items)] + rest;
        forall j | 0 <= j < |rest| ensures rest[j].sandwichId != ss[0].sandwichId {
          assert rest[j] in rest;
          var s :| s in ss[1..] && HasItems(items, s.sandwichId) && rest[j] == TotalOf(s, items);
          var k :| 0 <= k < |ss[1..]| && ss[1..][k] == s;
          assert ss[k + 1] == s;
        }
        forall i, j | 0 <= i < j < |r| ensures r[i].sandwichId != r[j].sandwichId {
          assert r[j] == rest[j - 1];
          if i == 0 {
            assert r[0].sandwichId == ss[0].sandwichId;
            assert rest[j - 1].sandwichId != ss[0].sandwichId;
          } else {
            assert r[i] == rest[i - 1];
            assert rest[i - 1].sandwichId != rest[j - 1].sandwichId;
          }
        }
      }
    }
  }

  const ByTotalName: (SandwichTotal, SandwichTotal) -> bool :=
    (a: SandwichTotal, b: SandwichTotal) => StrLe(a.sandwichName, b.sandwichName)

  /** `OrderItem.get_all_orders_by_sandwich`. */
  function TotalsBySandwich(ss: seq<Sandwich>, items: seq<OrderItem>): seq<SandwichTotal> {
    SortBy(Groups(ss, items), ByTotalName)
  }

  /** The key of a total row: its sandwich id. */
  function TotalId(t: SandwichTotal): int {
    t.sandwichId
  }

  /**
   * `GROUP BY s.sandwich_id` yields one row per sandwich: with sandwich ids
   * unique, no two reported rows carry the same sandwich id.
   */
  lemma TotalsBySandwichOnePerSandwich(ss: seq<Sandwich>, items: seq<OrderItem>)
    requires forall i, j :: 0 <= i < j < |ss| ==> ss[i].sandwichId != ss[j].sandwichId
    ensures var r := TotalsBySandwich(ss, items);
      forall i, j :: 0 <= i < j < |r| ==> r[i].sandwichId != r[j].sandwichId
  {
    GroupsOnePerSandwich(ss, items);
    assert DistinctBy(Groups(ss, items), TotalId);
    SortByDistinct(Groups(ss, items), ByTotalName, TotalId);
    var r := TotalsBySandwich(ss, items);
    assert DistinctBy(r, TotalId);
  }

  /**
   * A row is reported iff it is the total of a sandwich that some order item
   * references, and its quantity is the sum over exactly that sandwich's items;
   * the rows come in sandwich-name order.
   */
  lemma TotalsBySandwichRows(ss: seq<Sandwich>, items: seq<OrderItem>, t: SandwichTotal)
    ensures t in TotalsBySandwich(ss, items) <==>
              exists s :: s in ss && HasItems(items, s.sandwichId)
                          && t == SandwichTotal(s.sandwichId, s.sandwichName, QuantityOf(items, s.sandwichId))
    ensures SortedBy(TotalsBySandwich(ss, items), ByTotalName)
  {
    SortByMembers(Groups(ss, items), ByTotalName, t);
    forall a: SandwichTotal, b: SandwichTotal ensures ByTotalName(a, b) || ByTotalName(b, a) {
      StrLeTotal(a.sandwichName, b.sandwichName);
    }
    forall a: SandwichTotal, b: SandwichTotal, c: SandwichTotal | ByTotalName(a, b) && ByTotalName(b, c)
      ensures ByTotalName(a, c)
    {
      StrLeTrans(a.sandwichName, b.sandwichName, c.sandwichName);
    }
    SortBySorted(Groups(ss, items), ByTotalName);
  }

  /** Sum of the reported totals. */
  function SumTotals(ts: seq<SandwichTotal>): int {
    if ts == [] then 0 else ts[0].totalQuantity + SumTotals(ts[1..])
  }

  /** Sum of the quantities of the items whose sandwich id is in `ids`. */
  function QuantityIn(items: seq<OrderItem>, ids: set<int>): int {
    if items == [] then 0
    else QuantityIn(items[..|items| - 1], ids)
         + (if items[|items| - 1].sandwichId in ids then items[|items| - 1].quantity else 0)
  }

  /** Sum of all ordered quantities. */
  function QuantityAll(items: seq<OrderItem>): int {
    if items == [] then 0 else QuantityAll(items[..|items| - 1]) + items[|items| - 1].quantity
  }

  lemma {:induction false} SumInsert(x: SandwichTotal, ts: seq<SandwichTotal>, le: (SandwichTotal, SandwichTotal) -> bool)
    ensures SumTotals(InsertBy(x, ts, le)) == x.totalQuantity + SumTotals(ts)
  {
    if ts != [] && !le(x, ts[0]) {
      SumInsert(x, ts[1..], le);
    }
  }

  lemma {:induction false} SumSort(ts: seq<SandwichTotal>, le: (SandwichTotal, SandwichTotal) -> bool)
    ensures SumTotals(SortBy(ts, le)) == SumTotals(ts)
  {
    if ts != [] {
      SumSort(ts[1..], le);
      SumInsert(ts[0], SortBy(ts[1..], le), le);
    }
  }

  lemma {:induction false} QuantityOfZero(items: seq<OrderItem>, id: int)
    requires !HasItems(items, id)
    ensures QuantityOf(items, id) == 0
  {
    if items != [] {
      assert forall it :: it in items[..|items| - 1] ==> it in items;
      QuantityOfZero(items[..|items| - 1], id);
    }
  }

  lemma {:induction false} QuantityInAdd(items: seq<OrderItem>, ids: set<int>, id: int)
    requires id !in ids
    ensures QuantityIn(items, ids + {id}) == QuantityIn(items, ids) + QuantityOf(items, id)
  {
    if items != [] {
      QuantityInAdd(items[..|items| - 1], ids, id);
    }
  }

  lemma {:induction false} QuantityInAll(items: seq<OrderItem>, ids: set<int>)
    requires forall it :: it in items ==> it.sandwichId in ids
    ensures QuantityIn(items, ids) == QuantityAll(items)
  {
    if items != [] {
      assert forall it :: it in items[..|items| - 1] ==> it in items;
      QuantityInAll(items[..|items| - 1], ids);
    }
  }

  lemma {:induction false} GroupsSum(ss: seq<Sandwich>, items: seq<OrderItem>)
    requires forall i, j :: 0 <= i < j < |ss| ==> ss[i].sandwichId != ss[j].sandwichId
    ensures SumTotals(Groups(ss, items)) == QuantityIn(items, SandwichIds(ss))
  {
    if ss == [] {
      assert SandwichIds(ss) == {};
      QuantityInEmpty(items);
    } else {
      var s := ss[0];
      GroupsSum(ss[1..], items);
      assert SandwichIds(ss) == SandwichIds(ss[1..]) + {s.sandwichId} by {
        assert forall x :: x in ss <==> x == s || x in ss[1..];
      }
      assert s.sandwichId !in SandwichIds(ss[1..]) by {
        forall x | x in ss[1..] ensures x.sandwichId != s.sandwichId {
          var k :| 0 <= k < |ss[1..]| && ss[1..][k] == x;
          assert ss[k + 1] == x;
        }
      }
      QuantityInAdd(items, SandwichIds(ss[1..]), s.sandwichId);
      if !HasItems(items, s.sandwichId) {
        QuantityOfZero(items, s.sandwichId);
      }
    }
  }

  lemma {:induction false} QuantityInEmpty(items: seq<OrderItem>)
    ensures QuantityIn(items, {}) == 0
  {
    if items != [] {
      QuantityInEmpty(items[..|items| - 1]);
    }
  }

  /**
   * Nothing is counted twice or lost: when every item references a sandwich and
   * sandwich ids are unique, the reported totals add up to the whole ordered quantity.
   */
  lemma TotalsBySandwichConserve(ss: seq<Sandwich>, items: seq<OrderItem>)
    requires forall i, j :: 0 <= i < j < |ss| ==> ss[i].sandwichId != ss[j].sandwichId
    requires forall it :: it in items ==> it.sandwichId in SandwichIds(ss)
    ensures SumTotals(TotalsBySandwich(ss, items)) == QuantityAll(items)
  {
    SumSort(Groups(ss, items), ByTotalName);
    GroupsSum(ss, items);
    QuantityInAll(items, SandwichIds(ss));
  }

  // ---------------------------------------------------------------------------
  // By colleague: the joined rows folded into colleague -> {total_price, items}

  /** One joined row: colleague name, sandwich name, unit price in cents, quantity. */
  datatype Row = Row(colleagueName: string, sandwichName: string, price: int, quantity: int)

  /** One line of a colleague's bill. */
  datatype Item = Item(sandwichName: string, quantity: int, linePrice: int)

  /** A colleague's bucket: running total and lines in encounter order. */
  datatype Bucket = Bucket(totalPrice: int, items: seq<Item>)

  /** The folded view: a map plus its keys in insertion order, as a Python dict keeps them. */
  datatype Summary = Summary(keys: seq<string>, data: map<string, Bucket>)

  function LineOf(r: Row): Item {
    Item(r.sandwichName, r.quantity, r.price * r.quantity)
  }

  /** One iteration of the loop: create the bucket on first encounter, append the line, add its price. */
  function Step(g: Summary, r: Row): Summary {
    var line := LineOf(r);
    var b := if r.colleagueName in g.data then g.data[r.colleagueName] else Bucket(0, []);
    var keys := if r.colleagueName in g.data then g.keys else g.keys + [r.colleagueName];
    Summary(keys, g.data[r.colleagueName := Bucket(b.totalPrice + line.linePrice, b.items + [line])])
  }

  /** The dictionary the loop has built after consuming `rows`. */
  function Fold(rows: seq<Row>): Summary {
    if rows == [] then Summary([], map[]) else Step(Fold(rows[..|rows| - 1]), rows[|rows| - 1])
  }

  /** `get_orders_grouped_by_colleague`, the loop over the fetched rows. */
  method GroupByColleague(rows: seq<Row>) returns (keys: seq<string>, data: map<string, Bucket>)
    ensures Summary(keys, data) == Fold(rows)
  {
    keys, data := [], map[];
    for i := 0 to |rows|
      invariant Summary(keys, data) == Fold(rows[..i])
    {
      var row := rows[i];
      var line := Item(row.sandwichName, row.quantity, row.price * row.quantity);
      if row.colleagueName !in data {
        keys := keys + [row.colleagueName];
        data := data[row.colleagueName := Bucket(0, [])];
      }
      var b := data[row.colleagueName];
      data := data[row.colleagueName := Bucket(b.totalPrice + line.linePrice, b.items + [line])];
      assert rows[..i + 1][..i] == rows[..i];
    }
    assert rows[..|rows|] == rows;
  }

  // Reference definitions the fold is checked against.

  /** Some input row carries this colleague name. */
  ghost predicate Mentions(rows: seq<Row>, name: string) {
    exists i :: 0 <= i < |rows| && rows[i].colleagueName == name
  }

  /** The rows carrying this colleague name, in input order. */
  function RowsOf(rows: seq<Row>, name: string): (r: seq<Row>)
    ensures forall x :: x in r ==> x in rows && x.colleagueName == name
  {
    if rows == [] then []
    else
      var last := rows[|rows| - 1];
      RowsOf(rows[..|rows| - 1], name) + (if last.colleagueName == name then [last] else [])
  }

  /** The bill lines of some rows, one per row. */
  function Lines(rs: seq<Row>): seq<Item> {
    seq(|rs|, j requires 0 <= j < |rs| => LineOf(rs[j]))
  }

  /** The sum of price times quantity over some rows. */
  function LineTotal(rs: seq<Row>): int {
    if rs == [] then 0 else LineTotal(rs[..|rs| - 1]) + rs[|rs| - 1].price * rs[|rs| - 1].quantity
  }

  /** The index of the first row with this colleague name, or |rows| when there is none. */
  function FirstMention(rows: seq<Row>, name: string): (i: nat)
    ensures i <= |rows|
    ensures i < |rows| ==> rows[i].colleagueName == name
    ensures forall j :: 0 <= j < i ==> rows[j].colleagueName != name
  {
    if rows == [] then 0
    else if rows[0].colleagueName == name then 0
    else 1 + FirstMention(rows[1..], name)
  }

  /** The number of lines over the buckets of `keys`. */
  function CountItems(keys: seq<string>, data: map<string, Bucket>): nat {
    if keys == [] then 0
    else CountItems(keys[..|keys| - 1], data)
         + (if keys[|keys| - 1] in data then |data[keys[|keys| - 1]].items| else 0)
  }

  lemma {:induction false} RowsOfAbsent(rows: seq<Row>, name: string)
    requires !Mentions(rows, name)
    ensures RowsOf(rows, name) == []
  {
    if rows != [] {
      RowsOfAbsent(rows[..|rows| - 1], name);
    }
  }

  lemma LinesAppend(rs: seq<Row>, r: Row)
    ensures Lines(rs + [r]) == Lines(rs) + [LineOf(r)]
  {
    assert |Lines(rs + [r])| == |Lines(rs) + [LineOf(r)]|;
    forall j | 0 <= j < |rs| + 1 ensures Lines(rs + [r])[j] == (Lines(rs) + [LineOf(r)])[j] {
      if j < |rs| {
        assert (rs + [r])[j] == rs[j];
      }
    }
  }

  lemma MentionsExtend(pre: seq<Row>, last: Row, k: string)
    ensures Mentions(pre + [last], k) <==> Mentions(pre, k) || last.colleagueName == k
  {
    var rows := pre + [last];
    if Mentions(pre, k) {
      var i :| 0 <= i < |pre| && pre[i].colleagueName == k;
      assert rows[i] == pre[i];
    }
    if Mentions(rows, k) && last.colleagueName != k {
      var i :| 0 <= i < |rows| && rows[i].colleagueName == k;
      assert rows[i] == pre[i];
    }
    if last.colleagueName == k {
      assert rows[|pre|] == last;
    }
  }

  /**
   * A colleague has a bucket iff some row names them; the bucket holds one line
   * per row with that name, in input order, each priced at price times quantity,
   * and its total is the sum of those line prices.
   */
  lemma {:induction false} FoldBucket(rows: seq<Row>, k: string)
    ensures k in Fold(rows).data <==> Mentions(rows, k)
    ensures k in Fold(rows).data ==>
              Fold(rows).data[k] == Bucket(LineTotal(RowsOf(rows, k)), Lines(RowsOf(rows, k)))
  {
    if rows != [] {
      var pre, last := rows[..|rows| - 1], rows[|rows| - 1];
      FoldBucket(pre, k);
      assert rows == pre + [last];
      MentionsExtend(pre, last, k);
      if k == last.colleagueName {
        if !Mentions(pre, k) {
          RowsOfAbsent(pre, k);
        }
        LinesAppend(RowsOf(pre, k), last);
        var rs := RowsOf(rows, k);
        assert rs == RowsOf(pre, k) + [last];
        assert rs[..|rs| - 1] == RowsOf(pre, k) && rs[|rs| - 1] == last;
        assert LineTotal(rs) == LineTotal(RowsOf(pre, k)) + last.price * last.quantity;
      } else {
        assert RowsOf(rows, k) == RowsOf(pre, k);
      }
    }
  }

  /** The keys list and the map agree on which colleagues are present. */
  lemma {:induction false} FoldKeysDomain(rows: seq<Row>, k: string)
    ensures k in Fold(rows).keys <==> k in Fold(rows).data
  {
    if rows != [] {
      FoldKeysDomain(rows[..|rows| - 1], k);
    }
  }

  lemma MentionsFirst(rows: seq<Row>, k: string)
    ensures Mentions(rows, k) <==> FirstMention(rows, k) < |rows|
  {
  }

  /** The keys come in order of first encounter, hence each only once. */
  lemma {:induction false} FoldKeysOrdered(rows: seq<Row>)
    ensures forall a :: 0 <= a < |Fold(rows).keys| ==> FirstMention(rows, Fold(rows).keys[a]) < |rows|
    ensures forall a, b :: 0 <= a < b < |Fold(rows).keys| ==>
              FirstMention(rows, Fold(rows).keys[a]) < FirstMention(rows, Fold(rows).keys[b])
  {
    if rows != [] {
      var pre, last := rows[..|rows| - 1], rows[|rows| - 1];
      assert rows == pre + [last];
      FoldKeysOrdered(pre);
      var old_ := Fold(pre).keys;
      var k := last.colleagueName;
      var fresh_ := k !in Fold(pre).data;
      var keys := Fold(rows).keys;
      assert keys == if fresh_ then old_ + [k] else old_;
      forall a | 0 <= a < |old_| ensures FirstMention(rows, old_[a]) == FirstMention(pre, old_[a]) {
        FirstMentionExtend(pre, last, old_[a]);
      }
      if fresh_ {
        FoldBucket(pre, k);
        MentionsFirst(pre, k);
        FirstMentionExtend(pre, last, k);
        KeysOrderedAppend(rows, old_, k);
      }
    }
  }

  /** A key whose first mention is the last row can follow keys first mentioned earlier. */
  lemma KeysOrderedAppend(rows: seq<Row>, keys: seq<string>, k: string)
    requires forall a :: 0 <= a < |keys| ==> FirstMention(rows, keys[a]) < |rows| - 1
    requires forall a, b :: 0 <= a < b < |keys| ==> FirstMention(rows, keys[a]) < FirstMention(rows, keys[b])
    requires FirstMention(rows, k) == |rows| - 1
    ensures forall a :: 0 <= a < |keys + [k]| ==> FirstMention(rows, (keys + [k])[a]) < |rows|
    ensures forall a, b :: 0 <= a < b < |keys + [k]| ==>
              FirstMention(rows, (keys + [k])[a]) < FirstMention(rows, (keys + [k])[b])
  {
    RankedAppend(keys, k, x => FirstMention(rows, x), |rows| - 1);
  }

  /** Appending a key ranked above all others keeps a list strictly increasing by rank. */
  lemma RankedAppend(keys: seq<string>, k: string, rank: string -> int, top: int)
    requires forall a :: 0 <= a < |keys| ==> rank(keys[a]) < top
    requires forall a, b :: 0 <= a < b < |keys| ==> rank(keys[a]) < rank(keys[b])
    requires rank(k) == top
    ensures forall a :: 0 <= a < |keys + [k]| ==> rank((keys + [k])[a]) <= top
    ensures forall a, b :: 0 <= a < b < |keys + [k]| ==> rank((keys + [k])[a]) < rank((keys + [k])[b])
  {
    var ks := keys + [k];
    forall a | 0 <= a < |ks| ensures rank(ks[a]) <= top {
      if a < |keys| {
        assert ks[a] == keys[a];
      }
    }
    forall a, b | 0 <= a < b < |ks| ensures rank(ks[a]) < rank(ks[b]) {
      assert ks[a] == keys[a];
      if b < |keys| {
        assert ks[b] == keys[b];
      }
    }
  }

  /** Appending a row moves no colleague's first mention, except one not mentioned before. */
  lemma FirstMentionExtend(pre: seq<Row>, last: Row, k: string)
    ensures FirstMention(pre + [last], k) ==
              if FirstMention(pre, k) < |pre| then FirstMention(pre, k)
              else if last.colleagueName == k then |pre| else |pre| + 1
  {
    var rows := pre + [last];
    var m, m' := FirstMention(pre, k), FirstMention(rows, k);
    assert rows[|pre|] == last;
    if m' < |pre| {
      assert rows[m'] == pre[m'];
    }
    if m < |pre| {
      assert rows[m] == pre[m];
    }
  }

  lemma {:induction false} CountUpdateAbsent(keys: seq<string>, data: map<string, Bucket>, k: string, b: Bucket)
    requires k !in keys
    ensures CountItems(keys, data[k := b]) == CountItems(keys, data)
  {
    if keys != [] {
      CountUpdateAbsent(keys[..|keys| - 1], data, k, b);
    }
  }

  lemma {:induction false} CountUpdatePresent(keys: seq<string>, data: map<string, Bucket>, k: string, b: Bucket)
    requires k in keys && k in data
    requires forall x, y :: 0 <= x < y < |keys| ==> keys[x] != keys[y]
    ensures CountItems(keys, data[k := b]) == CountItems(keys, data) - |data[k].items| + |b.items|
  {
    var pre := keys[..|keys| - 1];
    if keys[|keys| - 1] == k {
      assert k !in pre by {
        forall x | 0 <= x < |pre| ensures pre[x] != k {
          assert keys[x] != keys[|keys| - 1];
        }
      }
      CountUpdateAbsent(pre, data, k, b);
    } else {
      assert k in pre by {
        var x :| 0 <= x < |keys| && keys[x] == k;
        assert pre[x] == k;
      }
      CountUpdatePresent(pre, data, k, b);
    }
  }

  /** Every input row becomes exactly one line in exactly one bucket. */
  lemma {:induction false} FoldItemCount(rows: seq<Row>)
    ensures CountItems(Fold(rows).keys, Fold(rows).data) == |rows|
  {
    if rows != [] {
      var pre, last := rows[..|rows| - 1], rows[|rows| - 1];
      FoldItemCount(pre);
      FoldKeysOrdered(pre);
      var g := Fold(pre);
      var k := last.colleagueName;
      FoldKeysDomain(pre, k);
      var g' := Fold(rows);
      if k in g.data {
        CountUpdatePresent(g.keys, g.data, k, g'.data[k]);
      } else {
        CountUpdateAbsent(g.keys, g.data, k, g'.data[k]);
        assert g'.keys[..|g'.keys| - 1] == g.keys;
      }
    }
  }

  // ---------------------------------------------------------------------------
  // The joined rows the fold consumes

  function OrderWithId(id: int): Order -> bool {
    (o: Order) => o.orderId == id
  }

  function ColleagueWithId(id: int): Colleague -> bool {
    (c: Colleague) => c.colleagueId == id
  }

  function SandwichWithId(id: int): Sandwich -> bool {
    (s: Sandwich) => s.sandwichId == id
  }

  /** The joined row for one order item, when its order, colleague and sandwich rows all exist. */
  function JoinRow(cs: seq<Colleague>, ss: seq<Sandwich>, os: seq<Order>, it: OrderItem): Option<Row> {
    match FirstWhere(os, OrderWithId(it.orderId))
    case None => None
    case Some(oi) =>
      match FirstWhere(cs, ColleagueWithId(os[oi].colleagueId))
      case None => None
      case Some(ci) =>
        match FirstWhere(ss, SandwichWithId(it.sandwichId))
        case None => None
        case Some(si) => Some(Row(cs[ci].name, ss[si].sandwichName, ss[si].price, it.quantity))
  }

  /** order_items JOIN orders JOIN colleagues JOIN sandwiches, one row per item that joins. */
  function JoinRows(cs: seq<Colleague>, ss: seq<Sandwich>, os: seq<Order>, items: seq<OrderItem>): seq<Row> {
    if items == [] then []
    else
      JoinRows(cs, ss, os, items[..|items| - 1])
      + match JoinRow(cs, ss, os, items[|items| - 1]) case Some(r) => [r] case None => []
  }

  /** `ORDER BY c.name, s.sandwich_name`. */
  const ByColleagueThenSandwich: (Row, Row) -> bool :=
    (a: Row, b: Row) => StrLe(a.colleagueName, b.colleagueName)
                        && (a.colleagueName == b.colleagueName ==> StrLe(a.sandwichName, b.sandwichName))

  lemma ByColleagueThenSandwichTotal()
    ensures TotalPreorder(ByColleagueThenSandwich)
  {
    var le := ByColleagueThenSandwich;
    forall a: Row, b: Row ensures le(a, b) || le(b, a) {
      StrLeTotal(a.colleagueName, b.colleagueName);
      StrLeTotal(a.sandwichName, b.sandwichName);
    }
    forall a: Row, b: Row, c: Row | le(a, b) && le(b, c) ensures le(a, c) {
      StrLeTrans(a.colleagueName, b.colleagueName, c.colleagueName);
      if a.colleagueName == c.colleagueName {
        StrLeAntisym(a.colleagueName, b.colleagueName);
        StrLeTrans(a.sandwichName, b.sandwichName, c.sandwichName);
      }
    }
  }

  /** The rows the query hands to the fold. */
  function DetailRows(cs: seq<Colleague>, ss: seq<Sandwich>, os: seq<Order>, items: seq<OrderItem>): seq<Row> {
    SortBy(JoinRows(cs, ss, os, items), ByColleagueThenSandwich)
  }

  /** With the foreign keys intact every item joins, so each yields one row. */
  lemma {:induction false} JoinRowsComplete(cs: seq<Colleague>, ss: seq<Sandwich>, os: seq<Order>, items: seq<OrderItem>)
    requires ItemsValid(items, os, ss)
    requires forall o :: o in os ==> o.colleagueId in ColleagueIds(cs)
    ensures |JoinRows(cs, ss, os, items)| == |items|
  {
    if items != [] {
      var it := items[|items| - 1];
      assert forall x :: x in items[..|items| - 1] ==> x in items;
      JoinRowsComplete(cs, ss, os, items[..|items| - 1]);
      var o :| o in os && o.orderId == it.orderId;
      var oi := FirstWhere(os, OrderWithId(it.orderId));
      assert OrderWithId(it.orderId)(o);
      var c :| c in cs && c.colleagueId == os[oi.value].colleagueId;
      assert ColleagueWithId(os[oi.value].colleagueId)(c);
      var s :| s in ss && s.sandwichId == it.sandwichId;
      assert SandwichWithId(it.sandwichId)(s);
    }
  }

  /**
   * The rows reach the fold in (colleague name, sandwich name) order, one per
   * order item when the store's constraints hold.
   */
  lemma DetailRowsListing(cs: seq<Colleague>, ss: seq<Sandwich>, os: seq<Order>, items: seq<OrderItem>)
    requires ItemsValid(items, os, ss)
    requires forall o :: o in os ==> o.colleagueId in ColleagueIds(cs)
    ensures SortedBy(DetailRows(cs, ss, os, items), ByColleagueThenSandwich)
    ensures |DetailRows(cs, ss, os, items)| == |items|
  {
    ByColleagueThenSandwichTotal();
    SortBySorted(JoinRows(cs, ss, os, items), ByColleagueThenSandwich);
    JoinRowsComplete(cs, ss, os, items);
    var rows := JoinRows(cs, ss, os, items);
    assert |multiset(SortBy(rows, ByColleagueThenSandwich))| == |multiset(rows)|;
  }

  /**
   * `OrderItem.get_orders_grouped_by_colleague` on the store: fetch the joined
   * rows and fold them; every order item appears as exactly one bill line.
   */
  method OrdersGroupedByColleague(store: Store) returns (keys: seq<string>, data: map<string, Bucket>)
    requires store.Valid()
    ensures Summary(keys, data) == Fold(DetailRows(store.colleagues, store.sandwiches, store.orders, store.orderItems))
    ensures CountItems(keys, data) == |store.orderItems|
  {
    var rows := DetailRows(store.colleagues, store.sandwiches, store.orders, store.orderItems);
    keys, data := GroupByColleague(rows);
    DetailRowsListing(store.colleagues, store.sandwiches, store.orders, store.orderItems);
    FoldItemCount(rows);
  }
}
