/** The advisory comparison of local submit records with the broker's orders: merging the two broker lists,
    grouping both sides by order hash, classifying, sorting, filtering and summarising. */
module OrderComparison {
  import opened Common
  import Ordering
  import SubmitIdentities

  type Record = SubmitIdentities.Record

  datatype Leg = Leg(instrumentType: string, symbol: string, quantity: real, action: string)

  /** A broker order; `price` is its decimal text. */
  datatype Order = Order(id: string, updatedAt: int, status: string, orderType: string, timeInForce: string,
                         price: string, priceEffect: string, legs: seq<Leg>)

  datatype NewLeg = NewLeg(instrumentType: string, symbol: string, quantity: int, action: string)

  datatype NewOrder = NewOrder(orderType: string, timeInForce: string, price: string, priceEffect: string, legs: seq<NewLeg>)

  /** The comparable hash of a broker order, if it has one; never the empty text. */
  type Fingerprint = f: Order -> Option<string> | forall o :: f(o) != Some("") witness _ => None

  const PLAUSIBLE := "local_present_broker_match"
  const UNMATCHED := "local_uncertain_no_broker_match"
  const UNKNOWN := "broker_order_no_local_state"
  const AMBIGUOUS := "ambiguous"

  datatype Entry = Entry(outcome: string, key: string, state: Option<SubmitIdentities.State>, hash: string,
                         brokerID: string, brokerStatus: string)

  // ---- A broker order's fingerprint ----

  predicate Whole(q: real) {
    q.Floor as real == q
  }

  function Mapped(legs: seq<Leg>): seq<NewLeg> {
    seq(|legs|, i requires 0 <= i < |legs| => NewLeg(legs[i].instrumentType, legs[i].symbol, legs[i].quantity.Floor, legs[i].action))
  }

  /** The same legs, one for one, with whole quantities as integers. */
  predicate SameLegs(legs: seq<Leg>, mapped: seq<NewLeg>) {
    && |mapped| == |legs|
    && forall i :: 0 <= i < |legs| ==>
        && mapped[i].instrumentType == legs[i].instrumentType && mapped[i].symbol == legs[i].symbol
        && mapped[i].action == legs[i].action && mapped[i].quantity as real == legs[i].quantity
  }

  /** `digest` is the hex form of the SHA-256 of the order's JSON. */
  method BrokerOrderHash(digest: NewOrder -> string, o: Order) returns (hash: Option<string>)
    ensures hash.Some? <==> forall i :: 0 <= i < |o.legs| ==> o.legs[i].quantity.Floor as real == o.legs[i].quantity
    ensures hash.Some? ==> exists legs: seq<NewLeg> ::
      SameLegs(o.legs, legs) && hash.value == digest(NewOrder(o.orderType, o.timeInForce, o.price, o.priceEffect, legs))
    ensures hash == if forall i :: 0 <= i < |o.legs| ==> Whole(o.legs[i].quantity)
      then Some(digest(NewOrder(o.orderType, o.timeInForce, o.price, o.priceEffect, Mapped(o.legs)))) else None
  {
    var legs: seq<NewLeg> := [];
    for i := 0 to |o.legs|
      invariant legs == Mapped(o.legs[..i])
      invariant forall k :: 0 <= k < i ==> Whole(o.legs[k].quantity)
    {
      var leg := o.legs[i];
      if !Whole(leg.quantity) {
        return None;
      }
      legs := legs + [NewLeg(leg.instrumentType, leg.symbol, leg.quantity.Floor, leg.action)];
    }
    assert o.legs[..|o.legs|] == o.legs;
    assert SameLegs(o.legs, legs);
    return Some(digest(NewOrder(o.orderType, o.timeInForce, o.price, o.priceEffect, legs)));
  }

  // ---- Merging the broker's two lists ----

  /** By ID, the last order of the list that has it. */
  function LatestById(orders: seq<Order>): map<string, Order> {
    if orders == [] then map[]
    else
      var o := orders[|orders| - 1];
      var before := LatestById(orders[..|orders| - 1]);
      if o.id == "" then before else before[o.id := o]
  }

  predicate NewestFirst(a: Order, b: Order) {
    if a.updatedAt != b.updatedAt then a.updatedAt > b.updatedAt else Ordering.StringLess(a.id, b.id)
  }

  ghost predicate DistinctIds(orders: seq<Order>) {
    forall i, j :: 0 <= i < j < |orders| ==> orders[i].id != orders[j].id
  }

  /** `orders` lists the values of `m`, each once, in some order. */
  ghost predicate ListsAll(m: map<string, Order>, orders: seq<Order>) {
    && DistinctIds(orders)
    && (forall o :: o in orders ==> o.id in m && m[o.id] == o)
    && (forall id :: id in m ==> m[id] in orders)
  }

  /** `i` is the last place where the list has the ID. */
  ghost predicate LastAt(orders: seq<Order>, id: string, i: nat) {
    i < |orders| && orders[i].id == id && forall j :: i < j < |orders| ==> orders[j].id != id
  }

  lemma {:induction false} LatestPlace(orders: seq<Order>, id: string) returns (i: nat)
    requires id in LatestById(orders)
    ensures id != "" && LastAt(orders, id, i) && orders[i] == LatestById(orders)[id]
  {
    var (init, n) := (orders[..|orders| - 1], |orders| - 1);
    if orders[n].id == id != "" {
      i := n;
    } else {
      i := LatestPlace(init, id);
      assert orders[i] == init[i];
      assert forall j :: i < j < n ==> orders[j] == init[j];
    }
  }

  lemma {:induction false} NoIdIsLost(orders: seq<Order>, o: Order)
    requires o in orders && o.id != ""
    ensures o.id in LatestById(orders)
  {
    var (init, last) := (orders[..|orders| - 1], orders[|orders| - 1]);
    if o != last {
      assert orders == init + [last];
      NoIdIsLost(init, o);
    }
  }

  lemma LatestIsLast(orders: seq<Order>)
    ensures forall id :: id in LatestById(orders) ==>
      LatestById(orders)[id].id == id != "" && exists i: nat :: LastAt(orders, id, i) && orders[i] == LatestById(orders)[id]
    ensures forall o :: o in orders && o.id != "" ==> o.id in LatestById(orders)
  {
    forall id | id in LatestById(orders)
      ensures LatestById(orders)[id].id == id != "" && exists i: nat :: LastAt(orders, id, i) && orders[i] == LatestById(orders)[id]
    {
      var i := LatestPlace(orders, id);
    }
    forall o | o in orders && o.id != "" ensures o.id in LatestById(orders) {
      NoIdIsLost(orders, o);
    }
  }

  lemma NewestFirstStrictWeak()
    ensures Ordering.StrictWeak(NewestFirst)
  {
    forall x, y | NewestFirst(x, y) ensures !NewestFirst(y, x) {
      if x.updatedAt == y.updatedAt {
        Ordering.StringLessAsymmetric(x.id, y.id);
      }
    }
    forall x, y, z | NewestFirst(x, y) ensures NewestFirst(x, z) || NewestFirst(z, y) {
      if x.updatedAt == y.updatedAt {
        Ordering.StringLessSplits(x.id, y.id, z.id);
      }
    }
  }

  lemma SameListing(m: map<string, Order>, a: seq<Order>, b: seq<Order>)
    requires ListsAll(m, a) && ListsAll(m, b)
    ensures multiset(a) == multiset(b)
  {
    forall x: Order ensures multiset(a)[x] == multiset(b)[x] {
      Ordering.OnceEach(a, x);
      Ordering.OnceEach(b, x);
    }
  }

  lemma IdsSeparate(m: map<string, Order>, orders: seq<Order>)
    requires ListsAll(m, orders)
    ensures Ordering.Separates(NewestFirst, orders)
  {
    forall x, y | x in orders && y in orders && x != y ensures NewestFirst(x, y) || NewestFirst(y, x) {
      Ordering.StringLessTotal(x.id, y.id);
    }
  }

  /** Whatever order the map is iterated in, there is one merged list. */
  lemma MergeIsDetermined(m: map<string, Order>, a: seq<Order>, b: seq<Order>)
    requires ListsAll(m, a) && Ordering.Sorted(NewestFirst, a)
    requires ListsAll(m, b) && Ordering.Sorted(NewestFirst, b)
    ensures a == b
  {
    SameListing(m, a, b);
    IdsSeparate(m, a);
    Ordering.SortedUnique(NewestFirst, a, b);
  }

  lemma PermutedListing(m: map<string, Order>, a: seq<Order>, b: seq<Order>)
    requires ListsAll(m, a) && multiset(a) == multiset(b)
    ensures ListsAll(m, b)
  {
    Ordering.RearrangedNoDuplicates(a, b);
    forall x ensures x in b <==> x in a {
      assert x in b <==> x in multiset(b);
    }
  }

  method ListValues(m: map<string, Order>) returns (orders: seq<Order>)
    requires forall id :: id in m ==> m[id].id == id
    ensures ListsAll(m, orders)
  {
    orders := [];
    var todo := m.Keys;
    while todo != {}
      invariant todo <= m.Keys
      invariant DistinctIds(orders)
      invariant forall o :: o in orders ==> o.id in m && m[o.id] == o && o.id !in todo
      invariant forall id :: id in m && id !in todo ==> m[id] in orders
      decreases |todo|
    {
      var id :| id in todo;
      orders := orders + [m[id]];
      todo := todo - {id};
    }
  }

  method MergeBrokerOrders(live: seq<Order>, recent: seq<Order>) returns (merged: seq<Order>)
    ensures ListsAll(LatestById(live + recent), merged) && Ordering.Sorted(NewestFirst, merged)
    ensures forall i, j :: 0 <= i < j < |merged| ==> merged[i].updatedAt >= merged[j].updatedAt
    ensures forall i, j :: 0 <= i < j < |merged| && merged[i].updatedAt == merged[j].updatedAt ==>
      Ordering.StringLess(merged[i].id, merged[j].id)
  {
    var all := live + recent;
    var byID: map<string, Order> := map[];
    for i := 0 to |all|
      invariant byID == LatestById(all[..i])
    {
      assert all[..i + 1][..i] == all[..i];
      if all[i].id != "" {
        byID := byID[all[i].id := all[i]];
      }
    }
    assert all[..|all|] == all;
    LatestIsLast(all);
    var listed := ListValues(byID);
    NewestFirstStrictWeak();
    Ordering.SortSorted(NewestFirst, listed);
    merged := Ordering.Sort(NewestFirst, listed);
    PermutedListing(byID, listed, merged);
    NewestFirstMeans(merged);
  }

  lemma NewestFirstMeans(orders: seq<Order>)
    requires DistinctIds(orders) && Ordering.Sorted(NewestFirst, orders)
    ensures forall i, j :: 0 <= i < j < |orders| ==> orders[i].updatedAt >= orders[j].updatedAt
    ensures forall i, j :: 0 <= i < j < |orders| && orders[i].updatedAt == orders[j].updatedAt ==>
      Ordering.StringLess(orders[i].id, orders[j].id)
  {
    forall i, j | 0 <= i < j < |orders|
      ensures orders[i].updatedAt >= orders[j].updatedAt
      ensures orders[i].updatedAt == orders[j].updatedAt ==> Ordering.StringLess(orders[i].id, orders[j].id)
    {
      assert !NewestFirst(orders[j], orders[i]);
      Ordering.StringLessTotal(orders[i].id, orders[j].id);
    }
  }

  // ---- Classification ----

  /** The elements that satisfy `p`, in their order. */
  function Where<T>(p: T -> bool, s: seq<T>): seq<T> {
    if s == [] then [] else Where(p, s[..|s| - 1]) + if p(s[|s| - 1]) then [s[|s| - 1]] else []
  }

  lemma WhereMore<T>(p: T -> bool, s: seq<T>, i: nat)
    requires i < |s|
    ensures Where(p, s[..i + 1]) == Where(p, s[..i]) + if p(s[i]) then [s[i]] else []
  {
    assert s[..i + 1][..i] == s[..i];
  }

  function OnAccount(account: string): Record -> bool {
    (r: Record) => r.identity.accountID == account
  }

  function HasHash(hash: string): Record -> bool {
    (r: Record) => r.identity.orderHash == hash
  }

  function Fingerprinted(f: Fingerprint, hash: string): Order -> bool {
    (o: Order) => f(o) == Some(hash)
  }

  function HasOutcome(outcome: string): Entry -> bool {
    (e: Entry) => e.outcome == outcome
  }

  function LocalEntry(r: Record, matches: seq<Order>, locals: seq<Record>): Entry {
    var (key, hash) := (r.identity.key, r.identity.orderHash);
    if |matches| == 1 && |locals| == 1 then Entry(PLAUSIBLE, key, Some(r.state), hash, matches[0].id, matches[0].status)
    else if |matches| == 0 && r.state == SubmitIdentities.InFlight then Entry(UNMATCHED, key, Some(r.state), hash, "", "")
    else Entry(AMBIGUOUS, key, Some(r.state), hash, "", "")
  }

  function LocalEntries(f: Fingerprint, local: seq<Record>, orders: seq<Order>): seq<Entry> {
    seq(|local|, i requires 0 <= i < |local| => EntryFor(f, local, orders, local[i]))
  }

  function EntryFor(f: Fingerprint, local: seq<Record>, orders: seq<Order>, r: Record): Entry {
    LocalEntry(r, Where(Fingerprinted(f, r.identity.orderHash), orders), Where(HasHash(r.identity.orderHash), local))
  }

  /** A broker order gets an entry of its own when it has no hash, or none that a local record has. */
  function BrokerEntry(f: Fingerprint, local: seq<Record>, o: Order): seq<Entry> {
    match f(o)
    case None => [Entry(AMBIGUOUS, "", None, "", o.id, o.status)]
    case Some(hash) => if Where(HasHash(hash), local) == [] then [Entry(UNKNOWN, "", None, hash, o.id, o.status)] else []
  }

  function BrokerEntries(f: Fingerprint, local: seq<Record>, orders: seq<Order>): seq<Entry> {
    if orders == [] then []
    else BrokerEntries(f, local, orders[..|orders| - 1]) + BrokerEntry(f, local, orders[|orders| - 1])
  }

  function Compared(f: Fingerprint, local: seq<Record>, orders: seq<Order>): seq<Entry> {
    LocalEntries(f, local, orders) + BrokerEntries(f, local, orders)
  }

  predicate EntryOrder(a: Entry, b: Entry) {
    if a.outcome != b.outcome then Ordering.StringLess(a.outcome, b.outcome)
    else if a.key != b.key then Ordering.StringLess(a.key, b.key)
    else Ordering.StringLess(a.brokerID, b.brokerID)
  }

  // ---- The comparison, in its loops ----

  function Group<T>(m: map<string, seq<T>>, hash: string): seq<T> {
    if hash in m then m[hash] else []
  }

  method FilterLocalRecords(records: seq<Record>, account: string) returns (local: seq<Record>)
    ensures local == Locals(records, account)
  {
    var filtered: seq<Record> := [];
    for i := 0 to |records|
      invariant filtered == Where(OnAccount(account), records[..i])
    {
      WhereMore(OnAccount(account), records, i);
      if records[i].identity.accountID == account {
        filtered := filtered + [records[i]];
      }
    }
    assert records[..|records|] == records;
    local := Ordering.Sort(SubmitIdentities.KeyOrder, filtered);
  }

  method GroupLocals(local: seq<Record>) returns (byHash: map<string, seq<Record>>)
    ensures forall hash :: Group(byHash, hash) == Where(HasHash(hash), local)
  {
    byHash := map[];
    for i := 0 to |local|
      invariant forall hash :: Group(byHash, hash) == Where(HasHash(hash), local[..i])
    {
      var own := local[i].identity.orderHash;
      byHash := byHash[own := Group(byHash, own) + [local[i]]];
      forall hash ensures Group(byHash, hash) == Where(HasHash(hash), local[..i + 1]) {
        WhereMore(HasHash(hash), local, i);
      }
    }
    assert local[..|local|] == local;
  }

  /** The first `n` orders are in: by hash the orders; by ID the hash, or the empty text. */
  ghost predicate Grouped(f: Fingerprint, orders: seq<Order>, n: nat, byHash: map<string, seq<Order>>, hashByID: map<string, string>)
    requires n <= |orders|
  {
    && (forall hash :: Group(byHash, hash) == Where(Fingerprinted(f, hash), orders[..n]))
    && (forall k :: 0 <= k < n ==> orders[k].id in hashByID && hashByID[orders[k].id] == HashText(f, orders[k]))
  }

  method GroupOrders(f: Fingerprint, orders: seq<Order>) returns (byHash: map<string, seq<Order>>, hashByID: map<string, string>)
    requires DistinctIds(orders)
    ensures Grouped(f, orders, |orders|, byHash, hashByID)
  {
    byHash, hashByID := map[], map[];
    for i := 0 to |orders|
      invariant Grouped(f, orders, i, byHash, hashByID)
    {
      byHash, hashByID := GroupOneMore(f, orders, i, byHash, hashByID);
    }
  }

  method GroupOneMore(f: Fingerprint, orders: seq<Order>, i: nat, byHash: map<string, seq<Order>>, hashByID: map<string, string>)
    returns (byHash': map<string, seq<Order>>, hashByID': map<string, string>)
    requires i < |orders| && DistinctIds(orders) && Grouped(f, orders, i, byHash, hashByID)
    ensures Grouped(f, orders, i + 1, byHash', hashByID')
  {
    var o := orders[i];
    hashByID' := hashByID[o.id := HashText(f, o)];
    byHash' := byHash;
    if f(o).Some? {
      var own := f(o).value;
      byHash' := byHash[own := Group(byHash, own) + [o]];
    }
    forall hash ensures Group(byHash', hash) == Where(Fingerprinted(f, hash), orders[..i + 1]) {
      assert Group(byHash, hash) == Where(Fingerprinted(f, hash), orders[..i]);
      WhereMore(Fingerprinted(f, hash), orders, i);
    }
    assert forall k :: 0 <= k < i ==> orders[k].id != o.id;
  }

  function HashText(f: Fingerprint, o: Order): string {
    match f(o)
    case None => ""
    case Some(hash) => hash
  }

  method CompareLocalSubmitStateToBroker(f: Fingerprint, account: string, records: seq<Record>, live: seq<Order>, recent: seq<Order>)
    returns (results: seq<Entry>, orders: seq<Order>)
    ensures Compares(f, account, records, live, recent, results, orders)
  {
    var local := FilterLocalRecords(records, account);
    orders := MergeBrokerOrders(live, recent);
    var entries := Classify(f, local, orders);
    EntryOrderStrictWeak();
    Ordering.SortSorted(EntryOrder, entries);
    results := Ordering.Sort(EntryOrder, entries);
  }

  /** The orders are the merged list, newest first; the results are the entries, sorted. */
  ghost predicate Compares(f: Fingerprint, account: string, records: seq<Record>, live: seq<Order>, recent: seq<Order>,
                           results: seq<Entry>, orders: seq<Order>)
  {
    && ListsAll(LatestById(live + recent), orders) && Ordering.Sorted(NewestFirst, orders)
    && Ordering.Sorted(EntryOrder, results)
    && multiset(results) == multiset(Compared(f, Locals(records, account), orders))
  }

  function Locals(records: seq<Record>, account: string): seq<Record> {
    Ordering.Sort(SubmitIdentities.KeyOrder, Where(OnAccount(account), records))
  }

  method Classify(f: Fingerprint, local: seq<Record>, orders: seq<Order>) returns (entries: seq<Entry>)
    requires DistinctIds(orders)
    ensures entries == Compared(f, local, orders)
  {
    var localByHash := GroupLocals(local);
    var orderByHash, hashByID := GroupOrders(f, orders);
    assert orders[..|orders|] == orders;
    entries := ClassifyLocals(f, local, orders, localByHash, orderByHash);
    var alone := ClassifyOrders(f, local, orders, localByHash, hashByID);
    entries := entries + alone;
  }

  ghost predicate GroupedBy(f: Fingerprint, local: seq<Record>, orders: seq<Order>,
                            localByHash: map<string, seq<Record>>, orderByHash: map<string, seq<Order>>)
  {
    && (forall hash :: Group(localByHash, hash) == Where(HasHash(hash), local))
    && (forall hash :: Group(orderByHash, hash) == Where(Fingerprinted(f, hash), orders))
  }

  method ClassifyLocal(f: Fingerprint, local: seq<Record>, orders: seq<Order>,
                       localByHash: map<string, seq<Record>>, orderByHash: map<string, seq<Order>>, r: Record) returns (entry: Entry)
    requires GroupedBy(f, local, orders, localByHash, orderByHash)
    ensures entry == EntryFor(f, local, orders, r)
  {
    var hash := r.identity.orderHash;
    entry := LocalEntry(r, Group(orderByHash, hash), Group(localByHash, hash));
  }

  /** The first loop: one entry for each local record. */
  method ClassifyLocals(f: Fingerprint, local: seq<Record>, orders: seq<Order>,
                        localByHash: map<string, seq<Record>>, orderByHash: map<string, seq<Order>>) returns (entries: seq<Entry>)
    requires GroupedBy(f, local, orders, localByHash, orderByHash)
    ensures entries == LocalEntries(f, local, orders)
  {
    entries := [];
    for i := 0 to |local|
      invariant |entries| == i && forall k :: 0 <= k < i ==> entries[k] == EntryFor(f, local, orders, local[k])
    {
      var entry := ClassifyLocal(f, local, orders, localByHash, orderByHash, local[i]);
      entries := entries + [entry];
    }
    EntriesAre(f, local, orders, entries);
  }

  lemma EntriesAre(f: Fingerprint, local: seq<Record>, orders: seq<Order>, entries: seq<Entry>)
    requires |entries| == |local| && forall k :: 0 <= k < |local| ==> entries[k] == EntryFor(f, local, orders, local[k])
    ensures entries == LocalEntries(f, local, orders)
  {
  }

  /** The second loop: broker orders that no local record accounts for. */
  method ClassifyOrders(f: Fingerprint, local: seq<Record>, orders: seq<Order>,
                        localByHash: map<string, seq<Record>>, hashByID: map<string, string>) returns (entries: seq<Entry>)
    requires forall hash :: Group(localByHash, hash) == Where(HasHash(hash), local)
    requires forall i :: 0 <= i < |orders| ==> orders[i].id in hashByID && hashByID[orders[i].id] == HashText(f, orders[i])
    ensures entries == BrokerEntries(f, local, orders)
  {
    entries := [];
    for i := 0 to |orders|
      invariant entries == BrokerEntries(f, local, orders[..i])
    {
      var o := orders[i];
      var hash := hashByID[o.id];
      assert orders[..i + 1][..i] == orders[..i];
      if hash == "" {
        entries := entries + [Entry(AMBIGUOUS, "", None, "", o.id, o.status)];
      } else if |Group(localByHash, hash)| == 0 {
        entries := entries + [Entry(UNKNOWN, "", None, hash, o.id, o.status)];
      }
    }
    assert orders[..|orders|] == orders;
  }

  lemma EntryOrderStrictWeak()
    ensures Ordering.StrictWeak(EntryOrder)
  {
    forall x, y | EntryOrder(x, y) ensures !EntryOrder(y, x) {
      EntryOrderAsymmetric(x, y);
    }
    forall x, y, z | EntryOrder(x, y) ensures EntryOrder(x, z) || EntryOrder(z, y) {
      EntryOrderSplits(x, y, z);
    }
  }

  lemma EntryOrderAsymmetric(x: Entry, y: Entry)
    requires EntryOrder(x, y)
    ensures !EntryOrder(y, x)
  {
    if x.outcome != y.outcome {
      Ordering.StringLessAsymmetric(x.outcome, y.outcome);
    } else if x.key != y.key {
      Ordering.StringLessAsymmetric(x.key, y.key);
    } else {
      Ordering.StringLessAsymmetric(x.brokerID, y.brokerID);
    }
  }

  lemma EntryOrderSplits(x: Entry, y: Entry, z: Entry)
    requires EntryOrder(x, y)
    ensures EntryOrder(x, z) || EntryOrder(z, y)
  {
    if x.outcome != y.outcome {
      Ordering.StringLessSplits(x.outcome, y.outcome, z.outcome);
    } else if x.key != y.key {
      Ordering.StringLessSplits(x.key, y.key, z.key);
      Ordering.StringLessTotal(x.outcome, z.outcome);
    } else {
      Ordering.StringLessSplits(x.brokerID, y.brokerID, z.brokerID);
      Ordering.StringLessTotal(x.outcome, z.outcome);
      Ordering.StringLessTotal(x.key, z.key);
    }
  }

  // ---- Filter and summary ----

  /** The filter looks for the text as given; only whether there is one is decided on the trimmed text. */
  method FilterResultsByOutcome(results: seq<Entry>, outcome: string) returns (filtered: seq<Entry>)
    ensures filtered == Filtered(results, outcome)
  {
    if TrimSpace(outcome) == "" {
      return results;
    }
    filtered := [];
    for i := 0 to |results|
      invariant filtered == Where(HasOutcome(outcome), results[..i])
    {
      WhereMore(HasOutcome(outcome), results, i);
      if results[i].outcome == outcome {
        filtered := filtered + [results[i]];
      }
    }
    assert results[..|results|] == results;
  }

  function Filtered(results: seq<Entry>, outcome: string): seq<Entry> {
    if TrimSpace(outcome) == "" then results else Where(HasOutcome(outcome), results)
  }

  /** What the command accepts as a filter. */
  predicate ValidFilter(outcome: string) {
    var trimmed := TrimSpace(outcome);
    trimmed == "" || trimmed == PLAUSIBLE || trimmed == UNMATCHED || trimmed == UNKNOWN || trimmed == AMBIGUOUS
  }

  function Tally(entries: seq<Entry>, outcome: string): nat {
    |Where(HasOutcome(outcome), entries)|
  }

  function CountIn(counts: map<string, nat>, outcome: string): nat {
    if outcome in counts then counts[outcome] else 0
  }

  method SummarizeResults(results: seq<Entry>) returns (summary: seq<(string, nat)>)
    ensures summary == [(PLAUSIBLE, Tally(results, PLAUSIBLE)), (UNMATCHED, Tally(results, UNMATCHED)),
                        (UNKNOWN, Tally(results, UNKNOWN)), (AMBIGUOUS, Tally(results, AMBIGUOUS))]
  {
    var counts: map<string, nat> := map[AMBIGUOUS := 0, UNKNOWN := 0, UNMATCHED := 0, PLAUSIBLE := 0];
    for i := 0 to |results|
      invariant forall outcome :: CountIn(counts, outcome) == Tally(results[..i], outcome)
    {
      var own := results[i].outcome;
      ghost var was := counts;
      counts := counts[own := CountIn(counts, own) + 1];
      forall outcome ensures CountIn(counts, outcome) == Tally(results[..i + 1], outcome) {
        assert CountIn(was, outcome) == Tally(results[..i], outcome);
        WhereMore(HasOutcome(outcome), results, i);
      }
    }
    assert results[..|results|] == results;
    summary := [(PLAUSIBLE, CountIn(counts, PLAUSIBLE)), (UNMATCHED, CountIn(counts, UNMATCHED)),
                (UNKNOWN, CountIn(counts, UNKNOWN)), (AMBIGUOUS, CountIn(counts, AMBIGUOUS))];
  }
}
