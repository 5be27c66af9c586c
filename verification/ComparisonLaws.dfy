/** What the comparison guarantees: no local record and no broker order is lost, a match is claimed only
    when it is one to one, each broker order is named at most once, the totals add up, and the output does
    not depend on the order of anything. */
module ComparisonLaws {
  import opened Common
  import Ordering
  import SubmitIdentities
  import opened OrderComparison

  // ---- Filtering a sequence ----

  ghost predicate OnlyAt<T>(p: T -> bool, s: seq<T>, k: nat) {
    k < |s| && p(s[k]) && forall j :: 0 <= j < |s| && j != k ==> !p(s[j])
  }

  lemma {:induction false} WhereMembers<T>(p: T -> bool, s: seq<T>)
    ensures forall x :: x in Where(p, s) <==> x in s && p(x)
  {
    if s != [] {
      var (init, last) := (s[..|s| - 1], s[|s| - 1]);
      WhereMembers(p, init);
      assert s == init + [last];
    }
  }

  lemma WhereNone<T>(p: T -> bool, s: seq<T>)
    ensures Where(p, s) == [] <==> forall j :: 0 <= j < |s| ==> !p(s[j])
  {
    WhereMembers(p, s);
    if Where(p, s) != [] {
      assert Where(p, s)[0] in Where(p, s);
    }
    forall j | 0 <= j < |s| && p(s[j]) ensures Where(p, s) != [] {
      assert s[j] in Where(p, s);
    }
  }

  lemma {:induction false} WhereOne<T>(p: T -> bool, s: seq<T>, k: nat)
    requires k < |s| && p(s[k])
    ensures |Where(p, s)| == 1 <==> OnlyAt(p, s, k)
    ensures |Where(p, s)| == 1 ==> Where(p, s)[0] == s[k]
  {
    var (init, n) := (s[..|s| - 1], |s| - 1);
    WhereNone(p, init);
    if k < n {
      WhereOne(p, init, k);
      assert init[k] == s[k];
      assert |Where(p, init)| > 0;
      assert forall j :: 0 <= j < n ==> init[j] == s[j];
    }
  }

  /** `ix` are the places that satisfy `p`, in order, and `kept` what stands there. */
  ghost predicate Picks<T>(p: T -> bool, s: seq<T>, ix: seq<nat>, kept: seq<T>) {
    && |ix| == |kept|
    && (forall k :: 0 <= k < |ix| ==> ix[k] < |s| && kept[k] == s[ix[k]] && p(s[ix[k]]))
    && (forall k, l :: 0 <= k < l < |ix| ==> ix[k] < ix[l])
    && (forall i :: 0 <= i < |s| && p(s[i]) ==> i in ix)
  }

  /** The elements kept are those that satisfy `p`, each once, in the order in which they stood. */
  lemma {:induction false} WhereIsInOrder<T>(p: T -> bool, s: seq<T>) returns (ix: seq<nat>)
    ensures Picks(p, s, ix, Where(p, s))
  {
    ix := [];
    if s != [] {
      var (init, last) := (s[..|s| - 1], s[|s| - 1]);
      ix := WhereIsInOrder(p, init);
      PicksOneMore(p, init, ix, Where(p, init), last);
      assert s == init + [last];
      if p(last) {
        ix := ix + [|init|];
      } else {
        assert Where(p, init) + [] == Where(p, init);
      }
    }
  }

  lemma PicksOneMore<T>(p: T -> bool, s: seq<T>, ix: seq<nat>, kept: seq<T>, x: T)
    requires Picks(p, s, ix, kept)
    ensures if p(x) then Picks(p, s + [x], ix + [|s|], kept + [x]) else Picks(p, s + [x], ix, kept)
  {
    if p(x) {
      forall i | 0 <= i < |s + [x]| && p((s + [x])[i]) ensures i in ix + [|s|] {
        if i < |s| {
          assert i in ix;
        } else {
          assert (ix + [|s|])[|ix|] == i;
        }
      }
    }
  }

  // ---- Local records ----

  /** The records compared are exactly those of the account, each as often as it is listed, in key order. */
  lemma LocalsMean(records: seq<Record>, account: string)
    ensures forall r :: r in Locals(records, account) <==> r in records && r.identity.accountID == account
    ensures forall r :: multiset(Locals(records, account))[r] == if r.identity.accountID == account then multiset(records)[r] else 0
    ensures forall i, j :: 0 <= i < j < |Locals(records, account)| ==>
      !Ordering.StringLess(Locals(records, account)[j].identity.key, Locals(records, account)[i].identity.key)
  {
    var local := Locals(records, account);
    WhereMembers(OnAccount(account), records);
    forall r ensures r in local <==> r in records && r.identity.accountID == account {
      assert r in local <==> r in multiset(local);
      assert r in Where(OnAccount(account), records) <==> r in multiset(Where(OnAccount(account), records));
    }
    forall r ensures multiset(local)[r] == if r.identity.accountID == account then multiset(records)[r] else 0 {
      WhereCounts(OnAccount(account), records, r);
    }
    SubmitIdentities.KeyOrderStrictWeak();
    Ordering.SortSorted(SubmitIdentities.KeyOrder, Where(OnAccount(account), records));
    forall i, j | 0 <= i < j < |local| ensures !Ordering.StringLess(local[j].identity.key, local[i].identity.key) {
      assert !SubmitIdentities.KeyOrder(local[j], local[i]);
    }
  }

  lemma {:induction false} WhereCounts<T>(p: T -> bool, s: seq<T>, x: T)
    ensures multiset(Where(p, s))[x] == if p(x) then multiset(s)[x] else 0
  {
    if s != [] {
      var (init, last) := (s[..|s| - 1], s[|s| - 1]);
      WhereCounts(p, init, x);
      assert s == init + [last];
    }
  }

  /** Sorted results: by outcome, then by identity, then by broker ID. */
  lemma ResultsOrderMeans(results: seq<Entry>, i: nat, j: nat)
    requires Ordering.Sorted(EntryOrder, results) && i < j < |results|
    ensures var (a, b) := (results[i], results[j]);
      || Ordering.StringLess(a.outcome, b.outcome)
      || (a.outcome == b.outcome && Ordering.StringLess(a.key, b.key))
      || (a.outcome == b.outcome && a.key == b.key && !Ordering.StringLess(b.brokerID, a.brokerID))
  {
    assert !EntryOrder(results[j], results[i]);
    Ordering.StringLessTotal(results[i].outcome, results[j].outcome);
    Ordering.StringLessTotal(results[i].key, results[j].key);
  }

  /** One entry for each local record, in place, and none of the others is a local record's. */
  lemma OneEntryPerLocal(f: Fingerprint, local: seq<Record>, orders: seq<Order>)
    ensures var entries := Compared(f, local, orders);
      && |entries| == |local| + |BrokerEntries(f, local, orders)|
      && (forall i :: 0 <= i < |local| ==>
            && entries[i].key == local[i].identity.key && entries[i].state == Some(local[i].state)
            && entries[i].hash == local[i].identity.orderHash)
      && (forall i :: |local| <= i < |entries| ==> entries[i].state == None && entries[i].key == "")
  {
    BrokerEntriesShape(f, local, orders);
  }

  lemma {:induction false} BrokerEntriesShape(f: Fingerprint, local: seq<Record>, orders: seq<Order>)
    ensures forall e :: e in BrokerEntries(f, local, orders) ==>
      e.state == None && e.key == "" && (e.outcome == AMBIGUOUS || e.outcome == UNKNOWN)
  {
    if orders != [] {
      BrokerEntriesShape(f, local, orders[..|orders| - 1]);
    }
  }

  /** A plausible match says exactly that this record and one broker order have a hash that no other record and
      no other order has; and it names that order. */
  lemma PlausibleIffOneToOne(f: Fingerprint, local: seq<Record>, orders: seq<Order>, i: nat)
    requires i < |local|
    ensures var (e, hash) := (LocalEntries(f, local, orders)[i], local[i].identity.orderHash);
      && (e.outcome == PLAUSIBLE <==> OnlyAt(HasHash(hash), local, i) && exists k :: OnlyAt(Fingerprinted(f, hash), orders, k))
      && (forall k :: e.outcome == PLAUSIBLE && 0 <= k < |orders| && f(orders[k]) == Some(hash) ==>
            e.brokerID == orders[k].id && e.brokerStatus == orders[k].status)
      && (e.outcome == UNMATCHED <==>
            local[i].state == SubmitIdentities.InFlight && forall k :: 0 <= k < |orders| ==> f(orders[k]) != Some(hash))
      && (e.outcome == PLAUSIBLE || e.outcome == UNMATCHED || e.outcome == AMBIGUOUS)
      && (e.outcome != PLAUSIBLE ==> e.brokerID == "" && e.brokerStatus == "")
  {
    var hash := local[i].identity.orderHash;
    WhereOne(HasHash(hash), local, i);
    WhereNone(Fingerprinted(f, hash), orders);
    forall k | 0 <= k < |orders| && f(orders[k]) == Some(hash)
      ensures |Where(Fingerprinted(f, hash), orders)| == 1 <==> OnlyAt(Fingerprinted(f, hash), orders, k)
      ensures |Where(Fingerprinted(f, hash), orders)| == 1 ==> Where(Fingerprinted(f, hash), orders)[0] == orders[k]
    {
      WhereOne(Fingerprinted(f, hash), orders, k);
    }
  }

  // ---- Broker orders ----

  /** No local record accounts for the order. */
  function Alone(f: Fingerprint, local: seq<Record>): Order -> bool {
    (o: Order) => f(o) == None || Where(HasHash(f(o).value), local) == []
  }

  function OwnEntry(f: Fingerprint, o: Order): Entry {
    if f(o) == None then Entry(AMBIGUOUS, "", None, "", o.id, o.status)
    else Entry(UNKNOWN, "", None, f(o).value, o.id, o.status)
  }

  function AloneOrders(f: Fingerprint, local: seq<Record>, orders: seq<Order>): seq<Order> {
    Where(Alone(f, local), orders)
  }

  /** The broker's own entries are one for each order that no record accounts for. */
  lemma {:induction false} BrokerEntriesAre(f: Fingerprint, local: seq<Record>, orders: seq<Order>)
    ensures |BrokerEntries(f, local, orders)| == |AloneOrders(f, local, orders)|
    ensures forall i :: 0 <= i < |AloneOrders(f, local, orders)| ==>
      BrokerEntries(f, local, orders)[i] == OwnEntry(f, AloneOrders(f, local, orders)[i])
  {
    if orders != [] {
      BrokerEntriesAre(f, local, orders[..|orders| - 1]);
    }
  }

  /** Which orders get an entry of their own, and what it says. */
  lemma BrokerEntryMeans(f: Fingerprint, local: seq<Record>, orders: seq<Order>, i: nat) returns (o: Order)
    requires i < |BrokerEntries(f, local, orders)|
    ensures o in orders
    ensures var e := BrokerEntries(f, local, orders)[i];
      && e.brokerID == o.id && e.brokerStatus == o.status && e.key == "" && e.state == None
      && (if f(o) == None then e.outcome == AMBIGUOUS && e.hash == ""
          else e.outcome == UNKNOWN && e.hash == f(o).value && forall k :: 0 <= k < |local| ==> local[k].identity.orderHash != e.hash)
  {
    BrokerEntriesAre(f, local, orders);
    o := AloneOrders(f, local, orders)[i];
    WhereMembers(Alone(f, local), orders);
    if f(o).Some? {
      WhereNone(HasHash(f(o).value), local);
    }
  }

  lemma {:induction false} WhereDistinct(p: Order -> bool, orders: seq<Order>)
    requires DistinctIds(orders)
    ensures DistinctIds(Where(p, orders))
  {
    if orders != [] {
      var (init, last) := (orders[..|orders| - 1], orders[|orders| - 1]);
      WhereDistinct(p, init);
      WhereMembers(p, init);
      forall i | 0 <= i < |Where(p, init)| ensures Where(p, init)[i].id != last.id {
        assert Where(p, init)[i] in init;
      }
    }
  }

  /** The order that a local record's entry names. */
  lemma MatchedOrder(f: Fingerprint, local: seq<Record>, orders: seq<Order>, i: nat) returns (k: nat)
    requires i < |local| && LocalEntries(f, local, orders)[i].brokerID != ""
    ensures k < |orders| && f(orders[k]) == Some(local[i].identity.orderHash)
    ensures orders[k].id == LocalEntries(f, local, orders)[i].brokerID
    ensures OnlyAt(HasHash(local[i].identity.orderHash), local, i)
  {
    var hash := local[i].identity.orderHash;
    PlausibleIffOneToOne(f, local, orders, i);
    k :| OnlyAt(Fingerprinted(f, hash), orders, k);
    assert f(orders[k]) == Some(hash);
  }

  lemma TwoLocalsNameTwo(f: Fingerprint, local: seq<Record>, orders: seq<Order>, i: nat, j: nat)
    requires DistinctIds(orders) && i < j < |local|
    ensures var entries := LocalEntries(f, local, orders); entries[i].brokerID != "" ==> entries[i].brokerID != entries[j].brokerID
  {
    var entries := LocalEntries(f, local, orders);
    if entries[i].brokerID != "" && entries[i].brokerID == entries[j].brokerID {
      var k := MatchedOrder(f, local, orders, i);
      var l := MatchedOrder(f, local, orders, j);
    }
  }

  lemma LocalAndOwnNameTwo(f: Fingerprint, local: seq<Record>, orders: seq<Order>, i: nat, o: Order)
    requires DistinctIds(orders) && i < |local| && o in AloneOrders(f, local, orders)
    ensures LocalEntries(f, local, orders)[i].brokerID != "" ==> LocalEntries(f, local, orders)[i].brokerID != o.id
  {
    WhereMembers(Alone(f, local), orders);
    if LocalEntries(f, local, orders)[i].brokerID != "" {
      var k := MatchedOrder(f, local, orders, i);
      WhereNone(HasHash(local[i].identity.orderHash), local);
      assert HasHash(local[i].identity.orderHash)(local[i]);
    }
  }

  /** No broker order is named by two entries. */
  lemma EachBrokerIdOnce(f: Fingerprint, local: seq<Record>, orders: seq<Order>, i: nat, j: nat)
    requires DistinctIds(orders) && i < j < |Compared(f, local, orders)|
    ensures var entries := Compared(f, local, orders); entries[i].brokerID != "" ==> entries[i].brokerID != entries[j].brokerID
  {
    var n := |local|;
    ComparedAt(f, local, orders, i);
    ComparedAt(f, local, orders, j);
    if j < n {
      TwoLocalsNameTwo(f, local, orders, i, j);
    } else if i < n {
      var o := OwnNames(f, local, orders, j - n);
      LocalAndOwnNameTwo(f, local, orders, i, o);
    } else {
      TwoOwnNameTwo(f, local, orders, i - n, j - n);
    }
  }

  lemma ComparedAt(f: Fingerprint, local: seq<Record>, orders: seq<Order>, i: nat)
    requires i < |Compared(f, local, orders)|
    ensures Compared(f, local, orders)[i] ==
      if i < |local| then LocalEntries(f, local, orders)[i] else BrokerEntries(f, local, orders)[i - |local|]
  {
  }

  lemma TwoOwnNameTwo(f: Fingerprint, local: seq<Record>, orders: seq<Order>, i: nat, j: nat)
    requires DistinctIds(orders) && i < j < |BrokerEntries(f, local, orders)|
    ensures BrokerEntries(f, local, orders)[i].brokerID != BrokerEntries(f, local, orders)[j].brokerID
  {
    BrokerEntriesAre(f, local, orders);
    WhereDistinct(Alone(f, local), orders);
    var alone := AloneOrders(f, local, orders);
    assert alone[i].id != alone[j].id;
  }

  lemma OwnNames(f: Fingerprint, local: seq<Record>, orders: seq<Order>, j: nat) returns (o: Order)
    requires j < |BrokerEntries(f, local, orders)|
    ensures o in AloneOrders(f, local, orders) && o.id == BrokerEntries(f, local, orders)[j].brokerID
  {
    BrokerEntriesAre(f, local, orders);
    o := AloneOrders(f, local, orders)[j];
  }

  /** A broker order that no entry names has a hash that local records have, and each of those is reported
      ambiguous. */
  lemma UnnamedIsAmbiguous(f: Fingerprint, local: seq<Record>, orders: seq<Order>, k: nat)
    requires k < |orders|
    requires forall e :: e in Compared(f, local, orders) ==> e.brokerID != orders[k].id
    ensures f(orders[k]).Some?
    ensures exists i :: 0 <= i < |local| && local[i].identity.orderHash == f(orders[k]).value
    ensures forall i :: 0 <= i < |local| && local[i].identity.orderHash == f(orders[k]).value ==>
      LocalEntries(f, local, orders)[i].outcome == AMBIGUOUS
  {
    UnnamedIsNotAlone(f, local, orders, k);
    WhereNone(HasHash(f(orders[k]).value), local);
    forall i | 0 <= i < |local| && local[i].identity.orderHash == f(orders[k]).value
      ensures LocalEntries(f, local, orders)[i].outcome == AMBIGUOUS
    {
      PlausibleIffOneToOne(f, local, orders, i);
      assert LocalEntries(f, local, orders)[i] in Compared(f, local, orders);
    }
  }

  lemma UnnamedIsNotAlone(f: Fingerprint, local: seq<Record>, orders: seq<Order>, k: nat)
    requires k < |orders|
    requires forall e :: e in Compared(f, local, orders) ==> e.brokerID != orders[k].id
    ensures !Alone(f, local)(orders[k])
  {
    BrokerEntriesAre(f, local, orders);
    WhereMembers(Alone(f, local), orders);
    var alone := AloneOrders(f, local, orders);
    forall i | 0 <= i < |alone| ensures alone[i] != orders[k] {
      assert BrokerEntries(f, local, orders)[i] in Compared(f, local, orders);
    }
  }

  // ---- Totals ----

  predicate Classified(e: Entry) {
    e.outcome == PLAUSIBLE || e.outcome == UNMATCHED || e.outcome == UNKNOWN || e.outcome == AMBIGUOUS
  }

  lemma OutcomesDiffer()
    ensures PLAUSIBLE != UNMATCHED && PLAUSIBLE != UNKNOWN && PLAUSIBLE != AMBIGUOUS
    ensures UNMATCHED != UNKNOWN && UNMATCHED != AMBIGUOUS && UNKNOWN != AMBIGUOUS
  {
    assert |PLAUSIBLE| == 26 && |UNMATCHED| == 31 && |UNKNOWN| == 27 && |AMBIGUOUS| == 9;
  }

  lemma {:induction false} TallyOfAll(entries: seq<Entry>)
    requires forall e :: e in entries ==> Classified(e)
    ensures Tally(entries, PLAUSIBLE) + Tally(entries, UNMATCHED) + Tally(entries, UNKNOWN) + Tally(entries, AMBIGUOUS) == |entries|
  {
    if entries != [] {
      TallyOfAll(entries[..|entries| - 1]);
      OutcomesDiffer();
      assert Classified(entries[|entries| - 1]);
    }
  }

  lemma ComparedAreClassified(f: Fingerprint, local: seq<Record>, orders: seq<Order>)
    ensures forall e :: e in Compared(f, local, orders) ==> Classified(e)
  {
    BrokerEntriesShape(f, local, orders);
  }

  /** The four totals of what is shown add up to its length; unfiltered, to one for each local record and one
      for each order that none accounts for. */
  lemma TotalsAddUp(f: Fingerprint, local: seq<Record>, orders: seq<Order>, results: seq<Entry>, outcome: string)
    requires multiset(results) == multiset(Compared(f, local, orders))
    ensures |results| == |local| + |AloneOrders(f, local, orders)|
    ensures var shown := Filtered(results, outcome);
      Tally(shown, PLAUSIBLE) + Tally(shown, UNMATCHED) + Tally(shown, UNKNOWN) + Tally(shown, AMBIGUOUS) == |shown|
  {
    assert |results| == |multiset(results)| == |multiset(Compared(f, local, orders))| == |Compared(f, local, orders)|;
    BrokerEntriesAre(f, local, orders);
    ComparedAreClassified(f, local, orders);
    var shown := Filtered(results, outcome);
    WhereMembers(HasOutcome(outcome), results);
    forall e | e in shown ensures Classified(e) {
      assert e in multiset(results);
    }
    TallyOfAll(shown);
  }

  // ---- One output ----

  ghost predicate DistinctKeys(local: seq<Record>) {
    forall i, j :: 0 <= i < j < |local| ==> local[i].identity.key != local[j].identity.key
  }

  lemma EntriesSeparate(f: Fingerprint, local: seq<Record>, orders: seq<Order>)
    requires DistinctIds(orders) && DistinctKeys(local) && forall i :: 0 <= i < |local| ==> local[i].identity.key != ""
    ensures Ordering.Separates(EntryOrder, Compared(f, local, orders))
  {
    var entries := Compared(f, local, orders);
    forall x, y | x in entries && y in entries && x != y ensures EntryOrder(x, y) || EntryOrder(y, x) {
      var i :| 0 <= i < |entries| && entries[i] == x;
      var j :| 0 <= j < |entries| && entries[j] == y;
      TwoEntriesDiffer(f, local, orders, i, j);
      Ordering.StringLessTotal(x.outcome, y.outcome);
      Ordering.StringLessTotal(x.key, y.key);
      Ordering.StringLessTotal(x.brokerID, y.brokerID);
    }
  }

  lemma TwoEntriesDiffer(f: Fingerprint, local: seq<Record>, orders: seq<Order>, i: nat, j: nat)
    requires DistinctIds(orders) && DistinctKeys(local) && forall i :: 0 <= i < |local| ==> local[i].identity.key != ""
    requires i < |Compared(f, local, orders)| && j < |Compared(f, local, orders)| && i != j
    ensures var (x, y) := (Compared(f, local, orders)[i], Compared(f, local, orders)[j]);
      x.key != y.key || x.brokerID != y.brokerID
  {
    OneEntryPerLocal(f, local, orders);
    BrokerEntriesAre(f, local, orders);
    WhereDistinct(Alone(f, local), orders);
  }

  /** Given unique identities, the results are the only sorted arrangement of the entries: nothing about map
      iteration or the sorting algorithm shows. */
  lemma ResultsAreDetermined(f: Fingerprint, local: seq<Record>, orders: seq<Order>, results: seq<Entry>, others: seq<Entry>)
    requires DistinctIds(orders) && DistinctKeys(local) && forall i :: 0 <= i < |local| ==> local[i].identity.key != ""
    requires multiset(results) == multiset(Compared(f, local, orders)) == multiset(others)
    requires Ordering.Sorted(EntryOrder, results) && Ordering.Sorted(EntryOrder, others)
    ensures results == others
  {
    EntriesSeparate(f, local, orders);
    forall e ensures e in results <==> e in Compared(f, local, orders) {
      assert e in results <==> e in multiset(results);
    }
    Ordering.SortedUnique(EntryOrder, results, others);
  }

  lemma {:induction false} WhereKeepsKeys(p: Record -> bool, s: seq<Record>)
    requires DistinctKeys(s)
    ensures DistinctKeys(Where(p, s))
  {
    if s != [] {
      var (init, last) := (s[..|s| - 1], s[|s| - 1]);
      WhereKeepsKeys(p, init);
      WhereMembers(p, init);
      forall i | 0 <= i < |Where(p, init)| ensures Where(p, init)[i].identity.key != last.identity.key {
        assert Where(p, init)[i] in init;
      }
    }
  }

  lemma LocalsKeepKeys(records: seq<Record>, account: string)
    requires DistinctKeys(records)
    ensures DistinctKeys(Locals(records, account)) && forall r :: r in Locals(records, account) ==> r in records
  {
    var (found, local) := (Where(OnAccount(account), records), Locals(records, account));
    WhereKeepsKeys(OnAccount(account), records);
    WhereMembers(OnAccount(account), records);
    Ordering.RearrangedNoDuplicates(found, local);
    forall r ensures r in local <==> r in found {
      assert r in local <==> r in multiset(local);
    }
    forall i, j | 0 <= i < j < |local| ensures local[i].identity.key != local[j].identity.key {
      assert local[i] in found && local[j] in found && local[i] != local[j];
    }
  }

  /** Two runs on the same records and lists agree, whatever the maps and the sorting did. */
  lemma ComparisonIsAFunction(f: Fingerprint, account: string, records: seq<Record>, live: seq<Order>, recent: seq<Order>,
                              results: seq<Entry>, orders: seq<Order>, results': seq<Entry>, orders': seq<Order>)
    requires DistinctKeys(records) && forall r :: r in records ==> r.identity.key != ""
    requires Compares(f, account, records, live, recent, results, orders)
    requires Compares(f, account, records, live, recent, results', orders')
    ensures results == results' && orders == orders'
  {
    MergeIsDetermined(LatestById(live + recent), orders, orders');
    LocalsKeepKeys(records, account);
    ResultsAreDetermined(f, Locals(records, account), orders, results, results');
  }

  // ---- The filter's text ----

  lemma OutcomesAreTrimmed(outcome: string)
    requires outcome == PLAUSIBLE || outcome == UNMATCHED || outcome == UNKNOWN || outcome == AMBIGUOUS
    ensures TrimSpace(outcome) == outcome
  {
    TrimmedStays(outcome);
  }

  lemma UnknownTextShowsNothing(results: seq<Entry>, outcome: string)
    requires forall e :: e in results ==> e.outcome != outcome
    ensures Where(HasOutcome(outcome), results) == []
  {
    WhereNone(HasOutcome(outcome), results);
  }

  /** Every filter the command accepts shows what its trimmed text names, except that one with white space
      around an outcome shows nothing. */
  lemma FilterNeedsExactText(results: seq<Entry>, outcome: string)
    requires ValidFilter(outcome) && forall e :: e in results ==> Classified(e)
    ensures Filtered(results, outcome) == Filtered(results, TrimSpace(outcome)) <==>
      outcome == TrimSpace(outcome) || TrimSpace(outcome) == "" || Tally(results, TrimSpace(outcome)) == 0
    ensures outcome != TrimSpace(outcome) && TrimSpace(outcome) != "" ==> Filtered(results, outcome) == []
  {
    var trimmed := TrimSpace(outcome);
    if trimmed == "" {
      TrimmedStays("");
    } else {
      OutcomesAreTrimmed(trimmed);
      if outcome != trimmed {
        forall e | e in results ensures e.outcome != outcome {
          if e.outcome == outcome {
            OutcomesAreTrimmed(e.outcome);
          }
        }
        UnknownTextShowsNothing(results, outcome);
      }
    }
  }
}
