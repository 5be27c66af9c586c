/** The event bus, called by one goroutine at a time: a broker over bounded channels. `BusProtocol` has the
    same code as interleaved steps. */
module Bus {
  import opened Common

  /** A channel: what it holds, how many receivers are blocked on it, what its receivers got, in order, and
      how many events were offered to it in vain. */
  datatype Contents<T> = Contents(capacity: nat, buffer: seq<T>, closed: bool, waiting: nat, taken: seq<T>, missed: nat)

  predicate Full<T>(c: Contents<T>) {
    c.waiting == 0 && |c.buffer| >= c.capacity
  }

  /** A non-blocking send: to a receiver that waits, or into the buffer, or lost. */
  function Offer<T>(c: Contents<T>, v: T): Contents<T> {
    if c.waiting > 0 then c.(waiting := c.waiting - 1, taken := c.taken + [v])
    else if Full(c) then c.(missed := c.missed + 1)
    else c.(buffer := c.buffer + [v])
  }

  function OfferAll<T>(cs: seq<Contents<T>>, v: T): seq<Contents<T>> {
    seq(|cs|, i requires 0 <= i < |cs| => Offer(cs[i], v))
  }

  /** One offer, field by field: a waiting receiver gets the event; else it is buffered, last, if there is room;
      else it is missed. */
  ghost predicate GetsOrMisses<T>(c: Contents<T>, v: T, c': Contents<T>) {
    && c'.capacity == c.capacity && c'.closed == c.closed
    && (if c.waiting > 0 then
          c'.waiting == c.waiting - 1 && c'.taken == c.taken + [v] && c'.buffer == c.buffer && c'.missed == c.missed
        else
          && c'.waiting == 0 && c'.taken == c.taken
          && (|c.buffer| < c.capacity ==> c'.buffer == c.buffer + [v] && c'.missed == c.missed)
          && (|c.buffer| >= c.capacity ==> c'.buffer == c.buffer && c'.missed == c.missed + 1))
  }

  /** Closing sends every blocked receiver away with nothing. */
  function Closed<T>(c: Contents<T>): Contents<T> {
    c.(closed := true, waiting := 0)
  }

  function CloseAll<T>(cs: seq<Contents<T>>): seq<Contents<T>> {
    seq(|cs|, i requires 0 <= i < |cs| => Closed(cs[i]))
  }

  function TotalMissed<T>(cs: seq<Contents<T>>): nat {
    if cs == [] then 0 else TotalMissed(cs[..|cs| - 1]) + cs[|cs| - 1].missed
  }

  function CountFull<T>(cs: seq<Contents<T>>): nat {
    if cs == [] then 0 else CountFull(cs[..|cs| - 1]) + if Full(cs[|cs| - 1]) then 1 else 0
  }

  lemma CountOneMore<T>(cs: seq<Contents<T>>, i: nat)
    requires i < |cs|
    ensures CountFull(cs[..i + 1]) == CountFull(cs[..i]) + if Full(cs[i]) then 1 else 0
  {
    assert cs[..i + 1][..i] == cs[..i];
  }

  lemma OfferedEach<T>(cs: seq<Contents<T>>, v: T)
    ensures forall i :: 0 <= i < |cs| ==> GetsOrMisses(cs[i], v, OfferAll(cs, v)[i])
  {
  }

  /** An offer to all adds one to the total for each channel that is full. */
  lemma {:induction false} OfferedMissed<T>(cs: seq<Contents<T>>, v: T)
    ensures TotalMissed(OfferAll(cs, v)) == TotalMissed(cs) + CountFull(cs)
  {
    if cs != [] {
      var n := |cs| - 1;
      OfferedMissed(cs[..n], v);
      assert OfferAll(cs, v)[..n] == OfferAll(cs[..n], v);
    }
  }

  lemma MissedPlus<T>(cs: seq<Contents<T>>, c: Contents<T>)
    ensures TotalMissed(cs + [c]) == TotalMissed(cs) + c.missed
  {
    assert (cs + [c])[..|cs|] == cs;
  }

  lemma {:induction false} ClosedMissed<T>(cs: seq<Contents<T>>)
    ensures TotalMissed(CloseAll(cs)) == TotalMissed(cs)
  {
    if cs != [] {
      var n := |cs| - 1;
      ClosedMissed(cs[..n]);
      assert CloseAll(cs)[..n] == CloseAll(cs[..n]);
    }
  }

  /** A channel. Sending on a closed one and closing it again both panic, so they are preconditions. */
  class Channel<T> {
    const capacity: nat
    var buffer: seq<T>
    var closed: bool
    var waiting: nat
    ghost var taken: seq<T>
    ghost var missed: nat

    constructor (capacity: nat)
      ensures Valid() && Now() == Contents(capacity, [], false, 0, [], 0)
    {
      this.capacity, buffer, closed, waiting := capacity, [], false, 0;
      taken, missed := [], 0;
    }

    /** Receivers wait only on an empty, open channel, and the buffer stays within its capacity. */
    ghost predicate Valid()
      reads this
    {
      (waiting > 0 ==> buffer == [] && !closed) && |buffer| <= capacity
    }

    ghost function Now(): Contents<T>
      reads this
    {
      Contents(capacity, buffer, closed, waiting, taken, missed)
    }

    method TrySend(v: T) returns (sent: bool)
      requires Valid() && !closed
      modifies this
      ensures Valid() && Now() == Offer(old(Now()), v) && sent == !old(Full(Now()))
    {
      if waiting > 0 {
        waiting, taken := waiting - 1, taken + [v];
        return true;
      }
      if |buffer| >= capacity {
        missed := missed + 1;
        return false;
      }
      buffer := buffer + [v];
      return true;
    }

    method CloseIt()
      requires Valid() && !closed
      modifies this
      ensures Valid() && Now() == Closed(old(Now()))
    {
      closed, waiting := true, 0;
    }

    /** One turn of a range loop: the next event, the end of the loop, or to wait for a sender or the close. */
    method Receive() returns (v: Option<T>, ends: bool)
      requires Valid()
      modifies this
      ensures Valid()
      ensures v.Some? <==> old(buffer) != []
      ensures v.Some? ==> [v.value] + buffer == old(buffer) && Now() == old(Now()).(buffer := buffer, taken := old(taken) + [v.value])
      ensures ends <==> old(closed && buffer == [])
      ensures v.None? ==> Now() == if ends then old(Now()) else old(Now()).(waiting := old(waiting) + 1)
    {
      if buffer != [] {
        v, ends := Some(buffer[0]), false;
        taken := taken + [buffer[0]];
        buffer := buffer[1..];
        return;
      }
      v, ends := None, closed;
      if !closed {
        waiting := waiting + 1;
      }
    }
  }

  /** A consumer's range loop on a channel that is closed: it gets everything that was buffered, in order, and
      ends. */
  method Drain<T>(ch: Channel<T>) returns (got: seq<T>)
    requires ch.Valid() && ch.closed
    modifies ch
    ensures ch.Valid() && got == old(ch.buffer)
    ensures ch.Now() == old(ch.Now()).(buffer := [], taken := old(ch.taken) + got)
  {
    got := [];
    var ends := false;
    while !ends
      invariant ch.Valid() && got + ch.buffer == old(ch.buffer)
      invariant ch.Now() == old(ch.Now()).(buffer := ch.buffer, taken := old(ch.taken) + got)
      invariant ends ==> ch.buffer == []
      decreases |ch.buffer|, !ends
    {
      var v;
      v, ends := ch.Receive();
      if v.Some? {
        got := got + [v.value];
      }
    }
  }

  class Broker<T> {
    var subs: seq<Channel<T>>
    var closed: bool
    var dropCount: nat

    constructor ()
      ensures Valid() && View() == [] && !closed
    {
      subs, closed, dropCount := [], false, 0;
    }

    ghost predicate Usable()
      reads this, subs
    {
      && (forall i, j :: 0 <= i < j < |subs| ==> subs[i] != subs[j])
      && (forall i :: 0 <= i < |subs| ==> subs[i].Valid() && subs[i].closed == closed)
    }

    /** The counter is what the subscribers missed, together. */
    ghost predicate Valid()
      reads this, subs
    {
      Usable() && dropCount == TotalMissed(View())
    }

    ghost function View(): seq<Contents<T>>
      reads this, subs
    {
      seq(|subs|, i reads this, subs requires 0 <= i < |subs| => subs[i].Now())
    }

    method Subscribe(capacity: nat) returns (ch: Channel<T>)
      requires Valid()
      modifies this`subs
      ensures Valid() && fresh(ch)
      ensures ch.Now() == Contents(capacity, [], closed, 0, [], 0)
      ensures subs == if closed then old(subs) else old(subs) + [ch]
      ensures View() == if closed then old(View()) else old(View()) + [ch.Now()]
    {
      ch := new Channel(capacity);
      if closed {
        ch.CloseIt();
        return;
      }
      ghost var was := View();
      subs := subs + [ch];
      SubscribedView(was, ch);
      MissedPlus(was, ch.Now());
    }

    lemma SubscribedView(was: seq<Contents<T>>, ch: Channel<T>)
      requires |subs| == |was| + 1 && subs[|was|] == ch
      requires forall k :: 0 <= k < |was| ==> subs[k].Now() == was[k]
      ensures View() == was + [ch.Now()]
    {
    }

    method Publish(v: T)
      requires Valid()
      modifies this`dropCount, subs
      ensures Valid() && closed == old(closed)
      ensures View() == if closed then old(View()) else OfferAll(old(View()), v)
      ensures subs == old(subs)
      ensures !closed ==> forall i :: 0 <= i < |subs| ==> GetsOrMisses(old(View())[i], v, View()[i])
    {
      if closed {
        return;
      }
      ghost var was := View();
      OfferedMissed(was, v);
      OfferedEach(was, v);
      OfferToEach(was, v);
      AllOffered(was, v);
    }

    /** The loop in `Publish`. */
    method OfferToEach(ghost was: seq<Contents<T>>, v: T)
      requires Offered(was, 0, v)
      modifies this`dropCount, subs
      ensures subs == old(subs) && Offered(was, |subs|, v)
      ensures dropCount == old(dropCount) + CountFull(was)
    {
      var i := 0;
      while i < |subs|
        invariant 0 <= i <= |subs|
        invariant Offered(was, i, v)
        invariant dropCount == old(dropCount) + CountFull(was[..i])
      {
        CountOneMore(was, i);
        SendAt(was, i, v);
        i := i + 1;
      }
      assert was[..i] == was;
    }

    /** The first `i` subscribers have been offered `v`. */
    ghost predicate Offered(was: seq<Contents<T>>, i: nat, v: T)
      reads this, subs
    {
      && Usable() && !closed && |was| == |subs|
      && forall k :: 0 <= k < |subs| ==> subs[k].Now() == if k < i then Offer(was[k], v) else was[k]
    }

    /** One turn of the loop in `Publish`. */
    method SendAt(ghost was: seq<Contents<T>>, i: nat, v: T)
      requires i < |subs| && Offered(was, i, v)
      modifies this`dropCount, subs
      ensures Offered(was, i + 1, v)
      ensures dropCount == old(dropCount) + if Full(was[i]) then 1 else 0
    {
      var sent := subs[i].TrySend(v);
      if !sent {
        dropCount := dropCount + 1;
      }
    }

    /** What all subscribers missed since the broker was made. */
    method Drops() returns (n: nat)
      requires Valid()
      ensures n == TotalMissed(View())
    {
      n := dropCount;
    }

    method Close()
      requires Valid()
      modifies this`closed, subs
      ensures Valid() && closed
      ensures View() == if old(closed) then old(View()) else CloseAll(old(View()))
      ensures subs == old(subs)
      ensures forall i :: 0 <= i < |subs| ==> subs[i].closed && subs[i].waiting == 0 && subs[i].capacity == old(subs[i].capacity)
      ensures forall i :: 0 <= i < |subs| ==>
        subs[i].buffer == old(subs[i].buffer) && subs[i].taken == old(subs[i].taken) && subs[i].missed == old(subs[i].missed)
    {
      if closed {
        return;
      }
      ghost var was := View();
      ClosedMissed(was);
      closed := true;
      var i := 0;
      while i < |subs|
        invariant 0 <= i <= |subs|
        invariant ClosedUpTo(was, i)
      {
        CloseAt(was, i);
        i := i + 1;
      }
      AllClosed(was);
    }

    ghost predicate ClosedUpTo(was: seq<Contents<T>>, i: nat)
      reads this, subs
    {
      && closed && |was| == |subs|
      && (forall j, k :: 0 <= j < k < |subs| ==> subs[j] != subs[k])
      && forall k :: 0 <= k < |subs| ==>
          && subs[k].Valid() && subs[k].closed == (k < i)
          && subs[k].Now() == if k < i then Closed(was[k]) else was[k]
    }

    lemma AllOffered(was: seq<Contents<T>>, v: T)
      requires Offered(was, |subs|, v)
      ensures View() == OfferAll(was, v)
    {
    }

    lemma AllClosed(was: seq<Contents<T>>)
      requires ClosedUpTo(was, |subs|)
      ensures Usable() && View() == CloseAll(was)
    {
    }

    method CloseAt(ghost was: seq<Contents<T>>, i: nat)
      requires i < |subs| && ClosedUpTo(was, i)
      modifies subs
      ensures ClosedUpTo(was, i + 1)
    {
      subs[i].CloseIt();
    }
  }
}
