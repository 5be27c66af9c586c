/** The in-memory mark-to-market book. Its maps are caches of a history of loads, quotes and removals:
    every snapshot is the one that history determines. Decimals are exact reals. */
module MarkBook {
  import opened Common

  datatype PositionInfo = PositionInfo(accountNumber: string, quantity: string, quantityDirection: string, avgOpenPrice: real, loadedAt: int)

  datatype QuoteInfo = QuoteInfo(bid: real, ask: real, last: real, mark: real, markStale: bool, updatedAt: int)

  datatype Snapshot = Snapshot(
    symbol: string, accountNumber: string,
    markPrice: real, bidPrice: real, askPrice: real, lastPrice: real, markStale: bool,
    quantity: string, quantityDirection: string, avgOpenPrice: real, unrealizedPnL: real,
    quoteUpdatedAt: int, positionLoadedAt: int)

  datatype Op = Load(symbol: string, position: PositionInfo) | Quote(symbol: string, quote: QuoteInfo) | Remove(symbol: string)

  /** `decimal.NewFromString`: nothing for text that is not a decimal. */
  type Parser = string -> Option<real>

  function OptionMultiplier(symbol: string): real {
    if symbol != "" && symbol[0] == '.' then 100.0 else 1.0
  }

  // ---- What a history says ----

  /** The last load since the last removal. */
  ghost function PositionOf(h: seq<Op>, symbol: string): Option<PositionInfo> {
    if h == [] then None
    else
      var last := h[|h| - 1];
      if last.Load? && last.symbol == symbol then Some(last.position)
      else if last.Remove? && last.symbol == symbol then None
      else PositionOf(h[..|h| - 1], symbol)
  }

  /** The last quote since the last removal. */
  ghost function QuoteOf(h: seq<Op>, symbol: string): Option<QuoteInfo> {
    if h == [] then None
    else
      var last := h[|h| - 1];
      if last.Quote? && last.symbol == symbol then Some(last.quote)
      else if last.Remove? && last.symbol == symbol then None
      else QuoteOf(h[..|h| - 1], symbol)
  }

  ghost predicate Live(h: seq<Op>, symbol: string) {
    PositionOf(h, symbol).Some? || QuoteOf(h, symbol).Some?
  }

  /** Profit when the mark is live and the quantity is a non-zero decimal; zero otherwise. */
  function UnrealizedPnL(parse: Parser, symbol: string, p: PositionInfo, q: QuoteInfo): real {
    if q.markStale || p.quantity == "" || p.quantity == "0" || parse(p.quantity).None? || parse(p.quantity).value == 0.0 then 0.0
    else
      var gain := (q.mark - p.avgOpenPrice) * parse(p.quantity).value * OptionMultiplier(symbol);
      if p.quantityDirection == "Short" then -gain else gain
  }

  const NO_POSITION := PositionInfo("", "", "", 0.0, 0)
  const NO_QUOTE := QuoteInfo(0.0, 0.0, 0.0, 0.0, true, 0)

  function GetOr<T>(o: Option<T>, default: T): T {
    if o.Some? then o.value else default
  }

  function SnapshotOf(parse: Parser, symbol: string, position: Option<PositionInfo>, quote: Option<QuoteInfo>): Snapshot {
    var (p, q) := (GetOr(position, NO_POSITION), GetOr(quote, NO_QUOTE));
    Snapshot(symbol, p.accountNumber, q.mark, q.bid, q.ask, q.last, q.markStale,
      p.quantity, p.quantityDirection, p.avgOpenPrice, UnrealizedPnL(parse, symbol, p, q), q.updatedAt, p.loadedAt)
  }

  ghost function SnapshotFrom(parse: Parser, h: seq<Op>, symbol: string): Snapshot {
    SnapshotOf(parse, symbol, PositionOf(h, symbol), QuoteOf(h, symbol))
  }

  // ---- The book ----

  function Lookup<T>(m: map<string, T>, k: string): Option<T> {
    if k in m then Some(m[k]) else None
  }

  class Book {
    const parse: Parser
    var positions: map<string, PositionInfo>
    var quotes: map<string, QuoteInfo>
    ghost var history: seq<Op>

    ghost predicate Valid()
      reads this
    {
      && (forall s :: Lookup(positions, s) == PositionOf(history, s))
      && (forall s :: Lookup(quotes, s) == QuoteOf(history, s))
    }

    constructor (parse: Parser)
      ensures Valid() && history == [] && this.parse == parse
      ensures positions == map[] && quotes == map[]
    {
      this.parse := parse;
      positions, quotes, history := map[], map[], [];
    }

    method LoadPosition(symbol: string, accountNumber: string, quantity: string, quantityDirection: string, avgOpenPrice: real, now: int)
      requires Valid()
      modifies this
      ensures Valid()
      ensures history == old(history) + [Load(symbol, PositionInfo(accountNumber, quantity, quantityDirection, avgOpenPrice, now))]
      ensures positions == old(positions)[symbol := PositionInfo(accountNumber, quantity, quantityDirection, avgOpenPrice, now)]
      ensures quotes == old(quotes)
    {
      positions := positions[symbol := PositionInfo(accountNumber, quantity, quantityDirection, avgOpenPrice, now)];
      history := history + [Load(symbol, positions[symbol])];
    }

    method ApplyQuote(symbol: string, bid: real, ask: real, last: real, mark: real, markStale: bool, updatedAt: int) returns (snap: Snapshot)
      requires Valid()
      modifies this
      ensures Valid()
      ensures history == old(history) + [Quote(symbol, QuoteInfo(bid, ask, last, mark, markStale, updatedAt))]
      ensures positions == old(positions)
      ensures snap == SnapshotFrom(parse, history, symbol)
    {
      quotes := quotes[symbol := QuoteInfo(bid, ask, last, mark, markStale, updatedAt)];
      history := history + [Quote(symbol, quotes[symbol])];
      snap := SnapshotLocked(symbol);
    }

    method RemovePosition(symbol: string)
      requires Valid()
      modifies this
      ensures Valid()
      ensures history == old(history) + [Remove(symbol)]
      ensures positions == old(positions) - {symbol} && quotes == old(quotes) - {symbol}
    {
      positions, quotes := positions - {symbol}, quotes - {symbol};
      history := history + [Remove(symbol)];
    }

    /** Filled in step by step, as the position and then the quote are found. */
    method SnapshotLocked(symbol: string) returns (snap: Snapshot)
      requires Valid()
      ensures snap == SnapshotFrom(parse, history, symbol)
    {
      snap := Snapshot(symbol, "", 0.0, 0.0, 0.0, 0.0, true, "", "", 0.0, 0.0, 0, 0);
      assert Lookup(positions, symbol) == PositionOf(history, symbol) && Lookup(quotes, symbol) == QuoteOf(history, symbol);
      if symbol in positions {
        var pos := positions[symbol];
        snap := snap.(accountNumber := pos.accountNumber, quantity := pos.quantity, quantityDirection := pos.quantityDirection,
                      avgOpenPrice := pos.avgOpenPrice, positionLoadedAt := pos.loadedAt);
      }
      if symbol !in quotes {
        return;
      }
      var q := quotes[symbol];
      snap := snap.(bidPrice := q.bid, askPrice := q.ask, lastPrice := q.last, markPrice := q.mark,
                    markStale := q.markStale, quoteUpdatedAt := q.updatedAt);
      if !q.markStale && snap.quantity != "" && snap.quantity != "0" {
        var qty := parse(snap.quantity);
        if qty.Some? && qty.value != 0.0 {
          var pnl := (q.mark - snap.avgOpenPrice) * qty.value * OptionMultiplier(symbol);
          if snap.quantityDirection == "Short" {
            pnl := -pnl;
          }
          snap := snap.(unrealizedPnL := pnl);
        }
      }
    }

    /** One snapshot for every live symbol, in any order, each once. */
    method AllSnapshots() returns (out: seq<Snapshot>)
      requires Valid()
      ensures forall i :: 0 <= i < |out| ==> Live(history, out[i].symbol) && out[i] == SnapshotFrom(parse, history, out[i].symbol)
      ensures forall i, j :: 0 <= i < j < |out| ==> out[i].symbol != out[j].symbol
      ensures forall s :: Live(history, s) <==> s in Symbols(out)
    {
      out := [];
      var seen := positions.Keys + quotes.Keys;
      var todo := seen;
      forall s ensures Live(history, s) <==> s in seen {
        assert Lookup(positions, s) == PositionOf(history, s) && Lookup(quotes, s) == QuoteOf(history, s);
      }
      while todo != {}
        invariant todo <= seen
        invariant forall i :: 0 <= i < |out| ==> out[i].symbol in seen - todo && out[i] == SnapshotFrom(parse, history, out[i].symbol)
        invariant forall i, j :: 0 <= i < j < |out| ==> out[i].symbol != out[j].symbol
        invariant Symbols(out) == seen - todo
      {
        var s :| s in todo;
        var snap := SnapshotLocked(s);
        SymbolsPlus(out, snap);
        out := out + [snap];
        todo := todo - {s};
      }
    }
  }

  function Symbols(snaps: seq<Snapshot>): set<string> {
    set i | 0 <= i < |snaps| :: snaps[i].symbol
  }

  lemma SymbolsPlus(snaps: seq<Snapshot>, snap: Snapshot)
    ensures Symbols(snaps + [snap]) == Symbols(snaps) + {snap.symbol}
  {
    var all := snaps + [snap];
    assert all[|snaps|] == snap && forall i :: 0 <= i < |snaps| ==> all[i] == snaps[i];
    forall s | s in Symbols(snaps) + {snap.symbol} ensures s in Symbols(all) {
      if s in Symbols(snaps) {
        var i :| 0 <= i < |snaps| && snaps[i].symbol == s;
        assert all[i].symbol == s;
      } else {
        assert all[|snaps|].symbol == s;
      }
    }
  }

  // ---- Properties of histories ----

  ghost predicate Touches(op: Op, symbol: string) {
    op.symbol == symbol && !op.Quote?
  }

  /** `PositionOf` is what its comment says: a load with no later load or removal of the symbol. */
  lemma {:induction false} PositionIsLastLoad(h: seq<Op>, symbol: string, p: PositionInfo)
    ensures PositionOf(h, symbol) == Some(p)
      <==> exists i :: 0 <= i < |h| && h[i] == Load(symbol, p) && forall j :: i < j < |h| ==> !Touches(h[j], symbol)
  {
    if h != [] {
      var n := |h| - 1;
      PositionIsLastLoad(h[..n], symbol, p);
      if Touches(h[n], symbol) {
        assert h[n].Load? ==> (h[n] == Load(symbol, p) <==> h[n].position == p);
      } else {
        if i :| 0 <= i < n && h[..n][i] == Load(symbol, p) && forall j :: i < j < n ==> !Touches(h[..n][j], symbol) {
          forall j | i < j < |h| ensures !Touches(h[j], symbol) {
            if j < n {
              assert h[..n][j] == h[j];
            }
          }
          assert h[i] == Load(symbol, p);
        }
        if i :| 0 <= i < |h| && h[i] == Load(symbol, p) && forall j :: i < j < |h| ==> !Touches(h[j], symbol) {
          assert i < n && h[..n][i] == Load(symbol, p);
          forall j | i < j < n ensures !Touches(h[..n][j], symbol) {
            assert h[..n][j] == h[j];
          }
        }
      }
    }
  }

  lemma AfterOne(h: seq<Op>, op: Op, symbol: string)
    ensures op.Quote? || op.symbol != symbol ==> PositionOf(h + [op], symbol) == PositionOf(h, symbol)
    ensures op.Load? || op.symbol != symbol ==> QuoteOf(h + [op], symbol) == QuoteOf(h, symbol)
    ensures op.Load? && op.symbol == symbol ==> PositionOf(h + [op], symbol) == Some(op.position)
    ensures op.Quote? && op.symbol == symbol ==> QuoteOf(h + [op], symbol) == Some(op.quote)
  {
    assert (h + [op])[..|h|] == h;
  }

  /** A load and a quote, of the same or of different symbols, may come in either order. */
  lemma LoadAndQuoteCommute(parse: Parser, h: seq<Op>, s1: string, p: PositionInfo, s2: string, q: QuoteInfo, symbol: string)
    ensures SnapshotFrom(parse, h + [Load(s1, p), Quote(s2, q)], symbol) == SnapshotFrom(parse, h + [Quote(s2, q), Load(s1, p)], symbol)
  {
    var (load, quote) := (Load(s1, p), Quote(s2, q));
    assert h + [load, quote] == (h + [load]) + [quote] && h + [quote, load] == (h + [quote]) + [load];
    AfterOne(h, load, symbol);
    AfterOne(h, quote, symbol);
    AfterOne(h + [load], quote, symbol);
    AfterOne(h + [quote], load, symbol);
  }

  /** Operations on other symbols do not show. */
  lemma OtherSymbolsDoNotShow(parse: Parser, h: seq<Op>, op: Op, symbol: string)
    requires op.symbol != symbol
    ensures SnapshotFrom(parse, h + [op], symbol) == SnapshotFrom(parse, h, symbol)
  {
    assert (h + [op])[..|h|] == h;
  }

  /** Turning a long position short negates its profit and changes nothing else but the direction. */
  lemma ShortNegatesLong(parse: Parser, symbol: string, p: PositionInfo, quote: Option<QuoteInfo>)
    requires p.quantityDirection == "Long"
    ensures var long := SnapshotOf(parse, symbol, Some(p), quote);
      SnapshotOf(parse, symbol, Some(p.(quantityDirection := "Short")), quote)
      == long.(quantityDirection := "Short", unrealizedPnL := -long.unrealizedPnL)
  {
    var (q, short) := (GetOr(quote, NO_QUOTE), p.(quantityDirection := "Short"));
    assert UnrealizedPnL(parse, symbol, short, q) == -UnrealizedPnL(parse, symbol, p, q) by {
      assert (q.mark - p.avgOpenPrice) == (q.mark - short.avgOpenPrice) && short.quantity == p.quantity;
    }
  }

  // ---- Profit and loss, and what a snapshot shows ----

  /** A symbol that begins with a point counts a hundredfold. */
  lemma MultiplierMeans(symbol: string)
    ensures OptionMultiplier(symbol) == if "." <= symbol then 100.0 else 1.0
  {
  }

  /** No profit shows without a position, or a quote, or while the mark is stale, or when the quantity is no
      decimal or zero. */
  lemma NoProfitWithout(parse: Parser, symbol: string, position: Option<PositionInfo>, quote: Option<QuoteInfo>)
    requires
      || position.None? || quote.None? || quote.value.markStale || position.value.quantity in {"", "0"}
      || parse(position.value.quantity).None? || parse(position.value.quantity) == Some(0.0)
    ensures SnapshotOf(parse, symbol, position, quote).unrealizedPnL == 0.0
  {
  }

  /** Otherwise a long position has gained nothing at its open price, and gains its quantity with every unit of
      the mark, a hundredfold for an option. */
  lemma ProfitIsLinear(parse: Parser, symbol: string, p: PositionInfo, q: QuoteInfo, units: real)
    requires !q.markStale && p.quantity !in {"", "0"} && parse(p.quantity).Some? && p.quantityDirection != "Short"
    ensures q.mark == p.avgOpenPrice ==> UnrealizedPnL(parse, symbol, p, q) == 0.0
    ensures UnrealizedPnL(parse, symbol, p, q.(mark := q.mark + units))
         == UnrealizedPnL(parse, symbol, p, q) + units * parse(p.quantity).value * if "." <= symbol then 100.0 else 1.0
  {
    var (qty, m) := (parse(p.quantity).value, OptionMultiplier(symbol));
    assert (q.mark + units - p.avgOpenPrice) * qty == (q.mark - p.avgOpenPrice) * qty + units * qty;
    assert ((q.mark - p.avgOpenPrice) * qty + units * qty) * m == (q.mark - p.avgOpenPrice) * qty * m + units * qty * m;
  }

  /** Two contracts bought at 1.50 and marked at 2.00. */
  lemma ProfitOfTwoContracts(parse: Parser)
    requires parse("2") == Some(2.0)
    ensures UnrealizedPnL(parse, ".SPY230731C393", PositionInfo("A", "2", "Long", 1.5, 0), QuoteInfo(0.0, 0.0, 0.0, 2.0, false, 0)) == 100.0
  {
  }

  /** A snapshot shows the fields of the position and of the quote; without a quote the mark is stale and zero. */
  lemma SnapshotShows(parse: Parser, symbol: string, position: Option<PositionInfo>, quote: Option<QuoteInfo>)
    ensures var snap := SnapshotOf(parse, symbol, position, quote);
      && snap.symbol == symbol
      && (position.Some? ==>
            PositionInfo(snap.accountNumber, snap.quantity, snap.quantityDirection, snap.avgOpenPrice, snap.positionLoadedAt) == position.value)
      && (position.None? ==> snap.quantity == "" && snap.accountNumber == "" && snap.quantityDirection == "" && snap.avgOpenPrice == 0.0)
      && (quote.Some? ==>
            QuoteInfo(snap.bidPrice, snap.askPrice, snap.lastPrice, snap.markPrice, snap.markStale, snap.quoteUpdatedAt) == quote.value)
      && (quote.None? ==> snap.markStale && snap.markPrice == 0.0)
  {
  }

  /** A quote is held exactly when one has no later quote or removal of the symbol. */
  lemma {:induction false} QuoteIsLastQuote(h: seq<Op>, symbol: string, i: nat)
    requires i < |h| && h[i].Quote? && h[i].symbol == symbol
    requires forall j :: i < j < |h| && h[j].symbol == symbol ==> h[j].Load?
    ensures QuoteOf(h, symbol) == Some(h[i].quote)
  {
    var n := |h| - 1;
    if i < n {
      assert h[..n][i] == h[i] && forall j :: i < j < n ==> h[..n][j] == h[j];
      QuoteIsLastQuote(h[..n], symbol, i);
    }
  }

  lemma {:induction false} NoQuoteWithout(h: seq<Op>, symbol: string)
    requires QuoteOf(h, symbol).Some?
    ensures exists i :: 0 <= i < |h| && h[i] == Quote(symbol, QuoteOf(h, symbol).value)
  {
    var n := |h| - 1;
    if h[n].symbol == symbol && h[n].Quote? {
      assert h[n] == Quote(symbol, QuoteOf(h, symbol).value);
    } else {
      NoQuoteWithout(h[..n], symbol);
      var i :| 0 <= i < n && h[..n][i] == Quote(symbol, QuoteOf(h, symbol).value);
      assert h[i] == Quote(symbol, QuoteOf(h, symbol).value);
    }
  }
}
