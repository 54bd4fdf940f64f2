// The position ledger of CTPTradingAccount: what one position row and one trade do to `holding_`
// and `trades_`, and what that makes of whole runs. `Rule` says which bucket rule a plain Close uses.
module Ledger {
  import opened DataStruct

  datatype PositionRow = PositionRow(
    exchange: Exchange,
    instrumentId: Ticker,
    direction: Direction,
    hedgeFlag: HedgeFlag,
    ydPosition: int)

  datatype Event = Row(row: PositionRow) | Trade(trade: TradingRecord)

  datatype Account = Account(holding: Holding, trades: seq<TradingRecord>)

  const EMPTY := Account(map[], [])

  // ---------------------------------------------------------------- one step

  // Rows without a yesterday position, and arbitrage contracts ("SP..."), are skipped.
  predicate Counted(row: PositionRow) {
    row.ydPosition != 0 && !("SP" <= row.instrumentId)
  }

  function RowIndex(row: PositionRow): InstrumentIndex {
    InstrumentIndex(row.instrumentId, row.direction, row.hedgeFlag)
  }

  function LoadRow(h: Holding, row: PositionRow): Holding {
    var k := RowIndex(row);
    if !Counted(row) then h
    else if k in h then h[k := h[k].(total := h[k].total + row.ydPosition, pre := h[k].pre + row.ydPosition)]
    else h[k := HoldingRecord(row.exchange, row.instrumentId, row.direction, row.hedgeFlag,
                              row.ydPosition, 0, row.ydPosition)]
  }

  // Whatever does not open is booked on the opposite side of the market.
  function BookingIndex(trade: TradingRecord): InstrumentIndex {
    InstrumentIndex(trade.instrumentId,
                    if trade.openClose.Open? then trade.direction else ReverseDirection(trade.direction),
                    trade.hedgeFlag)
  }

  function Fill(rule: Rule, rec: HoldingRecord, oc: OpenClose, exchange: Exchange, volume: int): HoldingRecord {
    var r := rec.(total := rec.total + OpenCloseSign(oc) * volume);
    match oc
    case Open => r.(today := r.today + volume)
    case CloseToday => r.(today := r.today - volume)
    case CloseYesterday => r.(pre := r.pre - volume)
    case Close => (
      match exchange
      case DCE =>
        var vol := Pick(rule, r.today, volume);
        r.(today := r.today - vol, pre := r.pre - (volume - vol))
      case CFE | CZC =>
        var vol := Pick(rule, r.pre, volume);
        r.(pre := r.pre - vol, today := r.today - (volume - vol))
      case _ => r)
    case _ => r
  }

  function Opening(trade: TradingRecord): HoldingRecord {
    HoldingRecord(trade.exchange, trade.instrumentId, BookingIndex(trade).direction, trade.hedgeFlag,
                  trade.volume, trade.volume, 0)
  }

  function BookTrade(rule: Rule, h: Holding, trade: TradingRecord): Holding {
    var k := BookingIndex(trade);
    h[k := if k in h then Fill(rule, h[k], trade.openClose, trade.exchange, trade.volume) else Opening(trade)]
  }

  function Step(rule: Rule, a: Account, e: Event): Account {
    match e
    case Row(row) => a.(holding := LoadRow(a.holding, row))
    case Trade(trade) => Account(BookTrade(rule, a.holding, trade), a.trades + [trade])
  }

  function Run(rule: Rule, a: Account, es: seq<Event>): Account {
    if es == [] then a else Step(rule, Run(rule, a, es[..|es| - 1]), es[|es| - 1])
  }

  // `ok` holds of every event of the run in the holding it arrives at.
  predicate Throughout(rule: Rule, a: Account, es: seq<Event>, ok: (Holding, Event) -> bool) {
    es == [] ||
    (Throughout(rule, a, es[..|es| - 1], ok) && ok(Run(rule, a, es[..|es| - 1]).holding, es[|es| - 1]))
  }

  // The index an event lands on, if it lands at all.
  function Target(e: Event): Option<InstrumentIndex> {
    match e
    case Row(row) => if Counted(row) then Some(RowIndex(row)) else None
    case Trade(trade) => Some(BookingIndex(trade))
  }

  // ---------------------------------------------------------------- the two net views

  function Held(h: Holding, k: InstrumentIndex): int {
    if k in h then h[k].total else 0
  }

  function NetOfFlag(h: Holding, t: Ticker, f: HedgeFlag): int {
    Held(h, InstrumentIndex(t, Long, f)) - Held(h, InstrumentIndex(t, Short, f))
  }

  // Signed position on a ticker: every side and hedge flag it can be held under.
  function NetHolding(h: Holding, t: Ticker): int {
    NetOfFlag(h, t, Speculation) + NetOfFlag(h, t, Arbitrage) + NetOfFlag(h, t, Hedge)
    + NetOfFlag(h, t, Covered) + NetOfFlag(h, t, MarketMaker)
  }

  function NetTrades(trades: seq<TradingRecord>, t: Ticker): int {
    if trades == [] then 0 else
    var last := trades[|trades| - 1];
    NetTrades(trades[..|trades| - 1], t)
    + if last.instrumentId == t then last.volume * DirectionCode(last.direction) else 0
  }

  // Signed yesterday positions that the rows of a run bring in.
  function Loaded(es: seq<Event>, t: Ticker): int {
    if es == [] then 0 else
    var last := es[|es| - 1];
    Loaded(es[..|es| - 1], t)
    + if last.Row? && Counted(last.row) && last.row.instrumentId == t
      then last.row.ydPosition * DirectionCode(last.row.direction) else 0
  }

  // A closing trade that finds no record is booked as if it opened one.
  predicate MeetsIndex(h: Holding, e: Event) {
    e.Trade? ==> e.trade.openClose.Open? || (BookingIndex(e.trade) in h && !e.trade.openClose.Auto?)
  }

  // What a trade that does not meet its index takes away from the net holding on `t`.
  function Misbooked(h: Holding, e: Event, t: Ticker): int {
    if MeetsIndex(h, e) || e.trade.instrumentId != t then 0
    else e.trade.volume * DirectionCode(e.trade.direction) * (if BookingIndex(e.trade) in h then 1 else 2)
  }

  function MisbookedInRun(rule: Rule, a: Account, es: seq<Event>, t: Ticker): int {
    if es == [] then 0 else
    MisbookedInRun(rule, a, es[..|es| - 1], t)
    + Misbooked(Run(rule, a, es[..|es| - 1]).holding, es[|es| - 1], t)
  }

  lemma NetOfFlagAfterUpdate(h: Holding, k: InstrumentIndex, rec: HoldingRecord, t: Ticker, f: HedgeFlag)
    ensures NetOfFlag(h[k := rec], t, f) == NetOfFlag(h, t, f)
            + if k.instrumentId == t && k.hedgeFlag == f then (rec.total - Held(h, k)) * DirectionCode(k.direction) else 0
  {
    var g := h[k := rec];
    var long, short := InstrumentIndex(t, Long, f), InstrumentIndex(t, Short, f);
    assert Held(g, long) == if k == long then rec.total else Held(h, long);
    assert Held(g, short) == if k == short then rec.total else Held(h, short);
    if k.instrumentId == t && k.hedgeFlag == f {
      assert k == if k.direction.Long? then long else short;
    }
  }

  lemma NetAfterUpdate(h: Holding, k: InstrumentIndex, rec: HoldingRecord, t: Ticker)
    ensures NetHolding(h[k := rec], t) == NetHolding(h, t)
            + if k.instrumentId == t then (rec.total - Held(h, k)) * DirectionCode(k.direction) else 0
  {
    NetOfFlagAfterUpdate(h, k, rec, t, Speculation);
    NetOfFlagAfterUpdate(h, k, rec, t, Arbitrage);
    NetOfFlagAfterUpdate(h, k, rec, t, Hedge);
    NetOfFlagAfterUpdate(h, k, rec, t, Covered);
    NetOfFlagAfterUpdate(h, k, rec, t, MarketMaker);
  }

  // One event: the change of the net holding on a ticker.
  lemma NetStep(rule: Rule, h: Holding, trades: seq<TradingRecord>, e: Event, t: Ticker)
    ensures NetHolding(Step(rule, Account(h, trades), e).holding, t)
            == NetHolding(h, t) - Misbooked(h, e, t)
               + match e
                 case Row(row) => if Counted(row) && row.instrumentId == t
                                  then row.ydPosition * DirectionCode(row.direction) else 0
                 case Trade(trade) => if trade.instrumentId == t
                                      then trade.volume * DirectionCode(trade.direction) else 0
  {
    hide NetHolding;
    match e
    case Row(row) =>
      if Counted(row) {
        NetAfterUpdate(h, RowIndex(row), LoadRow(h, row)[RowIndex(row)], t);
      }
    case Trade(trade) => NetTradeStep(rule, h, trade, t);
  }

  lemma NetTradeStep(rule: Rule, h: Holding, trade: TradingRecord, t: Ticker)
    ensures NetHolding(BookTrade(rule, h, trade), t)
            == NetHolding(h, t) - Misbooked(h, Trade(trade), t)
               + if trade.instrumentId == t then trade.volume * DirectionCode(trade.direction) else 0
  {
    hide NetHolding, Fill, Opening;
    var k := BookingIndex(trade);
    var rec := if k in h then Fill(rule, h[k], trade.openClose, trade.exchange, trade.volume) else Opening(trade);
    NetAfterUpdate(h, k, rec, t);
    TotalOfFill(rule, h, trade);
  }

  lemma TotalOfFill(rule: Rule, h: Holding, trade: TradingRecord)
    ensures var k := BookingIndex(trade);
            BookTrade(rule, h, trade)[k].total - Held(h, k)
            == if k in h then OpenCloseSign(trade.openClose) * trade.volume else trade.volume
  {
  }

  // The exact account of every run, under either rule: net holding = net holding before + loaded rows
  // + net trades of the run - what misbooked trades took away.
  lemma {:induction false} NetConservationExact(rule: Rule, a: Account, es: seq<Event>, t: Ticker)
    ensures a.trades <= Run(rule, a, es).trades
    ensures NetHolding(Run(rule, a, es).holding, t) - NetHolding(a.holding, t)
            == Loaded(es, t) + NetTrades(Run(rule, a, es).trades, t) - NetTrades(a.trades, t)
               - MisbookedInRun(rule, a, es, t)
  {
    if es != [] {
      var prefix, last := es[..|es| - 1], es[|es| - 1];
      NetConservationExact(rule, a, prefix, t);
      var before := Run(rule, a, prefix);
      NetStep(rule, before.holding, before.trades, last, t);
      assert before == Account(before.holding, before.trades);
      if last.Trade? {
        assert (before.trades + [last.trade])[..|before.trades|] == before.trades;
      }
    }
  }

  // From an empty account, when every close meets an existing index: the two views agree on every ticker.
  lemma NetConservation(rule: Rule, es: seq<Event>, t: Ticker)
    requires Throughout(rule, EMPTY, es, MeetsIndex)
    ensures NetHolding(Run(rule, EMPTY, es).holding, t) == Loaded(es, t) + NetTrades(Run(rule, EMPTY, es).trades, t)
  {
    NetConservationExact(rule, EMPTY, es, t);
    NothingMisbooked(rule, EMPTY, es, t);
  }

  lemma {:induction false} NothingMisbooked(rule: Rule, a: Account, es: seq<Event>, t: Ticker)
    requires Throughout(rule, a, es, MeetsIndex)
    ensures MisbookedInRun(rule, a, es, t) == 0
  {
    if es != [] {
      NothingMisbooked(rule, a, es[..|es| - 1], t);
    }
  }

  // One event keeps the two views in step on every ticker exactly when it meets its index or is empty.
  lemma ConservedIffMeetsIndex(rule: Rule, a: Account, e: Event)
    ensures (MeetsIndex(a.holding, e) || e.trade.volume == 0)
            <==> forall t :: NetHolding(Step(rule, a, e).holding, t) - NetHolding(a.holding, t)
                             == Loaded([e], t) + NetTrades(Step(rule, a, e).trades, t) - NetTrades(a.trades, t)
  {
    assert [e][..0] == [];
    forall t
      ensures NetHolding(Step(rule, a, e).holding, t) - NetHolding(a.holding, t)
              == Loaded([e], t) + NetTrades(Step(rule, a, e).trades, t) - NetTrades(a.trades, t)
                 - Misbooked(a.holding, e, t)
    {
      NetConservationExact(rule, a, [e], t);
    }
    if !(MeetsIndex(a.holding, e) || e.trade.volume == 0) {
      assert Misbooked(a.holding, e, e.trade.instrumentId) != 0;
    }
  }

  // ---------------------------------------------------------------- ledger invariant

  predicate Balanced(rec: HoldingRecord) {
    rec.total == rec.today + rec.pre
  }

  predicate NonNegative(rec: HoldingRecord) {
    0 <= rec.today && 0 <= rec.pre && 0 <= rec.total
  }

  // Force-close flags, and a plain Close outside DCE, CFE and CZC, change the total alone.
  predicate MovesBuckets(oc: OpenClose, exchange: Exchange) {
    oc.Open? || oc.CloseToday? || oc.CloseYesterday? || (oc.Close? && (exchange.DCE? || exchange.CFE? || exchange.CZC?))
  }

  predicate KeepsBalance(h: Holding, e: Event) {
    e.Trade? && BookingIndex(e.trade) in h
    ==> MovesBuckets(e.trade.openClose, e.trade.exchange) || e.trade.openClose.Auto? || e.trade.volume == 0
  }

  // Volume is positive and a close takes no more than what its flag can reach.
  predicate Closable(rec: HoldingRecord, oc: OpenClose, volume: int) {
    match oc
    case Open => true
    case CloseToday => volume <= rec.today
    case CloseYesterday => volume <= rec.pre
    case _ => volume <= rec.total
  }

  predicate Fits(h: Holding, e: Event) {
    match e
    case Row(row) => row.ydPosition >= 0
    case Trade(trade) =>
      var k := BookingIndex(trade);
      && trade.volume > 0
      && MovesBuckets(trade.openClose, trade.exchange)
      && (k in h ==> Closable(h[k], trade.openClose, trade.volume))
      && (k !in h ==> trade.openClose.Open?)
  }

  ghost predicate AllBalanced(h: Holding) {
    forall k :: k in h ==> Balanced(h[k])
  }

  ghost predicate AllNonNegative(h: Holding) {
    forall k :: k in h ==> NonNegative(h[k])
  }

  // total = today + pre survives an event exactly when the event moves buckets with the total.
  lemma BalanceKeptIff(rule: Rule, a: Account, e: Event)
    requires AllBalanced(a.holding)
    ensures AllBalanced(Step(rule, a, e).holding) <==> KeepsBalance(a.holding, e)
  {
    if e.Trade? && !KeepsBalance(a.holding, e) {
      assert !Balanced(Step(rule, a, e).holding[BookingIndex(e.trade)]);
    }
  }

  lemma {:induction false} BalancedThroughout(rule: Rule, a: Account, es: seq<Event>)
    requires AllBalanced(a.holding)
    requires Throughout(rule, a, es, KeepsBalance)
    ensures AllBalanced(Run(rule, a, es).holding)
  {
    if es != [] {
      BalancedThroughout(rule, a, es[..|es| - 1]);
      BalanceKeptIff(rule, Run(rule, a, es[..|es| - 1]), es[|es| - 1]);
    }
  }

  lemma FittingFillStaysNonNegative(rec: HoldingRecord, oc: OpenClose, exchange: Exchange, volume: int)
    requires Balanced(rec) && NonNegative(rec)
    requires volume > 0 && MovesBuckets(oc, exchange) && Closable(rec, oc, volume)
    ensures Balanced(Fill(Intended, rec, oc, exchange, volume)) && NonNegative(Fill(Intended, rec, oc, exchange, volume))
  {
  }

  lemma FittingStepStaysNonNegative(a: Account, e: Event)
    requires AllBalanced(a.holding) && AllNonNegative(a.holding) && Fits(a.holding, e)
    ensures AllBalanced(Step(Intended, a, e).holding) && AllNonNegative(Step(Intended, a, e).holding)
  {
    if e.Trade? && BookingIndex(e.trade) in a.holding {
      FittingFillStaysNonNegative(a.holding[BookingIndex(e.trade)], e.trade.openClose, e.trade.exchange, e.trade.volume);
    }
  }

  // With the intended rule, fitting events keep every bucket non-negative, whatever the run.
  lemma {:induction false} FittingRunStaysNonNegative(a: Account, es: seq<Event>)
    requires AllBalanced(a.holding) && AllNonNegative(a.holding)
    requires Throughout(Intended, a, es, Fits)
    ensures AllBalanced(Run(Intended, a, es).holding) && AllNonNegative(Run(Intended, a, es).holding)
  {
    if es != [] {
      FittingRunStaysNonNegative(a, es[..|es| - 1]);
      FittingStepStaysNonNegative(Run(Intended, a, es[..|es| - 1]), es[|es| - 1]);
    }
  }

  // The bucket that the exchange closes first.
  function FirstBucket(rec: HoldingRecord, exchange: Exchange): int {
    if exchange.DCE? then rec.today else rec.pre
  }

  // As written, a fitting plain Close leaves the buckets the exchange rule asks for only when it takes
  // exactly the bucket that is closed first, and keeps them non-negative only when it takes no more.
  lemma CloseAsWrittenIff(rec: HoldingRecord, exchange: Exchange, volume: int)
    requires exchange.DCE? || exchange.CFE? || exchange.CZC?
    requires Balanced(rec) && NonNegative(rec) && 0 < volume <= rec.total
    ensures NonNegative(Fill(Intended, rec, Close, exchange, volume))
    ensures Fill(AsWritten, rec, Close, exchange, volume) == Fill(Intended, rec, Close, exchange, volume)
            <==> volume == FirstBucket(rec, exchange)
    ensures NonNegative(Fill(AsWritten, rec, Close, exchange, volume)) <==> volume <= FirstBucket(rec, exchange)
  {
  }

  // ---------------------------------------------------------------- whose record it is

  // Every record sits under its own key.
  predicate Filed(k: InstrumentIndex, rec: HoldingRecord) {
    k == InstrumentIndex(rec.instrumentId, rec.direction, rec.hedgeFlag)
  }

  // The event is one that opens a record for `k` on this exchange: a yesterday position of that contract, side
  // and hedge flag, or a trade of it - an opening one on that side, any other on the opposite side.
  predicate Creates(e: Event, k: InstrumentIndex, exchange: Exchange) {
    match e
    case Row(row) =>
      && row.ydPosition != 0 && row.exchange == exchange
      && row.instrumentId == k.instrumentId && row.direction == k.direction && row.hedgeFlag == k.hedgeFlag
    case Trade(trade) =>
      && trade.exchange == exchange
      && trade.instrumentId == k.instrumentId && trade.hedgeFlag == k.hedgeFlag
      && (trade.openClose == Open <==> trade.direction == k.direction)
  }

  lemma StepKeepsIdentity(rule: Rule, a: Account, e: Event, k: InstrumentIndex)
    ensures var g := Step(rule, a, e).holding;
            if k in a.holding then
              k in g && g[k] == a.holding[k].(total := g[k].total, today := g[k].today, pre := g[k].pre)
            else k in g ==> Filed(k, g[k]) && Creates(e, k, g[k].exchange)
  {
  }

  predicate CreatedIn(rule: Rule, es: seq<Event>, k: InstrumentIndex, exchange: Exchange) {
    exists i :: 0 <= i < |es| && k !in Run(rule, EMPTY, es[..i]).holding && Creates(es[i], k, exchange)
  }

  lemma CreatedEarlier(rule: Rule, es: seq<Event>, k: InstrumentIndex, exchange: Exchange)
    requires es != []
    ensures CreatedIn(rule, es[..|es| - 1], k, exchange)
            || (k !in Run(rule, EMPTY, es[..|es| - 1]).holding && Creates(es[|es| - 1], k, exchange))
            ==> CreatedIn(rule, es, k, exchange)
  {
    var front := es[..|es| - 1];
    hide Run, Creates;
    if i :| 0 <= i < |front| && k !in Run(rule, EMPTY, front[..i]).holding && Creates(front[i], k, exchange) {
      assert front[..i] == es[..i] && front[i] == es[i];
    }
  }

  // After every run every record sits under its own key, and its exchange is that of the event that created it.
  lemma {:induction false} RecordsAreFiled(rule: Rule, es: seq<Event>, k: InstrumentIndex)
    requires k in Run(rule, EMPTY, es).holding
    ensures var rec := Run(rule, EMPTY, es).holding[k];
            Filed(k, rec) && CreatedIn(rule, es, k, rec.exchange)
  {
    if es != [] {
      var front, last := es[..|es| - 1], es[|es| - 1];
      StepKeepsIdentity(rule, Run(rule, EMPTY, front), last, k);
      CreatedEarlier(rule, es, k, Run(rule, EMPTY, es).holding[k].exchange);
      hide Step, Creates, CreatedIn;
      if k in Run(rule, EMPTY, front).holding {
        RecordsAreFiled(rule, front, k);
      }
    }
  }

  // Rows without a yesterday position and rows of arbitrage contracts, whose names begin with SP, leave the
  // ledger as it is; every other row changes it.
  lemma RowIsSkippedIff(h: Holding, row: PositionRow)
    ensures LoadRow(h, row) == h
            <==> row.ydPosition == 0 || (|row.instrumentId| >= 2 && row.instrumentId[0] == 'S' && row.instrumentId[1] == 'P')
  {
    assert "SP" <= row.instrumentId
      <==> |row.instrumentId| >= 2 && row.instrumentId[0] == 'S' && row.instrumentId[1] == 'P';
    if Counted(row) {
      assert Held(LoadRow(h, row), RowIndex(row)) != Held(h, RowIndex(row)) || RowIndex(row) !in h;
    }
  }

  // ---------------------------------------------------------------- order independence

  datatype Quantities = Quantities(total: int, today: int, pre: int)

  function Plus(a: Quantities, b: Quantities): Quantities {
    Quantities(a.total + b.total, a.today + b.today, a.pre + b.pre)
  }

  function QuantitiesOf(rec: HoldingRecord): Quantities {
    Quantities(rec.total, rec.today, rec.pre)
  }

  function QuantitiesAt(h: Holding, k: InstrumentIndex): Quantities {
    if k in h then QuantitiesOf(h[k]) else Quantities(0, 0, 0)
  }

  // What an event adds at an index. A plain Close on DCE, CFE or CZC shares its volume out between the
  // buckets by what it finds there, so here it has no bucket part.
  function Effect(e: Event, k: InstrumentIndex): Quantities {
    if Target(e) != Some(k) then Quantities(0, 0, 0) else
    match e
    case Row(row) => Quantities(row.ydPosition, 0, row.ydPosition)
    case Trade(trade) =>
      var v := trade.volume;
      match trade.openClose
      case Open => Quantities(v, v, 0)
      case CloseToday => Quantities(-v, -v, 0)
      case CloseYesterday => Quantities(-v, 0, -v)
      case _ => Quantities(OpenCloseSign(trade.openClose) * v, 0, 0)
  }

  function Effects(es: seq<Event>, k: InstrumentIndex): Quantities {
    if es == [] then Quantities(0, 0, 0) else Plus(Effects(es[..|es| - 1], k), Effect(es[|es| - 1], k))
  }

  predicate SharesByState(e: Event) {
    e.Trade? && e.trade.openClose.Close? && MovesBuckets(Close, e.trade.exchange)
  }

  lemma RowAddsEffect(h: Holding, row: PositionRow, k: InstrumentIndex)
    ensures k in LoadRow(h, row) <==> k in h || Target(Row(row)) == Some(k)
    ensures QuantitiesAt(LoadRow(h, row), k) == Plus(QuantitiesAt(h, k), Effect(Row(row), k))
  {
    if !Counted(row) || RowIndex(row) != k {
      assert k in LoadRow(h, row) <==> k in h;
      assert QuantitiesAt(LoadRow(h, row), k) == QuantitiesAt(h, k);
    }
  }

  lemma FillAddsEffect(rule: Rule, rec: HoldingRecord, trade: TradingRecord)
    requires !trade.openClose.Auto?
    ensures var q := QuantitiesOf(Fill(rule, rec, trade.openClose, trade.exchange, trade.volume));
            var effect := Effect(Trade(trade), BookingIndex(trade));
            q.total == rec.total + effect.total
            && (!SharesByState(Trade(trade)) ==> q == Plus(QuantitiesOf(rec), effect))
  {
    hide BookingIndex;
  }

  lemma TradeAddsEffect(rule: Rule, h: Holding, trade: TradingRecord, k: InstrumentIndex)
    requires MeetsIndex(h, Trade(trade))
    ensures k in BookTrade(rule, h, trade) <==> k in h || BookingIndex(trade) == k
    ensures QuantitiesAt(BookTrade(rule, h, trade), k).total == QuantitiesAt(h, k).total + Effect(Trade(trade), k).total
    ensures !SharesByState(Trade(trade))
            ==> QuantitiesAt(BookTrade(rule, h, trade), k) == Plus(QuantitiesAt(h, k), Effect(Trade(trade), k))
  {
    if BookingIndex(trade) != k {
      assert QuantitiesAt(BookTrade(rule, h, trade), k) == QuantitiesAt(h, k);
      assert Effect(Trade(trade), k) == Quantities(0, 0, 0);
    } else if k in h {
      FillAddsEffect(rule, h[k], trade);
      hide Effect, Fill, BookingIndex, SharesByState;
      assert QuantitiesAt(h, k) == QuantitiesOf(h[k]);
    }
  }

  lemma StepAddsEffect(rule: Rule, a: Account, e: Event, k: InstrumentIndex)
    requires MeetsIndex(a.holding, e)
    ensures var h, g := a.holding, Step(rule, a, e).holding;
            && (k in g <==> k in h || Target(e) == Some(k))
            && QuantitiesAt(g, k).total == QuantitiesAt(h, k).total + Effect(e, k).total
            && (!SharesByState(e) ==> QuantitiesAt(g, k) == Plus(QuantitiesAt(h, k), Effect(e, k)))
  {
    hide Effect, QuantitiesAt, LoadRow, BookTrade, MeetsIndex, SharesByState;
    match e
    case Row(row) => RowAddsEffect(a.holding, row, k);
    case Trade(trade) => TradeAddsEffect(rule, a.holding, trade, k);
  }

  // Events reach an index exactly when one of them lands on it.
  predicate Reached(es: seq<Event>, k: InstrumentIndex) {
    exists i :: 0 <= i < |es| && Target(es[i]) == Some(k)
  }

  predicate NoneShares(es: seq<Event>) {
    forall i :: 0 <= i < |es| ==> !SharesByState(es[i])
  }

  lemma ReachedSplit(es: seq<Event>, k: InstrumentIndex)
    requires es != []
    ensures Reached(es, k) <==> Reached(es[..|es| - 1], k) || Target(es[|es| - 1]) == Some(k)
  {
    var prefix := es[..|es| - 1];
    if i :| 0 <= i < |prefix| && Target(prefix[i]) == Some(k) {
      assert Target(es[i]) == Some(k);
    }
    if i :| 0 <= i < |es| && Target(es[i]) == Some(k) {
      assert i < |prefix| ==> Target(prefix[i]) == Some(k);
    }
  }

  lemma {:induction false} RunReaches(rule: Rule, es: seq<Event>, k: InstrumentIndex)
    requires Throughout(rule, EMPTY, es, MeetsIndex)
    ensures k in Run(rule, EMPTY, es).holding <==> Reached(es, k)
  {
    if es != [] {
      RunReaches(rule, es[..|es| - 1], k);
      StepAddsEffect(rule, Run(rule, EMPTY, es[..|es| - 1]), es[|es| - 1], k);
      ReachedSplit(es, k);
    }
  }

  lemma {:induction false} RunAddsTotals(rule: Rule, es: seq<Event>, k: InstrumentIndex)
    requires Throughout(rule, EMPTY, es, MeetsIndex)
    ensures QuantitiesAt(Run(rule, EMPTY, es).holding, k).total == Effects(es, k).total
  {
    if es != [] {
      RunAddsTotals(rule, es[..|es| - 1], k);
      StepAddsEffect(rule, Run(rule, EMPTY, es[..|es| - 1]), es[|es| - 1], k);
    }
  }

  lemma {:induction false} RunAddsBuckets(rule: Rule, es: seq<Event>, k: InstrumentIndex)
    requires Throughout(rule, EMPTY, es, MeetsIndex)
    requires NoneShares(es)
    ensures QuantitiesAt(Run(rule, EMPTY, es).holding, k) == Effects(es, k)
  {
    if es != [] {
      RunAddsBuckets(rule, es[..|es| - 1], k);
      StepAddsEffect(rule, Run(rule, EMPTY, es[..|es| - 1]), es[|es| - 1], k);
    }
  }

  lemma {:induction false} EffectsSplit(a: seq<Event>, b: seq<Event>, k: InstrumentIndex)
    ensures Effects(a + b, k) == Plus(Effects(a, k), Effects(b, k))
  {
    if b == [] {
      assert a + b == a;
    } else {
      assert (a + b)[..|a + b| - 1] == a + b[..|b| - 1];
      EffectsSplit(a, b[..|b| - 1], k);
    }
  }

  // Taking the last element of `a` out of its permutation `b`.
  lemma TakeOut<T>(a: seq<T>, b: seq<T>) returns (front: seq<T>, back: seq<T>)
    requires a != [] && multiset(a) == multiset(b)
    ensures b == front + ([a[|a| - 1]] + back)
    ensures multiset(a[..|a| - 1]) == multiset(front + back)
  {
    var prefix, last := a[..|a| - 1], a[|a| - 1];
    assert a == prefix + [last];
    assert last in multiset(a);
    assert last in b;
    var i :| 0 <= i < |b| && b[i] == last;
    front, back := b[..i], b[i + 1..];
    assert b == front + ([last] + back);
    assert multiset(prefix) + multiset{last} == (multiset(front) + multiset(back)) + multiset{last};
    Cancel(multiset(prefix), multiset(front) + multiset(back), multiset{last});
    assert multiset(front + back) == multiset(front) + multiset(back);
  }

  lemma Cancel<T>(p: multiset<T>, q: multiset<T>, r: multiset<T>)
    requires p + r == q + r
    ensures p == q
  {
    assert p == (p + r) - r;
    assert q == (q + r) - r;
  }

  lemma {:induction false} EffectsIgnoreOrder(a: seq<Event>, b: seq<Event>, k: InstrumentIndex)
    requires multiset(a) == multiset(b)
    ensures Effects(a, k) == Effects(b, k)
    decreases |a|
  {
    if a == [] {
      assert |multiset(b)| == 0;
    } else {
      var last := a[|a| - 1];
      var front, back := TakeOut(a, b);
      EffectsIgnoreOrder(a[..|a| - 1], front + back, k);
      hide Effect;
      EffectsSplit(front, back, k);
      EffectsSplit(front, [last] + back, k);
      EffectsSplit([last], back, k);
      assert [last][..0] == [];
    }
  }

  lemma NetFromTotals(g: Holding, h: Holding, t: Ticker)
    requires forall k :: QuantitiesAt(g, k).total == QuantitiesAt(h, k).total
    ensures NetHolding(g, t) == NetHolding(h, t)
  {
    assert forall k :: Held(g, k) == QuantitiesAt(g, k).total && Held(h, k) == QuantitiesAt(h, k).total;
    assert forall f :: NetOfFlag(g, t, f) == NetOfFlag(h, t, f);
  }

  lemma SameEvents(a: seq<Event>, b: seq<Event>)
    requires multiset(a) == multiset(b)
    ensures NoneShares(a) ==> NoneShares(b)
    ensures forall k :: Reached(a, k) ==> Reached(b, k)
  {
    forall i | 0 <= i < |b| ensures b[i] in a {
      assert b[i] in multiset(a);
    }
    forall k | Reached(a, k) ensures Reached(b, k) {
      var i :| 0 <= i < |a| && Target(a[i]) == Some(k);
      assert a[i] in multiset(b);
    }
  }

  // Position rows and replayed trades may arrive in any order in which each close meets its index:
  // same records, same totals, same net; same buckets too when no close shares its volume by state.
  lemma {:induction false} OrderIndependence(rule: Rule, a: seq<Event>, b: seq<Event>)
    requires multiset(a) == multiset(b)
    requires Throughout(rule, EMPTY, a, MeetsIndex) && Throughout(rule, EMPTY, b, MeetsIndex)
    ensures Run(rule, EMPTY, a).holding.Keys == Run(rule, EMPTY, b).holding.Keys
    ensures forall k :: QuantitiesAt(Run(rule, EMPTY, a).holding, k).total == QuantitiesAt(Run(rule, EMPTY, b).holding, k).total
    ensures forall t :: NetHolding(Run(rule, EMPTY, a).holding, t) == NetHolding(Run(rule, EMPTY, b).holding, t)
    ensures NoneShares(a)
            ==> forall k :: QuantitiesAt(Run(rule, EMPTY, a).holding, k) == QuantitiesAt(Run(rule, EMPTY, b).holding, k)
  {
    var g, h := Run(rule, EMPTY, a).holding, Run(rule, EMPTY, b).holding;
    SameEvents(a, b);
    SameEvents(b, a);
    forall k
      ensures k in g <==> k in h
      ensures QuantitiesAt(g, k).total == QuantitiesAt(h, k).total
      ensures NoneShares(a) ==> QuantitiesAt(g, k) == QuantitiesAt(h, k)
    {
      RunReaches(rule, a, k);
      RunReaches(rule, b, k);
      RunAddsTotals(rule, a, k);
      RunAddsTotals(rule, b, k);
      EffectsIgnoreOrder(a, b, k);
      if NoneShares(a) {
        RunAddsBuckets(rule, a, k);
        RunAddsBuckets(rule, b, k);
      }
    }
    forall t ensures NetHolding(g, t) == NetHolding(h, t) {
      NetFromTotals(g, h, t);
    }
  }

  // ---------------------------------------------------------------- where the two claims stop

  lemma UnfoldTwo(rule: Rule, x: Event, y: Event)
    ensures Run(rule, EMPTY, [x, y]) == Step(rule, Step(rule, EMPTY, x), y)
    ensures forall t :: Loaded([x, y], t) == Loaded([x], t) + Loaded([y], t)
  {
    hide Step;
    assert [x][..0] == [] && [y][..0] == [] && [x, y][..1] == [x];
    assert Run(rule, EMPTY, [x]) == Step(rule, EMPTY, x);
  }

  lemma NetOfOne(trade: TradingRecord)
    ensures NetTrades([trade], trade.instrumentId) == trade.volume * DirectionCode(trade.direction)
  {
    assert [trade][..0] == [];
  }

  function YesterdayRow(t: Ticker, volume: int): PositionRow {
    PositionRow(SHF, t, Long, Speculation, volume)
  }

  function YesterdaySale(t: Ticker, volume: int): TradingRecord {
    TradingRecord(1, SHF, t, CloseYesterday, Short, Speculation, volume)
  }

  // The only record after a row of yesterday's lots and a sale of them, in either order.
  lemma SoldAndLoaded(rule: Rule, t: Ticker, volume: int)
    requires volume > 0 && !("SP" <= t)
    ensures var row, sale := Row(YesterdayRow(t, volume)), Trade(YesterdaySale(t, volume));
            var k, rec := InstrumentIndex(t, Long, Speculation), HoldingRecord(SHF, t, Long, Speculation, 0, 0, 0);
            && Step(rule, Step(rule, EMPTY, sale), row)
               == Account(map[k := rec.(total := 2 * volume, today := volume, pre := volume)], [sale.trade])
            && Step(rule, Step(rule, EMPTY, row), sale) == Account(map[k := rec], [sale.trade])
  {
    hide NetHolding;
  }

  lemma NetOfSingle(t: Ticker, rec: HoldingRecord)
    ensures NetHolding(map[InstrumentIndex(t, Long, Speculation) := rec], t) == rec.total
  {
    NetAfterUpdate(map[], InstrumentIndex(t, Long, Speculation), rec, t);
  }

  // Trades are replayed from the start of the day, while position rows are only asked for after the login. A
  // replayed sale of yesterday's lots that comes before their row is booked as a purchase, and the row on top
  // of it: where the two net views should cancel out, the ledger holds twice the position.
  lemma {:induction false} OrphanCloseTurnsNetAround(rule: Rule, t: Ticker, volume: int)
    requires volume > 0 && !("SP" <= t)
    ensures var row, sale := Row(YesterdayRow(t, volume)), Trade(YesterdaySale(t, volume));
            var late, early := Run(rule, EMPTY, [sale, row]), Run(rule, EMPTY, [row, sale]);
            && Loaded([sale, row], t) + NetTrades(late.trades, t) == 0
            && NetHolding(late.holding, t) == 2 * volume
            && NetHolding(early.holding, t) == 0
            && QuantitiesAt(late.holding, InstrumentIndex(t, Long, Speculation)) == Quantities(2 * volume, volume, volume)
  {
    var row, sale := Row(YesterdayRow(t, volume)), Trade(YesterdaySale(t, volume));
    UnfoldTwo(rule, sale, row);
    UnfoldTwo(rule, row, sale);
    SoldAndLoaded(rule, t, volume);
    NetOfOne(sale.trade);
    LoadedOne(sale, t);
    LoadedOne(row, t);
    var rec := HoldingRecord(SHF, t, Long, Speculation, 0, 0, 0);
    NetOfSingle(t, rec);
    NetOfSingle(t, rec.(total := 2 * volume, today := volume, pre := volume));
    hide Run, Loaded, Step, NetHolding, NetTrades;
  }

  lemma LoadedOne(e: Event, t: Ticker)
    ensures Loaded([e], t) == if e.Row? && Counted(e.row) && e.row.instrumentId == t
                              then e.row.ydPosition * DirectionCode(e.row.direction) else 0
  {
    assert [e][..0] == [];
  }

  // Two of yesterday's lots and one of today's held on CFE: a Close of one empties yesterday's bucket into
  // today's, and a Close of three leaves minus one there. The exchange takes one and two of yesterday's.
  lemma WrittenCloseMisplaces(rec: HoldingRecord)
    ensures var held := rec.(total := 3, today := 1, pre := 2);
            && Fill(AsWritten, held, Close, CFE, 1) == held.(total := 2, today := 2, pre := 0)
            && Fill(Intended, held, Close, CFE, 1) == held.(total := 2, today := 1, pre := 1)
            && Fill(AsWritten, held, Close, CFE, 3) == held.(total := 0, today := 1, pre := -1)
            && Fill(Intended, held, Close, CFE, 3) == held.(total := 0, today := 0, pre := 0)
  {
  }

  lemma UnfoldThree(rule: Rule, x: Event, y: Event, z: Event)
    ensures Run(rule, EMPTY, [x, y, z]) == Step(rule, Step(rule, Step(rule, EMPTY, x), y), z)
  {
    hide Step;
    assert [x][..0] == [] && [x, y][..1] == [x] && [x, y, z][..2] == [x, y];
    assert Run(rule, EMPTY, [x]) == Step(rule, EMPTY, x);
    assert Run(rule, EMPTY, [x, y]) == Step(rule, Run(rule, EMPTY, [x]), y);
    assert Run(rule, EMPTY, [x, y, z]) == Step(rule, Run(rule, EMPTY, [x, y]), z);
  }

  // The index of the three events below.
  function LongOn(t: Ticker): InstrumentIndex {
    InstrumentIndex(t, Long, Speculation)
  }

  lemma RowFirst(rule: Rule, t: Ticker, lots: int)
    requires lots > 0 && !("SP" <= t)
    ensures var row := Row(PositionRow(CFE, t, Long, Speculation, lots));
            var buy := Trade(TradingRecord(1, CFE, t, Open, Long, Speculation, 1));
            var sell := Trade(TradingRecord(2, CFE, t, Close, Short, Speculation, 1));
            var share := Pick(rule, lots, 1);
            && QuantitiesAt(Run(rule, EMPTY, [row, buy, sell]).holding, LongOn(t)) == Quantities(lots, 1 - (1 - share), lots - share)
            && QuantitiesAt(Run(rule, EMPTY, [buy, sell, row]).holding, LongOn(t))
               == Quantities(lots, 1 - (1 - Pick(rule, 0, 1)), lots - Pick(rule, 0, 1))
  {
    var row := Row(PositionRow(CFE, t, Long, Speculation, lots));
    var buy := Trade(TradingRecord(1, CFE, t, Open, Long, Speculation, 1));
    var sell := Trade(TradingRecord(2, CFE, t, Close, Short, Speculation, 1));
    UnfoldThree(rule, row, buy, sell);
    UnfoldThree(rule, buy, sell, row);
    hide Run;
  }

  // A plain Close on CFE shares its volume out by what is already there, so a position row may not come
  // late: three lots from yesterday, one bought, one sold, in two orders in which every close meets its
  // index, end with different buckets as written. The intended rule already differs with one lot.
  lemma BucketsDependOnOrder(t: Ticker)
    requires !("SP" <= t)
    ensures var row := Row(PositionRow(CFE, t, Long, Speculation, 3));
            var buy := Trade(TradingRecord(1, CFE, t, Open, Long, Speculation, 1));
            var sell := Trade(TradingRecord(2, CFE, t, Close, Short, Speculation, 1));
            && QuantitiesAt(Run(AsWritten, EMPTY, [row, buy, sell]).holding, LongOn(t)) == Quantities(3, 3, 0)
            && QuantitiesAt(Run(AsWritten, EMPTY, [buy, sell, row]).holding, LongOn(t)) == Quantities(3, 1, 2)
    ensures var row := Row(PositionRow(CFE, t, Long, Speculation, 1));
            var buy := Trade(TradingRecord(1, CFE, t, Open, Long, Speculation, 1));
            var sell := Trade(TradingRecord(2, CFE, t, Close, Short, Speculation, 1));
            && QuantitiesAt(Run(Intended, EMPTY, [row, buy, sell]).holding, LongOn(t)) == Quantities(1, 1, 0)
            && QuantitiesAt(Run(Intended, EMPTY, [buy, sell, row]).holding, LongOn(t)) == Quantities(1, 0, 1)
  {
    RowFirst(AsWritten, t, 3);
    RowFirst(Intended, t, 1);
    hide Run, QuantitiesAt;
  }

  // ---------------------------------------------------------------- when two events may change places

  predicate Shares(exchange: Exchange) {
    exchange.DCE? || exchange.CFE? || exchange.CZC?
  }

  // What an event adds to the bucket that a plain Close on this exchange takes from first.
  function Shift(e: Event, exchange: Exchange): int
    requires Target(e).Some?
  {
    if exchange.DCE? then Effect(e, Target(e).value).today else Effect(e, Target(e).value).pre
  }

  // A Close of `volume` is shared out alike whether the bucket holds `first` or `first + shift`.
  predicate SharedAlike(rule: Rule, first: int, shift: int, volume: int) {
    || shift == 0
    || if rule.Intended? then volume <= first && volume <= first + shift
       else first <= volume && first + shift <= volume
  }

  lemma SharedAlikeIff(rule: Rule, first: int, shift: int, volume: int)
    ensures Pick(rule, first, volume) == Pick(rule, first + shift, volume) <==> SharedAlike(rule, first, shift, volume)
  {
  }

  lemma StepOnRecord(rule: Rule, a: Account, e: Event, k: InstrumentIndex)
    requires k in a.holding && Target(e) == Some(k) && MeetsIndex(a.holding, e)
    ensures var g := Step(rule, a, e).holding;
            && g == a.holding[k := g[k]]
            && g[k] == a.holding[k].(total := g[k].total, today := g[k].today, pre := g[k].pre)
            && (!SharesByState(e) ==> QuantitiesOf(g[k]) == Plus(QuantitiesOf(a.holding[k]), Effect(e, k)))
            && (e.Trade? && SharesByState(e)
                ==> g[k] == Fill(rule, a.holding[k], Close, e.trade.exchange, e.trade.volume))
  {
    StepAddsEffect(rule, a, e, k);
    if e.Trade? {
      hide Effect;
    }
  }

  // The buckets after a plain Close, by what it takes from the first one.
  lemma CloseOnRecord(rule: Rule, rec: HoldingRecord, exchange: Exchange, volume: int)
    requires Shares(exchange)
    ensures var share := Pick(rule, FirstBucket(rec, exchange), volume);
            Fill(rule, rec, Close, exchange, volume)
            == if exchange.DCE? then
                 rec.(total := rec.total - volume, today := rec.today - share, pre := rec.pre - (volume - share))
               else
                 rec.(total := rec.total - volume, today := rec.today - (volume - share), pre := rec.pre - share)
  {
  }

  // A record and the same record moved by a fixed amount, each after the same Close.
  lemma CloseAfterMove(rule: Rule, rec: HoldingRecord, q: Quantities, exchange: Exchange, volume: int)
    requires Shares(exchange)
    ensures var moved := rec.(total := rec.total + q.total, today := rec.today + q.today, pre := rec.pre + q.pre);
            var shift := if exchange.DCE? then q.today else q.pre;
            QuantitiesOf(Fill(rule, moved, Close, exchange, volume))
            == Plus(QuantitiesOf(Fill(rule, rec, Close, exchange, volume)), q)
            <==> SharedAlike(rule, FirstBucket(rec, exchange), shift, volume)
  {
    var moved := rec.(total := rec.total + q.total, today := rec.today + q.today, pre := rec.pre + q.pre);
    CloseOnRecord(rule, rec, exchange, volume);
    CloseOnRecord(rule, moved, exchange, volume);
    SharedAlikeIff(rule, FirstBucket(rec, exchange), if exchange.DCE? then q.today else q.pre, volume);
    hide Fill, Pick, SharedAlike;
  }

  // The record after an event and a Close, in both orders.
  lemma BothOrders(rule: Rule, a: Account, e: Event, close: Event)
    requires SharesByState(close) && !SharesByState(e)
    requires Target(e) == Target(close) && BookingIndex(close.trade) in a.holding && MeetsIndex(a.holding, e)
    ensures var k := BookingIndex(close.trade);
            var x, v, rec, q := close.trade.exchange, close.trade.volume, a.holding[k], Effect(e, k);
            var moved := rec.(total := rec.total + q.total, today := rec.today + q.today, pre := rec.pre + q.pre);
            var g, g' := Step(rule, Step(rule, a, e), close).holding, Step(rule, Step(rule, a, close), e).holding;
            && k in g && k in g'
            && g == a.holding[k := g[k]] && g' == a.holding[k := g'[k]]
            && g[k] == rec.(total := g[k].total, today := g[k].today, pre := g[k].pre)
            && g'[k] == rec.(total := g'[k].total, today := g'[k].today, pre := g'[k].pre)
            && g[k] == Fill(rule, moved, Close, x, v)
            && QuantitiesOf(g'[k]) == Plus(QuantitiesOf(Fill(rule, rec, Close, x, v)), q)
  {
    var k := BookingIndex(close.trade);
    hide Step, Fill, Effect, Pick, BookingIndex, MeetsIndex, SharesByState;
    StepOnRecord(rule, a, e, k);
    StepMeets(rule, a, e, close);
    StepOnRecord(rule, a, close, k);
    StepOnRecord(rule, Step(rule, a, e), close, k);
    StepOnRecord(rule, Step(rule, a, close), e, k);
  }

  lemma StepMeets(rule: Rule, a: Account, e: Event, close: Event)
    requires SharesByState(close) && Target(e) == Target(close)
    requires BookingIndex(close.trade) in a.holding && MeetsIndex(a.holding, e)
    ensures Target(close) == Some(BookingIndex(close.trade))
    ensures MeetsIndex(a.holding, close) && MeetsIndex(Step(rule, a, e).holding, close)
    ensures MeetsIndex(Step(rule, a, close).holding, e)
    ensures BookingIndex(close.trade) in Step(rule, a, e).holding && BookingIndex(close.trade) in Step(rule, a, close).holding
  {
    hide Fill, Opening;
  }

  // A plain Close that shares its volume out and any other event on the same existing record may change
  // places, for every bucket of every record, exactly when the Close is shared out alike before and after.
  lemma MovesPastCloseIff(rule: Rule, a: Account, e: Event, close: Event)
    requires SharesByState(close) && !SharesByState(e)
    requires Target(e) == Target(close) && BookingIndex(close.trade) in a.holding && MeetsIndex(a.holding, e)
    ensures Step(rule, Step(rule, a, e), close).holding == Step(rule, Step(rule, a, close), e).holding
            <==> SharedAlike(rule, FirstBucket(a.holding[BookingIndex(close.trade)], close.trade.exchange),
                             Shift(e, close.trade.exchange), close.trade.volume)
  {
    var k := BookingIndex(close.trade);
    BothOrders(rule, a, e, close);
    CloseAfterMove(rule, a.holding[k], Effect(e, k), close.trade.exchange, close.trade.volume);
    hide Step, Fill, Effect, SharedAlike, Pick, BookingIndex, MeetsIndex;
    SameRecords(Step(rule, Step(rule, a, e), close).holding, Step(rule, Step(rule, a, close), e).holding, a.holding, k);
  }

  lemma SameRecords(g: Holding, g': Holding, h: Holding, k: InstrumentIndex)
    requires k in h && k in g && k in g' && g == h[k := g[k]] && g' == h[k := g'[k]]
    requires g[k] == h[k].(total := g[k].total, today := g[k].today, pre := g[k].pre)
    requires g'[k] == h[k].(total := g'[k].total, today := g'[k].today, pre := g'[k].pre)
    ensures g == g' <==> QuantitiesOf(g[k]) == QuantitiesOf(g'[k])
  {
  }

  // For a position row: the Close must fit what is there without the row (intended), or reach all there is
  // with it (as written), unless its exchange starts with today's lots.
  lemma RowMovesPastCloseIff(rule: Rule, a: Account, row: PositionRow, close: TradingRecord)
    requires Counted(row) && row.ydPosition > 0 && close.openClose.Close? && Shares(close.exchange)
    requires RowIndex(row) == BookingIndex(close) && BookingIndex(close) in a.holding
    ensures var pre := a.holding[BookingIndex(close)].pre;
            Step(rule, Step(rule, a, Row(row)), Trade(close)).holding
            == Step(rule, Step(rule, a, Trade(close)), Row(row)).holding
            <==> close.exchange.DCE?
                 || if rule.Intended? then close.volume <= pre else pre + row.ydPosition <= close.volume
  {
    MovesPastCloseIff(rule, a, Row(row), Trade(close));
    hide Step, BookingIndex;
  }

  // For an opening trade: the same with today's lots, which only matter on DCE.
  lemma OpenMovesPastCloseIff(rule: Rule, a: Account, open: TradingRecord, close: TradingRecord)
    requires open.openClose.Open? && open.volume > 0 && close.openClose.Close? && Shares(close.exchange)
    requires BookingIndex(open) == BookingIndex(close) && BookingIndex(close) in a.holding
    ensures var today := a.holding[BookingIndex(close)].today;
            Step(rule, Step(rule, a, Trade(open)), Trade(close)).holding
            == Step(rule, Step(rule, a, Trade(close)), Trade(open)).holding
            <==> !close.exchange.DCE?
                 || if rule.Intended? then close.volume <= today else today + open.volume <= close.volume
  {
    MovesPastCloseIff(rule, a, Trade(open), Trade(close));
    hide Step;
  }

  // Two plain Closes of one record may always change places by the intended rule, and as written exactly
  // when they are for the same volume or each takes at least all of the bucket closed first.
  lemma ClosesChangePlacesIff(rule: Rule, a: Account, x: TradingRecord, y: TradingRecord)
    requires x.openClose.Close? && y.openClose.Close? && x.exchange == y.exchange && Shares(x.exchange)
    requires x.volume > 0 && y.volume > 0
    requires BookingIndex(x) == BookingIndex(y) && BookingIndex(x) in a.holding
    ensures var first := FirstBucket(a.holding[BookingIndex(x)], x.exchange);
            Step(rule, Step(rule, a, Trade(x)), Trade(y)).holding == Step(rule, Step(rule, a, Trade(y)), Trade(x)).holding
            <==> rule.Intended? || x.volume == y.volume || (first <= x.volume && first <= y.volume)
  {
    var k := BookingIndex(x);
    var ax, ay := Step(rule, a, Trade(x)), Step(rule, a, Trade(y));
    StepOnRecord(rule, a, Trade(x), k);
    StepOnRecord(rule, a, Trade(y), k);
    StepOnRecord(rule, ax, Trade(y), k);
    StepOnRecord(rule, ay, Trade(x), k);
    ClosesOnRecordIff(rule, a.holding[k], x.exchange, x.volume, y.volume);
    hide Step, Fill, BookingIndex;
    SameRecords(Step(rule, ax, Trade(y)).holding, Step(rule, ay, Trade(x)).holding, a.holding, k);
  }

  lemma ClosesOnRecordIff(rule: Rule, rec: HoldingRecord, exchange: Exchange, x: int, y: int)
    requires Shares(exchange) && x > 0 && y > 0
    ensures QuantitiesOf(Fill(rule, Fill(rule, rec, Close, exchange, x), Close, exchange, y))
            == QuantitiesOf(Fill(rule, Fill(rule, rec, Close, exchange, y), Close, exchange, x))
            <==> rule.Intended? || x == y || (FirstBucket(rec, exchange) <= x && FirstBucket(rec, exchange) <= y)
  {
  }

  // ---------------------------------------------------------------- a position query that is retried

  predicate OnlyRows(es: seq<Event>) {
    forall i :: 0 <= i < |es| ==> es[i].Row? && es[i].row.ydPosition >= 0
  }

  lemma OnlyRowsSplit(es: seq<Event>)
    requires OnlyRows(es) && es != []
    ensures OnlyRows(es[..|es| - 1]) && es[|es| - 1].Row? && es[|es| - 1].row.ydPosition >= 0
  {
  }

  lemma OnlyRowsConcat(a: seq<Event>, b: seq<Event>)
    requires OnlyRows(a) && OnlyRows(b)
    ensures OnlyRows(a + b)
  {
  }

  lemma RowStepAdds(rule: Rule, a: Account, e: Event, k: InstrumentIndex)
    requires e.Row?
    ensures QuantitiesAt(Step(rule, a, e).holding, k) == Plus(QuantitiesAt(a.holding, k), Effect(e, k))
  {
    RowAddsEffect(a.holding, e.row, k);
    hide Effect, QuantitiesAt, LoadRow;
  }

  // Rows add to whatever is there, whoever asked for them.
  lemma {:induction false} RowsAdd(rule: Rule, a: Account, es: seq<Event>, k: InstrumentIndex)
    requires OnlyRows(es)
    ensures QuantitiesAt(Run(rule, a, es).holding, k) == Plus(QuantitiesAt(a.holding, k), Effects(es, k))
  {
    hide OnlyRows, Effect, QuantitiesAt, Step;
    if es != [] {
      var front, last := es[..|es| - 1], es[|es| - 1];
      OnlyRowsSplit(es);
      RowsAdd(rule, a, front, k);
      RowStepAdds(rule, Run(rule, a, front), last, k);
    }
  }

  // One of the rows counts at an index.
  predicate CountsAt(es: seq<Event>, k: InstrumentIndex)
    requires OnlyRows(es)
  {
    exists i :: 0 <= i < |es| && Counted(es[i].row) && RowIndex(es[i].row) == k
  }

  lemma CountsAtSplit(es: seq<Event>, k: InstrumentIndex)
    requires OnlyRows(es) && es != []
    ensures OnlyRows(es[..|es| - 1]) && es[|es| - 1].Row?
    ensures var last := es[|es| - 1].row;
            CountsAt(es, k) <==> CountsAt(es[..|es| - 1], k) || (Counted(last) && RowIndex(last) == k)
  {
    hide Counted, RowIndex;
    var front := es[..|es| - 1];
    forall i | 0 <= i < |front| ensures front[i] == es[i] {
    }
    if CountsAt(es, k) {
      var i :| 0 <= i < |es| && Counted(es[i].row) && RowIndex(es[i].row) == k;
      assert i < |front| ==> Counted(front[i].row) && RowIndex(front[i].row) == k;
    }
    if CountsAt(front, k) {
      var i :| 0 <= i < |front| && Counted(front[i].row) && RowIndex(front[i].row) == k;
      assert Counted(es[i].row) && RowIndex(es[i].row) == k;
    }
  }

  lemma RowEffect(e: Event, k: InstrumentIndex)
    requires e.Row? && e.row.ydPosition >= 0
    ensures Effect(e, k).pre >= 0
    ensures if Counted(e.row) && RowIndex(e.row) == k then Effect(e, k).pre > 0 else Effect(e, k) == Quantities(0, 0, 0)
  {
  }

  // Rows bring an index something exactly when one of them counts there.
  lemma {:induction false} RowsShow(es: seq<Event>, k: InstrumentIndex)
    requires OnlyRows(es)
    ensures Effects(es, k).pre >= 0
    ensures if CountsAt(es, k) then Effects(es, k).pre > 0 else Effects(es, k) == Quantities(0, 0, 0)
  {
    if es != [] {
      OnlyRowsSplit(es);
      CountsAtSplit(es, k);
      hide OnlyRows, CountsAt, Effect, Counted, RowIndex;
      RowsShow(es[..|es| - 1], k);
      RowEffect(es[|es| - 1], k);
    }
  }

  lemma EarlyRowsAdd(rule: Rule, a: Account, early: seq<Event>, rows: seq<Event>, k: InstrumentIndex)
    requires OnlyRows(early) && OnlyRows(rows)
    ensures QuantitiesAt(Run(rule, a, early + rows).holding, k)
            == Plus(QuantitiesAt(Run(rule, a, rows).holding, k), Effects(early, k))
  {
    hide Run, Effects, QuantitiesAt, OnlyRows;
    OnlyRowsConcat(early, rows);
    RowsAdd(rule, a, early + rows, k);
    RowsAdd(rule, a, rows, k);
    EffectsSplit(early, rows, k);
  }

  ghost predicate SameQuantities(g: Holding, h: Holding) {
    forall k :: QuantitiesAt(g, k) == QuantitiesAt(h, k)
  }

  // `early` is what attempts before the last one were answered with, late answers included, and `rows` the
  // complete answer of the last. Every row of it is counted exactly once exactly when no earlier answer
  // brought a row that counts.
  lemma {:induction false} RetriedQueryCountsOnceIff(rule: Rule, a: Account, early: seq<Event>, rows: seq<Event>)
    requires OnlyRows(early) && OnlyRows(rows)
    ensures SameQuantities(Run(rule, a, early + rows).holding, Run(rule, a, rows).holding)
            <==> forall k :: !CountsAt(early, k)
  {
    hide Run, Effects, QuantitiesAt, OnlyRows, CountsAt;
    var g, h := Run(rule, a, early + rows).holding, Run(rule, a, rows).holding;
    forall k ensures QuantitiesAt(g, k) == QuantitiesAt(h, k) <==> !CountsAt(early, k) {
      EarlyRowsAdd(rule, a, early, rows, k);
      RowsShow(early, k);
    }
    if k :| CountsAt(early, k) {
      assert QuantitiesAt(g, k) != QuantitiesAt(h, k);
    }
  }

  // A complete answer to both of two attempts doubles yesterday's positions.
  lemma {:induction false} AnsweredTwiceDoubles(rule: Rule, rows: seq<Event>, k: InstrumentIndex)
    requires OnlyRows(rows)
    ensures var once := QuantitiesAt(Run(rule, EMPTY, rows).holding, k);
            QuantitiesAt(Run(rule, EMPTY, rows + rows).holding, k) == Plus(once, once)
  {
    assert QuantitiesAt(EMPTY.holding, k) == Quantities(0, 0, 0);
    hide Run, Effects, QuantitiesAt, OnlyRows;
    RowsAdd(rule, EMPTY, rows, k);
    EarlyRowsAdd(rule, EMPTY, rows, rows, k);
  }
}
