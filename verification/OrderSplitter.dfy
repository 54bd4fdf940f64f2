// The open/close section of ProcessAdvancedOrder: validation of explicit orders, and the split of an
// Auto order into CloseYesterday, CloseToday, Close and Open sub-orders.
module OrderSplitter {
  import opened DataStruct
  import opened Ledger

  datatype TimeInForce = GFD | FAK | FOK

  datatype Order = Order(
    instrumentId: Ticker,
    exchange: Exchange,
    timeInForce: TimeInForce,
    openClose: OpenClose,
    hedgeFlag: HedgeFlag,
    direction: Direction,
    volume: int)

  datatype InstrumentInfo = InstrumentInfo(instrumentId: Ticker, exchange: Exchange)

  // Instruments are looked up by upper-case ticker; the no-close-today list holds tickers as listed.
  datatype Market = Market(instruments: map<Ticker, InstrumentInfo>, noCloseToday: set<Ticker>)

  datatype OrderError =
    | BadVolume
    | UnknownInstrument
    | FokOnCZC
    | NoPosition
    | ExceedsPosition
    | ExceedsYesterday
    | ExceedsToday
    | WrongOrderType

  function UpperChar(c: char): char {
    if 'a' <= c <= 'z' then (c as int - 32) as char else c
  }

  function ToUpper(t: Ticker): Ticker {
    seq(|t|, i requires 0 <= i < |t| => UpperChar(t[i]))
  }

  // SHF and INE tell yesterday's positions from today's in their instructions.
  predicate NamesDay(exchange: Exchange) {
    exchange.SHF? || exchange.INE?
  }

  predicate FuturesExchange(exchange: Exchange) {
    exchange.SHF? || exchange.INE? || exchange.DCE? || exchange.CFE? || exchange.CZC?
  }

  // The position an order closes.
  function ClosedIndex(order: Order): InstrumentIndex {
    InstrumentIndex(order.instrumentId, ReverseDirection(order.direction), order.hedgeFlag)
  }

  // ---------------------------------------------------------------- the split of an Auto order

  // Volumes per kind of sub-order.
  datatype Amounts = Amounts(closeYesterday: int, closeToday: int, close: int, open: int)

  function Sum(a: Amounts): int {
    a.closeYesterday + a.closeToday + a.close + a.open
  }

  datatype Split = Split(pre: int, today: int, left: int)

  function AutoSplit(rule: Rule, exchange: Exchange, noCloseToday: bool, rec: HoldingRecord, volume: int): Split {
    if noCloseToday then
      if exchange.DCE? && rec.today > 0 then Split(0, 0, volume)
      else
        var pre := Pick(rule, volume, rec.pre);
        Split(pre, 0, volume - pre)
    else
      var today := Pick(rule, volume, rec.today);
      if volume - today > 0 then
        var pre := Pick(rule, volume - today, rec.pre);
        Split(pre, today, volume - today - pre)
      else Split(0, today, volume - today)
  }

  function PositivePart(v: int): int {
    if v > 0 then v else 0
  }

  // The sub-orders a split turns into, as amounts per kind.
  function Ordered(exchange: Exchange, s: Split): Amounts {
    if NamesDay(exchange) then Amounts(PositivePart(s.pre), PositivePart(s.today), 0, PositivePart(s.left))
    else Amounts(0, 0, PositivePart(s.today + s.pre), PositivePart(s.left))
  }

  function SubOrder(order: Order, oc: OpenClose, volume: int): seq<Order> {
    if volume > 0 then [order.(openClose := oc, volume := volume)] else []
  }

  function SubOrders(order: Order, a: Amounts): seq<Order> {
    SubOrder(order, CloseYesterday, a.closeYesterday) + SubOrder(order, CloseToday, a.closeToday)
    + SubOrder(order, Close, a.close) + SubOrder(order, Open, a.open)
  }

  function AutoAmounts(rule: Rule, m: Market, h: Holding, order: Order): Amounts {
    if ClosedIndex(order) !in h then Amounts(0, 0, 0, order.volume)
    else Ordered(order.exchange,
                 AutoSplit(rule, order.exchange, order.instrumentId in m.noCloseToday, h[ClosedIndex(order)], order.volume))
  }

  // ---------------------------------------------------------------- the whole section

  // CloseYesterday becomes Close where the exchange has no such instruction. CloseToday is left alone.
  function EffectiveType(exchange: Exchange, oc: OpenClose): OpenClose {
    if oc.CloseYesterday? && !NamesDay(exchange) then Close else oc
  }

  function Validated(h: Holding, order: Order): Result<seq<Order>, OrderError>
    requires !order.openClose.Auto? && (order.openClose.Open? || ClosedIndex(order) in h)
  {
    match order.openClose
    case Open => Ok([order])
    case Close => if order.volume > h[ClosedIndex(order)].total then Err(ExceedsPosition) else Ok([order])
    case CloseYesterday => if order.volume > h[ClosedIndex(order)].pre then Err(ExceedsYesterday) else Ok([order])
    case CloseToday => if order.volume > h[ClosedIndex(order)].today then Err(ExceedsToday) else Ok([order])
    case _ => Err(WrongOrderType)
  }

  function Process(rule: Rule, m: Market, h: Holding, order: Order): Result<seq<Order>, OrderError> {
    if order.volume <= 0 then Err(BadVolume)
    else if ToUpper(order.instrumentId) !in m.instruments then Err(UnknownInstrument)
    else
      var info := m.instruments[ToUpper(order.instrumentId)];
      var o := order.(instrumentId := info.instrumentId, exchange := info.exchange);
      if o.exchange.CZC? && o.timeInForce.FOK? then Err(FokOnCZC)
      else if o.openClose.Auto? then Ok(SubOrders(o, AutoAmounts(rule, m, h, o)))
      else if !o.openClose.Open? && ClosedIndex(o) !in h then Err(NoPosition)
      else Validated(h, o.(openClose := EffectiveType(o.exchange, o.openClose)))
  }

  // ---------------------------------------------------------------- what a split must be

  // What may be closed against a record: nothing of today's where today may not be closed, and on DCE,
  // which closes today's lots first, nothing at all while there are any.
  function Permitted(exchange: Exchange, noCloseToday: bool, rec: HoldingRecord): int {
    if !noCloseToday then rec.today + rec.pre
    else if exchange.DCE? && rec.today > 0 then 0
    else rec.pre
  }

  // Sub-orders add up to the requested volume, each close fits what it can reach, and together they close no
  // more than is permitted.
  predicate Sound(exchange: Exchange, noCloseToday: bool, rec: HoldingRecord, a: Amounts, volume: int) {
    && Sum(a) == volume
    && 0 <= a.closeYesterday <= rec.pre
    && 0 <= a.closeToday <= rec.today
    && 0 <= a.close <= rec.total
    && 0 <= a.open
    && a.closeYesterday + a.closeToday + a.close <= Permitted(exchange, noCloseToday, rec)
  }

  lemma IntendedSplitFits(exchange: Exchange, noCloseToday: bool, rec: HoldingRecord, volume: int)
    requires NonNegative(rec) && volume > 0
    ensures var s := AutoSplit(Intended, exchange, noCloseToday, rec, volume);
            && 0 <= s.pre <= rec.pre && 0 <= s.today <= rec.today && 0 <= s.left
            && s.pre + s.today + s.left == volume
            && s.pre + s.today == Pick(Intended, volume, Permitted(exchange, noCloseToday, rec))
            && (noCloseToday ==> s.today == 0)
            && (!noCloseToday && s.pre > 0 ==> s.today == rec.today)
  {
  }

  // With the intended rule, the split of every volume against every record is sound, closes as much as is
  // permitted, and opens only what is left over once that is exhausted.
  lemma IntendedSplitIsSound(exchange: Exchange, noCloseToday: bool, rec: HoldingRecord, volume: int)
    requires Balanced(rec) && NonNegative(rec) && volume > 0
    ensures var a := Ordered(exchange, AutoSplit(Intended, exchange, noCloseToday, rec, volume));
            && Sound(exchange, noCloseToday, rec, a, volume)
            && a.closeYesterday + a.closeToday + a.close == Pick(Intended, volume, Permitted(exchange, noCloseToday, rec))
            && (a.open > 0 ==> volume > Permitted(exchange, noCloseToday, rec))
  {
    IntendedSplitFits(exchange, noCloseToday, rec, volume);
    hide AutoSplit, Permitted;
  }

  // It leaves today's quantity alone where that may not be closed, and elsewhere turns to yesterday's only
  // once today's is used up.
  lemma IntendedSplitMindsToday(exchange: Exchange, noCloseToday: bool, rec: HoldingRecord, volume: int)
    requires Balanced(rec) && NonNegative(rec) && volume > 0
    ensures var a := Ordered(exchange, AutoSplit(Intended, exchange, noCloseToday, rec, volume));
            && (noCloseToday ==> a.closeToday == 0 && a.close <= rec.pre)
            && (noCloseToday && exchange.DCE? && rec.today > 0 ==> a.close == 0)
            && (!noCloseToday && a.closeYesterday > 0 ==> a.closeToday == rec.today)
  {
    IntendedSplitFits(exchange, noCloseToday, rec, volume);
  }

  // As written, the split is sound exactly under these conditions on what is held.
  predicate WrittenSplitSound(exchange: Exchange, noCloseToday: bool, rec: HoldingRecord, volume: int) {
    if noCloseToday then volume == rec.pre || (exchange.DCE? && rec.today > 0)
    else if NamesDay(exchange) then volume == rec.today
    else rec.today <= volume <= rec.total
  }

  lemma WrittenSplitSoundIff(exchange: Exchange, noCloseToday: bool, rec: HoldingRecord, volume: int)
    requires Balanced(rec) && NonNegative(rec) && volume > 0
    ensures Sound(exchange, noCloseToday, rec,
                  Ordered(exchange, AutoSplit(AsWritten, exchange, noCloseToday, rec, volume)), volume)
            <==> WrittenSplitSound(exchange, noCloseToday, rec, volume)
  {
    if noCloseToday {
      WrittenSparingSplitSoundIff(exchange, rec, volume);
    } else {
      WrittenPlainSplitSoundIff(exchange, rec, volume);
    }
    hide Ordered, AutoSplit, Sound, WrittenSplitSound;
  }

  lemma WrittenSparingSplitSoundIff(exchange: Exchange, rec: HoldingRecord, volume: int)
    requires Balanced(rec) && NonNegative(rec) && volume > 0
    ensures Sound(exchange, true, rec, Ordered(exchange, AutoSplit(AsWritten, exchange, true, rec, volume)), volume)
            <==> WrittenSplitSound(exchange, true, rec, volume)
  {
  }

  lemma WrittenPlainSplitSoundIff(exchange: Exchange, rec: HoldingRecord, volume: int)
    requires Balanced(rec) && NonNegative(rec) && volume > 0
    ensures Sound(exchange, false, rec, Ordered(exchange, AutoSplit(AsWritten, exchange, false, rec, volume)), volume)
            <==> WrittenSplitSound(exchange, false, rec, volume)
  {
  }

  // Five of today's lots held on SHF: an order for one lot closes all five. One of yesterday's and two of
  // today's lots held on CFE, where today's may not be closed: an order for two lots closes two.
  lemma WrittenSplitGoesWrong(rec: HoldingRecord)
    ensures var five := rec.(total := 5, today := 5, pre := 0);
            Ordered(SHF, AutoSplit(AsWritten, SHF, false, five, 1)) == Amounts(0, 5, 0, 0)
            && !Sound(SHF, false, five, Amounts(0, 5, 0, 0), 1)
    ensures var three := rec.(total := 3, today := 2, pre := 1);
            Ordered(CFE, AutoSplit(AsWritten, CFE, true, three, 2)) == Amounts(0, 0, 2, 0)
            && !Sound(CFE, true, three, Amounts(0, 0, 2, 0), 2)
  {
  }

  // As written, the sub-orders add up to whichever is larger, the volume or the bucket closed first, and
  // nothing is opened against an existing position except in the one DCE case.
  function WrittenSum(exchange: Exchange, noCloseToday: bool, rec: HoldingRecord, volume: int): int {
    if noCloseToday && exchange.DCE? && rec.today > 0 then volume
    else Pick(AsWritten, volume, if noCloseToday then rec.pre else rec.today)
  }

  lemma WrittenSplitSums(exchange: Exchange, noCloseToday: bool, rec: HoldingRecord, volume: int)
    requires NonNegative(rec) && volume > 0
    ensures var a := Ordered(exchange, AutoSplit(AsWritten, exchange, noCloseToday, rec, volume));
            && Sum(a) == WrittenSum(exchange, noCloseToday, rec, volume)
            && (a.open > 0 <==> noCloseToday && exchange.DCE? && rec.today > 0)
  {
  }

  // ---------------------------------------------------------------- filling the sub-orders

  // One fill of the sub-order of kind `openClose`.
  datatype Execution = Execution(openClose: OpenClose, volume: int)

  predicate SubOrderKind(oc: OpenClose) {
    oc.Open? || oc.Close? || oc.CloseToday? || oc.CloseYesterday?
  }

  function Add(a: Amounts, f: Execution): Amounts {
    match f.openClose
    case CloseYesterday => a.(closeYesterday := a.closeYesterday + f.volume)
    case CloseToday => a.(closeToday := a.closeToday + f.volume)
    case Close => a.(close := a.close + f.volume)
    case Open => a.(open := a.open + f.volume)
    case _ => a
  }

  function Executed(fills: seq<Execution>): Amounts {
    if fills == [] then Amounts(0, 0, 0, 0) else Add(Executed(fills[..|fills| - 1]), fills[|fills| - 1])
  }

  predicate RealFills(fills: seq<Execution>) {
    forall i :: 0 <= i < |fills| ==> fills[i].volume > 0 && SubOrderKind(fills[i].openClose)
  }

  // Positive fills, in any chunks and any order, that exceed no sub-order.
  predicate Within(fills: seq<Execution>, a: Amounts) {
    var e := Executed(fills);
    && RealFills(fills)
    && e.closeYesterday <= a.closeYesterday && e.closeToday <= a.closeToday && e.close <= a.close && e.open <= a.open
  }

  function TradeOf(order: Order, f: Execution): TradingRecord {
    TradingRecord(0, order.exchange, order.instrumentId, f.openClose, order.direction, order.hedgeFlag, f.volume)
  }

  function FillAll(rule: Rule, h: Holding, order: Order, fills: seq<Execution>): Holding {
    if fills == [] then h
    else BookTrade(rule, FillAll(rule, h, order, fills[..|fills| - 1]), TradeOf(order, fills[|fills| - 1]))
  }

  lemma {:induction false} ExecutedIsNonNegative(fills: seq<Execution>)
    requires RealFills(fills)
    ensures var e := Executed(fills); 0 <= e.closeYesterday && 0 <= e.closeToday && 0 <= e.close && 0 <= e.open
  {
    if fills != [] {
      ExecutedIsNonNegative(fills[..|fills| - 1]);
    }
  }

  // The record behind the fills: what a fill of a sub-order does to the position it closes.
  function FillClosed(rule: Rule, rec: HoldingRecord, exchange: Exchange, f: Execution): HoldingRecord {
    if f.openClose.Open? then rec else Fill(rule, rec, f.openClose, exchange, f.volume)
  }

  function FillClosedAll(rule: Rule, rec: HoldingRecord, exchange: Exchange, fills: seq<Execution>): HoldingRecord {
    if fills == [] then rec
    else FillClosed(rule, FillClosedAll(rule, rec, exchange, fills[..|fills| - 1]), exchange, fills[|fills| - 1])
  }

  lemma {:induction false} FillsReachClosedRecord(rule: Rule, h: Holding, order: Order, fills: seq<Execution>)
    requires ClosedIndex(order) in h && RealFills(fills)
    ensures ClosedIndex(order) in FillAll(rule, h, order, fills)
    ensures FillAll(rule, h, order, fills)[ClosedIndex(order)]
            == FillClosedAll(rule, h[ClosedIndex(order)], order.exchange, fills)
  {
    if fills != [] {
      FillsReachClosedRecord(rule, h, order, fills[..|fills| - 1]);
      hide Fill;
      var k := BookingIndex(TradeOf(order, fills[|fills| - 1]));
      assert k == ClosedIndex(order) <==> !fills[|fills| - 1].openClose.Open?;
    }
  }

  lemma NamedFill(rule: Rule, rec: HoldingRecord, exchange: Exchange, f: Execution)
    requires f.openClose.Open? || f.openClose.CloseToday? || f.openClose.CloseYesterday?
    ensures var after, e := FillClosed(rule, rec, exchange, f), Add(Amounts(0, 0, 0, 0), f);
            && after.pre == rec.pre - e.closeYesterday
            && after.today == rec.today - e.closeToday
            && after.total == rec.total - e.closeYesterday - e.closeToday
  {
  }

  // Where the instruction names the day, each bucket loses exactly what was filled against it.
  lemma {:induction false} NamedFills(rule: Rule, rec: HoldingRecord, exchange: Exchange, fills: seq<Execution>)
    requires RealFills(fills) && Executed(fills).close == 0
    ensures var e, after := Executed(fills), FillClosedAll(rule, rec, exchange, fills);
            && after.pre == rec.pre - e.closeYesterday
            && after.today == rec.today - e.closeToday
            && after.total == rec.total - e.closeYesterday - e.closeToday
  {
    if fills != [] {
      hide FillClosed;
      var prefix, last := fills[..|fills| - 1], fills[|fills| - 1];
      ExecutedIsNonNegative(prefix);
      NamedFills(rule, rec, exchange, prefix);
      NamedFill(rule, FillClosedAll(rule, rec, exchange, prefix), exchange, last);
    }
  }

  // With the intended rule, a Close filled in chunks does what one Close of the whole volume does.
  lemma CloseIsAdditive(rec: HoldingRecord, exchange: Exchange, a: int, b: int)
    requires exchange.DCE? || exchange.CFE? || exchange.CZC?
    requires NonNegative(rec) && 0 <= a && 0 <= b
    ensures Fill(Intended, Fill(Intended, rec, Close, exchange, a), Close, exchange, b)
            == Fill(Intended, rec, Close, exchange, a + b)
  {
  }

  lemma PlainFill(rec: HoldingRecord, exchange: Exchange, closed: int, f: Execution)
    requires exchange.DCE? || exchange.CFE? || exchange.CZC?
    requires NonNegative(rec) && 0 <= closed && 0 < f.volume && (f.openClose.Open? || f.openClose.Close?)
    ensures FillClosed(Intended, Fill(Intended, rec, Close, exchange, closed), exchange, f)
            == Fill(Intended, rec, Close, exchange, closed + if f.openClose.Close? then f.volume else 0)
  {
    hide Fill;
    CloseIsAdditive(rec, exchange, closed, f.volume);
  }

  // A filling, one fill at a time.
  lemma LastFill(rule: Rule, rec: HoldingRecord, exchange: Exchange, fills: seq<Execution>)
    requires RealFills(fills) && fills != []
    ensures var prefix, last := fills[..|fills| - 1], fills[|fills| - 1];
            && RealFills(prefix) && last.volume > 0 && SubOrderKind(last.openClose)
            && Executed(fills) == Add(Executed(prefix), last)
            && FillClosedAll(rule, rec, exchange, fills)
               == FillClosed(rule, FillClosedAll(rule, rec, exchange, prefix), exchange, last)
            && var e := Executed(prefix); 0 <= e.closeYesterday && 0 <= e.closeToday && 0 <= e.close && 0 <= e.open
  {
    ExecutedIsNonNegative(fills[..|fills| - 1]);
    hide Add, FillClosed;
  }

  lemma NothingFilled(rec: HoldingRecord, exchange: Exchange)
    requires NonNegative(rec)
    ensures Fill(Intended, rec, Close, exchange, 0) == rec
  {
  }

  lemma {:induction false} PlainFills(rec: HoldingRecord, exchange: Exchange, fills: seq<Execution>)
    requires exchange.DCE? || exchange.CFE? || exchange.CZC?
    requires NonNegative(rec)
    requires RealFills(fills) && Executed(fills).closeYesterday == Executed(fills).closeToday == 0
    ensures FillClosedAll(Intended, rec, exchange, fills) == Fill(Intended, rec, Close, exchange, Executed(fills).close)
  {
    if fills == [] {
      NothingFilled(rec, exchange);
    } else {
      var prefix, last := fills[..|fills| - 1], fills[|fills| - 1];
      LastFill(Intended, rec, exchange, fills);
      hide Fill, FillClosed, FillClosedAll, NonNegative, Executed, RealFills;
      PlainFills(rec, exchange, prefix);
      PlainFill(rec, exchange, Executed(prefix).close, last);
    }
  }

  // Splitting an Auto order with the intended rule and filling the sub-orders in any chunks and any order
  // keeps the closed record balanced and non-negative at every point, and never takes from today's
  // quantity where that may not be closed.
  lemma {:induction false} AutoFillsAreSafe(m: Market, h: Holding, order: Order, fills: seq<Execution>)
    requires FuturesExchange(order.exchange) && order.volume > 0
    requires ClosedIndex(order) in h && Balanced(h[ClosedIndex(order)]) && NonNegative(h[ClosedIndex(order)])
    requires Within(fills, AutoAmounts(Intended, m, h, order))
    ensures var k, g := ClosedIndex(order), FillAll(Intended, h, order, fills);
            && k in g && Balanced(g[k]) && NonNegative(g[k])
            && (order.instrumentId in m.noCloseToday ==> g[k].today == h[k].today)
  {
    var rec := h[ClosedIndex(order)];
    FillsReachClosedRecord(Intended, h, order, fills);
    ExecutedIsNonNegative(fills);
    IntendedSplitIsSound(order.exchange, order.instrumentId in m.noCloseToday, rec, order.volume);
    IntendedSplitMindsToday(order.exchange, order.instrumentId in m.noCloseToday, rec, order.volume);
    hide AutoSplit, Permitted, FillAll;
    if NamesDay(order.exchange) {
      NamedFills(Intended, rec, order.exchange, fills);
    } else {
      PlainFills(rec, order.exchange, fills);
    }
  }

  lemma FillMovesNet(rule: Rule, h: Holding, order: Order, f: Execution, t: Ticker)
    requires SubOrderKind(f.openClose) && (ClosedIndex(order) in h || f.openClose.Open?)
    ensures NetHolding(BookTrade(rule, h, TradeOf(order, f)), t)
            == NetHolding(h, t) + if order.instrumentId == t then f.volume * DirectionCode(order.direction) else 0
  {
    assert MeetsIndex(h, Trade(TradeOf(order, f)));
    hide NetHolding, BookTrade, BookingIndex, MeetsIndex;
    NetTradeStep(rule, h, TradeOf(order, f), t);
  }

  lemma AddSums(a: Amounts, f: Execution)
    requires SubOrderKind(f.openClose)
    ensures Sum(Add(a, f)) == Sum(a) + f.volume
  {
  }

  lemma Scale(a: int, b: int, d: Direction)
    ensures (a + b) * DirectionCode(d) == a * DirectionCode(d) + b * DirectionCode(d)
  {
  }

  // Whatever is not there to be closed is not closed by any of the fills.
  predicate ClosesExist(h: Holding, order: Order, fills: seq<Execution>) {
    ClosedIndex(order) in h || forall i :: 0 <= i < |fills| ==> fills[i].openClose.Open?
  }

  lemma {:induction false} OnlyOpens(fills: seq<Execution>)
    requires RealFills(fills)
    requires Executed(fills).closeYesterday == Executed(fills).closeToday == Executed(fills).close == 0
    ensures forall i :: 0 <= i < |fills| ==> fills[i].openClose.Open?
  {
    if fills != [] {
      ExecutedIsNonNegative(fills[..|fills| - 1]);
      OnlyOpens(fills[..|fills| - 1]);
    }
  }

  lemma {:induction false} ClosedRecordStays(rule: Rule, h: Holding, order: Order, fills: seq<Execution>)
    requires ClosedIndex(order) in h
    ensures ClosedIndex(order) in FillAll(rule, h, order, fills)
  {
    if fills != [] {
      ClosedRecordStays(rule, h, order, fills[..|fills| - 1]);
    }
  }

  // Fills that close only what there is move the net holding of the ticker by what was filled, under
  // either rule.
  lemma {:induction false} FillsMoveNet(rule: Rule, h: Holding, order: Order, fills: seq<Execution>, t: Ticker)
    requires RealFills(fills) && ClosesExist(h, order, fills)
    ensures NetHolding(FillAll(rule, h, order, fills), t)
            == NetHolding(h, t)
               + if order.instrumentId == t then Sum(Executed(fills)) * DirectionCode(order.direction) else 0
  {
    hide NetHolding;
    if fills == [] {
      assert Sum(Executed(fills)) * DirectionCode(order.direction) == 0;
    } else {
      hide BookTrade, ClosedIndex, DirectionCode, Add, Sum, TradeOf;
      var prefix, last := fills[..|fills| - 1], fills[|fills| - 1];
      FillsMoveNet(rule, h, order, prefix, t);
      if ClosedIndex(order) in h {
        ClosedRecordStays(rule, h, order, prefix);
      }
      FillMovesNet(rule, FillAll(rule, h, order, prefix), order, last, t);
      AddSums(Executed(prefix), last);
      Scale(Sum(Executed(prefix)), last.volume, order.direction);
    }
  }

  // Any complete filling of an intended Auto order moves the net holding by exactly the order, whether or
  // not there is an opposite position.
  lemma {:induction false} AutoOrderMovesNetByOrder(m: Market, h: Holding, order: Order, fills: seq<Execution>)
    requires order.volume > 0
    requires ClosedIndex(order) in h ==> Balanced(h[ClosedIndex(order)]) && NonNegative(h[ClosedIndex(order)])
    requires RealFills(fills) && Executed(fills) == AutoAmounts(Intended, m, h, order)
    ensures NetHolding(FillAll(Intended, h, order, fills), order.instrumentId)
            == NetHolding(h, order.instrumentId) + order.volume * DirectionCode(order.direction)
  {
    if ClosedIndex(order) in h {
      IntendedSplitIsSound(order.exchange, order.instrumentId in m.noCloseToday, h[ClosedIndex(order)], order.volume);
    } else {
      OnlyOpens(fills);
    }
    FillsMoveNet(Intended, h, order, fills, order.instrumentId);
  }

  // As written, a complete filling moves the net by the sum of the sub-orders, which is the order's own
  // volume exactly when the bucket closed first is no larger.
  lemma {:induction false} WrittenAutoMovesNet(rule: Rule, m: Market, h: Holding, order: Order, fills: seq<Execution>)
    requires order.volume > 0 && ClosedIndex(order) in h && NonNegative(h[ClosedIndex(order)])
    requires RealFills(fills) && Executed(fills) == AutoAmounts(AsWritten, m, h, order)
    ensures var nct, rec := order.instrumentId in m.noCloseToday, h[ClosedIndex(order)];
            && NetHolding(FillAll(rule, h, order, fills), order.instrumentId)
               == NetHolding(h, order.instrumentId)
                  + WrittenSum(order.exchange, nct, rec, order.volume) * DirectionCode(order.direction)
            && (WrittenSum(order.exchange, nct, rec, order.volume) == order.volume
                <==> (nct && order.exchange.DCE? && rec.today > 0) || (if nct then rec.pre else rec.today) <= order.volume)
  {
    hide NetHolding, FillAll;
    FillsMoveNet(rule, h, order, fills, order.instrumentId);
    WrittenSplitSums(order.exchange, order.instrumentId in m.noCloseToday, h[ClosedIndex(order)], order.volume);
  }

  // ---------------------------------------------------------------- the no-close-today guarantee as written

  // As written, a Close on CFE or CZC never takes from today's quantity, because it takes at least all of
  // yesterday's first.
  lemma {:induction false} WrittenCloseSparesToday(rec: HoldingRecord, exchange: Exchange, fills: seq<Execution>)
    requires exchange.CFE? || exchange.CZC?
    requires RealFills(fills) && Executed(fills).closeToday == 0
    ensures FillClosedAll(AsWritten, rec, exchange, fills).today >= rec.today
  {
    if fills != [] {
      ExecutedIsNonNegative(fills[..|fills| - 1]);
      WrittenCloseSparesToday(rec, exchange, fills[..|fills| - 1]);
    }
  }

  lemma {:induction false} OnlyOpenFills(rule: Rule, rec: HoldingRecord, exchange: Exchange, fills: seq<Execution>)
    requires RealFills(fills)
    requires Executed(fills).closeYesterday == Executed(fills).closeToday == Executed(fills).close == 0
    ensures FillClosedAll(rule, rec, exchange, fills) == rec
  {
    if fills != [] {
      ExecutedIsNonNegative(fills[..|fills| - 1]);
      OnlyOpenFills(rule, rec, exchange, fills[..|fills| - 1]);
    }
  }

  // A filling the exchange can make: it exceeds no sub-order the code sends, and nothing that is held.
  ghost predicate Possible(m: Market, h: Holding, order: Order, fills: seq<Execution>)
    requires ClosedIndex(order) in h
  {
    && Within(fills, AutoAmounts(AsWritten, m, h, order))
    && NonNegative(FillClosedAll(Intended, h[ClosedIndex(order)], order.exchange, fills))
  }

  // No possible filling takes from today's quantity, as `booking` counts it.
  ghost predicate SparesToday(booking: Rule, m: Market, h: Holding, order: Order)
    requires ClosedIndex(order) in h
  {
    var k := ClosedIndex(order);
    forall fills :: Possible(m, h, order, fills)
      ==> k in FillAll(booking, h, order, fills) && FillAll(booking, h, order, fills)[k].today >= h[k].today
  }

  lemma ClosesOnly(fills: seq<Execution>, a: Amounts)
    requires Within(fills, a)
    ensures var e := Executed(fills);
            && 0 <= e.closeYesterday <= a.closeYesterday && 0 <= e.closeToday <= a.closeToday && 0 <= e.close <= a.close
  {
    ExecutedIsNonNegative(fills);
  }

  lemma OneFillOnRecord(rule: Rule, rec: HoldingRecord, exchange: Exchange, f: Execution)
    requires !f.openClose.Open?
    ensures FillClosedAll(rule, rec, exchange, [f]) == Fill(rule, rec, f.openClose, exchange, f.volume)
  {
    assert [f][..0] == [];
    hide Fill;
  }

  // A fill of one sub-order, as a filling and on the record.
  lemma OneFill(booking: Rule, h: Holding, order: Order, oc: OpenClose, volume: int, a: Amounts)
    returns (fills: seq<Execution>)
    requires ClosedIndex(order) in h && SubOrderKind(oc) && !oc.Open? && 0 < volume
    requires a.open >= 0 && a.close >= 0 && a.closeToday >= 0 && a.closeYesterday >= 0
    requires volume <= if oc.Close? then a.close else if oc.CloseToday? then a.closeToday else a.closeYesterday
    ensures fills == [Execution(oc, volume)] && Within(fills, a)
    ensures var k, g := ClosedIndex(order), FillAll(booking, h, order, fills);
            k in g && g[k] == Fill(booking, h[k], oc, order.exchange, volume)
  {
    fills := [Execution(oc, volume)];
    assert fills[..0] == [];
    assert Executed(fills) == Add(Executed(fills[..0]), fills[0]);
    FillsReachClosedRecord(booking, h, order, fills);
    assert FillClosedAll(booking, h[ClosedIndex(order)], order.exchange, fills)
        == FillClosed(booking, FillClosedAll(booking, h[ClosedIndex(order)], order.exchange, fills[..0]),
                      order.exchange, fills[0]);
  }

  // What the exchange closes: the orders the code sends for an Auto order on a no-close-today ticker leave
  // today's lots alone, however they are filled, exactly on SHF, INE and DCE, and on CFE and CZC as long as
  // the volume does not exceed yesterday's quantity or there are none of today's.
  lemma {:induction false} NoCloseTodayAsWrittenIff(m: Market, h: Holding, order: Order)
    requires FuturesExchange(order.exchange) && order.volume > 0 && order.instrumentId in m.noCloseToday
    requires ClosedIndex(order) in h && Balanced(h[ClosedIndex(order)]) && NonNegative(h[ClosedIndex(order)])
    ensures var rec := h[ClosedIndex(order)];
            SparesToday(Intended, m, h, order)
            <==> NamesDay(order.exchange) || order.exchange.DCE? || order.volume <= rec.pre || rec.today == 0
  {
    var rec, a := h[ClosedIndex(order)], AutoAmounts(AsWritten, m, h, order);
    if NamesDay(order.exchange) || order.exchange.DCE? || order.volume <= rec.pre || rec.today == 0 {
      forall fills | Possible(m, h, order, fills)
        ensures ClosedIndex(order) in FillAll(Intended, h, order, fills)
        ensures FillAll(Intended, h, order, fills)[ClosedIndex(order)].today >= rec.today
      {
        FillsReachClosedRecord(Intended, h, order, fills);
        if rec.today != 0 {
          SparedByExchange(order.exchange, rec, order.volume, fills, a);
        }
      }
    } else {
      var volume := Pick(Intended, order.volume, rec.total);
      var fills := OneFill(Intended, h, order, Close, volume, a);
      OneFillOnRecord(Intended, rec, order.exchange, Execution(Close, volume));
      assert Possible(m, h, order, fills);
    }
  }

  lemma SparedByExchange(exchange: Exchange, rec: HoldingRecord, volume: int, fills: seq<Execution>, a: Amounts)
    requires FuturesExchange(exchange) && NonNegative(rec) && volume > 0
    requires NamesDay(exchange) || exchange.DCE? || volume <= rec.pre
    requires a == Ordered(exchange, AutoSplit(AsWritten, exchange, true, rec, volume)) && Within(fills, a)
    ensures FillClosedAll(Intended, rec, exchange, fills).today >= rec.today
  {
    ClosesOnly(fills, a);
    hide Within;
    if NamesDay(exchange) {
      NamedFills(Intended, rec, exchange, fills);
    } else {
      PlainFills(rec, exchange, fills);
    }
  }

  // A possible filling of plain closes closes no more than is held.
  lemma PossibleCloses(m: Market, h: Holding, order: Order, fills: seq<Execution>)
    requires FuturesExchange(order.exchange) && !NamesDay(order.exchange)
    requires ClosedIndex(order) in h && NonNegative(h[ClosedIndex(order)]) && Possible(m, h, order, fills)
    ensures var e, a := Executed(fills), AutoAmounts(AsWritten, m, h, order);
            && e.closeYesterday == e.closeToday == 0
            && 0 <= e.close <= a.close && e.close <= h[ClosedIndex(order)].total
  {
    ClosesOnly(fills, AutoAmounts(AsWritten, m, h, order));
    hide AutoSplit;
    PlainFills(h[ClosedIndex(order)], order.exchange, fills);
    hide Within, FillClosedAll;
  }

  // What the ledger shows: as written, it never counts a lot of today's as closed on such a ticker, except
  // on DCE when only yesterday's are held, where the first fill makes today's quantity negative.
  lemma {:induction false} LedgerSeesTodaySparedIff(m: Market, h: Holding, order: Order)
    requires FuturesExchange(order.exchange) && order.volume > 0 && order.instrumentId in m.noCloseToday
    requires ClosedIndex(order) in h && Balanced(h[ClosedIndex(order)]) && NonNegative(h[ClosedIndex(order)])
    ensures var rec := h[ClosedIndex(order)];
            SparesToday(AsWritten, m, h, order) <==> !(order.exchange.DCE? && rec.today == 0 && rec.pre > 0)
  {
    var rec, a := h[ClosedIndex(order)], AutoAmounts(AsWritten, m, h, order);
    if order.exchange.DCE? && rec.today == 0 && rec.pre > 0 {
      var fills := OneFill(AsWritten, h, order, Close, 1, a);
      OneFillOnRecord(Intended, rec, order.exchange, Execution(Close, 1));
      assert Possible(m, h, order, fills);
    } else {
      forall fills | Possible(m, h, order, fills)
        ensures ClosedIndex(order) in FillAll(AsWritten, h, order, fills)
        ensures FillAll(AsWritten, h, order, fills)[ClosedIndex(order)].today >= rec.today
      {
        FillsReachClosedRecord(AsWritten, h, order, fills);
        ClosesOnly(fills, a);
        if NamesDay(order.exchange) {
          NamedFills(AsWritten, rec, order.exchange, fills);
        } else if order.exchange.DCE? {
          PossibleCloses(m, h, order, fills);
          OnlyOpenFills(AsWritten, rec, order.exchange, fills);
        } else {
          WrittenCloseSparesToday(rec, order.exchange, fills);
        }
        hide FillAll, Possible, Within, FillClosedAll;
      }
    }
  }

  // Two of today's lots held on CFE and none of yesterday's, today's not to be closed: an Auto order for two
  // lots is sent as a Close of two, the exchange closes both, and the ledger books them against yesterday's.
  lemma TodayClosedUnseen(rec: HoldingRecord)
    ensures var held := rec.(total := 2, today := 2, pre := 0);
            && Ordered(CFE, AutoSplit(AsWritten, CFE, true, held, 2)) == Amounts(0, 0, 2, 0)
            && Fill(Intended, held, Close, CFE, 2) == held.(total := 0, today := 0)
            && Fill(AsWritten, held, Close, CFE, 2) == held.(total := 0, pre := -2)
  {
  }

  // ---------------------------------------------------------------- safe fills as written

  // No possible filling of the sub-orders that the code sends drives a quantity of the ledger's record below
  // zero.
  ghost predicate LedgerStaysNonNegative(m: Market, h: Holding, order: Order)
    requires ClosedIndex(order) in h
  {
    var k := ClosedIndex(order);
    forall fills :: Possible(m, h, order, fills)
      ==> k in FillAll(AsWritten, h, order, fills) && NonNegative(FillAll(AsWritten, h, order, fills)[k])
  }

  // The bucket that the split as written closes first.
  function SplitBucket(noCloseToday: bool, rec: HoldingRecord): int {
    if noCloseToday then rec.pre else rec.today
  }

  predicate ClosesNothing(exchange: Exchange, noCloseToday: bool, rec: HoldingRecord) {
    noCloseToday && exchange.DCE? && rec.today > 0
  }

  // How much of a plain Close sent as written can be filled.
  function Fillable(noCloseToday: bool, rec: HoldingRecord, volume: int): int {
    Pick(Intended, Pick(AsWritten, volume, SplitBucket(noCloseToday, rec)), rec.total)
  }

  predicate WrittenFillsSafe(exchange: Exchange, noCloseToday: bool, rec: HoldingRecord, volume: int) {
    || NamesDay(exchange) || ClosesNothing(exchange, noCloseToday, rec)
    || rec.total == 0 || (Fillable(noCloseToday, rec, volume) == 1 <= FirstBucket(rec, exchange))
  }

  // At most one lot is closed, so there is at most one closing fill.
  lemma {:induction false} OneLotFilled(rule: Rule, rec: HoldingRecord, exchange: Exchange, fills: seq<Execution>)
    requires RealFills(fills) && Executed(fills).closeYesterday == Executed(fills).closeToday == 0
    requires Executed(fills).close <= 1
    ensures FillClosedAll(rule, rec, exchange, fills)
            == if Executed(fills).close == 1 then Fill(rule, rec, Close, exchange, 1) else rec
  {
    hide Fill;
    if fills != [] {
      var prefix, last := fills[..|fills| - 1], fills[|fills| - 1];
      ExecutedIsNonNegative(prefix);
      assert last.openClose.Open? || last == Execution(Close, 1);
      OneLotFilled(rule, rec, exchange, prefix);
    }
  }

  lemma SafeAsWritten(m: Market, h: Holding, order: Order, fills: seq<Execution>)
    requires FuturesExchange(order.exchange) && order.volume > 0
    requires ClosedIndex(order) in h && Balanced(h[ClosedIndex(order)]) && NonNegative(h[ClosedIndex(order)])
    requires WrittenFillsSafe(order.exchange, order.instrumentId in m.noCloseToday, h[ClosedIndex(order)], order.volume)
    requires Possible(m, h, order, fills)
    ensures NonNegative(FillClosedAll(AsWritten, h[ClosedIndex(order)], order.exchange, fills))
  {
    var rec := h[ClosedIndex(order)];
    if NamesDay(order.exchange) {
      ClosesOnly(fills, AutoAmounts(AsWritten, m, h, order));
      NamedFills(AsWritten, rec, order.exchange, fills);
      NamedFills(Intended, rec, order.exchange, fills);
    } else {
      PossibleCloses(m, h, order, fills);
      OneLotFilled(AsWritten, rec, order.exchange, fills);
    }
    hide Possible, Within, FillClosedAll;
  }

  // Two fills of one lot each.
  lemma TwoFills(h: Holding, order: Order, a: Amounts) returns (fills: seq<Execution>)
    requires ClosedIndex(order) in h && a.open >= 0 && a.close >= 2 && a.closeToday >= 0 && a.closeYesterday >= 0
    ensures Within(fills, a)
    ensures var k, g := ClosedIndex(order), FillAll(AsWritten, h, order, fills);
            && k in g
            && g[k] == Fill(AsWritten, Fill(AsWritten, h[k], Close, order.exchange, 1), Close, order.exchange, 1)
    ensures var rec := h[ClosedIndex(order)];
            FillClosedAll(Intended, rec, order.exchange, fills)
            == Fill(Intended, Fill(Intended, rec, Close, order.exchange, 1), Close, order.exchange, 1)
  {
    var one := OneFill(AsWritten, h, order, Close, 1, a);
    hide Fill;
    fills := one + [Execution(Close, 1)];
    assert fills[..1] == one && one[..0] == [];
    assert Executed(fills) == Add(Executed(one), Execution(Close, 1));
    assert Executed(one) == Add(Executed([]), Execution(Close, 1));
    FillsReachClosedRecord(AsWritten, h, order, fills);
    FillsReachClosedRecord(AsWritten, h, order, one);
    OneFillOnRecord(Intended, h[ClosedIndex(order)], order.exchange, Execution(Close, 1));
  }

  // As written throughout, every filling the exchange can make of the sub-orders of an Auto order keeps all
  // quantities non-negative exactly where the day is named, nothing is closed or held, or a single lot can be
  // filled and the bucket closed first holds one.
  lemma {:induction false} AutoFillsAsWrittenSafeIff(m: Market, h: Holding, order: Order)
    requires FuturesExchange(order.exchange) && order.volume > 0
    requires ClosedIndex(order) in h && Balanced(h[ClosedIndex(order)]) && NonNegative(h[ClosedIndex(order)])
    ensures LedgerStaysNonNegative(m, h, order)
            <==> WrittenFillsSafe(order.exchange, order.instrumentId in m.noCloseToday, h[ClosedIndex(order)], order.volume)
  {
    if WrittenFillsSafe(order.exchange, order.instrumentId in m.noCloseToday, h[ClosedIndex(order)], order.volume) {
      forall fills | Possible(m, h, order, fills)
        ensures ClosedIndex(order) in FillAll(AsWritten, h, order, fills)
        ensures NonNegative(FillAll(AsWritten, h, order, fills)[ClosedIndex(order)])
      {
        FillsReachClosedRecord(AsWritten, h, order, fills);
        SafeAsWritten(m, h, order, fills);
      }
    } else {
      UnsafeAsWritten(m, h, order);
    }
  }

  lemma UnsafeAsWritten(m: Market, h: Holding, order: Order)
    requires FuturesExchange(order.exchange) && order.volume > 0
    requires ClosedIndex(order) in h && Balanced(h[ClosedIndex(order)]) && NonNegative(h[ClosedIndex(order)])
    requires !WrittenFillsSafe(order.exchange, order.instrumentId in m.noCloseToday, h[ClosedIndex(order)], order.volume)
    ensures !LedgerStaysNonNegative(m, h, order)
  {
    var rec, a := h[ClosedIndex(order)], AutoAmounts(AsWritten, m, h, order);
    hide FillAll, Within, FillClosedAll;
    if FirstBucket(rec, order.exchange) == 0 {
      var fills := OneFill(AsWritten, h, order, Close, 1, a);
      OneFillOnRecord(Intended, rec, order.exchange, Execution(Close, 1));
      assert Possible(m, h, order, fills);
    } else {
      var fills := TwoFills(h, order, a);
      CloseIsAdditive(rec, order.exchange, 1, 1);
      assert Possible(m, h, order, fills);
    }
  }

  // What the code sends never closes more than the exchange holds, however it is filled, exactly when the
  // volume does not exceed the bucket closed first, where the day is named, or the whole position elsewhere.
  predicate WrittenFillsFit(exchange: Exchange, noCloseToday: bool, rec: HoldingRecord, volume: int) {
    if NamesDay(exchange) then volume <= SplitBucket(noCloseToday, rec)
    else ClosesNothing(exchange, noCloseToday, rec) || volume <= rec.total
  }

  // No filling of the sub-orders that the code sends, were it possible or not, takes more than is held.
  ghost predicate OrdersFit(m: Market, h: Holding, order: Order)
    requires ClosedIndex(order) in h
  {
    var k := ClosedIndex(order);
    forall fills :: Within(fills, AutoAmounts(AsWritten, m, h, order))
      ==> k in FillAll(Intended, h, order, fills) && NonNegative(FillAll(Intended, h, order, fills)[k])
  }

  lemma FitAtExchange(exchange: Exchange, noCloseToday: bool, rec: HoldingRecord, volume: int, fills: seq<Execution>)
    requires FuturesExchange(exchange) && Balanced(rec) && NonNegative(rec) && volume > 0
    requires WrittenFillsFit(exchange, noCloseToday, rec, volume)
    requires Within(fills, Ordered(exchange, AutoSplit(AsWritten, exchange, noCloseToday, rec, volume)))
    ensures NonNegative(FillClosedAll(Intended, rec, exchange, fills))
  {
    ClosesOnly(fills, Ordered(exchange, AutoSplit(AsWritten, exchange, noCloseToday, rec, volume)));
    hide Within;
    if NamesDay(exchange) {
      NamedFills(Intended, rec, exchange, fills);
    } else {
      PlainFills(rec, exchange, fills);
    }
  }

  lemma {:induction false} AutoFillsAtExchangeFitIff(m: Market, h: Holding, order: Order)
    requires FuturesExchange(order.exchange) && order.volume > 0
    requires ClosedIndex(order) in h && Balanced(h[ClosedIndex(order)]) && NonNegative(h[ClosedIndex(order)])
    ensures OrdersFit(m, h, order)
            <==> WrittenFillsFit(order.exchange, order.instrumentId in m.noCloseToday, h[ClosedIndex(order)], order.volume)
  {
    var rec, a, nct := h[ClosedIndex(order)], AutoAmounts(AsWritten, m, h, order), order.instrumentId in m.noCloseToday;
    if WrittenFillsFit(order.exchange, nct, rec, order.volume) {
      forall fills | Within(fills, a)
        ensures ClosedIndex(order) in FillAll(Intended, h, order, fills)
        ensures NonNegative(FillAll(Intended, h, order, fills)[ClosedIndex(order)])
      {
        FillsReachClosedRecord(Intended, h, order, fills);
        FitAtExchange(order.exchange, nct, rec, order.volume, fills);
      }
    } else {
      hide FillAll, Within;
      var oc := if !NamesDay(order.exchange) then Close else if nct then CloseYesterday else CloseToday;
      var fills := OneFill(Intended, h, order, oc, order.volume, a);
    }
  }

  // Three of yesterday's lots held on CFE: an Auto order for two is sent as a Close of two, and once it is
  // filled one lot at a time the ledger shows minus one of yesterday's lots.
  lemma ChunksGoNegative(m: Market, h: Holding, order: Order)
    requires order.exchange.CFE? && order.volume == 2 && ClosedIndex(order) in h
    requires var rec := h[ClosedIndex(order)]; rec.total == 3 && rec.today == 0 && rec.pre == 3
    requires order.instrumentId !in m.noCloseToday
    ensures exists fills :: Possible(m, h, order, fills)
                            && ClosedIndex(order) in FillAll(AsWritten, h, order, fills)
                            && FillAll(AsWritten, h, order, fills)[ClosedIndex(order)].pre == -1
  {
    var fills := TwoFills(h, order, AutoAmounts(AsWritten, m, h, order));
    assert Possible(m, h, order, fills);
  }

  // ---------------------------------------------------------------- explicit orders

  // An explicit closing order passes exactly when its volume is positive, its instrument is known, it is
  // not a FOK order on CZC, and the position it names holds enough; it passes as one order.
  lemma ExplicitCloseAcceptedIff(rule: Rule, m: Market, h: Holding, order: Order)
    requires order.openClose.Close? || order.openClose.CloseToday? || order.openClose.CloseYesterday?
    ensures Process(rule, m, h, order).Ok?
            <==> && order.volume > 0
                 && ToUpper(order.instrumentId) in m.instruments
                 && var info := m.instruments[ToUpper(order.instrumentId)];
                    var k := ClosedIndex(order.(instrumentId := info.instrumentId));
                    && !(info.exchange.CZC? && order.timeInForce.FOK?)
                    && k in h
                    && Closable(h[k], EffectiveType(info.exchange, order.openClose), order.volume)
    ensures Process(rule, m, h, order).Ok?
            ==> var info := m.instruments[ToUpper(order.instrumentId)];
                Process(rule, m, h, order).value
                == [order.(instrumentId := info.instrumentId, exchange := info.exchange,
                           openClose := EffectiveType(info.exchange, order.openClose))]
  {
  }

  // An explicit opening order is not held against any position.
  lemma ExplicitOpenAcceptedIff(rule: Rule, m: Market, h: Holding, order: Order)
    requires order.openClose.Open?
    ensures Process(rule, m, h, order).Ok? <==> Admitted(m, order)
    ensures Admitted(m, order)
            ==> var info := m.instruments[ToUpper(order.instrumentId)];
                Process(rule, m, h, order).value == [order.(instrumentId := info.instrumentId, exchange := info.exchange)]
  {
  }

  // What every order has to meet.
  predicate Admitted(m: Market, order: Order) {
    && order.volume > 0
    && ToUpper(order.instrumentId) in m.instruments
    && !(m.instruments[ToUpper(order.instrumentId)].exchange.CZC? && order.timeInForce.FOK?)
  }

  // Which error answers which fault. The first fault in this order is the one reported.
  lemma RefusalReasons(rule: Rule, m: Market, h: Holding, order: Order)
    ensures Process(rule, m, h, order) == Err(BadVolume) <==> order.volume <= 0
    ensures Process(rule, m, h, order) == Err(UnknownInstrument)
            <==> order.volume > 0 && ToUpper(order.instrumentId) !in m.instruments
    ensures Process(rule, m, h, order) == Err(FokOnCZC)
            <==> order.volume > 0 && ToUpper(order.instrumentId) in m.instruments && !Admitted(m, order)
    ensures Admitted(m, order) ==>
      var info := m.instruments[ToUpper(order.instrumentId)];
      var k := ClosedIndex(order.(instrumentId := info.instrumentId));
      && (Process(rule, m, h, order) == Err(NoPosition)
          <==> order.openClose != Auto && order.openClose != Open && k !in h)
      && (Process(rule, m, h, order) == Err(WrongOrderType)
          <==> k in h && (order.openClose.ForceClose? || order.openClose.ForceOff? || order.openClose.LocalForceOff?))
      && (Process(rule, m, h, order) == Err(ExceedsToday)
          <==> k in h && order.openClose == CloseToday && order.volume > h[k].today)
      && (Process(rule, m, h, order) == Err(ExceedsYesterday)
          <==> k in h && order.openClose == CloseYesterday && (info.exchange == SHF || info.exchange == INE)
               && order.volume > h[k].pre)
      && (Process(rule, m, h, order) == Err(ExceedsPosition)
          <==> k in h && order.volume > h[k].total
               && (order.openClose == Close
                   || (order.openClose == CloseYesterday && info.exchange != SHF && info.exchange != INE)))
  {
    hide ToUpper, SubOrders, AutoAmounts;
  }

  // Two characters are taken for the same exactly when they are, or differ in case only.
  lemma SameUpperIff(a: char, b: char)
    ensures UpperChar(a) == UpperChar(b)
            <==> a == b || ('a' <= a <= 'z' && a as int == b as int + 32) || ('a' <= b <= 'z' && b as int == a as int + 32)
    ensures !('a' <= UpperChar(a) <= 'z')
  {
  }

  // Tickers are looked up whatever their case: two tickers lead to the same instrument exactly when they
  // agree up to case.
  lemma LookedUpAlikeIff(s: Ticker, t: Ticker)
    ensures ToUpper(s) == ToUpper(t) <==> |s| == |t| && forall i :: 0 <= i < |s| ==> UpperChar(s[i]) == UpperChar(t[i])
    ensures ToUpper(ToUpper(s)) == ToUpper(s)
  {
    if ToUpper(s) == ToUpper(t) {
      assert |ToUpper(s)| == |ToUpper(t)|;
      forall i | 0 <= i < |s| ensures UpperChar(s[i]) == UpperChar(t[i]) {
        assert ToUpper(s)[i] == ToUpper(t)[i];
      }
    }
    if |s| == |t| && forall i :: 0 <= i < |s| ==> UpperChar(s[i]) == UpperChar(t[i]) {
      assert forall i :: 0 <= i < |s| ==> ToUpper(s)[i] == ToUpper(t)[i];
    }
    forall i | 0 <= i < |s| ensures ToUpper(ToUpper(s))[i] == ToUpper(s)[i] {
      SameUpperIff(UpperChar(s[i]), s[i]);
    }
  }

  // ---------------------------------------------------------------- the orders that are sent

  function VolumeUnder(sent: seq<Order>, oc: OpenClose): int {
    if sent == [] then 0 else
    VolumeUnder(sent[..|sent| - 1], oc) + if sent[|sent| - 1].openClose == oc then sent[|sent| - 1].volume else 0
  }

  function TotalVolume(sent: seq<Order>): int {
    if sent == [] then 0 else TotalVolume(sent[..|sent| - 1]) + sent[|sent| - 1].volume
  }

  // The place of a flag among the orders sent.
  function Turn(oc: OpenClose): int {
    match oc
    case CloseYesterday => 1
    case CloseToday => 2
    case Close => 3
    case Open => 4
    case _ => 0
  }

  // Each order differs from the request in flag and volume only, has something to trade, and follows those of
  // earlier flags; so there is at most one under each flag.
  predicate InTurn(o: Order, sent: seq<Order>) {
    && (forall i :: 0 <= i < |sent| ==>
          && sent[i] == o.(openClose := sent[i].openClose, volume := sent[i].volume)
          && sent[i].volume > 0 && 0 < Turn(sent[i].openClose))
    && forall i, j :: 0 <= i < j < |sent| ==> Turn(sent[i].openClose) < Turn(sent[j].openClose)
  }

  lemma OneMoreOrder(sent: seq<Order>, o: Order)
    ensures forall c :: VolumeUnder(sent + [o], c) == VolumeUnder(sent, c) + if c == o.openClose then o.volume else 0
    ensures TotalVolume(sent + [o]) == TotalVolume(sent) + o.volume
  {
    assert (sent + [o])[..|sent|] == sent;
  }

  // One more order at the end.
  lemma SendMore(o: Order, sent: seq<Order>, oc: OpenClose, volume: int)
    requires InTurn(o, sent) && SubOrderKind(oc)
    requires forall i :: 0 <= i < |sent| ==> Turn(sent[i].openClose) < Turn(oc)
    ensures var more := sent + SubOrder(o, oc, volume);
            && InTurn(o, more)
            && (forall i :: 0 <= i < |more| ==> Turn(more[i].openClose) <= Turn(oc))
            && (forall c :: VolumeUnder(more, c) == VolumeUnder(sent, c) + if c == oc && volume > 0 then volume else 0)
            && TotalVolume(more) == TotalVolume(sent) + if volume > 0 then volume else 0
  {
    hide VolumeUnder, TotalVolume;
    if volume > 0 {
      OneMoreOrder(sent, o.(openClose := oc, volume := volume));
    } else {
      assert sent + SubOrder(o, oc, volume) == sent;
    }
  }

  lemma OrdersOfAmounts(o: Order, a: Amounts)
    requires 0 <= a.closeYesterday && 0 <= a.closeToday && 0 <= a.close && 0 <= a.open
    ensures var sent := SubOrders(o, a);
            && InTurn(o, sent)
            && VolumeUnder(sent, CloseYesterday) == a.closeYesterday && VolumeUnder(sent, CloseToday) == a.closeToday
            && VolumeUnder(sent, Close) == a.close && VolumeUnder(sent, Open) == a.open
            && TotalVolume(sent) == Sum(a)
  {
    hide SubOrder, InTurn, VolumeUnder, TotalVolume;
    NothingSent(o);
    var one := [] + SubOrder(o, CloseYesterday, a.closeYesterday);
    SendMore(o, [], CloseYesterday, a.closeYesterday);
    assert one == SubOrder(o, CloseYesterday, a.closeYesterday);
    var two := one + SubOrder(o, CloseToday, a.closeToday);
    SendMore(o, one, CloseToday, a.closeToday);
    var three := two + SubOrder(o, Close, a.close);
    SendMore(o, two, Close, a.close);
    SendMore(o, three, Open, a.open);
    assert SubOrders(o, a) == three + SubOrder(o, Open, a.open);
  }

  lemma NothingSent(o: Order)
    ensures InTurn(o, []) && TotalVolume([]) == 0 && forall c :: VolumeUnder([], c) == 0
  {
  }

  // The orders an Auto order is sent as, under either rule: admitted like any other order, each a copy of the
  // request for the listed instrument, one for each flag in turn, for the amounts of the split.
  lemma AutoOrdersSent(rule: Rule, m: Market, h: Holding, order: Order)
    requires order.openClose.Auto?
    ensures Process(rule, m, h, order).Ok? <==> Admitted(m, order)
    ensures Admitted(m, order)
            ==> var info := m.instruments[ToUpper(order.instrumentId)];
                var o := order.(instrumentId := info.instrumentId, exchange := info.exchange);
                var sent, a := Process(rule, m, h, order).value, AutoAmounts(rule, m, h, o);
                && InTurn(o, sent)
                && VolumeUnder(sent, CloseYesterday) == a.closeYesterday && VolumeUnder(sent, CloseToday) == a.closeToday
                && VolumeUnder(sent, Close) == a.close && VolumeUnder(sent, Open) == a.open
                && TotalVolume(sent) == Sum(a)
  {
    if Admitted(m, order) {
      var info := m.instruments[ToUpper(order.instrumentId)];
      var o := order.(instrumentId := info.instrumentId, exchange := info.exchange);
      OrdersOfAmounts(o, AutoAmounts(rule, m, h, o));
      hide InTurn, SubOrders, VolumeUnder, TotalVolume, AutoSplit, ToUpper;
    }
  }

  // Positive fills, in any chunks and any order, that exceed no order sent.
  predicate FillsOrders(fills: seq<Execution>, sent: seq<Order>) {
    var e := Executed(fills);
    && RealFills(fills)
    && e.closeYesterday <= VolumeUnder(sent, CloseYesterday) && e.closeToday <= VolumeUnder(sent, CloseToday)
    && e.close <= VolumeUnder(sent, Close) && e.open <= VolumeUnder(sent, Open)
  }

  // What the orders sent must be: they add up to the request, name a day on SHF and INE only, close no more
  // than each bucket, nothing of today's where that is not to be closed, and open only past what may be closed.
  predicate SoundOrders(m: Market, rec: HoldingRecord, o: Order, sent: seq<Order>) {
    && TotalVolume(sent) == o.volume
    && VolumeUnder(sent, CloseYesterday) <= rec.pre && VolumeUnder(sent, CloseToday) <= rec.today
    && VolumeUnder(sent, Close) <= rec.total
    && (if o.exchange == SHF || o.exchange == INE then VolumeUnder(sent, Close) == 0
        else VolumeUnder(sent, CloseYesterday) == VolumeUnder(sent, CloseToday) == 0)
    && (o.instrumentId in m.noCloseToday
        ==> VolumeUnder(sent, CloseToday) == 0 && VolumeUnder(sent, Close) <= rec.pre
            && (o.exchange == DCE && rec.today > 0 ==> VolumeUnder(sent, Close) == 0))
    && (VolumeUnder(sent, Open) > 0
        ==> o.volume > Permitted(o.exchange, o.instrumentId in m.noCloseToday, rec))
  }

  // With the intended rule the orders sent for an Auto order against an opposite position are sound, and any
  // fills of them keep that position balanced and non-negative and spare today's lots where they must; with
  // or without such a position, filling them completely moves the net holding by exactly the request.
  lemma {:induction false} IntendedOrdersAreSound(m: Market, h: Holding, order: Order, fills: seq<Execution>)
    requires order.openClose.Auto? && Admitted(m, order)
    requires FuturesExchange(m.instruments[ToUpper(order.instrumentId)].exchange)
    requires var k := ClosedIndex(order.(instrumentId := m.instruments[ToUpper(order.instrumentId)].instrumentId));
             k in h && Balanced(h[k]) && NonNegative(h[k])
    requires Process(Intended, m, h, order).Ok? && FillsOrders(fills, Process(Intended, m, h, order).value)
    ensures var info := m.instruments[ToUpper(order.instrumentId)];
            var o := order.(instrumentId := info.instrumentId, exchange := info.exchange);
            var k, sent, g := ClosedIndex(o), Process(Intended, m, h, order).value, FillAll(Intended, h, o, fills);
            && SoundOrders(m, h[k], o, sent)
            && k in g && Balanced(g[k]) && NonNegative(g[k])
            && (info.instrumentId in m.noCloseToday ==> g[k].today == h[k].today)
  {
    var info := m.instruments[ToUpper(order.instrumentId)];
    var o := order.(instrumentId := info.instrumentId, exchange := info.exchange);
    AutoOrdersSent(Intended, m, h, order);
    hide Process, ToUpper, Admitted, VolumeUnder, TotalVolume, InTurn, FillAll, AutoSplit, Permitted;
    IntendedSplitIsSound(o.exchange, o.instrumentId in m.noCloseToday, h[ClosedIndex(o)], o.volume);
    IntendedSplitMindsToday(o.exchange, o.instrumentId in m.noCloseToday, h[ClosedIndex(o)], o.volume);
    AutoFillsAreSafe(m, h, o, fills);
  }

  // As written, the orders sent are sound exactly when the split is.
  lemma {:induction false} WrittenOrdersSoundIff(m: Market, h: Holding, order: Order)
    requires order.openClose.Auto? && Admitted(m, order)
    requires var k := ClosedIndex(order.(instrumentId := m.instruments[ToUpper(order.instrumentId)].instrumentId));
             k in h && Balanced(h[k]) && NonNegative(h[k])
    ensures var info := m.instruments[ToUpper(order.instrumentId)];
            var o := order.(instrumentId := info.instrumentId, exchange := info.exchange);
            var rec, nct := h[ClosedIndex(o)], info.instrumentId in m.noCloseToday;
            && Process(AsWritten, m, h, order).Ok?
            && (SoundOrders(m, rec, o, Process(AsWritten, m, h, order).value)
                <==> WrittenSplitSound(info.exchange, nct, rec, order.volume))
  {
    var info := m.instruments[ToUpper(order.instrumentId)];
    var o := order.(instrumentId := info.instrumentId, exchange := info.exchange);
    var rec, nct := h[ClosedIndex(o)], info.instrumentId in m.noCloseToday;
    AutoOrdersSent(AsWritten, m, h, order);
    WrittenSplitSoundIff(info.exchange, nct, rec, order.volume);
    WrittenSplitSums(info.exchange, nct, rec, order.volume);
    hide Process, ToUpper, VolumeUnder, TotalVolume, InTurn, WrittenSplitSound, WrittenSum;
    var split := AutoSplit(AsWritten, info.exchange, nct, rec, order.volume);
    assert nct ==> split.today == 0;
    hide AutoSplit;
    OrderedShape(info.exchange, split);
    SoundAlike(info.exchange, nct, rec, Ordered(info.exchange, split), order.volume);
    assert nct && info.exchange.DCE? && rec.today > 0 ==> Permitted(info.exchange, nct, rec) == 0;
    hide Permitted, Ordered, Sound;
  }

  lemma OrderedShape(exchange: Exchange, s: Split)
    ensures var a := Ordered(exchange, s);
            && 0 <= a.closeYesterday && 0 <= a.closeToday && 0 <= a.close && 0 <= a.open
            && (if exchange == SHF || exchange == INE then a.close == 0 else a.closeYesterday == a.closeToday == 0)
            && (s.today == 0 ==> a.closeToday == 0)
  {
  }

  // Sound amounts, read as in SoundOrders.
  lemma SoundAlike(exchange: Exchange, nct: bool, rec: HoldingRecord, a: Amounts, volume: int)
    requires Balanced(rec) && NonNegative(rec)
    requires 0 <= a.closeYesterday && 0 <= a.closeToday && 0 <= a.close && 0 <= a.open
    requires if NamesDay(exchange) then a.close == 0 else a.closeYesterday == a.closeToday == 0
    requires nct ==> a.closeToday == 0
    ensures Sound(exchange, nct, rec, a, volume)
            <==> && Sum(a) == volume
                 && a.closeYesterday <= rec.pre && a.closeToday <= rec.today && a.close <= rec.total
                 && (nct ==> a.close <= rec.pre && (exchange == DCE && rec.today > 0 ==> a.close == 0))
  {
  }

  lemma AllExecuted(e: Amounts, a: Amounts)
    requires e.closeYesterday <= a.closeYesterday && e.closeToday <= a.closeToday && e.close <= a.close && e.open <= a.open
    requires Sum(e) == Sum(a)
    ensures e == a
  {
  }

  lemma {:induction false} IntendedOrdersMoveNet(m: Market, h: Holding, order: Order, fills: seq<Execution>)
    requires order.openClose.Auto? && Admitted(m, order)
    requires var k := ClosedIndex(order.(instrumentId := m.instruments[ToUpper(order.instrumentId)].instrumentId));
             k in h ==> Balanced(h[k]) && NonNegative(h[k])
    requires Process(Intended, m, h, order).Ok? && FillsOrders(fills, Process(Intended, m, h, order).value)
    requires Sum(Executed(fills)) == TotalVolume(Process(Intended, m, h, order).value)
    ensures var info := m.instruments[ToUpper(order.instrumentId)];
            var o := order.(instrumentId := info.instrumentId, exchange := info.exchange);
            NetHolding(FillAll(Intended, h, o, fills), info.instrumentId)
            == NetHolding(h, info.instrumentId) + order.volume * (if order.direction == Long then 1 else -1)
  {
    var info := m.instruments[ToUpper(order.instrumentId)];
    var o := order.(instrumentId := info.instrumentId, exchange := info.exchange);
    hide Process, ToUpper, VolumeUnder, TotalVolume, InTurn, FillAll, NetHolding, AutoAmounts, Executed;
    AutoOrdersSent(Intended, m, h, order);
    AllExecuted(Executed(fills), AutoAmounts(Intended, m, h, o));
    AutoOrderMovesNetByOrder(m, h, o, fills);
  }

  // Five of today's lots held on SHF, none of yesterday's: an Auto order to sell five closes today's five.
  lemma TodayIsClosedAsToday(rule: Rule, m: Market, h: Holding, order: Order)
    requires order.openClose.Auto? && Admitted(m, order) && order.volume == 5
    requires m.instruments[ToUpper(order.instrumentId)] == InstrumentInfo(order.instrumentId, SHF)
    requires order.instrumentId !in m.noCloseToday && ClosedIndex(order) in h
    requires var rec := h[ClosedIndex(order)]; rec.total == 5 && rec.today == 5 && rec.pre == 0
    ensures Process(rule, m, h, order) == Ok([order.(exchange := SHF, openClose := CloseToday)])
  {
    var o := order.(exchange := SHF);
    assert o == order.(instrumentId := order.instrumentId, exchange := SHF);
    assert ClosedIndex(o) == ClosedIndex(order);
    assert AutoAmounts(rule, m, h, o) == Amounts(0, 5, 0, 0);
    var sent := SubOrders(o, Amounts(0, 5, 0, 0));
    assert sent == [o.(openClose := CloseToday, volume := 5)];
    hide ToUpper, SubOrders, AutoAmounts;
  }
}
