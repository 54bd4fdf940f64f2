// The detail the exchanges keep behind the three counters: a queue of lots per index, in opening order,
// yesterday's before today's. The intended ledger is shown to count exactly this queue.
module LotQueue {
  import opened DataStruct
  import opened Ledger

  datatype Lot = Lot(today: bool, quantity: nat)

  type Book = map<InstrumentIndex, seq<Lot>>

  function Sum(lots: seq<Lot>, today: bool): nat {
    if lots == [] then 0 else
    (if lots[0].today == today then lots[0].quantity else 0) + Sum(lots[1..], today)
  }

  function OfDay(lots: seq<Lot>, today: bool): seq<Lot> {
    if lots == [] then [] else
    (if lots[0].today == today then [lots[0]] else []) + OfDay(lots[1..], today)
  }

  // First opened, first closed.
  function Consume(lots: seq<Lot>, volume: nat): seq<Lot> {
    if volume == 0 || lots == [] then lots
    else if lots[0].quantity <= volume then Consume(lots[1..], volume - lots[0].quantity)
    else [lots[0].(quantity := lots[0].quantity - volume)] + lots[1..]
  }

  predicate Uniform(lots: seq<Lot>, today: bool) {
    forall i :: 0 <= i < |lots| ==> lots[i].today == today
  }

  predicate InOrder(lots: seq<Lot>) {
    lots == OfDay(lots, false) + OfDay(lots, true)
  }

  // What each exchange does to the queue: SHF and INE name the day, DCE closes today's lots before
  // yesterday's, CFE and CZC close whatever was opened first.
  function FillLots(lots: seq<Lot>, oc: OpenClose, exchange: Exchange, volume: nat): seq<Lot> {
    var pre, today := OfDay(lots, false), OfDay(lots, true);
    match oc
    case Open => lots + [Lot(true, volume)]
    case CloseToday => pre + Consume(today, volume)
    case CloseYesterday => Consume(pre, volume) + today
    case Close => (
      match exchange
      case DCE => var rest := Consume(today + pre, volume); OfDay(rest, false) + OfDay(rest, true)
      case CFE | CZC => Consume(lots, volume)
      case _ => lots)
    case _ => lots
  }

  function StepLots(book: Book, e: Event): Book
    requires e.Row? ==> e.row.ydPosition >= 0
    requires e.Trade? ==> e.trade.volume >= 0
  {
    match e
    case Row(row) =>
      if !Counted(row) then book else
      var lots := if RowIndex(row) in book then book[RowIndex(row)] else [];
      book[RowIndex(row) := OfDay(lots, false) + [Lot(false, row.ydPosition)] + OfDay(lots, true)]
    case Trade(trade) =>
      var k := BookingIndex(trade);
      book[k := FillLots(if k in book then book[k] else [], trade.openClose, trade.exchange, trade.volume)]
  }

  predicate NonNegativeVolumes(es: seq<Event>) {
    forall i :: 0 <= i < |es| ==> match es[i] case Row(row) => row.ydPosition >= 0 case Trade(trade) => trade.volume >= 0
  }

  function RunLots(es: seq<Event>): Book
    requires NonNegativeVolumes(es)
  {
    if es == [] then map[] else StepLots(RunLots(es[..|es| - 1]), es[|es| - 1])
  }

  // The counters of a record are the sums of its lots.
  predicate Counts(rec: HoldingRecord, lots: seq<Lot>) {
    && InOrder(lots)
    && rec.today == Sum(lots, true)
    && rec.pre == Sum(lots, false)
    && rec.total == Sum(lots, true) + Sum(lots, false)
  }

  ghost predicate Refines(h: Holding, book: Book) {
    && h.Keys == book.Keys
    && forall k :: k in h ==> Counts(h[k], book[k])
  }

  // ---------------------------------------------------------------- queue algebra

  lemma {:induction false} SumConcat(a: seq<Lot>, b: seq<Lot>, today: bool)
    ensures Sum(a + b, today) == Sum(a, today) + Sum(b, today)
  {
    if a == [] {
      assert a + b == b;
    } else {
      assert (a + b)[1..] == a[1..] + b;
      SumConcat(a[1..], b, today);
    }
  }

  lemma {:induction false} OfDayConcat(a: seq<Lot>, b: seq<Lot>, today: bool)
    ensures OfDay(a + b, today) == OfDay(a, today) + OfDay(b, today)
  {
    if a == [] {
      assert a + b == b;
    } else {
      OfDayConcat(a[1..], b, today);
      FirstLot(a, b, today);
      hide OfDay;
    }
  }

  lemma FirstLot(a: seq<Lot>, b: seq<Lot>, today: bool)
    requires a != []
    ensures var head := if a[0].today == today then [a[0]] else [];
            OfDay(a, today) == head + OfDay(a[1..], today) && OfDay(a + b, today) == head + OfDay(a[1..] + b, today)
  {
    assert (a + b)[1..] == a[1..] + b;
  }

  lemma {:induction false} OfDayIsUniform(lots: seq<Lot>, today: bool)
    ensures Uniform(OfDay(lots, today), today)
    ensures Sum(OfDay(lots, today), today) == Sum(lots, today)
  {
    if lots != [] {
      OfDayIsUniform(lots[1..], today);
      SumConcat(if lots[0].today == today then [lots[0]] else [], OfDay(lots[1..], today), today);
    }
  }

  lemma {:induction false} UniformLots(lots: seq<Lot>, today: bool)
    requires Uniform(lots, today)
    ensures OfDay(lots, today) == lots && OfDay(lots, !today) == []
    ensures Sum(lots, !today) == 0
  {
    if lots != [] {
      UniformLots(lots[1..], today);
    }
  }

  lemma {:induction false} ConsumeUniform(lots: seq<Lot>, today: bool, volume: nat)
    requires Uniform(lots, today) && volume <= Sum(lots, today)
    ensures Uniform(Consume(lots, volume), today)
    ensures Sum(Consume(lots, volume), today) == Sum(lots, today) - volume
  {
    if volume != 0 && lots != [] {
      if lots[0].quantity <= volume {
        ConsumeUniform(lots[1..], today, volume - lots[0].quantity);
      } else {
        assert Consume(lots, volume)[1..] == lots[1..];
      }
    }
  }

  // Consuming from two uniform stretches in a row empties the first before it touches the second.
  lemma {:induction false} ConsumeConcat(a: seq<Lot>, b: seq<Lot>, today: bool, volume: nat)
    requires Uniform(a, today)
    ensures volume <= Sum(a, today) ==> Consume(a + b, volume) == Consume(a, volume) + b
    ensures volume > Sum(a, today) ==> Consume(a + b, volume) == Consume(b, volume - Sum(a, today))
  {
    if a == [] {
      assert a + b == b;
    } else {
      ConsumeFirst(a, b, volume);
      SumFirst(a, today);
      if 0 < volume && a[0].quantity <= volume {
        ConsumeConcat(a[1..], b, today, volume - a[0].quantity);
      }
      hide Consume, Sum;
    }
  }

  lemma SumFirst(lots: seq<Lot>, today: bool)
    requires lots != [] && Uniform(lots, today)
    ensures Sum(lots, today) == lots[0].quantity + Sum(lots[1..], today)
  {
  }

  lemma ConsumeFirst(a: seq<Lot>, b: seq<Lot>, volume: nat)
    requires a != []
    ensures 0 < volume && a[0].quantity <= volume
            ==> Consume(a, volume) == Consume(a[1..], volume - a[0].quantity)
                && Consume(a + b, volume) == Consume(a[1..] + b, volume - a[0].quantity)
    ensures volume < a[0].quantity || volume == 0 ==> Consume(a + b, volume) == Consume(a, volume) + b
  {
    assert (a + b)[1..] == a[1..] + b;
  }

  // Two uniform stretches put together, and how they come apart again.
  lemma Stretch(a: seq<Lot>, b: seq<Lot>, day: bool)
    requires Uniform(a, day) && Uniform(b, !day)
    ensures OfDay(a + b, day) == a && OfDay(a + b, !day) == b
    ensures Sum(a + b, day) == Sum(a, day) && Sum(a + b, !day) == Sum(b, !day)
  {
    UniformLots(a, day);
    UniformLots(b, !day);
    OfDayConcat(a, b, day);
    OfDayConcat(a, b, !day);
    SumConcat(a, b, day);
    SumConcat(a, b, !day);
  }

  lemma {:induction false} Stretches(pre: seq<Lot>, today: seq<Lot>)
    requires Uniform(pre, false) && Uniform(today, true)
    ensures OfDay(today + pre, false) == pre && OfDay(today + pre, true) == today
    ensures InOrder(pre + today)
    ensures Sum(pre + today, false) == Sum(pre, false) && Sum(pre + today, true) == Sum(today, true)
  {
    Stretch(pre, today, false);
    Stretch(today, pre, true);
  }

  // Consuming from stretch `a` followed by stretch `b` takes from `a` what it holds and the rest from `b`.
  lemma ConsumeStretches(a: seq<Lot>, b: seq<Lot>, day: bool, volume: nat) returns (a': seq<Lot>, b': seq<Lot>)
    requires Uniform(a, day) && Uniform(b, !day) && volume <= Sum(a, day) + Sum(b, !day)
    ensures Uniform(a', day) && Uniform(b', !day) && Consume(a + b, volume) == a' + b'
    ensures Sum(a', day) == Sum(a, day) - Pick(Intended, Sum(a, day), volume)
    ensures Sum(b', !day) == Sum(b, !day) - (volume - Pick(Intended, Sum(a, day), volume))
  {
    ConsumeConcat(a, b, day, volume);
    if volume <= Sum(a, day) {
      ConsumeUniform(a, day, volume);
      a', b' := Consume(a, volume), b;
    } else {
      ConsumeUniform(b, !day, volume - Sum(a, day));
      a', b' := [], Consume(b, volume - Sum(a, day));
    }
  }

  // ---------------------------------------------------------------- refinement

  lemma OpenRefinesLots(lots: seq<Lot>, volume: nat)
    requires InOrder(lots)
    ensures var lots' := lots + [Lot(true, volume)];
            && InOrder(lots')
            && Sum(lots', true) == Sum(lots, true) + volume
            && Sum(lots', false) == Sum(lots, false)
  {
    var pre, today := OfDay(lots, false), OfDay(lots, true);
    OfDayIsUniform(lots, false);
    OfDayIsUniform(lots, true);
    assert lots + [Lot(true, volume)] == pre + (today + [Lot(true, volume)]);
    SumConcat(today, [Lot(true, volume)], true);
    Stretches(pre, today + [Lot(true, volume)]);
  }

  // CloseToday and CloseYesterday: only the day they name.
  lemma DayCloseRefinesLots(lots: seq<Lot>, day: bool, volume: nat)
    requires InOrder(lots) && volume <= Sum(lots, day)
    ensures var lots' := if day then OfDay(lots, false) + Consume(OfDay(lots, true), volume)
                         else Consume(OfDay(lots, false), volume) + OfDay(lots, true);
            && InOrder(lots')
            && Sum(lots', day) == Sum(lots, day) - volume
            && Sum(lots', !day) == Sum(lots, !day)
  {
    OfDayIsUniform(lots, false);
    OfDayIsUniform(lots, true);
    ConsumeUniform(OfDay(lots, day), day, volume);
    if day {
      Stretches(OfDay(lots, false), Consume(OfDay(lots, true), volume));
    } else {
      Stretches(Consume(OfDay(lots, false), volume), OfDay(lots, true));
    }
  }

  // A plain Close: `first` is the day whose lots the exchange closes first.
  lemma CloseRefinesLots(lots: seq<Lot>, first: bool, volume: nat)
    requires InOrder(lots) && volume <= Sum(lots, true) + Sum(lots, false)
    ensures var rest := Consume(OfDay(lots, first) + OfDay(lots, !first), volume);
            var lots' := OfDay(rest, false) + OfDay(rest, true);
            && InOrder(lots') && (!first ==> lots' == rest)
            && Sum(lots', first) == Sum(lots, first) - Pick(Intended, Sum(lots, first), volume)
            && Sum(lots', !first) == Sum(lots, !first) - (volume - Pick(Intended, Sum(lots, first), volume))
  {
    OfDayIsUniform(lots, false);
    OfDayIsUniform(lots, true);
    var a, b := ConsumeStretches(OfDay(lots, first), OfDay(lots, !first), first, volume);
    if first {
      Stretches(b, a);
    } else {
      Stretches(a, b);
      Stretch(a, b, false);
    }
  }

  // A closing fill that fits takes from the counters exactly what it takes from the queue.
  lemma FillRefinesLots(rec: HoldingRecord, lots: seq<Lot>, oc: OpenClose, exchange: Exchange, volume: nat)
    requires Counts(rec, lots)
    requires MovesBuckets(oc, exchange) && Closable(rec, oc, volume)
    ensures Counts(Fill(Intended, rec, oc, exchange, volume), FillLots(lots, oc, exchange, volume))
  {
    hide OfDay, Consume, Sum;
    match oc
    case Open => OpenRefinesLots(lots, volume);
    case CloseToday => DayCloseRefinesLots(lots, true, volume);
    case CloseYesterday => DayCloseRefinesLots(lots, false, volume);
    case Close => CloseRefinesLots(lots, exchange.DCE?, volume);
  }

  lemma LoadRefinesLots(lots: seq<Lot>, volume: nat)
    requires InOrder(lots)
    ensures var lots' := OfDay(lots, false) + [Lot(false, volume)] + OfDay(lots, true);
            && InOrder(lots')
            && Sum(lots', true) == Sum(lots, true)
            && Sum(lots', false) == Sum(lots, false) + volume
  {
    var pre, today := OfDay(lots, false), OfDay(lots, true);
    OfDayIsUniform(lots, false);
    OfDayIsUniform(lots, true);
    SumConcat(pre, [Lot(false, volume)], false);
    Stretches(pre + [Lot(false, volume)], today);
  }

  lemma EmptyQueue()
    ensures InOrder([]) && Sum([], true) == 0 && Sum([], false) == 0
    ensures forall exchange, volume :: FillLots([], Open, exchange, volume) == [Lot(true, volume)]
  {
  }

  lemma RowRefinesLots(h: Holding, book: Book, row: PositionRow)
    requires Refines(h, book) && row.ydPosition >= 0
    ensures Refines(LoadRow(h, row), StepLots(book, Row(row)))
  {
    hide OfDay, Sum;
    EmptyQueue();
    if Counted(row) {
      LoadRefinesLots(if RowIndex(row) in book then book[RowIndex(row)] else [], row.ydPosition);
    }
  }

  lemma TradeRefinesLots(h: Holding, book: Book, trade: TradingRecord)
    requires Refines(h, book) && Fits(h, Trade(trade))
    ensures Refines(BookTrade(Intended, h, trade), StepLots(book, Trade(trade)))
  {
    hide OfDay, Consume, Sum, FillLots;
    var k := BookingIndex(trade);
    if k in h {
      FillRefinesLots(h[k], book[k], trade.openClose, trade.exchange, trade.volume);
      hide Fill;
    } else {
      EmptyQueue();
      OpenRefinesLots([], trade.volume);
      assert [] + [Lot(true, trade.volume)] == [Lot(true, trade.volume)];
    }
  }

  lemma StepRefinesLots(a: Account, book: Book, e: Event)
    requires Refines(a.holding, book) && Fits(a.holding, e)
    ensures Refines(Step(Intended, a, e).holding, StepLots(book, e))
  {
    hide LoadRow, BookTrade, StepLots;
    match e
    case Row(row) => RowRefinesLots(a.holding, book, row);
    case Trade(trade) => TradeRefinesLots(a.holding, book, trade);
  }

  lemma {:induction false} FittingVolumes(es: seq<Event>)
    requires Throughout(Intended, EMPTY, es, Fits)
    ensures NonNegativeVolumes(es)
  {
    if es != [] {
      FittingVolumes(es[..|es| - 1]);
      assert es == es[..|es| - 1] + [es[|es| - 1]];
    }
  }

  // After every run of events whose closes fit, the counters of every record are the sums of its lot queue.
  lemma {:induction false} LedgerCountsLots(es: seq<Event>)
    requires Throughout(Intended, EMPTY, es, Fits)
    ensures NonNegativeVolumes(es) && Refines(Run(Intended, EMPTY, es).holding, RunLots(es))
  {
    FittingVolumes(es);
    if es != [] {
      LedgerCountsLots(es[..|es| - 1]);
      StepRefinesLots(Run(Intended, EMPTY, es[..|es| - 1]), RunLots(es[..|es| - 1]), es[|es| - 1]);
    }
  }

  // As written, a fitting plain Close still counts the queue exactly when it takes the whole of the bucket
  // that the exchange closes first, no more and no less.
  lemma CloseAsWrittenCountsLotsIff(rec: HoldingRecord, lots: seq<Lot>, exchange: Exchange, volume: nat)
    requires exchange.DCE? || exchange.CFE? || exchange.CZC?
    requires Counts(rec, lots) && 0 < volume <= rec.total
    ensures Counts(Fill(AsWritten, rec, Close, exchange, volume), FillLots(lots, Close, exchange, volume))
            <==> volume == FirstBucket(rec, exchange)
  {
    FillRefinesLots(rec, lots, Close, exchange, volume);
    CloseAsWrittenIff(rec, exchange, volume);
  }

  // A plain Close, where it shares out its volume, takes the whole of the bucket that is closed first.
  predicate TakesWhole(h: Holding, e: Event) {
    SharesByState(e) && BookingIndex(e.trade) in h
    ==> e.trade.volume == FirstBucket(h[BookingIndex(e.trade)], e.trade.exchange)
  }

  predicate FitsWhole(h: Holding, e: Event) {
    Fits(h, e) && TakesWhole(h, e)
  }

  // Outside such closes the two rules book alike.
  lemma SameBooking(a: Account, e: Event)
    requires !SharesByState(e) || BookingIndex(e.trade) !in a.holding
    ensures Step(AsWritten, a, e) == Step(Intended, a, e)
  {
  }

  // A fitting event, booked as written, keeps the ledger counting its queues exactly when it takes whole.
  lemma WrittenStepRefinesIff(a: Account, book: Book, e: Event)
    requires Refines(a.holding, book) && Fits(a.holding, e)
    ensures Refines(Step(AsWritten, a, e).holding, StepLots(book, e)) <==> TakesWhole(a.holding, e)
    ensures TakesWhole(a.holding, e) ==> Step(AsWritten, a, e) == Step(Intended, a, e)
  {
    StepRefinesLots(a, book, e);
    if SharesByState(e) && BookingIndex(e.trade) in a.holding {
      SharedCloseRefinesIff(a, book, e.trade);
    } else {
      SameBooking(a, e);
    }
  }

  lemma SharedCloseRefinesIff(a: Account, book: Book, trade: TradingRecord)
    requires Refines(a.holding, book) && Fits(a.holding, Trade(trade))
    requires SharesByState(Trade(trade)) && BookingIndex(trade) in a.holding
    ensures var k := BookingIndex(trade);
            var whole := trade.volume == FirstBucket(a.holding[k], trade.exchange);
            && (Refines(Step(AsWritten, a, Trade(trade)).holding, StepLots(book, Trade(trade))) ==> whole)
            && (whole ==> Step(AsWritten, a, Trade(trade)) == Step(Intended, a, Trade(trade)))
  {
    hide OfDay, Consume, Sum, FillLots, InOrder;
    var k := BookingIndex(trade);
    assert Counts(a.holding[k], book[k]);
    CloseAsWrittenCountsLotsIff(a.holding[k], book[k], trade.exchange, trade.volume);
    CloseAsWrittenIff(a.holding[k], trade.exchange, trade.volume);
    hide Fill;
    assert Step(AsWritten, a, Trade(trade)).holding[k] == Fill(AsWritten, a.holding[k], Close, trade.exchange, trade.volume);
    assert StepLots(book, Trade(trade))[k] == FillLots(book[k], Close, trade.exchange, trade.volume);
  }

  // As written, the ledger counts its queues over every run in which plain closes take whole - in
  // particular over every run on SHF and INE, where closes name their day.
  lemma {:induction false} WrittenLedgerCountsLots(es: seq<Event>)
    requires Throughout(AsWritten, EMPTY, es, FitsWhole)
    ensures Throughout(Intended, EMPTY, es, Fits) && NonNegativeVolumes(es)
    ensures Run(AsWritten, EMPTY, es) == Run(Intended, EMPTY, es)
    ensures Refines(Run(AsWritten, EMPTY, es).holding, RunLots(es))
  {
    if es != [] {
      var front, last := es[..|es| - 1], es[|es| - 1];
      WrittenLedgerCountsLots(front);
      WrittenStepRefinesIff(Run(AsWritten, EMPTY, front), RunLots(front), last);
      hide Step, Refines;
    }
    FittingVolumes(es);
    LedgerCountsLots(es);
  }
}
