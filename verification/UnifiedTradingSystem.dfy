// UnifiedTradingSystem: ProcessAdvancedOrder, ReversePosition and ClearAllHodlings in the form the code
// gives them, against the specifications in OrderSplitter and Liquidation.
module UnifiedTradingSystems {
  import opened DataStruct
  import opened Ledger
  import opened OrderSplitter
  import opened Liquidation
  import opened TradingAccounts

  datatype OrderPriceType = AnyPrice | LimitPrice | BestPrice | LastPrice | BidPrice | AskPrice | FiveLevelPrice

  datatype ClearError = LimitPriceForBatch | Refused(error: OrderError)

  // Orders sent one after another against an unchanged ledger, up to the first refusal.
  datatype Placement = Placement(sent: seq<Order>, error: Option<OrderError>)

  function PlaceOne(before: Placement, res: Result<seq<Order>, OrderError>): Placement {
    if before.error.Some? then before else
    match res
    case Ok(subs) => before.(sent := before.sent + subs)
    case Err(e) => before.(error := Some(e))
  }

  function PlaceAll(rule: Rule, m: Market, h: Holding, plan: seq<Order>): Placement {
    if plan == [] then Placement([], None)
    else PlaceOne(PlaceAll(rule, m, h, plan[..|plan| - 1]), Process(rule, m, h, plan[|plan| - 1]))
  }

  function Join(before: Placement, after: Placement): Placement {
    if before.error.Some? then before else Placement(before.sent + after.sent, after.error)
  }

  lemma JoinIsAssociative(a: Placement, b: Placement, res: Result<seq<Order>, OrderError>)
    ensures PlaceOne(Join(a, b), res) == Join(a, PlaceOne(b, res))
    ensures Join(a, Placement([], None)) == a
  {
    if res.Ok? {
      assert a.sent + (b.sent + res.value) == a.sent + b.sent + res.value;
    }
  }

  lemma {:induction false} PlaceAllConcat(rule: Rule, m: Market, h: Holding, plan: seq<Order>, rest: seq<Order>)
    ensures PlaceAll(rule, m, h, plan + rest) == Join(PlaceAll(rule, m, h, plan), PlaceAll(rule, m, h, rest))
  {
    hide Process, PlaceOne, Join;
    if rest == [] {
      assert plan + rest == plan;
      JoinIsAssociative(PlaceAll(rule, m, h, plan), PlaceAll(rule, m, h, rest), Err(BadVolume));
    } else {
      var front, last := rest[..|rest| - 1], rest[|rest| - 1];
      assert (plan + rest)[..|plan + rest| - 1] == plan + front;
      PlaceAllConcat(rule, m, h, plan, front);
      JoinIsAssociative(PlaceAll(rule, m, h, plan), PlaceAll(rule, m, h, front), Process(rule, m, h, last));
    }
  }

  // The orders of a plan as they are sent: yesterday's closed by Close where the day has no instruction.
  function AsSent(plan: seq<Order>): seq<Order> {
    if plan == [] then [] else
    var o := plan[|plan| - 1];
    AsSent(plan[..|plan| - 1]) + [o.(openClose := EffectiveType(o.exchange, o.openClose))]
  }

  lemma {:induction false} OrdersAreSentWhole(rule: Rule, m: Market, h: Holding, tif: TimeInForce, plan: seq<Order>)
    requires AllCloseable(m, tif, h)
    requires forall i :: 0 <= i < |plan| ==> ClosesBucket(h, tif, plan[i])
    ensures PlaceAll(rule, m, h, plan) == Placement(AsSent(plan), None)
  {
    if plan != [] {
      var o := plan[|plan| - 1];
      OrdersAreSentWhole(rule, m, h, tif, plan[..|plan| - 1]);
      assert ClosesBucket(h, tif, o);
      var k := ClosedIndex(o);
      assert Closeable(m, tif, k, h[k]);
      PlanOrderAccepted(rule, m, h, tif, o);
      hide Process, ClosesBucket, Closeable;
    }
  }

  // Filed, listed and balanced records, and no FOK on CZC. As written, buckets may be negative.
  ghost predicate AllPlaceable(m: Market, tif: TimeInForce, h: Holding) {
    forall k :: k in h ==> Filed(k, h[k]) && Listed(m, h[k]) && Balanced(h[k]) && !(h[k].exchange.CZC? && tif.FOK?)
  }

  lemma {:induction false} RefusalEndsIt(rule: Rule, m: Market, h: Holding, plan: seq<Order>, i: nat)
    requires i < |plan| && Process(rule, m, h, plan[i]).Err?
    ensures PlaceAll(rule, m, h, plan).error.Some?
  {
    hide Process;
    var front := plan[..|plan| - 1];
    if i < |front| {
      assert front[i] == plan[i];
      RefusalEndsIt(rule, m, h, front, i);
    }
  }

  lemma NegativeBucketIsRefused(rule: Rule, m: Market, h: Holding, tif: TimeInForce, plan: seq<Order>,
                                k: InstrumentIndex, oc: OpenClose)
    requires PlanFor(h, tif, plan) && k in h && (oc.CloseYesterday? || oc.CloseToday?) && Bucket(h[k], oc) < 0
    ensures PlaceAll(rule, m, h, plan).error.Some?
  {
    assert HasSlot(plan, k, oc);
    var i :| 0 <= i < |plan| && ClosedIndex(plan[i]) == k && plan[i].openClose == oc;
    assert ClosesBucket(h, tif, plan[i]);
    RefusalEndsIt(rule, m, h, plan, i);
  }

  // While nothing has been filled yet, on any exchange, as written or intended: the closing orders of all
  // records are accepted exactly when no quantity is negative, and then each is sent for its whole bucket.
  lemma {:induction false} PlanIsSentWhole(rule: Rule, m: Market, h: Holding, tif: TimeInForce, plan: seq<Order>)
    requires PlanFor(h, tif, plan) && AllPlaceable(m, tif, h)
    ensures PlaceAll(rule, m, h, plan).error.None? <==> AllNonNegative(h)
    ensures AllNonNegative(h) ==> PlaceAll(rule, m, h, plan) == Placement(AsSent(plan), None)
  {
    if AllNonNegative(h) {
      assert AllCloseable(m, tif, h);
      OrdersAreSentWhole(rule, m, h, tif, plan);
    } else {
      var k :| k in h && !NonNegative(h[k]);
      NegativeBucketIsRefused(rule, m, h, tif, plan, k, if h[k].pre < 0 then CloseYesterday else CloseToday);
    }
    hide Process;
  }

  // As written, after every run of events that keep the ledger balanced: clearing is accepted, while nothing
  // has been filled, exactly when no quantity is negative.
  lemma {:induction false} RunIsClearedIff(m: Market, es: seq<Event>, keys: seq<InstrumentIndex>, tif: TimeInForce)
    requires Tradable(m, tif, es) && Throughout(AsWritten, EMPTY, es, KeepsBalance)
    requires Enumerates(Run(AsWritten, EMPTY, es).holding, keys)
    ensures var h := Run(AsWritten, EMPTY, es).holding;
            PlaceAll(AsWritten, m, h, Plan(h, keys, tif)).error.None? <==> AllNonNegative(h)
  {
    var h := Run(AsWritten, EMPTY, es).holding;
    BalancedThroughout(AsWritten, EMPTY, es);
    hide Run, Throughout, Tradable;
    PlanOfRunIsComplete(AsWritten, es, keys, tif);
    forall k | k in h ensures Filed(k, h[k]) && Listed(m, h[k]) && !(h[k].exchange.CZC? && tif.FOK?) {
      RecordIsTradable(AsWritten, m, tif, es, k);
    }
    hide Plan, PlaceAll, PlanFor, Listed, Enumerates;
    PlanIsSentWhole(AsWritten, m, h, tif, Plan(h, keys, tif));
  }

  // A record with a negative count of yesterday's lots, as the written booking leaves it, answers with the
  // volume error and ends the walk: nothing is sent for the records after it.
  lemma {:induction false} NegativeRecordStopsClearing(rule: Rule, m: Market, h: Holding, keys: seq<InstrumentIndex>,
                                                       tif: TimeInForce, n: nat)
    requires Enumerates(h, keys) && n < |keys| && h[keys[n]].pre < 0
    requires forall i :: 0 <= i < n ==> h[keys[i]].pre == h[keys[i]].today == 0
    ensures PlaceAll(rule, m, h, Plan(h, keys, tif)) == Placement([], Some(BadVolume))
  {
    NothingToClose(h, keys, tif, n);
    var rest := PlanExtends(h, keys, n + 1, tif);
    var first := Plan(h, keys[..n + 1], tif);
    assert keys[..n + 1][..n] == keys[..n];
    assert first == ReversePosition(h[keys[n]], tif);
    PlaceAllConcat(rule, m, h, first, rest);
    FirstIsNegative(rule, m, h, h[keys[n]], tif);
    hide PlaceAll, Plan;
  }

  lemma {:induction false} NothingToClose(h: Holding, keys: seq<InstrumentIndex>, tif: TimeInForce, n: nat)
    requires n <= |keys| && forall i :: 0 <= i < |keys| ==> keys[i] in h
    requires forall i :: 0 <= i < n ==> h[keys[i]].pre == h[keys[i]].today == 0
    ensures Plan(h, keys[..n], tif) == []
  {
    if n > 0 {
      NothingToClose(h, keys, tif, n - 1);
      assert keys[..n][..n - 1] == keys[..n - 1];
    }
  }

  lemma FirstIsNegative(rule: Rule, m: Market, h: Holding, rec: HoldingRecord, tif: TimeInForce)
    requires rec.pre < 0
    ensures PlaceAll(rule, m, h, ReversePosition(rec, tif)) == Placement([], Some(BadVolume))
  {
    var plan := ReversePosition(rec, tif);
    assert plan[..1][..0] == [];
    assert PlaceAll(rule, m, h, plan[..1]) == Placement([], Some(BadVolume));
    assert |plan| == 1 ==> plan[..1] == plan;
  }

  class UnifiedTradingSystem {
    var instrumentInfo: map<Ticker, InstrumentInfo>
    var noCloseTodayTickers: set<Ticker>

    constructor ()
      ensures instrumentInfo == map[] && noCloseTodayTickers == {}
    {
      instrumentInfo, noCloseTodayTickers := map[], {};
    }

    function TheMarket(): Market
      reads this
    {
      Market(instrumentInfo, noCloseTodayTickers)
    }

    method ProcessAdvancedOrder(account: CTPTradingAccount, input: Order) returns (res: Result<seq<Order>, OrderError>)
      ensures res == Process(AsWritten, TheMarket(), account.holding, input)
    {
      var order := input;
      if order.volume <= 0 {
        return Err(BadVolume);
      }
      var ticker := ToUpper(order.instrumentId);
      if ticker !in instrumentInfo {
        return Err(UnknownInstrument);
      }
      var exchange := instrumentInfo[ticker].exchange;
      order := order.(instrumentId := instrumentInfo[ticker].instrumentId);
      order := order.(exchange := exchange);
      if exchange == CZC && order.timeInForce == FOK {
        return Err(FokOnCZC);
      }

      var holding := account.holding;
      var index := InstrumentIndex(order.instrumentId, ReverseDirection(order.direction), order.hedgeFlag);
      if order.openClose != Auto && order.openClose != Open {
        if index !in holding {
          return Err(NoPosition);
        }
      }

      var orderCache: seq<Order> := [];
      var closeYesterdayExchange := exchange == SHF || exchange == INE;
      if !closeYesterdayExchange && order.openClose == CloseYesterday {
        order := order.(openClose := Close);
      }
      match order.openClose {
        case Open => orderCache := [order];
        case Close =>
          if order.volume > holding[index].total {
            return Err(ExceedsPosition);
          }
          orderCache := [order];
        case CloseYesterday =>
          if order.volume > holding[index].pre {
            return Err(ExceedsYesterday);
          }
          orderCache := [order];
        case CloseToday =>
          if order.volume > holding[index].today {
            return Err(ExceedsToday);
          }
          orderCache := [order];
        case Auto =>
          if index in holding {
            orderCache := SplitAutoOrder(order, holding[index]);
          } else {
            order := order.(openClose := Open);
            orderCache := [order];
            assert orderCache == SubOrders(order.(openClose := Auto), Amounts(0, 0, 0, order.volume));
          }
        case _ => return Err(WrongOrderType);
      }
      return Ok(orderCache);
    }

    // The Auto branch against an existing opposite position.
    method SplitAutoOrder(input: Order, rec: HoldingRecord) returns (orderCache: seq<Order>)
      ensures orderCache == SubOrders(input, Ordered(input.exchange,
                AutoSplit(AsWritten, input.exchange, input.instrumentId in noCloseTodayTickers, rec, input.volume)))
    {
      var order := input;
      orderCache := [];
      var volumeLeft := order.volume;
      var closeTodayVol, closePreVol := 0, 0;
      if order.instrumentId in noCloseTodayTickers {
        if !(order.exchange == DCE && rec.today > 0) {
          closePreVol := if volumeLeft < rec.pre then rec.pre else volumeLeft;
          volumeLeft := volumeLeft - closePreVol;
        }
      } else {
        closeTodayVol := if volumeLeft < rec.today then rec.today else volumeLeft;
        volumeLeft := volumeLeft - closeTodayVol;
        if volumeLeft > 0 {
          closePreVol := if volumeLeft < rec.pre then rec.pre else volumeLeft;
          volumeLeft := volumeLeft - closePreVol;
        }
      }
      if order.exchange == SHF || order.exchange == INE {
        if closePreVol > 0 {
          order := order.(openClose := CloseYesterday);
          order := order.(volume := closePreVol);
          orderCache := orderCache + [order];
        }
        if closeTodayVol > 0 {
          order := order.(openClose := CloseToday);
          order := order.(volume := closeTodayVol);
          orderCache := orderCache + [order];
        }
      } else {
        var closeQuantity := closeTodayVol + closePreVol;
        if closeQuantity > 0 {
          order := order.(openClose := Close);
          order := order.(volume := closeQuantity);
          orderCache := orderCache + [order];
        }
      }
      if volumeLeft > 0 {
        order := order.(openClose := Open);
        order := order.(volume := volumeLeft);
        orderCache := orderCache + [order];
      }
    }

    method ReversePosition(rec: HoldingRecord, tif: TimeInForce) returns (ret: seq<Order>)
      ensures ret == Liquidation.ReversePosition(rec, tif)
    {
      var order := Order(rec.instrumentId, rec.exchange, tif, Auto, rec.hedgeFlag, ReverseDirection(rec.direction), 0);
      ret := [];
      if rec.pre != 0 {
        order := order.(openClose := CloseYesterday);
        order := order.(volume := rec.pre);
        ret := ret + [order];
      }
      if rec.today != 0 {
        order := order.(openClose := CloseToday);
        order := order.(volume := rec.today);
        ret := ret + [order];
      }
    }

    // The keys of a snapshot of the holdings, once each.
    method SnapshotKeys(holding: Holding) returns (keys: seq<InstrumentIndex>)
      ensures Enumerates(holding, keys)
    {
      keys := [];
      var left := holding.Keys;
      while left != {}
        invariant left <= holding.Keys
        invariant forall k :: k in keys <==> k in holding && k !in left
        invariant forall i, j :: 0 <= i < j < |keys| ==> keys[i] != keys[j]
        decreases left
      {
        var k :| k in left;
        keys := keys + [k];
        left := left - {k};
      }
    }

    // The orders of one record, up to the first refusal.
    method PlaceOrders(account: CTPTradingAccount, orders: seq<Order>)
      returns (sent: seq<Order>, error: Option<OrderError>)
      ensures PlaceAll(AsWritten, TheMarket(), account.holding, orders) == Placement(sent, error)
    {
      hide Process;
      sent, error := [], None;
      ghost var m := TheMarket();
      for i := 0 to |orders|
        invariant PlaceAll(AsWritten, m, account.holding, orders[..i]) == Placement(sent, None)
      {
        var res := ProcessAdvancedOrder(account, orders[i]);
        assert orders[..i + 1][..i] == orders[..i];
        match res {
          case Ok(subs) => sent := sent + subs;
          case Err(e) =>
            error := Some(e);
            assert PlaceAll(AsWritten, m, account.holding, orders[..i + 1]) == Placement(sent, error);
            PlaceAllConcat(AsWritten, m, account.holding, orders[..i + 1], orders[i + 1..]);
            assert orders[..i + 1] + orders[i + 1..] == orders;
            return;
        }
      }
      assert orders[..|orders|] == orders;
    }

    // Walks a snapshot of the holdings and places the closing orders of each record; the first refusal
    // ends the walk, with everything before it already sent.
    method ClearAllHodlings(account: CTPTradingAccount, tif: TimeInForce, priceType: OrderPriceType)
      returns (sent: seq<Order>, error: Option<ClearError>, ghost keys: seq<InstrumentIndex>)
      ensures priceType.LimitPrice? ==> sent == [] && error == Some(LimitPriceForBatch)
      ensures !priceType.LimitPrice?
              ==> && Enumerates(account.holding, keys)
                  && var placed := PlaceAll(AsWritten, TheMarket(), account.holding, Plan(account.holding, keys, tif));
                     sent == placed.sent
                     && error == match placed.error case Some(e) => Some(Refused(e)) case None => None
    {
      hide PlaceAll, Liquidation.ReversePosition;
      sent, error, keys := [], None, [];
      if priceType.LimitPrice? {
        error := Some(LimitPriceForBatch);
        return;
      }
      var holding := account.holding;
      var indexes := SnapshotKeys(holding);
      keys := indexes;
      ghost var m := TheMarket();
      NothingPlaced(AsWritten, m, holding);
      for n := 0 to |indexes|
        invariant PlaceAll(AsWritten, m, holding, Plan(holding, indexes[..n], tif)) == Placement(sent, None)
      {
        var orders := ReversePosition(holding[indexes[n]], tif);
        assert indexes[..n + 1][..n] == indexes[..n];
        PlaceAllConcat(AsWritten, m, holding, Plan(holding, indexes[..n], tif), orders);
        var more, refusal := PlaceOrders(account, orders);
        sent := sent + more;
        if refusal.Some? {
          error := Some(Refused(refusal.value));
          var rest := PlanExtends(holding, indexes, n + 1, tif);
          PlaceAllConcat(AsWritten, m, holding, Plan(holding, indexes[..n + 1], tif), rest);
          return;
        }
      }
      assert indexes[..|indexes|] == indexes;
    }
  }

  lemma NothingPlaced(rule: Rule, m: Market, h: Holding)
    ensures PlaceAll(rule, m, h, []) == Placement([], None)
  {
  }

  lemma {:induction false} PlanExtends(h: Holding, keys: seq<InstrumentIndex>, n: nat, tif: TimeInForce)
    returns (rest: seq<Order>)
    requires n <= |keys| && forall i :: 0 <= i < |keys| ==> keys[i] in h
    ensures Plan(h, keys, tif) == Plan(h, keys[..n], tif) + rest
    decreases |keys|
  {
    if n == |keys| {
      assert keys[..n] == keys;
      rest := [];
    } else {
      var front := keys[..|keys| - 1];
      rest := PlanExtends(h, front, n, tif);
      assert front[..n] == keys[..n];
      rest := rest + Liquidation.ReversePosition(h[keys[|keys| - 1]], tif);
    }
  }
}
