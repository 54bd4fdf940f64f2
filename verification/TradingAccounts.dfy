// CTPTradingAccount with the fields its callbacks update: `holding_` and `trades_`, `orders_` and
// `cancelable_orders_`, and the latest local order reference.
module TradingAccounts {
  import opened DataStruct
  import opened Ledger
  import opened OrderTable

  class CTPTradingAccount {
    var holding: Holding
    var trades: seq<TradingRecord>
    var orders: map<OrderIndex, OrderRecord>
    var cancelableOrders: set<OrderIndex>
    var orderRef: int

    constructor ()
      ensures Contents() == EMPTY
      ensures Orders() == RunTable([])
      ensures Valid()
    {
      holding, trades := map[], [];
      orders, cancelableOrders := map[], {};
      orderRef := 0;
    }

    // The ledger half of the account, as a value.
    ghost function Contents(): Account
      reads this
    {
      Account(holding, trades)
    }

    // The order half of the account, as a value.
    ghost function Orders(): Table
      reads this
    {
      Table(orders, cancelableOrders)
    }

    ghost predicate Valid()
      reads this
    {
      ValidTable(Orders())
    }

    method OnRspQryInvestorPosition(row: Option<PositionRow>)
      modifies this`holding
      ensures Contents() == match row
                            case Some(r) => Step(AsWritten, old(Contents()), Row(r))
                            case None => old(Contents())
    {
      if row.Some? && row.value.ydPosition != 0 && !("SP" <= row.value.instrumentId) {
        var r := row.value;
        var index := InstrumentIndex(r.instrumentId, r.direction, r.hedgeFlag);
        if index in holding {
          var loc := holding[index];
          loc := loc.(total := loc.total + r.ydPosition);
          loc := loc.(pre := loc.pre + r.ydPosition);
          holding := holding[index := loc];
        } else {
          var rec := HoldingRecord(r.exchange, r.instrumentId, r.direction, r.hedgeFlag, r.ydPosition, 0, r.ydPosition);
          holding := holding[index := rec];
        }
      }
    }

    // The trade is recorded as it came; only then is a closing trade turned to the side it closes.
    method OnRtnTrade(returned: TradingRecord)
      modifies this`holding, this`trades
      ensures Contents() == Step(AsWritten, old(Contents()), Trade(returned))
    {
      var trade := returned;
      trades := trades + [trade];
      if trade.openClose != Open {
        trade := trade.(direction := ReverseDirection(trade.direction));
      }
      var index := InstrumentIndex(trade.instrumentId, trade.direction, trade.hedgeFlag);
      if index in holding {
        var loc := holding[index];
        loc := loc.(total := loc.total + EnumToPositiveOrNegative(OpenCloseCode(trade.openClose)) * trade.volume);
        match trade.openClose {
          case Open => loc := loc.(today := loc.today + trade.volume);
          case CloseToday => loc := loc.(today := loc.today - trade.volume);
          case CloseYesterday => loc := loc.(pre := loc.pre - trade.volume);
          case Close =>
            match trade.exchange {
              case DCE =>
                var vol := if loc.today < trade.volume then trade.volume else loc.today;
                loc := loc.(today := loc.today - vol);
                loc := loc.(pre := loc.pre - (trade.volume - vol));
              case CFE | CZC =>
                var vol := if loc.pre < trade.volume then trade.volume else loc.pre;
                loc := loc.(pre := loc.pre - vol);
                loc := loc.(today := loc.today - (trade.volume - vol));
              case _ =>
            }
          case _ =>
        }
        holding := holding[index := loc];
      } else {
        var rec := HoldingRecord(trade.exchange, trade.instrumentId, trade.direction, trade.hedgeFlag,
                                 trade.volume, trade.volume, 0);
        holding := holding[index := rec];
      }
    }

    method GetNetHoldings() returns (ret: map<Ticker, int>)
      ensures forall t :: t in ret <==> exists k :: k in holding && k.instrumentId == t
      ensures forall t :: t in ret ==> ret[t] == NetHolding(holding, t)
    {
      hide NetHolding, Tallies;
      ret := map[];
      var left := holding.Keys;
      ghost var seen: Holding := map[];
      NothingTallied();
      while left != {}
        invariant left <= holding.Keys && seen.Keys == holding.Keys - left
        invariant forall k :: k in seen ==> seen[k] == holding[k]
        invariant Tallies(ret, seen)
        decreases left
      {
        var index :| index in left;
        var record := holding[index];
        var t := index.instrumentId;
        VisitTallies(ret, seen, index, record);
        ret := ret[t := (if t in ret then ret[t] else 0) + record.total * DirectionCode(index.direction)];
        seen := seen[index := record];
        left := left - {index};
      }
      assert seen == holding;
      ReadTally(ret, seen);
    }

    method GetNetTrades() returns (ret: map<Ticker, int>)
      ensures forall t :: t in ret <==> exists i :: 0 <= i < |trades| && trades[i].instrumentId == t
      ensures forall t :: t in ret ==> ret[t] == NetTrades(trades, t)
    {
      ret := map[];
      for i := 0 to |trades|
        invariant forall t :: t in ret <==> exists j :: 0 <= j < i && trades[j].instrumentId == t
        invariant forall t :: (if t in ret then ret[t] else 0) == NetTrades(trades[..i], t)
      {
        var record := trades[i];
        var t := record.instrumentId;
        ret := ret[t := (if t in ret then ret[t] else 0) + record.volume * DirectionCode(record.direction)];
        assert trades[..i + 1][..i] == trades[..i];
      }
      assert trades[..|trades|] == trades;
    }

    method FilterCancelableOrders(index: OrderIndex)
      requires index in orders
      modifies this`cancelableOrders
      ensures cancelableOrders == if Active(orders[index].status) then old(cancelableOrders) + {index}
                                  else old(cancelableOrders) - {index}
    {
      match orders[index].status {
        case AllTraded | Canceled | RejectedByServer | RejectedByExchange | NotTouched | Touched | UnknownStatus =>
          cancelableOrders := cancelableOrders - {index};
        case PartTradedQueueing | PartTradedNotQueueing | NoTradeQueueing | NoTradeNotQueueing =>
          cancelableOrders := cancelableOrders + {index};
      }
    }

    method OnRtnOrder(ret: OrderReturn)
      requires Valid()
      modifies this`orders, this`cancelableOrders
      ensures Orders() == StepTable(old(Orders()), ret)
      ensures Valid()
    {
      var index := OrderIndex(ret.frontId, ret.sessionId, ret.orderRef);
      if index !in orders {
        orders := orders[index := NewRecord(ret)];
      } else if ret.insertRejected {
        orders := orders[index := orders[index].(status := RejectedByExchange)];
      } else {
        var rec := orders[index].(status := ret.status);
        rec := rec.(remainedVolume := ret.volumeTotal);
        rec := rec.(tradedVolume := ret.volumeTraded);
        orders := orders[index := rec];
      }
      FilterCancelableOrders(index);
      StepKeepsValid(old(Orders()), ret);
    }

    // An unknown index is refused with the order-reference error.
    method CancelOrder(index: OrderIndex) returns (request: Option<CancelRequest>)
      ensures request == if index in orders then Some(RequestFor(orders[index], orderRef)) else None
    {
      if index !in orders {
        return None;
      }
      var rec := orders[index];
      request := Some(CancelRequest(rec.instrumentId, rec.exchange, rec.frontId, rec.sessionId, orderRef));
    }

    // Each active order is visited once and none of the visits meets the order-reference error.
    method CancelAllPendingOrders() returns (sent: seq<CancelRequest>, refused: bool, ghost visited: seq<OrderIndex>)
      requires Valid()
      ensures !refused && |sent| == |cancelableOrders|
      ensures CancelsAll(Orders(), orderRef, visited, sent)
    {
      sent, refused, visited := [], false, [];
      var left := cancelableOrders;
      while left != {}
        invariant left <= cancelableOrders && !refused
        invariant |sent| == |visited| == |cancelableOrders| - |left|
        invariant NoDuplicates(visited)
        invariant forall k :: k in visited <==> k in cancelableOrders && k !in left
        invariant forall i :: 0 <= i < |sent| ==> visited[i] in orders && sent[i] == RequestFor(orders[visited[i]], orderRef)
        decreases left
      {
        var index :| index in left;
        var request := CancelOrder(index);
        if request.None? {
          refused := true;
          return;
        }
        sent, visited := sent + [request.value], visited + [index];
        left := left - {index};
      }
    }
  }

  // `ret` holds the net total of every ticker that `h` holds, and of no other.
  ghost predicate Tallies(ret: map<Ticker, int>, h: Holding) {
    && (forall t :: t in ret <==> exists k :: k in h && k.instrumentId == t)
    && forall t :: (if t in ret then ret[t] else 0) == NetHolding(h, t)
  }

  lemma NothingTallied()
    ensures Tallies(map[], map[])
  {
  }

  lemma ReadTally(ret: map<Ticker, int>, h: Holding)
    requires Tallies(ret, h)
    ensures forall t :: t in ret <==> exists k :: k in h && k.instrumentId == t
    ensures forall t :: t in ret ==> ret[t] == NetHolding(h, t)
  {
  }

  lemma VisitTallies(ret: map<Ticker, int>, h: Holding, index: InstrumentIndex, record: HoldingRecord)
    requires Tallies(ret, h) && index !in h
    ensures var t := index.instrumentId;
            Tallies(ret[t := (if t in ret then ret[t] else 0) + record.total * DirectionCode(index.direction)],
                    h[index := record])
  {
    var t := index.instrumentId;
    var ret' := ret[t := (if t in ret then ret[t] else 0) + record.total * DirectionCode(index.direction)];
    var h' := h[index := record];
    hide NetHolding;
    forall u ensures u in ret' <==> exists k :: k in h' && k.instrumentId == u {
      if k :| k in h && k.instrumentId == u {
        assert k in h';
      }
      if k :| k in h' && k.instrumentId == u {
        assert k == index || k in h;
      }
      assert index in h';
    }
    forall u ensures (if u in ret' then ret'[u] else 0) == NetHolding(h', u) {
      NetAfterUpdate(h, index, record, u);
    }
  }
}
