// The order table: `orders_`, the index `cancelable_orders_` kept beside it, and the requests that
// cancelling sends.
module OrderTable {
  import opened DataStruct

  datatype OrderIndex = OrderIndex(frontId: int, sessionId: int, orderRef: int)

  datatype OrderStatus =
    | AllTraded
    | PartTradedQueueing
    | PartTradedNotQueueing
    | NoTradeQueueing
    | NoTradeNotQueueing
    | RejectedByServer
    | RejectedByExchange
    | Canceled
    | UnknownStatus
    | NotTouched
    | Touched

  // An order return; `status` is the translated order status, which never is a rejection.
  datatype OrderReturn = OrderReturn(
    frontId: int,
    sessionId: int,
    orderRef: int,
    exchange: Exchange,
    instrumentId: Ticker,
    insertRejected: bool,
    status: OrderStatus,
    volumeTotal: int,
    volumeTraded: int)

  datatype OrderRecord = OrderRecord(
    frontId: int,
    sessionId: int,
    orderRef: int,
    exchange: Exchange,
    instrumentId: Ticker,
    tradedVolume: int,
    remainedVolume: int,
    status: OrderStatus)

  datatype Table = Table(orders: map<OrderIndex, OrderRecord>, cancelable: set<OrderIndex>)

  datatype CancelRequest = CancelRequest(
    instrumentId: Ticker,
    exchange: Exchange,
    frontId: int,
    sessionId: int,
    orderRef: int)

  function IndexOf(ret: OrderReturn): OrderIndex {
    OrderIndex(ret.frontId, ret.sessionId, ret.orderRef)
  }

  predicate Active(status: OrderStatus) {
    status.PartTradedQueueing? || status.PartTradedNotQueueing? || status.NoTradeQueueing? || status.NoTradeNotQueueing?
  }

  function NewRecord(ret: OrderReturn): OrderRecord {
    OrderRecord(ret.frontId, ret.sessionId, ret.orderRef, ret.exchange, ret.instrumentId,
                ret.volumeTraded, ret.volumeTotal, ret.status)
  }

  function UpdateRecord(rec: OrderRecord, ret: OrderReturn): OrderRecord {
    if ret.insertRejected then rec.(status := RejectedByExchange)
    else rec.(status := ret.status, remainedVolume := ret.volumeTotal, tradedVolume := ret.volumeTraded)
  }

  function StepTable(t: Table, ret: OrderReturn): Table {
    var k := IndexOf(ret);
    var rec := if k in t.orders then UpdateRecord(t.orders[k], ret) else NewRecord(ret);
    Table(t.orders[k := rec], if Active(rec.status) then t.cancelable + {k} else t.cancelable - {k})
  }

  function RunTable(rets: seq<OrderReturn>): Table {
    if rets == [] then Table(map[], {}) else StepTable(RunTable(rets[..|rets| - 1]), rets[|rets| - 1])
  }

  // The index agrees with the table, and every record sits under its own key.
  ghost predicate ValidTable(t: Table) {
    && (forall k :: k in t.cancelable <==> k in t.orders && Active(t.orders[k].status))
    && forall k :: k in t.orders ==> t.orders[k].frontId == k.frontId && t.orders[k].sessionId == k.sessionId
                                     && t.orders[k].orderRef == k.orderRef
  }

  lemma StepKeepsValid(t: Table, ret: OrderReturn)
    requires ValidTable(t)
    ensures ValidTable(StepTable(t, ret))
  {
  }

  // ---------------------------------------------------------------- the table read off the returns

  predicate Seen(rets: seq<OrderReturn>, k: OrderIndex) {
    exists i :: 0 <= i < |rets| && IndexOf(rets[i]) == k
  }

  // The status an order was last reported with. A rejection flag on the first return is not looked at.
  function LastStatus(rets: seq<OrderReturn>, k: OrderIndex): OrderStatus
    requires Seen(rets, k)
  {
    var prefix, last := rets[..|rets| - 1], rets[|rets| - 1];
    if IndexOf(last) != k then
      assert Seen(prefix, k) by {
        var i :| 0 <= i < |rets| && IndexOf(rets[i]) == k;
        assert IndexOf(prefix[i]) == k;
      }
      LastStatus(prefix, k)
    else if last.insertRejected && Seen(prefix, k) then RejectedByExchange
    else last.status
  }

  // After every run of order returns: the table holds exactly the orders seen, under their last reported
  // status, and the cancelable index is exactly the orders whose last reported status is active.
  lemma {:induction false} TableReflectsReturns(rets: seq<OrderReturn>)
    ensures ValidTable(RunTable(rets))
    ensures forall k :: k in RunTable(rets).orders <==> Seen(rets, k)
    ensures forall k :: Seen(rets, k) ==> RunTable(rets).orders[k].status == LastStatus(rets, k)
    ensures forall k :: k in RunTable(rets).cancelable <==> Seen(rets, k) && Active(LastStatus(rets, k))
  {
    if rets != [] {
      var prefix, last := rets[..|rets| - 1], rets[|rets| - 1];
      TableReflectsReturns(prefix);
      StepKeepsValid(RunTable(prefix), last);
      forall k ensures Seen(rets, k) <==> Seen(prefix, k) || IndexOf(last) == k {
        SeenSplit(rets, k);
      }
    }
  }

  // The return an order's volumes come from: the last that was not a rejection, or the order's first.
  function LastReport(rets: seq<OrderReturn>, k: OrderIndex): OrderReturn
    requires Seen(rets, k)
  {
    var prefix, last := rets[..|rets| - 1], rets[|rets| - 1];
    SeenSplit(rets, k);
    if IndexOf(last) == k && (!last.insertRejected || !Seen(prefix, k)) then last else LastReport(prefix, k)
  }

  function FirstReport(rets: seq<OrderReturn>, k: OrderIndex): OrderReturn
    requires Seen(rets, k)
  {
    SeenSplit(rets, k);
    if Seen(rets[..|rets| - 1], k) then FirstReport(rets[..|rets| - 1], k) else rets[|rets| - 1]
  }

  // After every run of order returns every order shows the volumes of its last report that was not a
  // rejection, and the contract of its first; cancelling it names that contract.
  lemma {:induction false} VolumesReflectReturns(rets: seq<OrderReturn>, k: OrderIndex, latestRef: int)
    requires Seen(rets, k)
    ensures k in RunTable(rets).orders
    ensures var rec, first, last := RunTable(rets).orders[k], FirstReport(rets, k), LastReport(rets, k);
            && rec.tradedVolume == last.volumeTraded && rec.remainedVolume == last.volumeTotal
            && rec.instrumentId == first.instrumentId && rec.exchange == first.exchange
            && RequestFor(rec, latestRef).instrumentId == first.instrumentId
            && RequestFor(rec, latestRef).exchange == first.exchange
  {
    var prefix, last := rets[..|rets| - 1], rets[|rets| - 1];
    TableReflectsReturns(prefix);
    SeenSplit(rets, k);
    if Seen(prefix, k) {
      VolumesReflectReturns(prefix, k, latestRef);
    }
    hide Seen, ValidTable;
  }

  lemma SeenSplit(rets: seq<OrderReturn>, k: OrderIndex)
    requires rets != []
    ensures Seen(rets, k) <==> Seen(rets[..|rets| - 1], k) || IndexOf(rets[|rets| - 1]) == k
  {
    var prefix := rets[..|rets| - 1];
    if i :| 0 <= i < |prefix| && IndexOf(prefix[i]) == k {
      assert IndexOf(rets[i]) == k;
    }
    if i :| 0 <= i < |rets| && IndexOf(rets[i]) == k {
      assert i < |prefix| ==> IndexOf(prefix[i]) == k;
    }
  }

  // An order whose very first return carries the rejection flag stays in the index when its status is active.
  lemma {:induction false} FirstRejectionIsOverlooked(ret: OrderReturn)
    requires ret.insertRejected && Active(ret.status)
    ensures IndexOf(ret) in RunTable([ret]).cancelable && IndexOf(ret) !in RunTable([ret, ret]).cancelable
  {
    assert [ret][..0] == [] && [ret, ret][..1] == [ret];
    assert RunTable([ret]) == StepTable(Table(map[], {}), ret);
    assert RunTable([ret, ret]) == StepTable(RunTable([ret]), ret);
  }

  // ---------------------------------------------------------------- cancelling

  // The request CancelOrder sends for a record: it names the account's latest order reference.
  function RequestFor(rec: OrderRecord, latestRef: int): CancelRequest {
    CancelRequest(rec.instrumentId, rec.exchange, rec.frontId, rec.sessionId, latestRef)
  }

  // The order a request makes the exchange cancel.
  function TargetOf(request: CancelRequest): OrderIndex {
    OrderIndex(request.frontId, request.sessionId, request.orderRef)
  }

  predicate NoDuplicates<T(==)>(s: seq<T>) {
    forall i, j :: 0 <= i < j < |s| ==> s[i] != s[j]
  }

  // `visited` lists the cancelable orders once each, and `sent` is what cancelling them in that order sends.
  ghost predicate CancelsAll(t: Table, latestRef: int, visited: seq<OrderIndex>, sent: seq<CancelRequest>) {
    && NoDuplicates(visited)
    && (forall k :: k in visited <==> k in t.cancelable)
    && (forall k :: k in visited ==> k in t.orders)
    && |sent| == |visited|
    && forall i :: 0 <= i < |sent| ==> sent[i] == RequestFor(t.orders[visited[i]], latestRef)
  }

  // Cancelling everything reaches every active order exactly when no active order carries another
  // reference than the latest one.
  lemma {:induction false} CancelAllReachesIff(t: Table, latestRef: int, visited: seq<OrderIndex>, sent: seq<CancelRequest>)
    requires ValidTable(t) && CancelsAll(t, latestRef, visited, sent)
    ensures (forall k :: k in t.cancelable ==> exists i :: 0 <= i < |sent| && TargetOf(sent[i]) == k)
            <==> forall k :: k in t.cancelable ==> k.orderRef == latestRef
  {
    if forall k :: k in t.cancelable ==> k.orderRef == latestRef {
      forall k | k in t.cancelable ensures exists i :: 0 <= i < |sent| && TargetOf(sent[i]) == k {
        assert k in visited;
        var i :| 0 <= i < |visited| && visited[i] == k;
        assert TargetOf(sent[i]) == k;
      }
    }
    if k :| k in t.cancelable && k.orderRef != latestRef {
      forall i | 0 <= i < |sent| ensures TargetOf(sent[i]) != k {
        assert sent[i].orderRef == latestRef;
      }
    }
  }

  // Two orders in the queue, the second one the account's latest: both requests name the second.
  lemma OlderOrderIsMissed(t: Ticker)
    ensures var first := OrderReturn(1, 1, 1, SHF, t, false, NoTradeQueueing, 5, 0);
            var second := first.(orderRef := 2);
            var table := RunTable([first, second]);
            var visited := [IndexOf(first), IndexOf(second)];
            var sent := [RequestFor(NewRecord(first), 2), RequestFor(NewRecord(second), 2)];
            && CancelsAll(table, 2, visited, sent)
            && TargetOf(sent[0]) == TargetOf(sent[1]) == IndexOf(second)
            && IndexOf(first) in table.cancelable
  {
    var first := OrderReturn(1, 1, 1, SHF, t, false, NoTradeQueueing, 5, 0);
    var second := first.(orderRef := 2);
    assert [first][..0] == [] && [first, second][..1] == [first];
    assert RunTable([first]) == StepTable(Table(map[], {}), first);
    assert RunTable([first, second]) == StepTable(RunTable([first]), second);
  }
}
