// ClearAllHodlings: the closing orders of ReversePosition, placed one after another while the exchange
// fills whatever is already working, in chunks and in any order.
module Liquidation {
  import opened DataStruct
  import opened Ledger
  import opened OrderSplitter

  // ---------------------------------------------------------------- the orders

  function ClosingOrder(rec: HoldingRecord, tif: TimeInForce, oc: OpenClose, volume: int): Order {
    Order(rec.instrumentId, rec.exchange, tif, oc, rec.hedgeFlag, ReverseDirection(rec.direction), volume)
  }

  function ReversePosition(rec: HoldingRecord, tif: TimeInForce): seq<Order> {
    (if rec.pre != 0 then [ClosingOrder(rec, tif, CloseYesterday, rec.pre)] else [])
    + (if rec.today != 0 then [ClosingOrder(rec, tif, CloseToday, rec.today)] else [])
  }

  function Plan(h: Holding, keys: seq<InstrumentIndex>, tif: TimeInForce): seq<Order>
    requires forall i :: 0 <= i < |keys| ==> keys[i] in h
  {
    if keys == [] then [] else
    Plan(h, keys[..|keys| - 1], tif) + ReversePosition(h[keys[|keys| - 1]], tif)
  }

  // The bucket that an order of the plan empties.
  function Bucket(rec: HoldingRecord, oc: OpenClose): int {
    if oc.CloseYesterday? then rec.pre else rec.today
  }

  ghost predicate Enumerates(h: Holding, keys: seq<InstrumentIndex>) {
    && (forall k :: k in h <==> k in keys)
    && forall i, j :: 0 <= i < j < |keys| ==> keys[i] != keys[j]
  }

  // An order of the plan closes the whole of one bucket of the record it names.
  predicate ClosesBucket(h: Holding, tif: TimeInForce, o: Order) {
    var k := ClosedIndex(o);
    && (o.openClose.CloseYesterday? || o.openClose.CloseToday?)
    && k in h && o.volume != 0
    && o == ClosingOrder(h[k], tif, o.openClose, Bucket(h[k], o.openClose))
  }

  predicate SameSlot(o: Order, q: Order) {
    ClosedIndex(o) == ClosedIndex(q) && o.openClose == q.openClose
  }

  predicate HasSlot(plan: seq<Order>, k: InstrumentIndex, oc: OpenClose) {
    exists i :: 0 <= i < |plan| && ClosedIndex(plan[i]) == k && plan[i].openClose == oc
  }

  // One order per non-empty bucket, no more and no less.
  ghost predicate PlanFor(h: Holding, tif: TimeInForce, plan: seq<Order>) {
    && (forall i :: 0 <= i < |plan| ==> ClosesBucket(h, tif, plan[i]))
    && (forall i, j :: 0 <= i < j < |plan| ==> !SameSlot(plan[i], plan[j]))
    && (forall k :: k in h && h[k].pre != 0 ==> HasSlot(plan, k, CloseYesterday))
    && (forall k :: k in h && h[k].today != 0 ==> HasSlot(plan, k, CloseToday))
  }

  lemma SlotKept(plan: seq<Order>, more: seq<Order>, k: InstrumentIndex, oc: OpenClose)
    requires HasSlot(plan, k, oc) || HasSlot(more, k, oc)
    ensures HasSlot(plan + more, k, oc)
  {
    if HasSlot(plan, k, oc) {
      var i :| 0 <= i < |plan| && ClosedIndex(plan[i]) == k && plan[i].openClose == oc;
      assert (plan + more)[i] == plan[i];
    } else {
      var i :| 0 <= i < |more| && ClosedIndex(more[i]) == k && more[i].openClose == oc;
      assert (plan + more)[|plan| + i] == more[i];
    }
  }

  lemma ReverseCloses(h: Holding, k: InstrumentIndex, tif: TimeInForce)
    requires k in h && Filed(k, h[k])
    ensures var more := ReversePosition(h[k], tif);
            && |more| <= 2
            && (forall i :: 0 <= i < |more| ==> ClosesBucket(h, tif, more[i]) && ClosedIndex(more[i]) == k)
            && (|more| == 2 ==> more[0].openClose != more[1].openClose)
            && (h[k].pre != 0 ==> HasSlot(more, k, CloseYesterday))
            && (h[k].today != 0 ==> HasSlot(more, k, CloseToday))
  {
    var more := ReversePosition(h[k], tif);
    if h[k].pre != 0 {
      assert more[0] == ClosingOrder(h[k], tif, CloseYesterday, h[k].pre);
    }
    if h[k].today != 0 {
      assert more[|more| - 1] == ClosingOrder(h[k], tif, CloseToday, h[k].today);
    }
  }

  // A plan over some keys, without duplicates, that covers those keys.
  ghost predicate Covers(h: Holding, tif: TimeInForce, keys: seq<InstrumentIndex>, plan: seq<Order>)
    requires forall i :: 0 <= i < |keys| ==> keys[i] in h
  {
    && (forall i :: 0 <= i < |plan| ==> ClosesBucket(h, tif, plan[i]) && ClosedIndex(plan[i]) in keys)
    && (forall i, j :: 0 <= i < j < |plan| ==> !SameSlot(plan[i], plan[j]))
    && (forall i :: 0 <= i < |keys| && h[keys[i]].pre != 0 ==> HasSlot(plan, keys[i], CloseYesterday))
    && (forall i :: 0 <= i < |keys| && h[keys[i]].today != 0 ==> HasSlot(plan, keys[i], CloseToday))
  }

  lemma OneMoreKey(h: Holding, tif: TimeInForce, front: seq<InstrumentIndex>, plan: seq<Order>, k: InstrumentIndex)
    requires forall i :: 0 <= i < |front| ==> front[i] in h
    requires Covers(h, tif, front, plan)
    requires k in h && k !in front && Filed(k, h[k])
    ensures Covers(h, tif, front + [k], plan + ReversePosition(h[k], tif))
  {
    ReverseCloses(h, k, tif);
    hide ClosesBucket, HasSlot, ReversePosition, ClosedIndex;
    var keys, more := front + [k], ReversePosition(h[k], tif);
    forall i | 0 <= i < |keys|
      ensures h[keys[i]].pre != 0 ==> HasSlot(plan + more, keys[i], CloseYesterday)
      ensures h[keys[i]].today != 0 ==> HasSlot(plan + more, keys[i], CloseToday)
    {
      assert i < |front| ==> front[i] == keys[i];
      if h[keys[i]].pre != 0 {
        SlotKept(plan, more, keys[i], CloseYesterday);
      }
      if h[keys[i]].today != 0 {
        SlotKept(plan, more, keys[i], CloseToday);
      }
    }
  }

  lemma {:induction false} PlanCovers(h: Holding, keys: seq<InstrumentIndex>, tif: TimeInForce)
    requires forall k :: k in h ==> Filed(k, h[k])
    requires forall i :: 0 <= i < |keys| ==> keys[i] in h
    requires forall i, j :: 0 <= i < j < |keys| ==> keys[i] != keys[j]
    ensures Covers(h, tif, keys, Plan(h, keys, tif))
  {
    if keys != [] {
      var front, k := keys[..|keys| - 1], keys[|keys| - 1];
      assert keys == front + [k];
      assert k !in front && Filed(k, h[k]);
      hide Covers, Filed, ReversePosition;
      PlanCovers(h, front, tif);
      OneMoreKey(h, tif, front, Plan(h, front, tif), k);
    }
  }

  lemma {:induction false} PlanIsComplete(h: Holding, keys: seq<InstrumentIndex>, tif: TimeInForce)
    requires Enumerates(h, keys) && forall k :: k in h ==> Filed(k, h[k])
    ensures PlanFor(h, tif, Plan(h, keys, tif))
  {
    PlanCovers(h, keys, tif);
    hide HasSlot, ClosesBucket;
    forall k | k in h
      ensures h[k].pre != 0 ==> HasSlot(Plan(h, keys, tif), k, CloseYesterday)
      ensures h[k].today != 0 ==> HasSlot(Plan(h, keys, tif), k, CloseToday)
    {
      var i :| 0 <= i < |keys| && keys[i] == k;
    }
  }

  // ---------------------------------------------------------------- placing and filling, interleaved

  datatype Progress = Progress(holding: Holding, working: seq<Order>, refused: bool)

  // Place the next order of the plan, or let the exchange fill part of a working order. An action that is
  // not possible leaves everything as it is.
  datatype Action = Place | Execute(i: nat, volume: int)

  function Next(rule: Rule, m: Market, plan: seq<Order>, p: Progress, a: Action): Progress {
    match a
    case Place =>
      if p.refused || |p.working| >= |plan| then p else (
      match Process(rule, m, p.holding, plan[|p.working|])
      case Ok(subs) => p.(working := p.working + subs)
      case Err(_) => p.(refused := true))
    case Execute(i, volume) =>
      if i >= |p.working| || !(0 < volume <= p.working[i].volume) then p
      else
        var o := p.working[i];
        p.(holding := BookTrade(rule, p.holding, TradeOf(o, Execution(o.openClose, volume))),
           working := p.working[i := o.(volume := o.volume - volume)])
  }

  function After(rule: Rule, m: Market, plan: seq<Order>, h: Holding, acts: seq<Action>): Progress {
    if acts == [] then Progress(h, [], false)
    else Next(rule, m, plan, After(rule, m, plan, h, acts[..|acts| - 1]), acts[|acts| - 1])
  }

  // Exchanges on which every fill of a plan order takes from its own bucket.
  predicate OwnBucket(rule: Rule, exchange: Exchange) {
    NamesDay(exchange) || (rule.Intended? && (exchange.CFE? || exchange.CZC?))
  }

  predicate Listed(m: Market, rec: HoldingRecord) {
    && ToUpper(rec.instrumentId) in m.instruments
    && m.instruments[ToUpper(rec.instrumentId)] == InstrumentInfo(rec.instrumentId, rec.exchange)
  }

  // A ledger that can be liquidated: filed, listed, balanced and non-negative records, and no FOK on CZC.
  predicate Closeable(m: Market, tif: TimeInForce, k: InstrumentIndex, rec: HoldingRecord) {
    Filed(k, rec) && Listed(m, rec) && Balanced(rec) && NonNegative(rec) && !(rec.exchange.CZC? && tif.FOK?)
  }

  ghost predicate AllCloseable(m: Market, tif: TimeInForce, h: Holding) {
    forall k :: k in h ==> Closeable(m, tif, k, h[k])
  }

  function Outstanding(plan: seq<Order>, p: Progress, i: nat): int
    requires i < |plan|
  {
    if i < |p.working| then p.working[i].volume else plan[i].volume
  }

  // What the plan's order for one bucket still has outstanding; nothing if there is no such order.
  ghost function Owed(plan: seq<Order>, p: Progress, k: InstrumentIndex, oc: OpenClose): int {
    if HasSlot(plan, k, oc) then
      var i :| 0 <= i < |plan| && ClosedIndex(plan[i]) == k && plan[i].openClose == oc;
      Outstanding(plan, p, i)
    else 0
  }

  lemma OwedAt(h: Holding, tif: TimeInForce, plan: seq<Order>, p: Progress, i: nat)
    requires PlanFor(h, tif, plan) && i < |plan|
    ensures Owed(plan, p, ClosedIndex(plan[i]), plan[i].openClose) == Outstanding(plan, p, i)
  {
    var k, oc := ClosedIndex(plan[i]), plan[i].openClose;
    assert HasSlot(plan, k, oc);
    forall j | 0 <= j < |plan| && ClosedIndex(plan[j]) == k && plan[j].openClose == oc ensures j == i {
      assert i < j ==> !SameSlot(plan[i], plan[j]);
      assert j < i ==> !SameSlot(plan[j], plan[i]);
    }
    hide ClosesBucket, ClosedIndex;
  }

  // ---------------------------------------------------------------- one record during a run

  // A record that started as `start`, while the orders for yesterday's and today's lots have `oy` and `ot`
  // outstanding: the total is what is outstanding, and beyond that each kind of exchange has its own story.
  predicate Sits(rule: Rule, start: HoldingRecord, now: HoldingRecord, oy: int, ot: int) {
    && now == start.(total := now.total, today := now.today, pre := now.pre)
    && 0 <= oy <= start.pre && 0 <= ot <= start.today
    && now.total == oy + ot
    && (OwnBucket(rule, start.exchange) ==> now.pre == oy && now.today == ot)
    && (!start.exchange.DCE? ==> ot <= now.today)
    && (start.exchange.DCE? ==> SitsOnDce(rule, start, now, oy, ot))
  }

  // On DCE the order for yesterday's lots takes today's first: from its first fill on there are too few of
  // today's lots left to place the other order.
  predicate SitsOnDce(rule: Rule, start: HoldingRecord, now: HoldingRecord, oy: int, ot: int) {
    && (oy == start.pre ==> now.today == ot)
    && (oy < start.pre && 0 < ot == start.today
        ==> now.today < ot && (if rule.Intended? then 0 <= now.today else now.today <= 0))
  }

  lemma YesterdayFillSits(rule: Rule, start: HoldingRecord, now: HoldingRecord, oy: int, ot: int, volume: int)
    requires Sits(rule, start, now, oy, ot) && 0 < volume <= oy
    ensures Sits(rule, start, Fill(rule, now, EffectiveType(start.exchange, CloseYesterday), start.exchange, volume),
                 oy - volume, ot)
  {
  }

  lemma TodayFillSits(rule: Rule, start: HoldingRecord, now: HoldingRecord, oy: int, ot: int, volume: int)
    requires Sits(rule, start, now, oy, ot) && 0 < volume <= ot
    ensures Sits(rule, start, Fill(rule, now, CloseToday, start.exchange, volume), oy, ot - volume)
  {
  }

  // Whether an order for a whole bucket passes validation.
  lemma WholeBucketFits(rule: Rule, start: HoldingRecord, now: HoldingRecord, oy: int, ot: int)
    requires Sits(rule, start, now, oy, ot)
    ensures Closable(now, EffectiveType(start.exchange, CloseYesterday), oy)
    ensures 0 < ot == start.today ==> (Closable(now, CloseToday, ot) <==> !start.exchange.DCE? || oy == start.pre)
  {
  }

  // ---------------------------------------------------------------- the whole run

  // What a plan order looks like once it is working.
  predicate WorksFor(o: Order, w: Order) {
    w == o.(openClose := EffectiveType(o.exchange, o.openClose), volume := w.volume) && 0 <= w.volume
  }

  predicate Works(plan: seq<Order>, working: seq<Order>) {
    |working| <= |plan| && forall i :: 0 <= i < |working| ==> WorksFor(plan[i], working[i])
  }

  ghost predicate SitsAt(rule: Rule, h: Holding, plan: seq<Order>, p: Progress, k: InstrumentIndex)
    requires k in h && k in p.holding
  {
    Sits(rule, h[k], p.holding[k], Owed(plan, p, k, CloseYesterday), Owed(plan, p, k, CloseToday))
  }

  ghost predicate OnTrack(rule: Rule, h: Holding, plan: seq<Order>, p: Progress) {
    && p.holding.Keys == h.Keys
    && Works(plan, p.working)
    && forall k :: k in h ==> SitsAt(rule, h, plan, p, k)
  }

  // The next order of the plan is for today's lots on DCE, and the order for yesterday's lots of the same
  // record has been filled in part or in whole.
  ghost predicate Blocked(h: Holding, plan: seq<Order>, p: Progress) {
    |p.working| < |plan| &&
    var o := plan[|p.working|];
    && ClosedIndex(o) in h && h[ClosedIndex(o)].exchange.DCE?
    && o.openClose.CloseToday?
    && Owed(plan, p, ClosedIndex(o), CloseYesterday) != h[ClosedIndex(o)].pre
  }

  // An explicit order of the plan passes exactly when the bucket it names holds its volume.
  lemma PlanOrderChecked(rule: Rule, m: Market, h: Holding, now: Holding, tif: TimeInForce, o: Order)
    requires ClosesBucket(h, tif, o) && o.volume > 0
    requires var k := ClosedIndex(o);
             && Closeable(m, tif, k, h[k]) && k in now
    ensures var k, oc := ClosedIndex(o), EffectiveType(o.exchange, o.openClose);
            Closable(now[k], oc, o.volume) ==> Process(rule, m, now, o) == Ok([o.(openClose := oc)])
    ensures var k, oc := ClosedIndex(o), EffectiveType(o.exchange, o.openClose);
            !Closable(now[k], oc, o.volume) ==> Process(rule, m, now, o).Err?
  {
    ExplicitCloseAcceptedIff(rule, m, now, o);
    assert m.instruments[ToUpper(o.instrumentId)] == InstrumentInfo(o.instrumentId, o.exchange);
    assert o.(instrumentId := o.instrumentId) == o;
    hide Process, ToUpper;
  }

  lemma PlanOrderAccepted(rule: Rule, m: Market, h: Holding, tif: TimeInForce, o: Order)
    requires ClosesBucket(h, tif, o) && Closeable(m, tif, ClosedIndex(o), h[ClosedIndex(o)])
    ensures Process(rule, m, h, o) == Ok([o.(openClose := EffectiveType(o.exchange, o.openClose))])
  {
    PlanOrderChecked(rule, m, h, h, tif, o);
    hide Process, ToUpper;
  }

  // The next order is refused exactly when it is blocked.
  lemma PlacedIffNotBlocked(rule: Rule, m: Market, h: Holding, tif: TimeInForce, plan: seq<Order>, p: Progress)
    requires PlanFor(h, tif, plan) && OnTrack(rule, h, plan, p) && |p.working| < |plan|
    requires AllCloseable(m, tif, h)
    ensures var o := plan[|p.working|];
            && (!Blocked(h, plan, p)
                ==> Process(rule, m, p.holding, o) == Ok([o.(openClose := EffectiveType(o.exchange, o.openClose))]))
            && (Blocked(h, plan, p) ==> Process(rule, m, p.holding, o).Err?)
  {
    var i := |p.working|;
    var o, k := plan[i], ClosedIndex(plan[i]);
    assert ClosesBucket(h, tif, o);
    assert Closeable(m, tif, k, h[k]);
    assert SitsAt(rule, h, plan, p, k);
    OwedAt(h, tif, plan, p, i);
    WholeBucketFits(rule, h[k], p.holding[k], Owed(plan, p, k, CloseYesterday), Owed(plan, p, k, CloseToday));
    assert o.volume > 0;
    PlanOrderChecked(rule, m, h, p.holding, tif, o);
    hide Process, PlanFor, OnTrack, Works, Sits, Owed, Closeable;
  }

  // Placing changes no record and nothing that is outstanding.
  lemma OwedWhenPlaced(plan: seq<Order>, p: Progress, w: Order, k: InstrumentIndex, oc: OpenClose)
    requires |p.working| < |plan| && w.volume == plan[|p.working|].volume
    ensures Owed(plan, p.(working := p.working + [w]), k, oc) == Owed(plan, p, k, oc)
  {
    hide HasSlot, ClosedIndex;
    assert forall i :: 0 <= i < |plan| ==> Outstanding(plan, p.(working := p.working + [w]), i) == Outstanding(plan, p, i);
  }

  lemma PlaceStaysOnTrack(rule: Rule, m: Market, h: Holding, tif: TimeInForce, plan: seq<Order>, p: Progress)
    requires PlanFor(h, tif, plan) && OnTrack(rule, h, plan, p)
    requires AllCloseable(m, tif, h)
    ensures OnTrack(rule, h, plan, Next(rule, m, plan, p, Place))
    ensures Next(rule, m, plan, p, Place).refused <==> p.refused || Blocked(h, plan, p)
  {
    hide Process, Closeable, Blocked, Owed, Sits, ClosedIndex, PlanFor;
    var next := Next(rule, m, plan, p, Place);
    if !p.refused && |p.working| < |plan| {
      PlacedIffNotBlocked(rule, m, h, tif, plan, p);
      var o := plan[|p.working|];
      var w := o.(openClose := EffectiveType(o.exchange, o.openClose));
      if !Blocked(h, plan, p) {
        OrderHasVolume(h, tif, plan, |p.working|, m);
        assert WorksFor(o, w);
        assert next == p.(working := p.working + [w]);
        forall k | k in h ensures SitsAt(rule, h, plan, next, k) {
          assert SitsAt(rule, h, plan, p, k);
          OwedWhenPlaced(plan, p, w, k, CloseYesterday);
          OwedWhenPlaced(plan, p, w, k, CloseToday);
        }
      } else {
        SameTrack(rule, h, plan, p, next);
      }
    } else if |p.working| >= |plan| {
      NothingNextToBlock(h, plan, p);
    }
  }

  lemma NothingNextToBlock(h: Holding, plan: seq<Order>, p: Progress)
    requires |p.working| >= |plan|
    ensures !Blocked(h, plan, p)
  {
  }

  lemma OrderHasVolume(h: Holding, tif: TimeInForce, plan: seq<Order>, i: nat, m: Market)
    requires PlanFor(h, tif, plan) && i < |plan|
    requires AllCloseable(m, tif, h)
    ensures plan[i].volume > 0
  {
    assert ClosesBucket(h, tif, plan[i]);
    assert Closeable(m, tif, ClosedIndex(plan[i]), h[ClosedIndex(plan[i])]);
  }

  lemma SameTrack(rule: Rule, h: Holding, plan: seq<Order>, p: Progress, next: Progress)
    requires OnTrack(rule, h, plan, p) && next == p.(refused := next.refused)
    ensures OnTrack(rule, h, plan, next)
  {
    hide Sits, HasSlot;
    forall k | k in h ensures SitsAt(rule, h, plan, next, k) {
      assert SitsAt(rule, h, plan, p, k);
      SameOwed(plan, p, next, k, CloseYesterday);
      SameOwed(plan, p, next, k, CloseToday);
    }
  }

  lemma SameOwed(plan: seq<Order>, p: Progress, next: Progress, k: InstrumentIndex, oc: OpenClose)
    requires next.working == p.working
    ensures Owed(plan, next, k, oc) == Owed(plan, p, k, oc)
  {
    hide HasSlot, ClosedIndex;
    assert forall i :: 0 <= i < |plan| ==> Outstanding(plan, next, i) == Outstanding(plan, p, i);
  }

  // A fill takes its volume off the order it fills, and off no other.
  lemma OwedWhenFilled(h: Holding, tif: TimeInForce, plan: seq<Order>, p: Progress, next: Progress, i: nat, volume: int,
                       k: InstrumentIndex, oc: OpenClose)
    requires PlanFor(h, tif, plan) && i < |p.working| <= |plan|
    requires next.working == p.working[i := p.working[i].(volume := p.working[i].volume - volume)]
    ensures Owed(plan, next, k, oc) == Owed(plan, p, k, oc)
            - if k == ClosedIndex(plan[i]) && oc == plan[i].openClose then volume else 0
  {
    if HasSlot(plan, k, oc) {
      var j :| 0 <= j < |plan| && ClosedIndex(plan[j]) == k && plan[j].openClose == oc;
      OwedAt(h, tif, plan, p, j);
      OwedAt(h, tif, plan, next, j);
      assert i < j ==> !SameSlot(plan[i], plan[j]);
      assert j < i ==> !SameSlot(plan[j], plan[i]);
      hide HasSlot, Owed, ClosesBucket, ClosedIndex;
    } else {
      hide Owed, ClosesBucket;
      assert HasSlot(plan, ClosedIndex(plan[i]), plan[i].openClose);
      NothingOwed(plan, p, k, oc);
      NothingOwed(plan, next, k, oc);
    }
  }

  lemma NothingOwed(plan: seq<Order>, p: Progress, k: InstrumentIndex, oc: OpenClose)
    requires !HasSlot(plan, k, oc)
    ensures Owed(plan, p, k, oc) == 0
  {
  }

  lemma FillBooks(rule: Rule, now: Holding, w: Order, volume: int)
    requires !w.openClose.Open? && ClosedIndex(w) in now
    ensures BookTrade(rule, now, TradeOf(w, Execution(w.openClose, volume)))
            == now[ClosedIndex(w) := Fill(rule, now[ClosedIndex(w)], w.openClose, w.exchange, volume)]
  {
    hide Fill;
    assert BookingIndex(TradeOf(w, Execution(w.openClose, volume))) == ClosedIndex(w);
  }

  // The record that a fill of working order `i` lands on, and what the fill does to it.
  lemma FillLands(rule: Rule, h: Holding, tif: TimeInForce, plan: seq<Order>, p: Progress, i: nat, volume: int)
    requires PlanFor(h, tif, plan) && OnTrack(rule, h, plan, p) && i < |p.working|
    ensures var o, w, k := plan[i], p.working[i], ClosedIndex(plan[i]);
            && k in p.holding && k in h
            && (o.openClose.CloseYesterday? || o.openClose.CloseToday?)
            && w.openClose == EffectiveType(h[k].exchange, o.openClose)
            && Owed(plan, p, k, o.openClose) == w.volume
            && BookTrade(rule, p.holding, TradeOf(w, Execution(w.openClose, volume)))
               == p.holding[k := Fill(rule, p.holding[k], w.openClose, h[k].exchange, volume)]
  {
    assert ClosesBucket(h, tif, plan[i]);
    assert WorksFor(plan[i], p.working[i]);
    OwedAt(h, tif, plan, p, i);
    hide Fill, Owed, PlanFor, BookTrade, TradeOf;
    FillBooks(rule, p.holding, p.working[i], volume);
  }

  lemma FillSits(rule: Rule, start: HoldingRecord, now: HoldingRecord, oy: int, ot: int, oc: OpenClose, volume: int)
    requires Sits(rule, start, now, oy, ot) && (oc.CloseYesterday? || oc.CloseToday?)
    requires 0 < volume <= if oc.CloseYesterday? then oy else ot
    ensures Sits(rule, start, Fill(rule, now, EffectiveType(start.exchange, oc), start.exchange, volume),
                 oy - (if oc.CloseYesterday? then volume else 0), ot - if oc.CloseToday? then volume else 0)
  {
    hide Sits, Fill;
    if oc.CloseYesterday? {
      YesterdayFillSits(rule, start, now, oy, ot, volume);
    } else {
      TodayFillSits(rule, start, now, oy, ot, volume);
    }
  }

  lemma WorksUpdated(plan: seq<Order>, working: seq<Order>, i: nat, volume: int)
    requires Works(plan, working) && i < |working| && 0 <= volume
    ensures Works(plan, working[i := working[i].(volume := volume)])
  {
    assert WorksFor(plan[i], working[i]);
    hide EffectiveType;
  }

  lemma ExecuteStaysOnTrack(rule: Rule, m: Market, h: Holding, tif: TimeInForce, plan: seq<Order>, p: Progress,
                            i: nat, volume: int)
    requires PlanFor(h, tif, plan) && OnTrack(rule, h, plan, p)
    requires i < |p.working| && 0 < volume <= p.working[i].volume
    ensures OnTrack(rule, h, plan, Next(rule, m, plan, p, Execute(i, volume)))
  {
    hide Sits, Owed, Fill, BookTrade, ClosedIndex, EffectiveType, WorksFor, PlanFor;
    var next := Next(rule, m, plan, p, Execute(i, volume));
    var at, oc := ClosedIndex(plan[i]), plan[i].openClose;
    FillLands(rule, h, tif, plan, p, i, volume);
    WorksUpdated(plan, p.working, i, p.working[i].volume - volume);
    forall k | k in h ensures SitsAt(rule, h, plan, next, k) {
      assert SitsAt(rule, h, plan, p, k);
      OwedWhenFilled(h, tif, plan, p, next, i, volume, k, CloseYesterday);
      OwedWhenFilled(h, tif, plan, p, next, i, volume, k, CloseToday);
      if k == at {
        FillSits(rule, h[k], p.holding[k], Owed(plan, p, k, CloseYesterday), Owed(plan, p, k, CloseToday), oc, volume);
      }
    }
  }

  // At the start every order has its whole bucket outstanding.
  lemma OwedAtStart(h: Holding, tif: TimeInForce, plan: seq<Order>, k: InstrumentIndex, oc: OpenClose)
    requires PlanFor(h, tif, plan) && k in h && (oc.CloseYesterday? || oc.CloseToday?)
    ensures Owed(plan, Progress(h, [], false), k, oc) == Bucket(h[k], oc)
  {
    if HasSlot(plan, k, oc) {
      var i :| 0 <= i < |plan| && ClosedIndex(plan[i]) == k && plan[i].openClose == oc;
      assert ClosesBucket(h, tif, plan[i]);
      OwedAt(h, tif, plan, Progress(h, [], false), i);
    }
  }

  lemma OnTrackAtStart(rule: Rule, m: Market, h: Holding, tif: TimeInForce, plan: seq<Order>)
    requires PlanFor(h, tif, plan)
    requires AllCloseable(m, tif, h)
    ensures OnTrack(rule, h, plan, Progress(h, [], false))
  {
    forall k | k in h ensures SitsAt(rule, h, plan, Progress(h, [], false), k) {
      assert Closeable(m, tif, k, h[k]);
      OwedAtStart(h, tif, plan, k, CloseYesterday);
      OwedAtStart(h, tif, plan, k, CloseToday);
      hide PlanFor, Owed, Listed, Filed;
    }
  }

  // Under every interleaving of placements and fills, on every exchange and under either rule, every record
  // holds in total exactly what its orders have outstanding, and sits where its exchange puts it.
  lemma {:induction false} LiquidationStaysOnTrack(rule: Rule, m: Market, h: Holding, tif: TimeInForce,
                                                   plan: seq<Order>, acts: seq<Action>)
    requires PlanFor(h, tif, plan)
    requires AllCloseable(m, tif, h)
    ensures OnTrack(rule, h, plan, After(rule, m, plan, h, acts))
  {
    if acts == [] {
      OnTrackAtStart(rule, m, h, tif, plan);
    } else {
      var p := After(rule, m, plan, h, acts[..|acts| - 1]);
      LiquidationStaysOnTrack(rule, m, h, tif, plan, acts[..|acts| - 1]);
      hide PlanFor, Closeable, OnTrack;
      match acts[|acts| - 1] {
        case Place => PlaceStaysOnTrack(rule, m, h, tif, plan, p);
        case Execute(i, volume) =>
          if i < |p.working| && 0 < volume <= p.working[i].volume {
            ExecuteStaysOnTrack(rule, m, h, tif, plan, p, i, volume);
          }
      }
    }
  }

  // The run came to place an order for today's lots on DCE after a fill of the order for yesterday's.
  ghost predicate MetBlocked(rule: Rule, m: Market, h: Holding, plan: seq<Order>, acts: seq<Action>) {
    exists j :: 0 <= j < |acts| && acts[j].Place? && Blocked(h, plan, After(rule, m, plan, h, acts[..j]))
  }

  lemma MetBlockedSplit(rule: Rule, m: Market, h: Holding, plan: seq<Order>, acts: seq<Action>)
    requires acts != []
    ensures var front, last := acts[..|acts| - 1], acts[|acts| - 1];
            MetBlocked(rule, m, h, plan, acts)
            <==> MetBlocked(rule, m, h, plan, front) || (last.Place? && Blocked(h, plan, After(rule, m, plan, h, front)))
  {
    hide Blocked, After;
    var front := acts[..|acts| - 1];
    forall j | 0 <= j < |front| ensures front[..j] == acts[..j] && front[j] == acts[j] {
    }
    if MetBlocked(rule, m, h, plan, front) {
      var j :| 0 <= j < |front| && front[j].Place? && Blocked(h, plan, After(rule, m, plan, h, front[..j]));
      assert acts[j].Place? && Blocked(h, plan, After(rule, m, plan, h, acts[..j]));
    }
    if MetBlocked(rule, m, h, plan, acts) {
      var j :| 0 <= j < |acts| && acts[j].Place? && Blocked(h, plan, After(rule, m, plan, h, acts[..j]));
      assert j < |front| ==> front[j].Place? && Blocked(h, plan, After(rule, m, plan, h, front[..j]));
    }
  }

  lemma RefusedStep(rule: Rule, m: Market, h: Holding, tif: TimeInForce, plan: seq<Order>, p: Progress, a: Action)
    requires PlanFor(h, tif, plan) && OnTrack(rule, h, plan, p)
    requires AllCloseable(m, tif, h)
    ensures Next(rule, m, plan, p, a).refused <==> p.refused || (a.Place? && Blocked(h, plan, p))
  {
    if a.Place? {
      PlaceStaysOnTrack(rule, m, h, tif, plan, p);
    }
    hide PlanFor, OnTrack, Closeable, Blocked;
  }

  // A run is refused exactly when, for some record on DCE, a fill of the order for yesterday's lots comes
  // before the placement of the order for today's.
  lemma {:induction false} LiquidationRefusedIff(rule: Rule, m: Market, h: Holding, tif: TimeInForce,
                                                 plan: seq<Order>, acts: seq<Action>)
    requires PlanFor(h, tif, plan)
    requires AllCloseable(m, tif, h)
    ensures After(rule, m, plan, h, acts).refused <==> MetBlocked(rule, m, h, plan, acts)
  {
    if acts != [] {
      var front, last := acts[..|acts| - 1], acts[|acts| - 1];
      LiquidationRefusedIff(rule, m, h, tif, plan, front);
      LiquidationStaysOnTrack(rule, m, h, tif, plan, front);
      MetBlockedSplit(rule, m, h, plan, acts);
      RefusedStep(rule, m, h, tif, plan, After(rule, m, plan, h, front), last);
      hide PlanFor, Closeable, OnTrack, MetBlocked, Blocked, Next;
    }
  }

  // So no run is refused where no DCE record holds lots of both days, as on SHF, INE, CFE and CZC.
  lemma {:induction false} LiquidationNeverRefused(rule: Rule, m: Market, h: Holding, tif: TimeInForce,
                                                   plan: seq<Order>, acts: seq<Action>)
    requires PlanFor(h, tif, plan)
    requires AllCloseable(m, tif, h)
    requires forall k :: k in h && h[k].exchange.DCE? ==> h[k].pre == 0 || h[k].today == 0
    ensures !After(rule, m, plan, h, acts).refused
  {
    LiquidationRefusedIff(rule, m, h, tif, plan, acts);
    if MetBlocked(rule, m, h, plan, acts) {
      var j :| 0 <= j < |acts| && acts[j].Place? && Blocked(h, plan, After(rule, m, plan, h, acts[..j]));
      LiquidationStaysOnTrack(rule, m, h, tif, plan, acts[..j]);
      NeedsBothDays(rule, h, tif, plan, After(rule, m, plan, h, acts[..j]));
    }
  }

  lemma NeedsBothDays(rule: Rule, h: Holding, tif: TimeInForce, plan: seq<Order>, p: Progress)
    requires PlanFor(h, tif, plan) && OnTrack(rule, h, plan, p) && Blocked(h, plan, p)
    ensures exists k :: k in h && h[k].exchange.DCE? && h[k].pre != 0 && h[k].today != 0
  {
    var o := plan[|p.working|];
    assert ClosesBucket(h, tif, o);
    assert SitsAt(rule, h, plan, p, ClosedIndex(o));
    assert h[ClosedIndex(o)].pre != 0 && h[ClosedIndex(o)].today != 0;
  }

  // ---------------------------------------------------------------- runs that place before they fill

  // The first `n` orders of the plan are working, and nothing has been filled.
  predicate Unfilled(h: Holding, plan: seq<Order>, p: Progress, n: nat) {
    && !p.refused && p.holding == h && |p.working| == n <= |plan|
    && forall i :: 0 <= i < n ==> p.working[i].volume == plan[i].volume
  }

  lemma UnfilledOwesAll(h: Holding, tif: TimeInForce, plan: seq<Order>, p: Progress, n: nat, k: InstrumentIndex)
    requires PlanFor(h, tif, plan) && Unfilled(h, plan, p, n) && k in h
    ensures Owed(plan, p, k, CloseYesterday) == h[k].pre
  {
    OwedAtStart(h, tif, plan, k, CloseYesterday);
    if HasSlot(plan, k, CloseYesterday) {
      var i :| 0 <= i < |plan| && ClosedIndex(plan[i]) == k && plan[i].openClose == CloseYesterday;
      OwedAt(h, tif, plan, p, i);
      OwedAt(h, tif, plan, Progress(h, [], false), i);
    }
  }

  lemma UnfilledIsNotBlocked(h: Holding, tif: TimeInForce, plan: seq<Order>, p: Progress, n: nat)
    requires PlanFor(h, tif, plan) && Unfilled(h, plan, p, n)
    ensures !Blocked(h, plan, p)
  {
    if n < |plan| && ClosedIndex(plan[n]) in h {
      UnfilledOwesAll(h, tif, plan, p, n, ClosedIndex(plan[n]));
    }
    hide Owed;
  }

  lemma PlaceStaysUnfilled(rule: Rule, m: Market, h: Holding, tif: TimeInForce, plan: seq<Order>, p: Progress, n: nat)
    requires PlanFor(h, tif, plan) && OnTrack(rule, h, plan, p) && AllCloseable(m, tif, h)
    requires Unfilled(h, plan, p, n) && n < |plan|
    ensures Unfilled(h, plan, Next(rule, m, plan, p, Place), n + 1)
  {
    UnfilledIsNotBlocked(h, tif, plan, p, n);
    PlacedIffNotBlocked(rule, m, h, tif, plan, p);
    hide Process, PlanFor, OnTrack, AllCloseable, Blocked;
  }

  lemma OneMore(rule: Rule, m: Market, plan: seq<Order>, h: Holding, acts: seq<Action>, a: Action)
    ensures After(rule, m, plan, h, acts + [a]) == Next(rule, m, plan, After(rule, m, plan, h, acts), a)
    ensures forall k :: FillsOf(rule, m, plan, h, acts + [a], k)
                        == FillsOf(rule, m, plan, h, acts, k) + FillOf(After(rule, m, plan, h, acts), a, k)
  {
    assert (acts + [a])[..|acts|] == acts;
    hide Next, FillOf;
  }

  // Placing the first `n` orders one after another.
  lemma {:induction false} PlaceSome(rule: Rule, m: Market, h: Holding, tif: TimeInForce, plan: seq<Order>, n: nat,
                                     k: InstrumentIndex)
    returns (acts: seq<Action>)
    requires PlanFor(h, tif, plan) && AllCloseable(m, tif, h) && n <= |plan|
    ensures Unfilled(h, plan, After(rule, m, plan, h, acts), n)
    ensures FillsOf(rule, m, plan, h, acts, k) == []
  {
    if n == 0 {
      acts := [];
    } else {
      var front := PlaceSome(rule, m, h, tif, plan, n - 1, k);
      LiquidationStaysOnTrack(rule, m, h, tif, plan, front);
      PlaceStaysUnfilled(rule, m, h, tif, plan, After(rule, m, plan, h, front), n - 1);
      OneMore(rule, m, plan, h, front, Place);
      hide After, FillsOf, Next, PlanFor, OnTrack, AllCloseable, Unfilled;
      acts := front + [Place];
    }
  }

  // A plan of the code's own making closes yesterday's lots of a record before today's.
  lemma {:induction false} YesterdayComesFirst(h: Holding, keys: seq<InstrumentIndex>, tif: TimeInForce, k: InstrumentIndex)
    returns (i: nat, j: nat)
    requires forall n :: 0 <= n < |keys| ==> keys[n] in h
    requires k in keys && k in h && Filed(k, h[k]) && h[k].pre != 0 && h[k].today != 0
    ensures var plan := Plan(h, keys, tif);
            && i < j < |plan| && ClosedIndex(plan[i]) == ClosedIndex(plan[j]) == k
            && plan[i].openClose == CloseYesterday && plan[j].openClose == CloseToday
  {
    var front, last := keys[..|keys| - 1], keys[|keys| - 1];
    var plan, more := Plan(h, front, tif), ReversePosition(h[last], tif);
    if last == k {
      i, j := |plan|, |plan| + 1;
      assert (plan + more)[i] == more[0] && (plan + more)[j] == more[1];
    } else {
      assert k in front;
      i, j := YesterdayComesFirst(h, front, tif, k);
      assert (plan + more)[i] == plan[i] && (plan + more)[j] == plan[j];
    }
  }

  // Placing up to the order for today's lots, filling one lot of the order for yesterday's, placing again.
  lemma {:induction false} RefusedRun(rule: Rule, m: Market, h: Holding, tif: TimeInForce, plan: seq<Order>, i: nat, j: nat)
    returns (acts: seq<Action>)
    requires PlanFor(h, tif, plan) && AllCloseable(m, tif, h)
    requires i < j < |plan| && ClosedIndex(plan[i]) == ClosedIndex(plan[j])
    requires plan[i].openClose == CloseYesterday && plan[j].openClose == CloseToday
    requires ClosedIndex(plan[i]) in h && h[ClosedIndex(plan[i])].exchange.DCE?
    ensures After(rule, m, plan, h, acts).refused
  {
    var k := ClosedIndex(plan[i]);
    var placed := PlaceSome(rule, m, h, tif, plan, j, k);
    var filled := placed + [Execute(i, 1)];
    acts := filled + [Place];
    OneMore(rule, m, plan, h, placed, Execute(i, 1));
    OneMore(rule, m, plan, h, filled, Place);
    OrderHasVolume(h, tif, plan, i, m);
    var p := After(rule, m, plan, h, filled);
    LiquidationStaysOnTrack(rule, m, h, tif, plan, filled);
    OwedAt(h, tif, plan, p, i);
    WholeBucket(h, tif, plan, i);
    hide After, OnTrack, PlanFor, AllCloseable, Process, BookTrade, Owed;
    assert |p.working| == j && Outstanding(plan, p, i) == plan[i].volume - 1;
    assert Blocked(h, plan, p);
    PlaceStaysOnTrack(rule, m, h, tif, plan, p);
  }

  lemma WholeBucket(h: Holding, tif: TimeInForce, plan: seq<Order>, i: nat)
    requires PlanFor(h, tif, plan) && i < |plan| && plan[i].openClose == CloseYesterday
    ensures ClosedIndex(plan[i]) in h && plan[i].volume == h[ClosedIndex(plan[i])].pre
  {
    assert ClosesBucket(h, tif, plan[i]);
  }

  // Known before anything is placed: no run of the closing orders of all records is refused exactly when no
  // DCE record holds lots of both days.
  lemma {:induction false} LiquidationNeverRefusedIff(rule: Rule, m: Market, h: Holding, keys: seq<InstrumentIndex>,
                                                      tif: TimeInForce)
    requires Enumerates(h, keys) && AllCloseable(m, tif, h)
    ensures (forall acts :: !After(rule, m, Plan(h, keys, tif), h, acts).refused)
            <==> forall k :: k in h && h[k].exchange.DCE? ==> h[k].pre == 0 || h[k].today == 0
  {
    var plan := Plan(h, keys, tif);
    assert forall k :: k in h ==> Closeable(m, tif, k, h[k]);
    PlanIsComplete(h, keys, tif);
    if k :| k in h && h[k].exchange.DCE? && h[k].pre != 0 && h[k].today != 0 {
      var i, j := YesterdayComesFirst(h, keys, tif, k);
      var acts := RefusedRun(rule, m, h, tif, plan, i, j);
      assert After(rule, m, Plan(h, keys, tif), h, acts).refused;
    } else {
      hide After;
      forall acts ensures !After(rule, m, Plan(h, keys, tif), h, acts).refused {
        LiquidationNeverRefused(rule, m, h, tif, plan, acts);
      }
    }
  }

  predicate Flat(rec: HoldingRecord) {
    rec.total == rec.today == rec.pre == 0
  }

  // Everything is placed, and everything placed is filled.
  predicate Complete(plan: seq<Order>, p: Progress) {
    |p.working| == |plan| && forall i :: 0 <= i < |p.working| ==> p.working[i].volume == 0
  }

  // No record is gone, and once the plan is complete none holds anything, in total or, where every fill takes
  // from its own bucket, in any bucket.
  ghost predicate Liquidated(rule: Rule, h: Holding, plan: seq<Order>, p: Progress) {
    && p.holding.Keys == h.Keys
    && (Complete(plan, p)
        ==> forall k :: k in h ==> p.holding[k].total == 0
                                   && (OwnBucket(rule, h[k].exchange) ==> Flat(p.holding[k])))
  }

  // Placing the closing orders of every record and filling them completely, in any chunks and with fills
  // interleaved with later placements, brings the total of every record to zero, on every exchange and under
  // either rule; the record is flat on SHF and INE, and on CFE and CZC with the intended rule. It stays in
  // the ledger.
  lemma {:induction false} LiquidationFlattens(rule: Rule, m: Market, h: Holding, keys: seq<InstrumentIndex>,
                                               tif: TimeInForce, acts: seq<Action>)
    requires Enumerates(h, keys)
    requires AllCloseable(m, tif, h)
    ensures var plan := Plan(h, keys, tif); Liquidated(rule, h, plan, After(rule, m, plan, h, acts))
  {
    var plan := Plan(h, keys, tif);
    PlanIsComplete(h, keys, tif);
    LiquidationStaysOnTrack(rule, m, h, tif, plan, acts);
    var p := After(rule, m, plan, h, acts);
    hide PlanFor, Closeable, After, Plan;
    if Complete(plan, p) {
      forall k | k in h ensures p.holding[k].total == 0 && (OwnBucket(rule, h[k].exchange) ==> Flat(p.holding[k])) {
        NothingLeft(plan, p, k, CloseYesterday);
        NothingLeft(plan, p, k, CloseToday);
        assert SitsAt(rule, h, plan, p, k);
        hide Owed;
      }
    }
  }

  lemma NothingLeft(plan: seq<Order>, p: Progress, k: InstrumentIndex, oc: OpenClose)
    requires Complete(plan, p)
    ensures Owed(plan, p, k, oc) == 0
  {
  }

  // ---------------------------------------------------------------- one record as written

  // A complete filling of the two closing orders of a record, in any chunks and any interleaving.
  predicate Liquidates(rec: HoldingRecord, exchange: Exchange, fills: seq<Execution>) {
    && RealFills(fills)
    && Executed(fills) == if NamesDay(exchange) then Amounts(rec.pre, rec.today, 0, 0) else Amounts(0, rec.today, rec.pre, 0)
  }

  // Volume of the first fill of the plain Close, 0 while there is none.
  function FirstClose(fills: seq<Execution>): int {
    if fills == [] then 0
    else if FirstClose(fills[..|fills| - 1]) != 0 then FirstClose(fills[..|fills| - 1])
    else if fills[|fills| - 1].openClose.Close? then fills[|fills| - 1].volume
    else 0
  }

  // Buckets on CFE and CZC while the closing orders fill, as written: the first Close fill takes all of
  // yesterday's and gives the excess to today's, later ones push yesterday's below zero.
  lemma {:induction false} WrittenFillsOnCfe(rec: HoldingRecord, exchange: Exchange, fills: seq<Execution>)
    requires exchange.CFE? || exchange.CZC?
    requires RealFills(fills) && Executed(fills).open == 0 && Executed(fills).closeYesterday == 0
    requires Executed(fills).close <= rec.pre
    ensures var after, e, f := FillClosedAll(AsWritten, rec, exchange, fills), Executed(fills), FirstClose(fills);
            && (e.close == 0 <==> f == 0) && 0 <= f <= e.close
            && after.total == rec.total - e.close - e.closeToday
            && after.pre == (if e.close == 0 then rec.pre else f - e.close)
            && after.today == rec.today - e.closeToday + (if e.close == 0 then 0 else rec.pre - f)
  {
    if fills != [] {
      var prefix, last := fills[..|fills| - 1], fills[|fills| - 1];
      ExecutedIsNonNegative(prefix);
      assert Executed(fills) == Add(Executed(prefix), last);
      assert last.openClose.Close? || last.openClose.CloseToday?;
      WrittenFillsOnCfe(rec, exchange, prefix);
      WrittenFillOnCfe(FillClosedAll(AsWritten, rec, exchange, prefix), exchange, last);
      hide FillClosed;
    }
  }

  lemma WrittenFillOnCfe(rec: HoldingRecord, exchange: Exchange, f: Execution)
    requires exchange.CFE? || exchange.CZC?
    requires f.openClose.Close? || f.openClose.CloseToday?
    ensures var after, v := FillClosed(AsWritten, rec, exchange, f), f.volume;
            && after.total == rec.total - v
            && after.pre == (if f.openClose.CloseToday? then rec.pre else if v <= rec.pre then 0 else rec.pre - v)
            && after.today == rec.today - v + rec.pre - after.pre
  {
  }

  // On DCE, as written, the first Close fill leaves today's at zero or below, and everything after it
  // takes from today's alone.
  lemma {:induction false} WrittenFillsOnDce(rec: HoldingRecord, fills: seq<Execution>)
    requires NonNegative(rec)
    requires RealFills(fills) && Executed(fills).open == 0 && Executed(fills).closeYesterday == 0
    ensures var after, e := FillClosedAll(AsWritten, rec, DCE, fills), Executed(fills);
            && after.total == rec.total - e.close - e.closeToday
            && (e.close == 0 ==> after.pre == rec.pre && after.today == rec.today - e.closeToday)
            && (e.close > 0 ==> after.today <= 0 && after.today <= rec.today - e.closeToday - e.close)
  {
    if fills != [] {
      ExecutedIsNonNegative(fills[..|fills| - 1]);
      WrittenFillsOnDce(rec, fills[..|fills| - 1]);
    }
  }

  // As written, complete filling always brings the total to zero, and leaves the record flat exactly when
  // the order for yesterday's lots named its day, or was filled in one piece (CFE, CZC), or was not needed.
  lemma {:induction false} WrittenLiquidationFlatIff(rec: HoldingRecord, exchange: Exchange, fills: seq<Execution>)
    requires FuturesExchange(exchange) && Balanced(rec) && NonNegative(rec) && Liquidates(rec, exchange, fills)
    ensures var after := FillClosedAll(AsWritten, rec, exchange, fills);
            && after.total == 0
            && (Flat(after) <==> NamesDay(exchange) || rec.pre == 0 || (!exchange.DCE? && FirstClose(fills) == rec.pre))
  {
    if NamesDay(exchange) {
      NamedFills(AsWritten, rec, exchange, fills);
    } else if exchange.DCE? {
      WrittenFillsOnDce(rec, fills);
    } else {
      WrittenFillsOnCfe(rec, exchange, fills);
    }
  }

  lemma OneMoreFill(fills: seq<Execution>, f: Execution)
    ensures Executed(fills + [f]) == Add(Executed(fills), f)
    ensures FirstClose(fills + [f])
            == if FirstClose(fills) != 0 then FirstClose(fills) else if f.openClose.Close? then f.volume else 0
    ensures RealFills(fills) && f.volume > 0 && SubOrderKind(f.openClose) ==> RealFills(fills + [f])
  {
    assert (fills + [f])[..|fills|] == fills;
    hide Add;
  }

  // A complete filling that closes one of yesterday's lots first and the rest of them after it.
  lemma FilledInPieces(rec: HoldingRecord, exchange: Exchange) returns (fills: seq<Execution>)
    requires !NamesDay(exchange) && NonNegative(rec) && rec.pre > 0
    ensures Liquidates(rec, exchange, fills) && FirstClose(fills) == 1
  {
    hide Executed, FirstClose, RealFills;
    assert Executed([]) == Amounts(0, 0, 0, 0) && FirstClose([]) == 0 && RealFills([]) by { NoFills(); }
    OneMoreFill([], Execution(Close, 1));
    assert [] + [Execution(Close, 1)] == [Execution(Close, 1)];
    fills := [Execution(Close, 1)];
    if rec.pre > 1 {
      OneMoreFill(fills, Execution(Close, rec.pre - 1));
      fills := fills + [Execution(Close, rec.pre - 1)];
    }
    if rec.today > 0 {
      OneMoreFill(fills, Execution(CloseToday, rec.today));
      fills := fills + [Execution(CloseToday, rec.today)];
    }
  }

  lemma NoFills()
    ensures Executed([]) == Amounts(0, 0, 0, 0) && FirstClose([]) == 0 && RealFills([])
  {
  }

  // Before any order is placed: every complete filling leaves the record flat, as written, exactly when the
  // day is named, nothing of yesterday's is held, or it is a single lot on CFE or CZC.
  lemma {:induction false} AlwaysFlatAsWrittenIff(rec: HoldingRecord, exchange: Exchange)
    requires FuturesExchange(exchange) && Balanced(rec) && NonNegative(rec)
    ensures (forall fills :: Liquidates(rec, exchange, fills) ==> Flat(FillClosedAll(AsWritten, rec, exchange, fills)))
            <==> NamesDay(exchange) || rec.pre == 0 || (!exchange.DCE? && rec.pre == 1)
  {
    forall fills | Liquidates(rec, exchange, fills)
      ensures NamesDay(exchange) || rec.pre == 0 || (!exchange.DCE? && rec.pre == 1)
              ==> Flat(FillClosedAll(AsWritten, rec, exchange, fills))
    {
      WrittenLiquidationFlatIff(rec, exchange, fills);
      if !NamesDay(exchange) && !exchange.DCE? {
        WrittenFillsOnCfe(rec, exchange, fills);
      }
    }
    if !NamesDay(exchange) && rec.pre > 0 && (exchange.DCE? || rec.pre > 1) {
      var fills := FilledInPieces(rec, exchange);
      WrittenLiquidationFlatIff(rec, exchange, fills);
    }
  }

  // Two of yesterday's lots on CFE, closed one at a time: as written the ledger ends with one of today's and
  // minus one of yesterday's.
  lemma PiecesLeaveTrace(rec: HoldingRecord)
    ensures var held := rec.(total := 2, today := 0, pre := 2);
            Fill(AsWritten, Fill(AsWritten, held, Close, CFE, 1), Close, CFE, 1) == held.(total := 0, today := 1, pre := -1)
  {
  }

  // ---------------------------------------------------------------- one record of a whole run

  // The fill that an action brings to one record.
  function FillOf(p: Progress, a: Action, k: InstrumentIndex): seq<Execution> {
    match a
    case Place => []
    case Execute(i, volume) =>
      if i < |p.working| && 0 < volume <= p.working[i].volume && ClosedIndex(p.working[i]) == k
      then [Execution(p.working[i].openClose, volume)] else []
  }

  // The fills that a run brings to one record.
  function FillsOf(rule: Rule, m: Market, plan: seq<Order>, h: Holding, acts: seq<Action>, k: InstrumentIndex): seq<Execution> {
    if acts == [] then [] else
    FillsOf(rule, m, plan, h, acts[..|acts| - 1], k)
    + FillOf(After(rule, m, plan, h, acts[..|acts| - 1]), acts[|acts| - 1], k)
  }

  // What has been executed, given what is held and what is still outstanding.
  function Done(rec: HoldingRecord, oy: int, ot: int): Amounts {
    if NamesDay(rec.exchange) then Amounts(rec.pre - oy, rec.today - ot, 0, 0)
    else Amounts(0, rec.today - ot, rec.pre - oy, 0)
  }

  ghost predicate Follows(rule: Rule, h: Holding, plan: seq<Order>, p: Progress, k: InstrumentIndex, fills: seq<Execution>)
    requires k in h
  {
    && k in p.holding
    && RealFills(fills)
    && p.holding[k] == FillClosedAll(rule, h[k], h[k].exchange, fills)
    && Executed(fills) == Done(h[k], Owed(plan, p, k, CloseYesterday), Owed(plan, p, k, CloseToday))
  }

  lemma OneMoreFollows(rule: Rule, rec: HoldingRecord, fills: seq<Execution>, f: Execution)
    ensures FillClosedAll(rule, rec, rec.exchange, fills + [f])
            == FillClosed(rule, FillClosedAll(rule, rec, rec.exchange, fills), rec.exchange, f)
  {
    assert (fills + [f])[..|fills|] == fills;
    hide FillClosed;
  }

  lemma DoneByFill(rec: HoldingRecord, oy: int, ot: int, oc: OpenClose, volume: int)
    requires oc.CloseYesterday? || oc.CloseToday?
    ensures Add(Done(rec, oy, ot), Execution(EffectiveType(rec.exchange, oc), volume))
            == Done(rec, oy - (if oc.CloseYesterday? then volume else 0), ot - if oc.CloseToday? then volume else 0)
  {
  }

  // What a fill of working order `i` does to the record of `k`, and to what is outstanding for it.
  lemma ExecuteMoves(rule: Rule, m: Market, h: Holding, tif: TimeInForce, plan: seq<Order>, p: Progress,
                     i: nat, volume: int, k: InstrumentIndex)
    requires PlanFor(h, tif, plan) && OnTrack(rule, h, plan, p) && k in h && k in p.holding
    requires i < |p.working| && 0 < volume <= p.working[i].volume
    ensures var next, oc := Next(rule, m, plan, p, Execute(i, volume)), plan[i].openClose;
            && (oc.CloseYesterday? || oc.CloseToday?)
            && k in next.holding
            && if ClosedIndex(plan[i]) != k then next.holding[k] == p.holding[k]
               else next.holding[k] == Fill(rule, p.holding[k], EffectiveType(h[k].exchange, oc), h[k].exchange, volume)
  {
    hide PlanFor, OnTrack, Process, Owed, BookTrade, Fill, ClosedIndex, EffectiveType, TradeOf;
    FillLands(rule, h, tif, plan, p, i, volume);
    TrackIsShort(rule, h, plan, p);
    var at, w := ClosedIndex(plan[i]), p.working[i];
    assert Next(rule, m, plan, p, Execute(i, volume)).holding
        == p.holding[at := Fill(rule, p.holding[at], w.openClose, h[at].exchange, volume)];
  }

  lemma SameIndex(rule: Rule, h: Holding, plan: seq<Order>, p: Progress, i: nat)
    requires OnTrack(rule, h, plan, p) && i < |p.working|
    ensures ClosedIndex(p.working[i]) == ClosedIndex(plan[i])
    ensures p.working[i].openClose == EffectiveType(plan[i].exchange, plan[i].openClose)
  {
    assert WorksFor(plan[i], p.working[i]);
  }

  lemma ExecuteFollows(rule: Rule, m: Market, h: Holding, tif: TimeInForce, plan: seq<Order>, p: Progress,
                       i: nat, volume: int, k: InstrumentIndex, fills: seq<Execution>)
    requires PlanFor(h, tif, plan) && OnTrack(rule, h, plan, p) && k in h && Follows(rule, h, plan, p, k, fills)
    requires i < |p.working| && 0 < volume <= p.working[i].volume
    ensures var f := Execution(EffectiveType(h[k].exchange, plan[i].openClose), volume);
            Follows(rule, h, plan, Next(rule, m, plan, p, Execute(i, volume)), k,
                    if ClosedIndex(plan[i]) == k then fills + [f] else fills)
  {
    hide PlanFor, OnTrack, Process, Owed, BookTrade, Fill, Add, Done, RealFills, Executed, FillClosedAll, ClosedIndex,
      TradeOf, EffectiveType;
    var next := Next(rule, m, plan, p, Execute(i, volume));
    ExecuteMoves(rule, m, h, tif, plan, p, i, volume, k);
    assert |p.working| <= |plan| by { TrackIsShort(rule, h, plan, p); }
    OwedWhenFilled(h, tif, plan, p, next, i, volume, k, CloseYesterday);
    OwedWhenFilled(h, tif, plan, p, next, i, volume, k, CloseToday);
    if ClosedIndex(plan[i]) == k {
      var oc := plan[i].openClose;
      var f := Execution(EffectiveType(h[k].exchange, oc), volume);
      ClosingKind(h[k].exchange, oc);
      OneMoreFill(fills, f);
      OneMoreFollows(rule, h[k], fills, f);
      DoneByFill(h[k], Owed(plan, p, k, CloseYesterday), Owed(plan, p, k, CloseToday), oc, volume);
    }
  }

  lemma TrackIsShort(rule: Rule, h: Holding, plan: seq<Order>, p: Progress)
    requires OnTrack(rule, h, plan, p)
    ensures |p.working| <= |plan|
  {
  }

  lemma ClosingKind(exchange: Exchange, oc: OpenClose)
    requires oc.CloseYesterday? || oc.CloseToday?
    ensures SubOrderKind(EffectiveType(exchange, oc)) && EffectiveType(exchange, oc) != Open
  {
  }

  lemma StepFollows(rule: Rule, m: Market, h: Holding, tif: TimeInForce, plan: seq<Order>, p: Progress, a: Action,
                    k: InstrumentIndex, fills: seq<Execution>)
    requires PlanFor(h, tif, plan) && OnTrack(rule, h, plan, p) && k in h && Follows(rule, h, plan, p, k, fills)
    requires AllCloseable(m, tif, h)
    ensures Follows(rule, h, plan, Next(rule, m, plan, p, a), k, fills + FillOf(p, a, k))
  {
    hide PlanFor, Closeable, OnTrack, Follows, Process, ClosedIndex, BookTrade, EffectiveType;
    assert fills + [] == fills;
    match a {
      case Place => PlaceFollows(rule, m, h, tif, plan, p, k, fills);
      case Execute(i, volume) =>
        if i < |p.working| && 0 < volume <= p.working[i].volume {
          ExecuteFollows(rule, m, h, tif, plan, p, i, volume, k, fills);
          SameIndex(rule, h, plan, p, i);
          TrackIsShort(rule, h, plan, p);
          if ClosedIndex(plan[i]) == k {
            SameExchange(h, tif, plan, i);
          }
        }
    }
  }

  lemma SameExchange(h: Holding, tif: TimeInForce, plan: seq<Order>, i: nat)
    requires PlanFor(h, tif, plan) && i < |plan|
    ensures ClosedIndex(plan[i]) in h && h[ClosedIndex(plan[i])].exchange == plan[i].exchange
  {
    assert ClosesBucket(h, tif, plan[i]);
  }

  // Every record of a run is its starting record after the fills that the run brings to it, and those fills
  // are what its orders no longer have outstanding.
  lemma {:induction false} RunFillsRecord(rule: Rule, m: Market, h: Holding, tif: TimeInForce, plan: seq<Order>,
                                          acts: seq<Action>, k: InstrumentIndex)
    requires PlanFor(h, tif, plan) && k in h
    requires AllCloseable(m, tif, h)
    ensures Follows(rule, h, plan, After(rule, m, plan, h, acts), k, FillsOf(rule, m, plan, h, acts, k))
  {
    if acts == [] {
      FollowsAtStart(rule, h, tif, plan, k);
      hide PlanFor, Closeable, Follows;
    } else {
      var front, last := acts[..|acts| - 1], acts[|acts| - 1];
      RunFillsRecord(rule, m, h, tif, plan, front, k);
      LiquidationStaysOnTrack(rule, m, h, tif, plan, front);
      StepFollows(rule, m, h, tif, plan, After(rule, m, plan, h, front), last, k, FillsOf(rule, m, plan, h, front, k));
      hide PlanFor, Closeable, OnTrack, Follows, Next, FillOf;
    }
  }

  lemma FollowsAtStart(rule: Rule, h: Holding, tif: TimeInForce, plan: seq<Order>, k: InstrumentIndex)
    requires PlanFor(h, tif, plan) && k in h
    ensures Follows(rule, h, plan, Progress(h, [], false), k, [])
  {
    OwedAtStart(h, tif, plan, k, CloseYesterday);
    OwedAtStart(h, tif, plan, k, CloseToday);
    hide PlanFor, Owed;
  }

  lemma PlaceFollows(rule: Rule, m: Market, h: Holding, tif: TimeInForce, plan: seq<Order>, p: Progress,
                     k: InstrumentIndex, fills: seq<Execution>)
    requires PlanFor(h, tif, plan) && OnTrack(rule, h, plan, p) && k in h && Follows(rule, h, plan, p, k, fills)
    requires AllCloseable(m, tif, h)
    ensures Follows(rule, h, plan, Next(rule, m, plan, p, Place), k, fills)
  {
    hide Process, Closeable, Blocked, Owed, Sits, ClosedIndex, PlanFor, Done, FillClosedAll, Executed, RealFills;
    var next := Next(rule, m, plan, p, Place);
    if !p.refused && |p.working| < |plan| {
      PlacedIffNotBlocked(rule, m, h, tif, plan, p);
      var o := plan[|p.working|];
      if !Blocked(h, plan, p) {
        OwedWhenPlaced(plan, p, o.(openClose := EffectiveType(o.exchange, o.openClose)), k, CloseYesterday);
        OwedWhenPlaced(plan, p, o.(openClose := EffectiveType(o.exchange, o.openClose)), k, CloseToday);
      } else {
        SameOwed(plan, p, next, k, CloseYesterday);
        SameOwed(plan, p, next, k, CloseToday);
      }
    }
  }

  // As written, once a whole run is placed and filled, a record is flat exactly when its day was named,
  // nothing of yesterday's was held, or (CFE, CZC) the first fill of that order was all of it.
  lemma {:induction false} WrittenRunFlatIff(m: Market, h: Holding, tif: TimeInForce, plan: seq<Order>, acts: seq<Action>,
                                             k: InstrumentIndex)
    requires PlanFor(h, tif, plan) && k in h && FuturesExchange(h[k].exchange)
    requires AllCloseable(m, tif, h)
    requires Complete(plan, After(AsWritten, m, plan, h, acts))
    ensures var p, rec := After(AsWritten, m, plan, h, acts), h[k];
            && k in p.holding && p.holding[k].total == 0
            && (Flat(p.holding[k])
                <==> NamesDay(rec.exchange) || rec.pre == 0
                     || (!rec.exchange.DCE? && FirstClose(FillsOf(AsWritten, m, plan, h, acts, k)) == rec.pre))
  {
    hide After, FillsOf, FirstClose, FillClosedAll, Executed, PlanFor, AllCloseable, Complete;
    var p, fills := After(AsWritten, m, plan, h, acts), FillsOf(AsWritten, m, plan, h, acts, k);
    RunFillsRecord(AsWritten, m, h, tif, plan, acts, k);
    RecordIsSound(m, h, tif, k);
    CompleteLiquidates(AsWritten, h, plan, p, k, fills);
    WrittenLiquidationFlatIff(h[k], h[k].exchange, fills);
  }

  lemma CompleteLiquidates(rule: Rule, h: Holding, plan: seq<Order>, p: Progress, k: InstrumentIndex, fills: seq<Execution>)
    requires k in h && Follows(rule, h, plan, p, k, fills) && Complete(plan, p)
    ensures Liquidates(h[k], h[k].exchange, fills)
  {
    NothingLeft(plan, p, k, CloseYesterday);
    NothingLeft(plan, p, k, CloseToday);
    hide Owed, Executed, RealFills, FillClosedAll;
  }

  lemma RecordIsSound(m: Market, h: Holding, tif: TimeInForce, k: InstrumentIndex)
    requires AllCloseable(m, tif, h) && k in h
    ensures Balanced(h[k]) && NonNegative(h[k])
  {
    assert Closeable(m, tif, k, h[k]);
  }

  // ---------------------------------------------------------------- which records every run leaves flat

  lemma FirstCloseKept(fills: seq<Execution>, more: seq<Execution>)
    requires |more| <= 1 && FirstClose(fills) != 0
    ensures FirstClose(fills + more) == FirstClose(fills)
  {
    if more == [] {
      assert fills + more == fills;
    } else {
      OneMoreFill(fills, more[0]);
      assert more == [more[0]];
    }
  }

  // A run that has placed everything goes on to a complete one, order by order.
  lemma {:induction false} FillOut(rule: Rule, m: Market, h: Holding, tif: TimeInForce, plan: seq<Order>,
                                   acts: seq<Action>, j: nat, k: InstrumentIndex)
    returns (longer: seq<Action>)
    requires PlanFor(h, tif, plan) && AllCloseable(m, tif, h)
    requires var p := After(rule, m, plan, h, acts);
             |p.working| == |plan| && j <= |plan| && forall i :: 0 <= i < j ==> p.working[i].volume == 0
    requires FirstClose(FillsOf(rule, m, plan, h, acts, k)) != 0
    ensures Complete(plan, After(rule, m, plan, h, longer))
    ensures FirstClose(FillsOf(rule, m, plan, h, longer, k)) == FirstClose(FillsOf(rule, m, plan, h, acts, k))
    decreases |plan| - j
  {
    hide After, FillsOf, FirstClose, PlanFor, AllCloseable, OnTrack, Process, BookTrade;
    var p := After(rule, m, plan, h, acts);
    if j == |plan| {
      longer := acts;
    } else {
      LiquidationStaysOnTrack(rule, m, h, tif, plan, acts);
      WorkingVolume(rule, h, plan, p, j);
      var a := Execute(j, p.working[j].volume);
      OneMore(rule, m, plan, h, acts, a);
      FirstCloseKept(FillsOf(rule, m, plan, h, acts, k), FillOf(p, a, k));
      longer := FillOut(rule, m, h, tif, plan, acts + [a], j + 1, k);
    }
  }

  lemma WorkingVolume(rule: Rule, h: Holding, plan: seq<Order>, p: Progress, i: nat)
    requires OnTrack(rule, h, plan, p) && i < |p.working|
    ensures 0 <= p.working[i].volume
  {
    assert WorksFor(plan[i], p.working[i]);
  }

  // One of yesterday's lots is filled first, then everything else.
  lemma {:induction false} PiecewiseRun(m: Market, h: Holding, tif: TimeInForce, plan: seq<Order>, k: InstrumentIndex)
    returns (acts: seq<Action>)
    requires PlanFor(h, tif, plan) && AllCloseable(m, tif, h)
    requires k in h && !NamesDay(h[k].exchange) && h[k].pre != 0
    ensures Complete(plan, After(AsWritten, m, plan, h, acts))
    ensures FirstClose(FillsOf(AsWritten, m, plan, h, acts, k)) == 1
  {
    assert HasSlot(plan, k, CloseYesterday);
    var i :| 0 <= i < |plan| && ClosedIndex(plan[i]) == k && plan[i].openClose == CloseYesterday;
    SameExchange(h, tif, plan, i);
    OrderHasVolume(h, tif, plan, i, m);
    var placed := PlaceSome(AsWritten, m, h, tif, plan, |plan|, k);
    LiquidationStaysOnTrack(AsWritten, m, h, tif, plan, placed);
    var p := After(AsWritten, m, plan, h, placed);
    SameIndex(AsWritten, h, plan, p, i);
    OneMore(AsWritten, m, plan, h, placed, Execute(i, 1));
    NoFills();
    OneMoreFill([], Execution(Close, 1));
    assert [] + [Execution(Close, 1)] == [Execution(Close, 1)];
    hide After, FillsOf, FirstClose, PlanFor, AllCloseable, OnTrack, Process, BookTrade, ClosedIndex;
    assert FillOf(p, Execute(i, 1), k) == [Execution(Close, 1)];
    acts := FillOut(AsWritten, m, h, tif, plan, placed + [Execute(i, 1)], 0, k);
  }

  // A complete run that closes a single one of yesterday's lots closes it in one fill.
  lemma SingleLotInOneFill(m: Market, h: Holding, tif: TimeInForce, plan: seq<Order>, acts: seq<Action>, k: InstrumentIndex)
    requires PlanFor(h, tif, plan) && AllCloseable(m, tif, h) && k in h
    requires (h[k].exchange.CFE? || h[k].exchange.CZC?) && h[k].pre == 1
    requires Complete(plan, After(AsWritten, m, plan, h, acts))
    ensures FirstClose(FillsOf(AsWritten, m, plan, h, acts, k)) == 1
  {
    hide After, FillsOf, FirstClose, PlanFor, AllCloseable, FillClosedAll, Executed, Complete;
    var p, fills := After(AsWritten, m, plan, h, acts), FillsOf(AsWritten, m, plan, h, acts, k);
    RunFillsRecord(AsWritten, m, h, tif, plan, acts, k);
    CompleteLiquidates(AsWritten, h, plan, p, k, fills);
    WrittenFillsOnCfe(h[k], h[k].exchange, fills);
  }

  // Known before anything is placed, over whole runs of any ledger: every complete run leaves the record
  // flat, as written, exactly when its day is named, nothing of yesterday's is held, or it is a single lot on
  // CFE or CZC.
  lemma {:induction false} EveryRunFlatAsWrittenIff(m: Market, h: Holding, tif: TimeInForce, plan: seq<Order>, k: InstrumentIndex)
    requires PlanFor(h, tif, plan) && AllCloseable(m, tif, h) && k in h && FuturesExchange(h[k].exchange)
    ensures (forall acts :: Complete(plan, After(AsWritten, m, plan, h, acts))
                            ==> FlatAt(After(AsWritten, m, plan, h, acts), k))
            <==> NamesDay(h[k].exchange) || h[k].pre == 0 || (!h[k].exchange.DCE? && h[k].pre == 1)
  {
    hide After, FillsOf, FirstClose, PlanFor, AllCloseable;
    var rec := h[k];
    if NamesDay(rec.exchange) || rec.pre == 0 || (!rec.exchange.DCE? && rec.pre == 1) {
      forall acts | Complete(plan, After(AsWritten, m, plan, h, acts))
        ensures FlatAt(After(AsWritten, m, plan, h, acts), k)
      {
        WrittenRunFlatIff(m, h, tif, plan, acts, k);
        if !NamesDay(rec.exchange) && rec.pre == 1 && !rec.exchange.DCE? {
          SingleLotInOneFill(m, h, tif, plan, acts, k);
        }
      }
    } else {
      var acts := PiecewiseRun(m, h, tif, plan, k);
      WrittenRunFlatIff(m, h, tif, plan, acts, k);
      RecordIsSound(m, h, tif, k);
      assert !FlatAt(After(AsWritten, m, plan, h, acts), k);
    }
  }

  predicate FlatAt(p: Progress, k: InstrumentIndex) {
    k in p.holding && Flat(p.holding[k])
  }

  // ---------------------------------------------------------------- ledgers that runs produce

  // An order of a plan, read off the record it closes.
  predicate Closes(o: Order, k: InstrumentIndex, rec: HoldingRecord, tif: TimeInForce) {
    && o.instrumentId == k.instrumentId && o.hedgeFlag == k.hedgeFlag && o.direction != k.direction
    && o.exchange == rec.exchange && o.timeInForce == tif && o.volume != 0
    && ((o.openClose == CloseYesterday && o.volume == rec.pre) || (o.openClose == CloseToday && o.volume == rec.today))
  }

  // The plan for the ledger of any run, as written or intended: one order per non-empty bucket, and each asks
  // to close the whole of it, on the other side of the market and with the given time in force.
  lemma {:induction false} PlanOfRunIsComplete(rule: Rule, es: seq<Event>, keys: seq<InstrumentIndex>, tif: TimeInForce)
    requires Enumerates(Run(rule, EMPTY, es).holding, keys)
    ensures var h := Run(rule, EMPTY, es).holding;
            var plan := Plan(h, keys, tif);
            && PlanFor(h, tif, plan)
            && forall i :: 0 <= i < |plan| ==> exists k :: k in h && Closes(plan[i], k, h[k], tif)
  {
    var h := Run(rule, EMPTY, es).holding;
    forall k | k in h ensures Filed(k, h[k]) {
      RecordsAreFiled(rule, es, k);
    }
    hide Run;
    PlanIsComplete(h, keys, tif);
    var plan := Plan(h, keys, tif);
    forall i | 0 <= i < |plan| ensures exists k :: k in h && Closes(plan[i], k, h[k], tif) {
      OrderCloses(h, tif, plan, i);
    }
  }

  lemma OrderCloses(h: Holding, tif: TimeInForce, plan: seq<Order>, i: nat)
    requires PlanFor(h, tif, plan) && i < |plan| && forall k :: k in h ==> Filed(k, h[k])
    ensures ClosedIndex(plan[i]) in h && Closes(plan[i], ClosedIndex(plan[i]), h[ClosedIndex(plan[i])], tif)
  {
    assert ClosesBucket(h, tif, plan[i]);
  }

  function ContractOf(e: Event): InstrumentInfo {
    match e
    case Row(row) => InstrumentInfo(row.instrumentId, row.exchange)
    case Trade(trade) => InstrumentInfo(trade.instrumentId, trade.exchange)
  }

  // Every contract of the run is listed under its own name and exchange, and none of them rules the time in
  // force out.
  predicate Tradable(m: Market, tif: TimeInForce, es: seq<Event>) {
    forall i :: 0 <= i < |es| ==>
      && ToUpper(ContractOf(es[i]).instrumentId) in m.instruments
      && m.instruments[ToUpper(ContractOf(es[i]).instrumentId)] == ContractOf(es[i])
      && !(ContractOf(es[i]).exchange.CZC? && tif.FOK?)
  }

  lemma RecordIsTradable(rule: Rule, m: Market, tif: TimeInForce, es: seq<Event>, k: InstrumentIndex)
    requires Tradable(m, tif, es) && k in Run(rule, EMPTY, es).holding
    ensures var rec := Run(rule, EMPTY, es).holding[k];
            Filed(k, rec) && Listed(m, rec) && !(rec.exchange.CZC? && tif.FOK?)
  {
    RecordsAreFiled(rule, es, k);
    var rec := Run(rule, EMPTY, es).holding[k];
    var i :| 0 <= i < |es| && k !in Run(rule, EMPTY, es[..i]).holding && Creates(es[i], k, rec.exchange);
    hide Run, ToUpper;
    assert ContractOf(es[i]) == InstrumentInfo(rec.instrumentId, rec.exchange);
  }

  // The ledger of every run of fitting events can be liquidated.
  lemma {:induction false} RunIsCloseable(m: Market, tif: TimeInForce, es: seq<Event>)
    requires Tradable(m, tif, es) && Throughout(Intended, EMPTY, es, Fits)
    ensures AllCloseable(m, tif, Run(Intended, EMPTY, es).holding)
  {
    FittingRunStaysNonNegative(EMPTY, es);
    hide Run, Throughout, Fits, Tradable;
    forall k | k in Run(Intended, EMPTY, es).holding
      ensures Closeable(m, tif, k, Run(Intended, EMPTY, es).holding[k])
    {
      RecordIsTradable(Intended, m, tif, es, k);
    }
  }

  // From an empty account: load and trade in any way that fits, then liquidate, with placements and fills
  // interleaved in any way. Once everything is placed and filled nothing is held any more.
  lemma {:induction false} RunThenLiquidate(m: Market, es: seq<Event>, keys: seq<InstrumentIndex>, tif: TimeInForce,
                                            acts: seq<Action>)
    requires Tradable(m, tif, es) && Throughout(Intended, EMPTY, es, Fits)
    requires Enumerates(Run(Intended, EMPTY, es).holding, keys)
    ensures var h := Run(Intended, EMPTY, es).holding;
            var plan := Plan(h, keys, tif); Liquidated(Intended, h, plan, After(Intended, m, plan, h, acts))
  {
    RunIsCloseable(m, tif, es);
    hide Run, Plan, After, Liquidated, AllCloseable, Enumerates, Tradable, Throughout;
    LiquidationFlattens(Intended, m, Run(Intended, EMPTY, es).holding, keys, tif, acts);
  }
}
