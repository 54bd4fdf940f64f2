// CTPMarketData: turning cumulative ticks into bars, and subscribing in batches of one hundred.
module MarketData {
  import opened DataStruct

  // ---------------------------------------------------------------- ticks and bars

  // The cumulative figures of one depth message. The order book, settlement and limit prices are not kept.
  datatype Tick = Tick(
    instrumentId: Ticker,
    last: real,
    highest: real,
    lowest: real,
    close: real,
    turnover: real,
    volume: int)

  datatype Bar = Bar(open: real, high: real, low: real, close: real, last: real, volume: int, turnover: real)

  // What the `pre_*` maps hold for one instrument; absent entries read as zero.
  datatype Previous = Previous(latest: real, high: real, low: real, turnover: real, volume: int)

  const NOTHING := Previous(0.0, 0.0, 0.0, 0.0, 0)

  const INVALID_FROM: real := 1e308

  // Prices the exchange has not set come as the largest double.
  function SanitizeData(data: real): real {
    if data < INVALID_FROM then data else -1.0
  }

  function MaxPrice(a: real, b: real): real {
    if a < b then b else a
  }

  function MinPrice(a: real, b: real): real {
    if b < a then b else a
  }

  function BarOf(pre: Previous, t: Tick): Bar {
    Bar(SanitizeData(pre.latest),
        SanitizeData(if t.highest > pre.high then t.highest else MaxPrice(pre.latest, t.last)),
        SanitizeData(if t.lowest < pre.low then t.lowest else MinPrice(pre.latest, t.last)),
        SanitizeData(t.close), t.last, t.volume - pre.volume, t.turnover - pre.turnover)
  }

  function Remember(t: Tick): Previous {
    Previous(t.last, t.highest, t.lowest, t.turnover, t.volume)
  }

  // ---------------------------------------------------------------- all instruments at once

  // The five `pre_*` maps. Reading an absent entry gives zero.
  datatype Memory = Memory(
    latest: map<Ticker, real>,
    high: map<Ticker, real>,
    low: map<Ticker, real>,
    turnover: map<Ticker, real>,
    volume: map<Ticker, int>)

  function PriceAt(m: map<Ticker, real>, id: Ticker): real {
    if id in m then m[id] else 0.0
  }

  function VolumeAt(m: map<Ticker, int>, id: Ticker): int {
    if id in m then m[id] else 0
  }

  function Recall(m: Memory, id: Ticker): Previous {
    Previous(PriceAt(m.latest, id), PriceAt(m.high, id), PriceAt(m.low, id), PriceAt(m.turnover, id), VolumeAt(m.volume, id))
  }

  function Store(m: Memory, t: Tick): Memory {
    var id := t.instrumentId;
    Memory(m.latest[id := t.last], m.high[id := t.highest], m.low[id := t.lowest], m.turnover[id := t.turnover],
           m.volume[id := t.volume])
  }

  lemma RecallStored(m: Memory, t: Tick, id: Ticker)
    ensures Recall(Store(m, t), id) == if t.instrumentId == id then Remember(t) else Recall(m, id)
  {
  }

  function MemoryAfter(ticks: seq<Tick>): Memory {
    if ticks == [] then Memory(map[], map[], map[], map[], map[])
    else Store(MemoryAfter(ticks[..|ticks| - 1]), ticks[|ticks| - 1])
  }

  // The bars emitted for one instrument while ticks of all instruments come in.
  function BarsFor(ticks: seq<Tick>, id: Ticker): seq<Bar> {
    if ticks == [] then [] else
    var front, t := ticks[..|ticks| - 1], ticks[|ticks| - 1];
    if t.instrumentId == id then BarsFor(front, id) + [BarOf(Recall(MemoryAfter(front), id), t)] else BarsFor(front, id)
  }

  // The ticks of one instrument.
  function TicksOf(ticks: seq<Tick>, id: Ticker): seq<Tick> {
    if ticks == [] then [] else
    var front, t := ticks[..|ticks| - 1], ticks[|ticks| - 1];
    if t.instrumentId == id then TicksOf(front, id) + [t] else TicksOf(front, id)
  }

  // The bars of a feed on its own: each tick against the one before it.
  function BarsOf(feed: seq<Tick>): seq<Bar> {
    if feed == [] then [] else
    var n := |feed|;
    BarsOf(feed[..n - 1]) + [BarOf(if n == 1 then NOTHING else Remember(feed[n - 2]), feed[n - 1])]
  }

  // Whatever the interleaving, an instrument's bars depend on its own ticks alone.
  lemma {:induction false} InstrumentsAreIndependent(ticks: seq<Tick>, id: Ticker)
    ensures BarsFor(ticks, id) == BarsOf(TicksOf(ticks, id))
    ensures var own := TicksOf(ticks, id);
            Recall(MemoryAfter(ticks), id) == if own == [] then NOTHING else Remember(own[|own| - 1])
  {
    if ticks != [] {
      var front, t := ticks[..|ticks| - 1], ticks[|ticks| - 1];
      InstrumentsAreIndependent(front, id);
      RecallStored(MemoryAfter(front), t, id);
      hide BarOf, Remember, Recall, Store;
      if t.instrumentId == id {
        OneMoreTick(TicksOf(front, id), t);
        hide BarsOf;
      }
    }
  }

  lemma OneMoreTick(feed: seq<Tick>, t: Tick)
    ensures BarsOf(feed + [t])
            == BarsOf(feed) + [BarOf(if feed == [] then NOTHING else Remember(feed[|feed| - 1]), t)]
  {
    hide BarOf, Remember;
    assert (feed + [t])[..|feed|] == feed;
  }

  lemma {:induction false} OneBarPerTick(feed: seq<Tick>)
    ensures |BarsOf(feed)| == |feed|
  {
    if feed != [] {
      OneBarPerTick(feed[..|feed| - 1]);
    }
  }

  // ---------------------------------------------------------------- re-aggregation of one feed

  function TotalVolume(bars: seq<Bar>): int {
    if bars == [] then 0 else TotalVolume(bars[..|bars| - 1]) + bars[|bars| - 1].volume
  }

  function TotalTurnover(bars: seq<Bar>): real {
    if bars == [] then 0.0 else TotalTurnover(bars[..|bars| - 1]) + bars[|bars| - 1].turnover
  }

  function HighestOf(bars: seq<Bar>): real
    requires bars != []
  {
    if |bars| == 1 then bars[0].high else MaxPrice(HighestOf(bars[..|bars| - 1]), bars[|bars| - 1].high)
  }

  // Lowest of `start` and the lows of all bars but the first.
  function LowestFrom(start: real, bars: seq<Bar>): real {
    if |bars| <= 1 then start else MinPrice(LowestFrom(start, bars[..|bars| - 1]), bars[|bars| - 1].low)
  }

  // Volume and turnover of an instrument's bars add up to its latest cumulative figures, whatever else
  // the connection delivers in between.
  lemma {:induction false} Telescoping(ticks: seq<Tick>, id: Ticker)
    ensures TotalVolume(BarsFor(ticks, id)) == Recall(MemoryAfter(ticks), id).volume
    ensures TotalTurnover(BarsFor(ticks, id)) == Recall(MemoryAfter(ticks), id).turnover
  {
    InstrumentsAreIndependent(ticks, id);
    FeedTelescopes(TicksOf(ticks, id));
  }

  lemma {:induction false} FeedTelescopes(feed: seq<Tick>)
    ensures TotalVolume(BarsOf(feed)) == if feed == [] then 0 else feed[|feed| - 1].volume
    ensures TotalTurnover(BarsOf(feed)) == if feed == [] then 0.0 else feed[|feed| - 1].turnover
  {
    if feed != [] {
      FeedTelescopes(feed[..|feed| - 1]);
      var bars := BarsOf(feed);
      assert bars[..|bars| - 1] == BarsOf(feed[..|feed| - 1]);
    }
  }

  // A trading day's feed: valid prices, the day's range only widens, and the last price lies within it.
  predicate ValidFeed(feed: seq<Tick>) {
    && (forall i :: 0 <= i < |feed| ==> 0.0 < feed[i].lowest <= feed[i].last <= feed[i].highest < INVALID_FROM)
    && forall i :: 0 < i < |feed| ==> feed[i - 1].highest <= feed[i].highest && feed[i].lowest <= feed[i - 1].lowest
  }

  lemma ValidPrefix(feed: seq<Tick>)
    requires feed != [] && ValidFeed(feed)
    ensures ValidFeed(feed[..|feed| - 1])
  {
  }

  // A later bar of a valid feed: it opens where the tick before it ended, holds its own prices, stays
  // within the day, and reaches any new extreme of the day.
  lemma LaterBar(p: Tick, t: Tick)
    requires ValidFeed([p, t])
    ensures var bar := BarOf(Remember(p), t);
            && bar.open == p.last && bar.last == t.last
            && bar.low <= bar.open <= bar.high && bar.low <= bar.last <= bar.high
            && t.lowest <= bar.low && bar.high <= t.highest
            && (t.highest > p.highest ==> bar.high == t.highest)
            && (t.lowest < p.lowest ==> bar.low == t.lowest)
            && (t.highest == p.highest ==> bar.high == bar.open || bar.high == bar.last)
            && (t.lowest == p.lowest ==> bar.low == bar.open || bar.low == bar.last)
  {
    assert [p, t][0] == p && [p, t][1] == t;
    assert [p, t][0].highest <= [p, t][1].highest && [p, t][1].lowest <= [p, t][0].lowest;
  }

  lemma LastTwoAreValid(feed: seq<Tick>)
    requires |feed| >= 2 && ValidFeed(feed)
    ensures ValidFeed([feed[|feed| - 2], feed[|feed| - 1]])
  {
    var n := |feed|;
    assert feed[n - 2].highest <= feed[n - 1].highest && feed[n - 1].lowest <= feed[n - 2].lowest by {
      assert feed[(n - 1) - 1] == feed[n - 2];
    }
  }

  // The bars of an instrument re-aggregate to the day's range: the highest of their highs is the day's
  // highest price, and the first lowest price with the lows of the later bars gives the day's lowest.
  lemma {:induction false} FeedReaggregates(feed: seq<Tick>)
    requires feed != [] && ValidFeed(feed)
    ensures |BarsOf(feed)| == |feed|
    ensures HighestOf(BarsOf(feed)) == feed[|feed| - 1].highest
    ensures LowestFrom(feed[0].lowest, BarsOf(feed)) == feed[|feed| - 1].lowest
  {
    var n := |feed|;
    OneBarPerTick(feed);
    if n == 1 {
      assert feed[..0] == [];
      assert BarsOf(feed) == [BarOf(NOTHING, feed[0])];
    } else {
      var front := feed[..n - 1];
      ValidPrefix(feed);
      FeedReaggregates(front);
      LastTwoAreValid(feed);
      LaterBar(feed[n - 2], feed[n - 1]);
      hide BarOf;
      var bars := BarsOf(feed);
      assert bars[..n - 1] == BarsOf(front);
    }
  }

  lemma BarsReaggregate(ticks: seq<Tick>, id: Ticker)
    requires TicksOf(ticks, id) != [] && ValidFeed(TicksOf(ticks, id))
    ensures var own, bars := TicksOf(ticks, id), BarsFor(ticks, id);
            && bars != []
            && HighestOf(bars) == own[|own| - 1].highest
            && LowestFrom(own[0].lowest, bars) == own[|own| - 1].lowest
  {
    InstrumentsAreIndependent(ticks, id);
    FeedReaggregates(TicksOf(ticks, id));
  }

  // Every bar from the second on is well formed and opens at the instrument's previous last price. It reaches
  // a new extreme of the day, and is no wider than its open and last price where there is none.
  lemma {:induction false} LaterBarsAreWellFormed(feed: seq<Tick>, i: nat)
    requires ValidFeed(feed) && 0 < i < |feed|
    ensures |BarsOf(feed)| == |feed|
    ensures var bar := BarsOf(feed)[i];
            && bar.open == feed[i - 1].last && bar.last == feed[i].last
            && bar.low <= bar.open <= bar.high && bar.low <= bar.last <= bar.high
            && (if feed[i].highest > feed[i - 1].highest then bar.high == feed[i].highest
                else bar.high == bar.open || bar.high == bar.last)
            && (if feed[i].lowest < feed[i - 1].lowest then bar.low == feed[i].lowest
                else bar.low == bar.open || bar.low == bar.last)
    decreases |feed|
  {
    OneBarPerTick(feed);
    var n := |feed|;
    if i == n - 1 {
      LastTwoAreValid(feed);
      LaterBar(feed[n - 2], feed[n - 1]);
      hide BarOf;
      OneBarPerTick(feed[..n - 1]);
    } else {
      ValidPrefix(feed);
      LaterBarsAreWellFormed(feed[..n - 1], i);
      assert BarsOf(feed)[i] == BarsOf(feed[..n - 1])[i];
    }
  }

  // The first bar has nothing before it: it opens at zero and its low is zero, so the lowest of all lows
  // of a feed is never the day's lowest price.
  lemma {:induction false} FirstBarHidesTheLow(feed: seq<Tick>)
    requires feed != [] && ValidFeed(feed)
    ensures |BarsOf(feed)| == |feed|
    ensures var bars := BarsOf(feed);
            && bars[0].open == bars[0].low == 0.0
            && MinPrice(bars[0].low, LowestFrom(bars[0].low, bars)) == 0.0 != feed[|feed| - 1].lowest
  {
    var n := |feed|;
    OneBarPerTick(feed);
    if n == 1 {
      assert feed[..0] == [];
      assert BarsOf(feed) == [BarOf(NOTHING, feed[0])];
    } else {
      ValidPrefix(feed);
      FirstBarHidesTheLow(feed[..n - 1]);
      LastTwoAreValid(feed);
      LaterBar(feed[n - 2], feed[n - 1]);
      hide BarOf;
      var bars := BarsOf(feed);
      assert bars[..n - 1] == BarsOf(feed[..n - 1]);
      assert bars[0] == BarsOf(feed[..n - 1])[0];
    }
  }

  // The prices a bar shows, for any instrument among any others: its own tick's close and last price, and
  // the last price of the instrument's tick before it as its open. Closes and opens the exchange has not set,
  // which come as the largest double, show as -1; the first bar opens at zero.
  lemma {:induction false} BarShowsItsTick(ticks: seq<Tick>, id: Ticker, i: nat)
    requires i < |TicksOf(ticks, id)|
    ensures |BarsFor(ticks, id)| == |TicksOf(ticks, id)|
    ensures var own, bar := TicksOf(ticks, id), BarsFor(ticks, id)[i];
            && bar.close == (if own[i].close < 1e308 then own[i].close else -1.0)
            && bar.last == own[i].last
            && bar.open == if i == 0 then 0.0 else if own[i - 1].last < 1e308 then own[i - 1].last else -1.0
  {
    InstrumentsAreIndependent(ticks, id);
    FeedShowsItsTicks(TicksOf(ticks, id), i);
  }

  lemma {:induction false} FeedShowsItsTicks(feed: seq<Tick>, i: nat)
    requires i < |feed|
    ensures |BarsOf(feed)| == |feed|
    ensures var bar := BarsOf(feed)[i];
            && bar.close == (if feed[i].close < 1e308 then feed[i].close else -1.0)
            && bar.last == feed[i].last
            && bar.open == if i == 0 then 0.0 else if feed[i - 1].last < 1e308 then feed[i - 1].last else -1.0
    decreases |feed|
  {
    var front := feed[..|feed| - 1];
    OneBarPerTick(feed);
    OneBarPerTick(front);
    if i < |front| {
      FeedShowsItsTicks(front, i);
      assert BarsOf(feed)[i] == BarsOf(front)[i];
    }
  }

  // ---------------------------------------------------------------- batches

  const INCREMENT: nat := 100

  // The part of a list that is, or is not, in a set, in order.
  function Selected(list: seq<Ticker>, s: set<Ticker>, inside: bool): seq<Ticker> {
    if list == [] then [] else
    Selected(list[..|list| - 1], s, inside)
    + if (list[|list| - 1] in s) == inside then [list[|list| - 1]] else []
  }

  function Capped(n: nat, size: nat): nat {
    if n <= size then n else size
  }

  function BatchesFrom(list: seq<Ticker>, start: nat): seq<seq<Ticker>>
    decreases |list| - start
  {
    if start >= |list| then []
    else [list[start..Capped(start + INCREMENT, |list|)]] + BatchesFrom(list, start + INCREMENT)
  }

  lemma NextBatch(list: seq<Ticker>, start: nat, sent: seq<seq<Ticker>>)
    requires start < |list|
    ensures (sent + [list[start..Capped(start + INCREMENT, |list|)]]) + BatchesFrom(list, start + INCREMENT)
            == sent + BatchesFrom(list, start)
  {
  }

  function Batches(list: seq<Ticker>): seq<seq<Ticker>> {
    BatchesFrom(list, 0)
  }

  function Flatten(batches: seq<seq<Ticker>>): seq<Ticker> {
    if batches == [] then [] else batches[0] + Flatten(batches[1..])
  }

  lemma {:induction false} BatchesFlatten(list: seq<Ticker>, start: nat)
    requires start <= |list|
    ensures Flatten(BatchesFrom(list, start)) == list[start..]
    decreases |list| - start
  {
    if start < |list| {
      var end, bs := Capped(start + INCREMENT, |list|), BatchesFrom(list, start);
      BatchesFlatten(list, end);
      AllSent(list, start + INCREMENT);
      assert bs[1..] == BatchesFrom(list, start + INCREMENT) == BatchesFrom(list, end);
      assert list[start..] == list[start..end] + list[end..];
    }
  }

  lemma AllSent(list: seq<Ticker>, start: nat)
    ensures start >= |list| ==> BatchesFrom(list, start) == []
  {
  }

  // The batches are full but for the last, none is empty, and together they are the list in order.
  lemma {:induction false} BatchesPartition(list: seq<Ticker>, start: nat)
    requires start <= |list|
    ensures Flatten(BatchesFrom(list, start)) == list[start..]
    ensures |BatchesFrom(list, start)| == (|list| - start + INCREMENT - 1) / INCREMENT
    ensures forall b :: b in BatchesFrom(list, start) ==> 0 < |b| <= INCREMENT
    ensures var bs := BatchesFrom(list, start); forall i :: 0 <= i < |bs| - 1 ==> |bs[i]| == INCREMENT
    decreases |list| - start
  {
    BatchesFlatten(list, start);
    hide Flatten;
    if start + INCREMENT <= |list| {
      BatchesPartition(list, start + INCREMENT);
    } else {
      AllSent(list, start + INCREMENT);
    }
  }

  // In numbers: a list is sent in one request per hundred tickers or part of a hundred.
  lemma HundredPerRequest(list: seq<Ticker>)
    ensures Flatten(Batches(list)) == list
    ensures |Batches(list)| == (|list| + 99) / 100
    ensures forall b :: b in Batches(list) ==> 1 <= |b| <= 100
    ensures forall i :: 0 <= i < |Batches(list)| - 1 ==> |Batches(list)[i]| == 100
  {
    BatchesPartition(list, 0);
    assert list[0..] == list;
    hide Flatten, BatchesFrom;
  }

  function ToSet(list: seq<Ticker>): set<Ticker> {
    set t | t in list
  }

  lemma ToSetSplit(list: seq<Ticker>, m: nat, n: nat)
    requires m <= n <= |list|
    ensures ToSet(list[..n]) == ToSet(list[..m]) + ToSet(list[m..n])
  {
    assert list[..n] == list[..m] + list[m..n];
  }

  lemma {:induction false} SelectedMembers(list: seq<Ticker>, s: set<Ticker>, inside: bool)
    ensures forall t :: t in Selected(list, s, inside) <==> t in list && (t in s) == inside
  {
    if list != [] {
      SelectedMembers(list[..|list| - 1], s, inside);
      assert list == list[..|list| - 1] + [list[|list| - 1]];
    }
  }

  // A list is selected from ticker by ticker, in order and with its repetitions.
  lemma {:induction false} SelectedInOrder(a: seq<Ticker>, t: Ticker, b: seq<Ticker>, s: set<Ticker>, inside: bool)
    ensures Selected(a + [t] + b, s, inside)
            == Selected(a, s, inside) + (if (t in s) == inside then [t] else []) + Selected(b, s, inside)
  {
    if b == [] {
      assert a + [t] + b == a + [t] && (a + [t])[..|a|] == a;
    } else {
      var front := b[..|b| - 1];
      assert (a + [t] + b)[..|a + [t] + b| - 1] == a + [t] + front;
      SelectedInOrder(a, t, front, s, inside);
    }
  }

  lemma SelectedSets(list: seq<Ticker>, s: set<Ticker>)
    ensures s + ToSet(Selected(list, s, false)) == s + ToSet(list)
    ensures ToSet(Selected(list, s, true)) == ToSet(list) * s
    ensures s - ToSet(Selected(list, s, true)) == s - ToSet(list)
  {
    SelectedMembers(list, s, false);
    SelectedMembers(list, s, true);
  }

  // What the front does about one batch: the tickers it acknowledges, in any order and any number of times,
  // and whether the query for the batch gives up by time.
  datatype Answer = Answer(acks: seq<Ticker>, timedOut: bool)

  function AnswerAt(answers: seq<Answer>, n: nat): Answer {
    if n < |answers| then answers[n] else Answer([], false)
  }

  // The batches sent, everything acknowledged, and whether the call ended in a network error.
  datatype Talk = Talk(sent: seq<seq<Ticker>>, acks: seq<Ticker>, failed: bool)

  // The first `n` batches, up to the first that times out.
  function TalkOver(batches: seq<seq<Ticker>>, answers: seq<Answer>, n: nat): Talk
    requires n <= |batches|
  {
    if n == 0 then Talk([], [], false) else
    var before, answer := TalkOver(batches, answers, n - 1), AnswerAt(answers, n - 1);
    if before.failed then before
    else Talk(before.sent + [batches[n - 1]], before.acks + answer.acks, answer.timedOut)
  }

  lemma {:induction false} FailureEndsTalk(batches: seq<seq<Ticker>>, answers: seq<Answer>, m: nat, n: nat)
    requires m <= n <= |batches| && TalkOver(batches, answers, m).failed
    ensures TalkOver(batches, answers, n) == TalkOver(batches, answers, m)
  {
    if m < n {
      FailureEndsTalk(batches, answers, m, n - 1);
    }
  }

  // Every batch is acknowledged in full before its time is up.
  predicate FullyAnswered(batches: seq<seq<Ticker>>, answers: seq<Answer>) {
    forall n :: 0 <= n < |batches| ==>
      ToSet(AnswerAt(answers, n).acks) == ToSet(batches[n]) && !AnswerAt(answers, n).timedOut
  }

  lemma {:induction false} FlattenGrows(batches: seq<seq<Ticker>>, batch: seq<Ticker>)
    ensures Flatten(batches + [batch]) == Flatten(batches) + batch
  {
    if batches == [] {
      assert [] + [batch] == [batch] && Flatten([batch]) == batch + Flatten([]);
    } else {
      assert (batches + [batch])[1..] == batches[1..] + [batch];
      FlattenGrows(batches[1..], batch);
    }
  }

  lemma ToSetConcat(a: seq<Ticker>, b: seq<Ticker>)
    ensures ToSet(a + b) == ToSet(a) + ToSet(b)
  {
  }

  lemma {:induction false} FullTalk(batches: seq<seq<Ticker>>, answers: seq<Answer>, n: nat)
    requires n <= |batches| && FullyAnswered(batches, answers)
    ensures var talk := TalkOver(batches, answers, n);
            !talk.failed && talk.sent == batches[..n] && ToSet(talk.acks) == ToSet(Flatten(batches[..n]))
  {
    if n > 0 {
      FullTalk(batches, answers, n - 1);
      FlattenGrows(batches[..n - 1], batches[n - 1]);
      assert batches[..n] == batches[..n - 1] + [batches[n - 1]];
      ToSetConcat(TalkOver(batches, answers, n - 1).acks, AnswerAt(answers, n - 1).acks);
      ToSetConcat(Flatten(batches[..n - 1]), batches[n - 1]);
      hide ToSet, Flatten, AnswerAt;
    }
  }

  lemma WholeTalk(batches: seq<seq<Ticker>>, answers: seq<Answer>)
    requires FullyAnswered(batches, answers)
    ensures var talk := TalkOver(batches, answers, |batches|);
            !talk.failed && talk.sent == batches && ToSet(talk.acks) == ToSet(Flatten(batches))
  {
    FullTalk(batches, answers, |batches|);
    assert batches[..|batches|] == batches;
    hide ToSet, Flatten, AnswerAt, FullyAnswered;
  }

  // Where the sending loop stands: what has been sent and acknowledged, and what is left of the list.
  ghost predicate Talking(list: seq<Ticker>, answers: seq<Answer>, start: nat, sent: seq<seq<Ticker>>, acks: seq<Ticker>) {
    && sent + BatchesFrom(list, start) == Batches(list)
    && TalkOver(Batches(list), answers, |sent|) == Talk(sent, acks, false)
  }

  lemma TalkBegins(list: seq<Ticker>, answers: seq<Answer>)
    ensures Talking(list, answers, 0, [], [])
    ensures ToSet([]) == {}
  {
    assert [] + BatchesFrom(list, 0) == Batches(list);
  }

  lemma TalkGoesOn(list: seq<Ticker>, answers: seq<Answer>, start: nat, sent: seq<seq<Ticker>>, acks: seq<Ticker>)
    requires start < |list| && Talking(list, answers, start, sent, acks)
    ensures var batch, answer := list[start..Capped(start + INCREMENT, |list|)], AnswerAt(answers, |sent|);
            if answer.timedOut
            then TalkOver(Batches(list), answers, |Batches(list)|) == Talk(sent + [batch], acks + answer.acks, true)
            else Talking(list, answers, start + INCREMENT, sent + [batch], acks + answer.acks)
  {
    var batches := Batches(list);
    NextBatch(list, start, sent);
    assert batches[|sent|] == BatchesFrom(list, start)[0];
    hide BatchesFrom;
    if AnswerAt(answers, |sent|).timedOut {
      FailureEndsTalk(batches, answers, |sent| + 1, |batches|);
    }
  }

  lemma TalkEnds(list: seq<Ticker>, answers: seq<Answer>, start: nat, sent: seq<seq<Ticker>>, acks: seq<Ticker>)
    requires start >= |list| && Talking(list, answers, start, sent, acks)
    ensures TalkOver(Batches(list), answers, |Batches(list)|) == Talk(sent, acks, false)
  {
    AllSent(list, start);
  }

  // The subscribed set once every batch that subscribing, or unsubscribing, a list sends is acknowledged.
  function AfterSubscribe(subscribed: set<Ticker>, list: seq<Ticker>): set<Ticker> {
    subscribed + ToSet(Flatten(Batches(Selected(list, subscribed, false))))
  }

  function AfterUnsubscribe(subscribed: set<Ticker>, list: seq<Ticker>): set<Ticker> {
    subscribed - ToSet(Flatten(Batches(Selected(list, subscribed, true))))
  }

  lemma BatchesMissNothing(subscribed: set<Ticker>, list: seq<Ticker>)
    ensures AfterSubscribe(subscribed, list) == subscribed + ToSet(list)
    ensures AfterUnsubscribe(subscribed, list) == subscribed - ToSet(list)
  {
    var wanted, known := Selected(list, subscribed, false), Selected(list, subscribed, true);
    BatchesFlatten(wanted, 0);
    BatchesFlatten(known, 0);
    assert wanted[0..] == wanted && known[0..] == known;
    SelectedSets(list, subscribed);
    hide Selected, ToSet, Flatten, BatchesFrom;
  }

  // When every batch is answered in full, the calls send all of them, do not fail, and add or remove exactly
  // the list.
  lemma FullAnswersSubscribe(subscribed: set<Ticker>, list: seq<Ticker>, answers: seq<Answer>)
    ensures var batches := Batches(Selected(list, subscribed, false));
            var talk := TalkOver(batches, answers, |batches|);
            FullyAnswered(batches, answers)
            ==> && !talk.failed && talk.sent == batches
                && subscribed + ToSet(talk.acks) == AfterSubscribe(subscribed, list) == subscribed + ToSet(list)
    ensures var batches := Batches(Selected(list, subscribed, true));
            var talk := TalkOver(batches, answers, |batches|);
            FullyAnswered(batches, answers)
            ==> && !talk.failed && talk.sent == batches
                && subscribed - ToSet(talk.acks) == AfterUnsubscribe(subscribed, list) == subscribed - ToSet(list)
  {
    BatchesMissNothing(subscribed, list);
    forall inside {:trigger Selected(list, subscribed, inside)}
      | FullyAnswered(Batches(Selected(list, subscribed, inside)), answers)
      ensures var batches := Batches(Selected(list, subscribed, inside));
              var talk := TalkOver(batches, answers, |batches|);
              !talk.failed && talk.sent == batches && ToSet(talk.acks) == ToSet(Flatten(batches))
    {
      WholeTalk(Batches(Selected(list, subscribed, inside)), answers);
    }
    hide Selected, TalkOver, FullyAnswered, ToSet, Flatten, BatchesFrom, Batches;
  }

  // Subscribing a list and then unsubscribing it leaves the old set without the list, which is the old set
  // exactly when the list named nothing already subscribed.
  lemma {:induction false} UnsubscribeUndoesIff(subscribed: set<Ticker>, list: seq<Ticker>)
    ensures AfterUnsubscribe(AfterSubscribe(subscribed, list), list) == subscribed - ToSet(list)
    ensures AfterUnsubscribe(AfterSubscribe(subscribed, list), list) == subscribed
            <==> Selected(list, subscribed, true) == []
  {
    BatchesMissNothing(subscribed, list);
    BatchesMissNothing(AfterSubscribe(subscribed, list), list);
    hide AfterSubscribe, AfterUnsubscribe;
    SelectedMembers(list, subscribed, true);
    if Selected(list, subscribed, true) == [] {
      forall t | t in ToSet(list) ensures t !in subscribed {
      }
    } else {
      var t := Selected(list, subscribed, true)[0];
      assert t in Selected(list, subscribed, true);
      assert t in subscribed && t !in subscribed - ToSet(list);
    }
  }

  lemma SliceOfPrefix(a: array<Ticker>, count: nat, start: nat, end: nat)
    requires start <= end <= count <= a.Length
    ensures a[..count][start..end] == a[start..end]
  {
  }

  // ---------------------------------------------------------------- the class

  class CTPMarketData {
    var preLatest: map<Ticker, real>
    var preHigh: map<Ticker, real>
    var preLow: map<Ticker, real>
    var preTurnover: map<Ticker, real>
    var preVolume: map<Ticker, int>
    var marketData: map<Ticker, Bar>
    var subscribedTickers: set<Ticker>

    constructor ()
      ensures TheMemory() == MemoryAfter([]) && marketData == map[] && subscribedTickers == {}
    {
      preLatest, preHigh, preLow, preTurnover, preVolume := map[], map[], map[], map[], map[];
      marketData, subscribedTickers := map[], {};
    }

    ghost function TheMemory(): Memory
      reads this
    {
      Memory(preLatest, preHigh, preLow, preTurnover, preVolume)
    }

    method CTPMarketData2MarketDepth(t: Tick) returns (bar: Bar)
      modifies this`preLatest, this`preHigh, this`preLow, this`preTurnover, this`preVolume
      ensures bar == BarOf(Recall(old(TheMemory()), t.instrumentId), t)
      ensures TheMemory() == Store(old(TheMemory()), t)
    {
      var id := t.instrumentId;
      var open := PriceAt(preLatest, id);
      var close := t.last;
      var high := if t.highest > PriceAt(preHigh, id) then t.highest else MaxPrice(open, close);
      var low := if t.lowest < PriceAt(preLow, id) then t.lowest else MinPrice(open, close);
      var turnover := t.turnover - PriceAt(preTurnover, id);
      var volume := t.volume - VolumeAt(preVolume, id);

      preLatest := preLatest[id := close];
      preHigh := preHigh[id := t.highest];
      preLow := preLow[id := t.lowest];
      preTurnover := preTurnover[id := t.turnover];
      preVolume := preVolume[id := t.volume];

      bar := Bar(SanitizeData(open), SanitizeData(high), SanitizeData(low), SanitizeData(t.close), t.last, volume, turnover);
    }

    method OnRtnDepthMarketData(t: Tick)
      modifies this`preLatest, this`preHigh, this`preLow, this`preTurnover, this`preVolume, this`marketData
      ensures TheMemory() == Store(old(TheMemory()), t)
      ensures marketData == old(marketData)[t.instrumentId := BarOf(Recall(old(TheMemory()), t.instrumentId), t)]
    {
      var md := CTPMarketData2MarketDepth(t);
      marketData := marketData[t.instrumentId := md];
    }

    // Sends the tickers not yet subscribed, one hundred at a time, each batch once the query for the one
    // before it has returned. A query that gives up by time ends the call with a network error.
    method Subscribe(tickerList: seq<Ticker>, answers: seq<Answer>) returns (sent: seq<seq<Ticker>>, failed: bool)
      modifies this`subscribedTickers
      ensures var batches := Batches(Selected(tickerList, old(subscribedTickers), false));
              var talk := TalkOver(batches, answers, |batches|);
              && sent == talk.sent && failed == talk.failed
              && subscribedTickers == old(subscribedTickers) + ToSet(talk.acks)
    {
      var instruments, count := Collect(tickerList, false);
      ghost var list, acks := Selected(tickerList, subscribedTickers, false), [];
      TalkBegins(list, answers);
      hide Selected, ToSet, Talking, TalkOver, BatchesFrom;
      sent, failed := [], false;
      var start := 0;
      while start < count
        invariant instruments[..count] == list && !failed
        invariant Talking(list, answers, start, sent, acks)
        invariant subscribedTickers == old(subscribedTickers) + ToSet(acks)
        decreases count - start
      {
        var num := if INCREMENT <= count - start then INCREMENT else count - start;
        var batch := instruments[start..start + num];
        assert |list| == count && start + num == Capped(start + INCREMENT, |list|);
        SliceOfPrefix(instruments, count, start, start + num);
        TalkGoesOn(list, answers, start, sent, acks);
        var answer := AnswerAt(answers, |sent|);
        sent := sent + [batch];
        AcknowledgeSubscribed(answer.acks);
        ToSetConcat(acks, answer.acks);
        acks := acks + answer.acks;
        if answer.timedOut {
          failed := true;
          return;
        }
        start := start + INCREMENT;
      }
      TalkEnds(list, answers, start, sent, acks);
    }

    // The tickers of the list that are, or are not, subscribed, at the front of an array of the list's size.
    method Collect(tickerList: seq<Ticker>, inside: bool) returns (instruments: array<Ticker>, count: nat)
      ensures fresh(instruments) && count <= instruments.Length
      ensures instruments[..count] == Selected(tickerList, subscribedTickers, inside)
    {
      instruments := new Ticker[|tickerList|];
      count := 0;
      for i := 0 to |tickerList|
        invariant count <= i
        invariant instruments[..count] == Selected(tickerList[..i], subscribedTickers, inside)
      {
        assert tickerList[..i + 1][..i] == tickerList[..i];
        if (tickerList[i] in subscribedTickers) == inside {
          instruments[count] := tickerList[i];
          count := count + 1;
        }
      }
      assert tickerList[..|tickerList|] == tickerList;
    }

    method AcknowledgeSubscribed(batch: seq<Ticker>)
      modifies this`subscribedTickers
      ensures subscribedTickers == old(subscribedTickers) + ToSet(batch)
    {
      for i := 0 to |batch|
        invariant subscribedTickers == old(subscribedTickers) + ToSet(batch[..i])
      {
        ToSetSplit(batch, i, i + 1);
        OnRspSubMarketData(batch[i]);
      }
      assert batch[..|batch|] == batch;
    }

    method OnRspSubMarketData(ticker: Ticker)
      modifies this`subscribedTickers
      ensures subscribedTickers == old(subscribedTickers) + {ticker}
    {
      subscribedTickers := subscribedTickers + {ticker};
    }

    // Sends the subscribed tickers of the list in the same way. Acknowledged tickers lose their latest bar
    // too, but not what the next bar is measured against.
    method Unsubscribe(tickerList: seq<Ticker>, answers: seq<Answer>) returns (sent: seq<seq<Ticker>>, failed: bool)
      modifies this`subscribedTickers, this`marketData
      ensures var batches := Batches(Selected(tickerList, old(subscribedTickers), true));
              var talk := TalkOver(batches, answers, |batches|);
              && sent == talk.sent && failed == talk.failed
              && subscribedTickers == old(subscribedTickers) - ToSet(talk.acks)
              && marketData == old(marketData) - ToSet(talk.acks)
    {
      var instruments, count := Collect(tickerList, true);
      ghost var list, acks := Selected(tickerList, subscribedTickers, true), [];
      TalkBegins(list, answers);
      hide Selected, ToSet, Talking, TalkOver, BatchesFrom;
      sent, failed := [], false;
      var start := 0;
      while start < count
        invariant instruments[..count] == list && !failed
        invariant Talking(list, answers, start, sent, acks)
        invariant subscribedTickers == old(subscribedTickers) - ToSet(acks)
        invariant marketData == old(marketData) - ToSet(acks)
        decreases count - start
      {
        var num := if INCREMENT <= count - start then INCREMENT else count - start;
        var batch := instruments[start..start + num];
        assert |list| == count && start + num == Capped(start + INCREMENT, |list|);
        SliceOfPrefix(instruments, count, start, start + num);
        TalkGoesOn(list, answers, start, sent, acks);
        var answer := AnswerAt(answers, |sent|);
        sent := sent + [batch];
        AcknowledgeUnsubscribed(answer.acks);
        ToSetConcat(acks, answer.acks);
        acks := acks + answer.acks;
        if answer.timedOut {
          failed := true;
          return;
        }
        start := start + INCREMENT;
      }
      TalkEnds(list, answers, start, sent, acks);
    }

    method AcknowledgeUnsubscribed(batch: seq<Ticker>)
      modifies this`subscribedTickers, this`marketData
      ensures subscribedTickers == old(subscribedTickers) - ToSet(batch)
      ensures marketData == old(marketData) - ToSet(batch)
    {
      for i := 0 to |batch|
        invariant subscribedTickers == old(subscribedTickers) - ToSet(batch[..i])
        invariant marketData == old(marketData) - ToSet(batch[..i])
      {
        ToSetSplit(batch, i, i + 1);
        OnRspUnSubMarketData(batch[i]);
      }
      assert batch[..|batch|] == batch;
    }

    method OnRspUnSubMarketData(ticker: Ticker)
      modifies this`subscribedTickers, this`marketData
      ensures subscribedTickers == old(subscribedTickers) - {ticker}
      ensures marketData == old(marketData) - {ticker}
    {
      subscribedTickers := subscribedTickers - {ticker};
      marketData := marketData - {ticker};
    }
  }
}
