// RateThrottler: at most `rate` releases in any window shorter than `dur`, kept by a list of release times
// that is cleaned only on the slow path. Clock readings are arguments; times are integers.
module RateThrottlers {

  // The three clock readings of one call: on entry, in CleanList, and when the release is recorded.
  datatype Call = Call(entry: int, clean: int, release: int)

  // `list` is what the code keeps, `history` every release there has been.
  datatype State = State(list: seq<int>, history: seq<int>)

  const START := State([], [])

  function Cleaned(list: seq<int>, threshold: int): seq<int> {
    if list != [] && list[0] < threshold then Cleaned(list[1..], threshold) else list
  }

  function Record(s: State, list: seq<int>, time: int): State {
    State(list + [time], s.history + [time])
  }

  function Step(rate: int, dur: int, s: State, c: Call): State {
    if rate <= 0 then s
    else if |s.list| < rate then Record(s, s.list, c.entry)
    else Record(s, Cleaned(s.list, c.clean - dur), c.release)
  }

  function Run(rate: int, dur: int, calls: seq<Call>): State {
    if calls == [] then START
    else Step(rate, dur, Run(rate, dur, calls[..|calls| - 1]), calls[|calls| - 1])
  }

  // Readings of one call do not go back, and a sleep does not end early.
  predicate Possible(rate: int, dur: int, s: State, c: Call) {
    && c.entry <= c.clean <= c.release
    && var kept := Cleaned(s.list, c.clean - dur);
       (0 < rate <= |s.list| && rate <= |kept| ==> kept[0] + dur <= c.release)
  }

  // The clock has moved on since the last release.
  predicate Later(s: State, time: int) {
    s.history != [] ==> s.history[|s.history| - 1] < time
  }

  predicate PossibleRun(rate: int, dur: int, calls: seq<Call>) {
    calls == [] ||
    (var before, last := Run(rate, dur, calls[..|calls| - 1]), calls[|calls| - 1];
     PossibleRun(rate, dur, calls[..|calls| - 1]) && Possible(rate, dur, before, last) && Later(before, last.entry))
  }

  // ---------------------------------------------------------------- the list invariant

  predicate Ascending(history: seq<int>) {
    forall i, j :: 0 <= i < j < |history| ==> history[i] <= history[j]
  }

  predicate Windowed(rate: nat, dur: int, history: seq<int>) {
    forall i :: 0 <= i < |history| - rate ==> history[i] + dur <= history[i + rate]
  }

  predicate Suffix(s: State) {
    |s.list| <= |s.history| && s.list == s.history[|s.history| - |s.list|..]
  }

  // The list may be one too long, but then its front has expired.
  predicate Sized(rate: nat, dur: int, s: State)
    requires Suffix(s)
  {
    |s.list| <= rate || (|s.list| == rate + 1 && s.list[0] + dur <= s.history[|s.history| - 1])
  }

  // Whatever is missing from the list has expired as well.
  predicate Forgotten(dur: int, s: State)
    requires Suffix(s)
  {
    forall i :: 0 <= i < |s.history| - |s.list| ==> s.history[i] + dur <= s.history[|s.history| - 1]
  }

  predicate Tracks(rate: nat, dur: int, s: State) {
    Suffix(s) && Sized(rate, dur, s) && Forgotten(dur, s)
  }

  predicate Inv(rate: nat, dur: int, s: State) {
    Ascending(s.history) && Windowed(rate, dur, s.history) && Tracks(rate, dur, s)
  }

  lemma {:induction false} CleanedIsSuffix(list: seq<int>, threshold: int) returns (dropped: nat)
    ensures dropped <= |list| && Cleaned(list, threshold) == list[dropped..]
    ensures forall i :: 0 <= i < dropped ==> list[i] < threshold
    ensures dropped < |list| ==> threshold <= list[dropped]
  {
    if list != [] && list[0] < threshold {
      dropped := CleanedIsSuffix(list[1..], threshold);
      dropped := dropped + 1;
      assert forall i :: 1 <= i < dropped ==> list[i] == list[1..][i - 1];
    } else {
      dropped := 0;
    }
  }

  // A release that is neither early nor before the last one keeps the history in order and in its window.
  lemma ReleaseKeepsWindow(rate: nat, dur: int, history: seq<int>, time: int)
    requires 0 < rate && Ascending(history) && Windowed(rate, dur, history)
    requires history != [] ==> history[|history| - 1] <= time
    requires rate <= |history| ==> history[|history| - rate] + dur <= time
    ensures Ascending(history + [time]) && Windowed(rate, dur, history + [time])
  {
    var next := history + [time];
    forall i | 0 <= i < |next| - rate ensures next[i] + dur <= next[i + rate] {
      if i + rate == |history| {
        assert next[i] == history[|history| - rate];
      }
    }
    hide Windowed;
    assert forall i :: 0 <= i < |history| ==> next[i] <= time;
  }

  lemma RecordKeepsSuffix(s: State, dropped: nat, time: int)
    requires Suffix(s) && dropped <= |s.list|
    ensures Suffix(Record(s, s.list[dropped..], time))
  {
    assert (s.history + [time])[|s.history| - |s.list| + dropped..] == s.list[dropped..] + [time];
  }

  lemma RecordKeepsForgotten(dur: int, s: State, dropped: nat, time: int)
    requires Suffix(s) && Forgotten(dur, s) && dropped <= |s.list|
    requires s.history != [] ==> s.history[|s.history| - 1] <= time
    requires forall i :: 0 <= i < dropped ==> s.list[i] + dur <= time
    ensures Suffix(Record(s, s.list[dropped..], time)) && Forgotten(dur, Record(s, s.list[dropped..], time))
  {
    RecordKeepsSuffix(s, dropped, time);
    hide Suffix;
    var k := |s.history| - |s.list|;
    forall i | 0 <= i < k + dropped ensures s.history[i] + dur <= time {
      if k <= i {
        FromTheList(s, i);
      }
    }
  }

  lemma FromTheList(s: State, i: nat)
    requires Suffix(s) && |s.history| - |s.list| <= i < |s.history|
    ensures s.history[i] == s.list[i - (|s.history| - |s.list|)]
  {
  }

  // Recording a release when the kept part of the list holds at most `rate` entries.
  lemma RecordKeepsTracks(rate: nat, dur: int, s: State, dropped: nat, time: int)
    requires 0 < rate && Tracks(rate, dur, s)
    requires dropped <= |s.list| <= rate + dropped
    requires s.history != [] ==> s.history[|s.history| - 1] <= time
    requires forall i :: 0 <= i < dropped ==> s.list[i] + dur <= time
    requires |s.list| - dropped == rate ==> s.list[dropped] + dur <= time
    ensures Tracks(rate, dur, Record(s, s.list[dropped..], time))
  {
    RecordKeepsForgotten(dur, s, dropped, time);
    hide Suffix, Forgotten;
  }

  // The release `rate` places back has expired, or is the front of what is kept.
  lemma RecordIsNotEarly(rate: nat, dur: int, s: State, dropped: nat, time: int)
    requires 0 < rate <= |s.history| && Tracks(rate, dur, s)
    requires dropped <= |s.list| <= rate + dropped
    requires s.history[|s.history| - 1] <= time
    requires forall i :: 0 <= i < dropped ==> s.list[i] + dur <= time
    requires |s.list| - dropped == rate ==> s.list[dropped] + dur <= time
    ensures s.history[|s.history| - rate] + dur <= time
  {
    var n, k := |s.history|, |s.history| - |s.list|;
    if n - rate < k {
      assert s.history[n - rate] + dur <= s.history[n - 1];
    } else {
      assert s.history[n - rate] == s.list[n - rate - k];
    }
  }

  lemma FastPathKeepsInv(rate: nat, dur: int, s: State, c: Call)
    requires 0 < rate && Inv(rate, dur, s) && Later(s, c.entry)
    requires |s.list| < rate
    ensures Inv(rate, dur, Step(rate, dur, s, c))
  {
    hide Ascending, Windowed;
    RecordKeepsTracks(rate, dur, s, 0, c.entry);
    if rate <= |s.history| {
      RecordIsNotEarly(rate, dur, s, 0, c.entry);
    }
    ReleaseKeepsWindow(rate, dur, s.history, c.entry);
    assert s.list[0..] == s.list;
    hide Tracks;
  }

  // Once the clock has moved on, cleaning brings a list that is one too long back to size.
  lemma CleaningFits(rate: nat, dur: int, s: State, c: Call) returns (dropped: nat)
    requires 0 < rate <= |s.list| && Tracks(rate, dur, s) && Later(s, c.entry) && Possible(rate, dur, s, c)
    ensures dropped <= |s.list| <= rate + dropped && Cleaned(s.list, c.clean - dur) == s.list[dropped..]
    ensures forall i :: 0 <= i < dropped ==> s.list[i] + dur <= c.release
    ensures |s.list| - dropped == rate ==> s.list[dropped] + dur <= c.release
  {
    dropped := CleanedIsSuffix(s.list, c.clean - dur);
    hide Cleaned;
    if |s.list| == rate + 1 {
      assert s.list[0] + dur <= s.history[|s.history| - 1] < c.clean;
    }
  }

  lemma SlowPathKeepsInv(rate: nat, dur: int, s: State, c: Call)
    requires 0 < rate && Inv(rate, dur, s) && Later(s, c.entry) && Possible(rate, dur, s, c)
    requires rate <= |s.list|
    ensures Inv(rate, dur, Step(rate, dur, s, c))
  {
    hide Ascending, Windowed, Cleaned;
    var dropped := CleaningFits(rate, dur, s, c);
    RecordKeepsTracks(rate, dur, s, dropped, c.release);
    RecordIsNotEarly(rate, dur, s, dropped, c.release);
    ReleaseKeepsWindow(rate, dur, s.history, c.release);
    hide Tracks;
  }

  // Every run on a clock that moves on between a release and the next call keeps the invariant.
  lemma {:induction false} RunKeepsInv(rate: nat, dur: int, calls: seq<Call>)
    requires 0 < rate && PossibleRun(rate, dur, calls)
    ensures Inv(rate, dur, Run(rate, dur, calls))
  {
    if calls != [] {
      var before, last := Run(rate, dur, calls[..|calls| - 1]), calls[|calls| - 1];
      RunKeepsInv(rate, dur, calls[..|calls| - 1]);
      hide Inv;
      if |before.list| < rate {
        FastPathKeepsInv(rate, dur, before, last);
      } else {
        SlowPathKeepsInv(rate, dur, before, last);
      }
    }
  }

  // No window shorter than `dur` holds more than `rate` releases, and the list never outgrows rate + 1.
  lemma NoBurst(rate: nat, dur: int, calls: seq<Call>)
    requires 0 < rate && PossibleRun(rate, dur, calls)
    ensures var s := Run(rate, dur, calls);
            && |s.history| == |calls| && |s.list| <= rate + 1
            && forall i, j :: 0 <= i < j < |s.history| && s.history[j] - s.history[i] < dur ==> j - i < rate
  {
    RunKeepsInv(rate, dur, calls);
    EveryCallReleases(rate, dur, calls);
    var s := Run(rate, dur, calls);
    forall i, j | 0 <= i < j < |s.history| && s.history[j] - s.history[i] < dur ensures j - i < rate {
      FarApart(rate, dur, s.history, i, j);
    }
  }

  lemma FarApart(rate: nat, dur: int, history: seq<int>, i: nat, j: nat)
    requires 0 < rate && Ascending(history) && Windowed(rate, dur, history) && i < j < |history|
    ensures i + rate <= j ==> history[i] + dur <= history[j]
  {
    if i + rate == j {
      assert history[i] + dur <= history[i + rate];
    } else if i + rate < j {
      assert history[i] + dur <= history[i + rate];
      assert history[i + rate] <= history[j];
    }
  }

  lemma {:induction false} EveryCallReleases(rate: int, dur: int, calls: seq<Call>)
    requires 0 < rate
    ensures |Run(rate, dur, calls).history| == |calls|
  {
    if calls != [] {
      EveryCallReleases(rate, dur, calls[..|calls| - 1]);
    }
  }

  // A rate of zero or less limits nothing and records nothing.
  lemma {:induction false} NoRateNoRecord(rate: int, dur: int, calls: seq<Call>)
    requires rate <= 0
    ensures Run(rate, dur, calls) == START
  {
    if calls != [] {
      NoRateNoRecord(rate, dur, calls[..|calls| - 1]);
    }
  }

  // ---------------------------------------------------------------- the greedy specification

  function Max(a: int, b: int): int {
    if a < b then b else a
  }

  // The earliest time at which a call made at `clock` may be released, from the full history.
  function Earliest(rate: nat, dur: int, history: seq<int>, clock: int): int
    requires 0 < rate
  {
    if |history| < rate then clock else Max(clock, history[|history| - rate] + dur)
  }

  // A call during which the clock stands still except for an exact sleep.
  function ExactCall(rate: int, dur: int, s: State, clock: int): Call {
    var kept := Cleaned(s.list, clock - dur);
    Call(clock, clock, if 0 < rate <= |s.list| && rate <= |kept| then Max(clock, kept[0] + dur) else clock)
  }

  function ExactRun(rate: int, dur: int, clocks: seq<int>): State {
    if clocks == [] then START else
    var before := ExactRun(rate, dur, clocks[..|clocks| - 1]);
    Step(rate, dur, before, ExactCall(rate, dur, before, clocks[|clocks| - 1]))
  }

  // Each call is made after the last release.
  predicate LaterThroughout(rate: int, dur: int, clocks: seq<int>) {
    clocks == [] ||
    (LaterThroughout(rate, dur, clocks[..|clocks| - 1])
     && Later(ExactRun(rate, dur, clocks[..|clocks| - 1]), clocks[|clocks| - 1]))
  }

  function GreedyHistory(rate: nat, dur: int, clocks: seq<int>): seq<int>
    requires 0 < rate
  {
    if clocks == [] then [] else
    var before := GreedyHistory(rate, dur, clocks[..|clocks| - 1]);
    before + [Earliest(rate, dur, before, clocks[|clocks| - 1])]
  }

  lemma ExactCallIsGreedy(rate: nat, dur: int, s: State, clock: int)
    requires 0 < rate && Inv(rate, dur, s) && Later(s, clock)
    ensures Possible(rate, dur, s, ExactCall(rate, dur, s, clock))
    ensures Step(rate, dur, s, ExactCall(rate, dur, s, clock)).history
            == s.history + [Earliest(rate, dur, s.history, clock)]
  {
    hide Ascending, Windowed;
    var n, k := |s.history|, |s.history| - |s.list|;
    if rate <= n {
      assert n - rate < k ==> s.history[n - rate] + dur <= s.history[n - 1];
      assert k <= n - rate ==> s.history[n - rate] == s.list[n - rate - k];
    }
    if rate <= |s.list| {
      var dropped := CleanedIsSuffix(s.list, clock - dur);
      if |s.list| == rate + 1 {
        assert 0 < dropped;
      }
    }
  }

  // The list that is cleaned only now and then releases every call exactly when the full history would.
  lemma {:induction false} ListIsGreedy(rate: nat, dur: int, clocks: seq<int>)
    requires 0 < rate && LaterThroughout(rate, dur, clocks)
    ensures Inv(rate, dur, ExactRun(rate, dur, clocks))
    ensures ExactRun(rate, dur, clocks).history == GreedyHistory(rate, dur, clocks)
  {
    if clocks != [] {
      var before, clock := ExactRun(rate, dur, clocks[..|clocks| - 1]), clocks[|clocks| - 1];
      ListIsGreedy(rate, dur, clocks[..|clocks| - 1]);
      ExactCallIsGreedy(rate, dur, before, clock);
      hide Inv, Cleaned;
      if |before.list| < rate {
        FastPathKeepsInv(rate, dur, before, ExactCall(rate, dur, before, clock));
      } else {
        SlowPathKeepsInv(rate, dur, before, ExactCall(rate, dur, before, clock));
      }
    }
  }

  // ---------------------------------------------------------------- a clock that stands still

  // Steady clocks never go back but may read the same twice.
  predicate NotEarlier(s: State, time: int) {
    s.history != [] ==> s.history[|s.history| - 1] <= time
  }

  predicate NotEarlierThroughout(rate: int, dur: int, clocks: seq<int>) {
    clocks == [] ||
    (NotEarlierThroughout(rate, dur, clocks[..|clocks| - 1])
     && NotEarlier(ExactRun(rate, dur, clocks[..|clocks| - 1]), clocks[|clocks| - 1]))
  }

  // What then remains true of the list, however long it gets.
  predicate Loose(dur: int, s: State) {
    Ascending(s.history) && Suffix(s) && Forgotten(dur, s)
  }

  // The list that a call at `clock` finds after cleaning, if it cleans.
  function Kept(rate: int, dur: int, s: State, clock: int): seq<int> {
    if |s.list| < rate then s.list else Cleaned(s.list, clock - dur)
  }

  // The call waits for the front of the list, but the entry `rate` places from the end is a later one.
  predicate Overfull(rate: nat, kept: seq<int>)
    requires 0 < rate
  {
    |kept| > rate && kept[0] < kept[|kept| - rate]
  }

  // Cleaning drops from the front what has expired, and nothing else.
  lemma KeptIsSuffix(rate: nat, dur: int, s: State, clock: int) returns (dropped: nat)
    requires 0 < rate
    ensures var kept := Kept(rate, dur, s, clock);
            && dropped <= |s.list| && kept == s.list[dropped..]
            && (rate <= |kept| ==> clock <= kept[0] + dur)
            && forall i :: 0 <= i < dropped ==> s.list[i] + dur <= clock
  {
    dropped := 0;
    if rate <= |s.list| {
      dropped := CleanedIsSuffix(s.list, clock - dur);
    }
    hide Cleaned;
  }

  // The release `rate` places back has expired, or is still in the list a call finds, after its front.
  lemma RateBack(rate: nat, dur: int, s: State, clock: int, dropped: nat)
    requires 0 < rate <= |s.history| && Loose(dur, s) && NotEarlier(s, clock)
    requires dropped <= |s.list| && forall i :: 0 <= i < dropped ==> s.list[i] + dur <= clock
    ensures var back := s.history[|s.history| - rate];
            if |s.list| - dropped < rate then back + dur <= clock
            else s.list[dropped] <= back == s.list[|s.list| - rate]
  {
    var n := |s.history|;
    if n - rate >= n - |s.list| {
      FromTheList(s, n - rate);
    }
    if rate <= |s.list| - dropped {
      FromTheList(s, n - |s.list| + dropped);
    }
  }

  // When an exact call at `clock` is released.
  function ReleaseAt(rate: nat, dur: int, kept: seq<int>, clock: int): (r: int)
    requires 0 < rate
  {
    if rate <= |kept| then Max(clock, kept[0] + dur) else clock
  }

  lemma ExactStepRecords(rate: nat, dur: int, s: State, clock: int)
    requires 0 < rate
    ensures var kept := Kept(rate, dur, s, clock);
            Step(rate, dur, s, ExactCall(rate, dur, s, clock)) == Record(s, kept, ReleaseAt(rate, dur, kept, clock))
  {
    hide Cleaned;
  }

  lemma AscendingGrows(history: seq<int>, time: int)
    requires Ascending(history) && (history != [] ==> history[|history| - 1] <= time)
    ensures Ascending(history + [time])
  {
    assert forall i :: 0 <= i < |history| ==> history[i] <= time;
  }

  lemma ExactStepStaysLoose(rate: nat, dur: int, s: State, clock: int)
    requires 0 < rate && Loose(dur, s) && NotEarlier(s, clock)
    ensures Loose(dur, Step(rate, dur, s, ExactCall(rate, dur, s, clock)))
  {
    ExactStepRecords(rate, dur, s, clock);
    var dropped := KeptIsSuffix(rate, dur, s, clock);
    var time := ReleaseAt(rate, dur, Kept(rate, dur, s, clock), clock);
    assert clock <= time;
    hide Step, ExactCall, Kept, ReleaseAt;
    RecordKeepsForgotten(dur, s, dropped, time);
    AscendingGrows(s.history, time);
    hide Ascending, Forgotten, Suffix;
  }

  // One exact call keeps the bound, and is released when the full history would release it, exactly when
  // the list it finds is not overfull.
  lemma StandingCallInWindowIff(rate: nat, dur: int, s: State, clock: int)
    requires 0 < rate && Loose(dur, s) && NotEarlier(s, clock)
    ensures var n, kept := |s.history|, Kept(rate, dur, s, clock);
            var time := ReleaseAt(rate, dur, kept, clock);
            && ((rate <= n ==> s.history[n - rate] + dur <= time) <==> !Overfull(rate, kept))
            && (time == Earliest(rate, dur, s.history, clock) <==> !Overfull(rate, kept))
  {
    var dropped := KeptIsSuffix(rate, dur, s, clock);
    if rate <= |s.history| {
      RateBack(rate, dur, s, clock, dropped);
    }
    assert |Kept(rate, dur, s, clock)| <= |s.history|;
    hide Kept, Loose, NotEarlier;
  }

  predicate NeverOverfull(rate: nat, dur: int, clocks: seq<int>)
    requires 0 < rate
  {
    clocks == [] ||
    (var front, clock := clocks[..|clocks| - 1], clocks[|clocks| - 1];
     NeverOverfull(rate, dur, front) && !Overfull(rate, Kept(rate, dur, ExactRun(rate, dur, front), clock)))
  }

  lemma WindowedGrows(rate: nat, dur: int, history: seq<int>, next: seq<int>)
    requires 0 < rate && |next| == |history| + 1 && next[..|history|] == history
    ensures Windowed(rate, dur, next)
            <==> Windowed(rate, dur, history)
                 && (rate <= |history| ==> history[|history| - rate] + dur <= next[|history|])
  {
    assert forall i :: 0 <= i < |history| ==> next[i] == history[i];
    if Windowed(rate, dur, next) {
      forall i | 0 <= i < |history| - rate ensures history[i] + dur <= history[i + rate] {
        assert next[i] + dur <= next[i + rate];
      }
      assert rate <= |history| ==> next[|history| - rate] + dur <= next[|history| - rate + rate];
    }
  }

  lemma SameWithOneMore(a: seq<int>, x: int, b: seq<int>, y: int)
    ensures a + [x] == b + [y] <==> a == b && x == y
  {
    if a + [x] == b + [y] {
      assert (a + [x])[..|a|] == a && (b + [y])[..|b|] == b;
      assert (a + [x])[|a|] == x;
    }
  }

  lemma StandingStep(rate: nat, dur: int, s: State, clock: int, greedy: seq<int>)
    requires 0 < rate && Loose(dur, s) && NotEarlier(s, clock)
    ensures var next, fits := Step(rate, dur, s, ExactCall(rate, dur, s, clock)), !Overfull(rate, Kept(rate, dur, s, clock));
            && Loose(dur, next)
            && (Windowed(rate, dur, next.history) <==> Windowed(rate, dur, s.history) && fits)
            && (s.history == greedy
                ==> (next.history == greedy + [Earliest(rate, dur, greedy, clock)] <==> fits))
            && (s.history != greedy ==> next.history != greedy + [Earliest(rate, dur, greedy, clock)])
  {
    var time := ReleaseAt(rate, dur, Kept(rate, dur, s, clock), clock);
    ExactStepStaysLoose(rate, dur, s, clock);
    ExactStepRecords(rate, dur, s, clock);
    StandingCallInWindowIff(rate, dur, s, clock);
    WindowedGrows(rate, dur, s.history, s.history + [time]);
    SameWithOneMore(s.history, time, greedy, Earliest(rate, dur, greedy, clock));
    hide Loose, Windowed, Overfull, Kept, Earliest, Step, ExactCall, ReleaseAt;
  }

  // Over whole runs on a clock that may stand still: the bound is kept, and every call is released when the
  // full history would release it, exactly when no call finds the list overfull.
  lemma {:induction false} StandingClockKeepsWindowIff(rate: nat, dur: int, clocks: seq<int>)
    requires 0 < rate && NotEarlierThroughout(rate, dur, clocks)
    ensures var s := ExactRun(rate, dur, clocks);
            && Loose(dur, s)
            && (Windowed(rate, dur, s.history) <==> NeverOverfull(rate, dur, clocks))
            && (s.history == GreedyHistory(rate, dur, clocks) <==> NeverOverfull(rate, dur, clocks))
  {
    if clocks != [] {
      var front, clock := clocks[..|clocks| - 1], clocks[|clocks| - 1];
      StandingClockKeepsWindowIff(rate, dur, front);
      StandingStep(rate, dur, ExactRun(rate, dur, front), clock, GreedyHistory(rate, dur, front));
      hide Loose, Windowed, Overfull, Kept, Earliest, Step, ExactCall, NotEarlier;
    }
  }

  // Three calls at times 0, 0 and 1 with rate 1 and duration 1: the last two are released together.
  lemma StandingClockBreaksWindow()
    ensures ExactRun(1, 1, [0, 0, 1]).history == [0, 1, 1]
  {
    assert [0, 0, 1][..2] == [0, 0] && [0, 0][..1] == [0] && [0][..0] == [];
    assert ExactRun(1, 1, [0]) == State([0], [0]);
    assert ExactRun(1, 1, [0, 0]) == State([0, 1], [0, 1]);
  }

  // With rate 2 and duration 1, calls at 0, 0, 0, 1 and 1: the last three are released together.
  lemma StandingClockReleasesThree()
    ensures ExactRun(2, 1, [0, 0, 0, 1, 1]).history == [0, 0, 1, 1, 1]
  {
    assert [0, 0, 0, 1, 1][..4] == [0, 0, 0, 1] && [0, 0, 0, 1][..3] == [0, 0, 0];
    assert [0, 0, 0][..2] == [0, 0] && [0, 0][..1] == [0] && [0][..0] == [];
    assert ExactRun(2, 1, [0]) == State([0], [0]);
    assert ExactRun(2, 1, [0, 0]) == State([0, 0], [0, 0]);
    assert ExactRun(2, 1, [0, 0, 0]) == State([0, 0, 1], [0, 0, 1]);
    assert ExactRun(2, 1, [0, 0, 0, 1]) == State([0, 0, 1, 1], [0, 0, 1, 1]);
  }

  // ---------------------------------------------------------------- the class

  class RateThrottler {
    const rate: int
    const dur: int
    var requestTimeList: seq<int>
    ghost var history: seq<int>

    constructor (rate: int, dur: int)
      ensures this.rate == rate && this.dur == dur
      ensures Contents() == START && Valid()
      ensures rate > 0 ==> Inv(rate, dur, Contents())
    {
      this.rate := rate;
      this.dur := dur;
      requestTimeList := [];
      history := [];
    }

    ghost function Contents(): State
      reads this
    {
      State(requestTimeList, history)
    }

    ghost predicate Valid()
      reads this
    {
      rate > 0 ==> Loose(dur, Contents())
    }

    method CleanList(now: int)
      modifies this`requestTimeList
      ensures requestTimeList == Cleaned(old(requestTimeList), now - dur)
    {
      var threshold := now - dur;
      while requestTimeList != [] && requestTimeList[0] < threshold
        invariant Cleaned(requestTimeList, threshold) == Cleaned(old(requestTimeList), threshold)
        decreases |requestTimeList|
      {
        requestTimeList := requestTimeList[1..];
      }
    }

    // Returns the time a sleep has to last until, if the call has to sleep. The clock may still read what it
    // read at the last release; when it has moved on each time, the list keeps its full invariant.
    method Wait(c: Call) returns (wakeAt: int, slept: bool)
      requires Valid()
      requires Possible(rate, dur, Contents(), c) && NotEarlier(Contents(), c.entry)
      modifies this
      ensures Contents() == Step(rate, dur, old(Contents()), c) && Valid()
      ensures 0 < rate && old(Inv(rate, dur, Contents()) && Later(Contents(), c.entry)) ==> Inv(rate, dur, Contents())
      ensures var before, kept := old(requestTimeList), Cleaned(old(requestTimeList), c.clean - dur);
              && (slept <==> 0 < rate <= |before| && rate <= |kept|)
              && (slept ==> wakeAt == kept[0] + dur <= c.release)
    {
      wakeAt, slept := 0, false;
      if rate > 0 {
        CallStaysLoose(rate, dur, Contents(), c);
        FastOrSlow(rate, dur, Contents(), c);
        ghost var kept := Cleaned(requestTimeList, c.clean - dur);
        assert rate <= |requestTimeList| && rate <= |kept| ==> kept[0] + dur <= c.release;
        hide Inv, Loose, Possible, Later, Cleaned;
        if |requestTimeList| < rate {
          requestTimeList := requestTimeList + [c.entry];
          history := history + [c.entry];
        } else {
          CleanList(c.clean);
          if |requestTimeList| >= rate {
            wakeAt, slept := requestTimeList[0] + dur, true;
          }
          requestTimeList := requestTimeList + [c.release];
          history := history + [c.release];
        }
      }
    }
  }

  // What a call records: the list without what has expired, and a time not before the call.
  lemma CallRecords(rate: nat, dur: int, s: State, c: Call) returns (dropped: nat, time: int)
    requires 0 < rate && Possible(rate, dur, s, c)
    ensures dropped <= |s.list| && c.entry <= time
    ensures Step(rate, dur, s, c) == Record(s, s.list[dropped..], time)
    ensures forall i :: 0 <= i < dropped ==> s.list[i] + dur <= time
  {
    if |s.list| < rate {
      dropped, time := 0, c.entry;
      assert s.list[0..] == s.list;
    } else {
      dropped := CleanedIsSuffix(s.list, c.clean - dur);
      time := c.release;
    }
    hide Cleaned;
  }

  lemma CallStaysLoose(rate: nat, dur: int, s: State, c: Call)
    requires 0 < rate && Loose(dur, s) && NotEarlier(s, c.entry) && Possible(rate, dur, s, c)
    ensures Loose(dur, Step(rate, dur, s, c))
  {
    hide Step, Possible, Ascending, Forgotten, Suffix;
    var dropped, time := CallRecords(rate, dur, s, c);
    RecordKeepsForgotten(dur, s, dropped, time);
    AscendingGrows(s.history, time);
  }

  lemma FastOrSlow(rate: nat, dur: int, s: State, c: Call)
    requires 0 < rate && Possible(rate, dur, s, c)
    ensures Inv(rate, dur, s) && Later(s, c.entry) ==> Inv(rate, dur, Step(rate, dur, s, c))
  {
    hide Step, Possible;
    if Inv(rate, dur, s) && Later(s, c.entry) {
      hide Inv, Later;
      if |s.list| < rate {
        FastPathKeepsInv(rate, dur, s, c);
      } else {
        SlowPathKeepsInv(rate, dur, s, c);
      }
    }
  }
}
