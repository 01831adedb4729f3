/** The in-memory sliding-window rate limiter: a trimmed per-key list stands in for the whole admission history. */
module RateLimit {

  type Key = string

  /** `Crashed` is the index error on an empty list that a limit below one provokes. */
  datatype Outcome = Admitted | Limited(retryAfter: int) | Crashed

  /** The number of times in s between lo and hi, both included. */
  function Within(s: seq<real>, lo: real, hi: real): nat {
    if s == [] then 0
    else Within(s[..|s| - 1], lo, hi) + if lo <= s[|s| - 1] <= hi then 1 else 0
  }

  /** The admission times of one key, oldest first. */
  function Times(history: seq<(Key, real)>, key: Key): seq<real> {
    if history == [] then []
    else
      Times(history[..|history| - 1], key)
      + if history[|history| - 1].0 == key then [history[|history| - 1].1] else []
  }

  ghost predicate Sorted(s: seq<real>) {
    forall i, j :: 0 <= i < j < |s| ==> s[i] <= s[j]
  }

  ghost predicate AtMost(s: seq<real>, hi: real) {
    forall i :: 0 <= i < |s| ==> s[i] <= hi
  }

  ghost predicate AtLeast(s: seq<real>, lo: real) {
    forall i :: 0 <= i < |s| ==> s[i] >= lo
  }

  ghost predicate Below(s: seq<real>, lo: real) {
    forall i :: 0 <= i < |s| ==> s[i] < lo
  }

  lemma {:induction false} WithinConcat(a: seq<real>, b: seq<real>, lo: real, hi: real)
    ensures Within(a + b, lo, hi) == Within(a, lo, hi) + Within(b, lo, hi)
    decreases |b|
  {
    if b == [] {
      assert a + b == a;
    } else {
      WithinConcat(a, b[..|b| - 1], lo, hi);
      assert (a + b)[..|a + b| - 1] == a + b[..|b| - 1];
    }
  }

  lemma {:induction false} WithinAllOrNone(s: seq<real>, lo: real, hi: real)
    ensures AtLeast(s, lo) && AtMost(s, hi) ==> Within(s, lo, hi) == |s|
    ensures Below(s, lo) ==> Within(s, lo, hi) == 0
    decreases |s|
  {
    if s != [] {
      WithinAllOrNone(s[..|s| - 1], lo, hi);
    }
  }

  /** Moving the window down to start earlier, over times it does not end before, loses nothing. */
  lemma {:induction false} WithinMonotone(s: seq<real>, lo: real, hi: real, lo': real, hi': real)
    requires lo' <= lo && AtMost(s, hi')
    ensures Within(s, lo, hi) <= Within(s, lo', hi')
    decreases |s|
  {
    if s != [] {
      WithinMonotone(s[..|s| - 1], lo, hi, lo', hi');
    }
  }

  ghost predicate Until(history: seq<(Key, real)>, clock: real) {
    forall i :: 0 <= i < |history| ==> history[i].1 <= clock
  }

  lemma {:induction false} TimesUntil(history: seq<(Key, real)>, key: Key, clock: real)
    requires Until(history, clock)
    ensures AtMost(Times(history, key), clock)
    decreases |history|
  {
    if history != [] {
      TimesUntil(history[..|history| - 1], key, clock);
    }
  }

  /** In time order, every admission found fewer than `max` admissions of its key in the window that ends with it. */
  ghost predicate Lawful(history: seq<(Key, real)>, max: int, window: real) {
    history != [] ==>
      var init, last := history[..|history| - 1], history[|history| - 1];
      && Lawful(init, max, window)
      && Until(init, last.1)
      && Within(Times(init, last.0), last.1 - window, last.1) < max
  }

  /** No closed window of the configured length, anywhere in a run, holds more than `max` admissions of one key. */
  lemma {:induction false} NoWindowExceedsLimit(history: seq<(Key, real)>, max: int, window: real, key: Key, t: real)
    requires Lawful(history, max, window) && max >= 0
    ensures Within(Times(history, key), t, t + window) <= max
    decreases |history|
  {
    if history != [] {
      var init, last := history[..|history| - 1], history[|history| - 1];
      NoWindowExceedsLimit(init, max, window, key, t);
      if last.0 == key {
        assert Times(history, key)[..|Times(history, key)| - 1] == Times(init, key);
        if t <= last.1 <= t + window {
          TimesUntil(init, key, last.1);
          WithinMonotone(Times(init, key), t, t + window, last.1 - window, last.1);
        }
      } else {
        assert Times(history, key) == Times(init, key);
      }
    }
  }

  /** The positions of a key's admissions within a closed span of time. */
  ghost function InWindow(history: seq<(Key, real)>, key: Key, from: real, to: real): set<nat> {
    set i | 0 <= i < |history| && history[i].0 == key && from <= history[i].1 <= to
  }

  lemma InWindowPush(history: seq<(Key, real)>, one: (Key, real), key: Key, from: real, to: real)
    ensures |InWindow(history + [one], key, from, to)|
         == |InWindow(history, key, from, to)| + if one.0 == key && from <= one.1 <= to then 1 else 0
  {
    assert InWindow(history + [one], key, from, to)
        == InWindow(history, key, from, to) + if one.0 == key && from <= one.1 <= to then {|history|} else {};
  }

  lemma {:induction false} WithinCounts(history: seq<(Key, real)>, key: Key, from: real, to: real)
    ensures Within(Times(history, key), from, to) == |InWindow(history, key, from, to)|
    decreases |history|
  {
    if history == [] {
      assert InWindow([], key, from, to) == {};
    } else {
      var init, last := history[..|history| - 1], history[|history| - 1];
      WithinCounts(init, key, from, to);
      InWindowPush(init, last, key, from, to);
      assert history == init + [last];
      TimesPush(init, last.0, last.1, key);
      WithinConcat(Times(init, key), [last.1], from, to);
      WithinOne(last.1, from, to);
      hide InWindow, Times, Within;
    }
  }

  lemma WithinOne(t: real, from: real, to: real)
    ensures Within([t], from, to) == if from <= t <= to then 1 else 0
  {
    assert [t][..0] == [];
  }

  /** The first time of a list. */
  function Oldest(log: seq<real>, now: real): real {
    if log == [] then now else log[0]
  }

  class Limiter {
    const maxRequests: int
    const windowSeconds: nat
    var requestLog: map<Key, seq<real>>
    ghost var history: seq<(Key, real)>
    ghost var clock: real

    function Log(key: Key): seq<real>
      reads this
    {
      LogOf(requestLog, key)
    }

    /** The list of a key is the end of its admission times; what was trimmed is out of any later window. */
    ghost predicate Valid()
      reads this
    {
      && Lawful(history, maxRequests, windowSeconds as real)
      && Until(history, clock)
      && forall key :: Trimmed(Times(history, key), Log(key), clock - windowSeconds as real)
    }

    constructor (maxRequests: int, windowSeconds: nat, start: real)
      ensures Valid() && history == [] && clock == start
      ensures this.maxRequests == maxRequests && this.windowSeconds == windowSeconds
    {
      this.maxRequests, this.windowSeconds := maxRequests, windowSeconds;
      requestLog, history, clock := map[], [], start;
      new;
      NothingTrimmed(start - windowSeconds as real);
    }

    /** Drops the times before the window; a key left without times loses its entry. */
    method Cleanup(key: Key, now: real)
      modifies this`requestLog
      ensures Log(key) == DropBefore(old(Log(key)), now - windowSeconds as real)
      ensures forall k :: k != key ==> Log(k) == old(Log(k))
      ensures key in requestLog ==> requestLog[key] != []
    {
      var cutoff := now - windowSeconds as real;
      var timestamps := Log(key);
      var idx := 0;
      while idx < |timestamps| && timestamps[idx] < cutoff
        invariant 0 <= idx <= |timestamps|
        invariant DropBefore(timestamps, cutoff) == DropBefore(timestamps[idx..], cutoff)
      {
        assert timestamps[idx..][1..] == timestamps[idx + 1..];
        idx := idx + 1;
      }
      var trimmed := timestamps[idx..];
      if trimmed != [] {
        requestLog := requestLog[key := trimmed];
      } else {
        requestLog := requestLog - {key};
      }
    }

    /** Admission decides as counting the key's whole history would, and touches no other key. */
    method Admit(key: Key, now: real) returns (outcome: Outcome)
      requires Valid() && now >= clock
      modifies this
      ensures Valid() && clock == now
      ensures outcome == Admitted <==>
        Within(Times(old(history), key), now - windowSeconds as real, now) < maxRequests
      ensures outcome == Admitted <==> |InWindow(old(history), key, now - windowSeconds as real, now)| < maxRequests
      ensures outcome.Limited? ==>
        var wait := (windowSeconds as real - (now - Oldest(Log(key), now))).Floor;
        Log(key) != [] && outcome.retryAfter == if wait < 1 then 1 else wait
      ensures history == if outcome == Admitted then old(history) + [(key, now)] else old(history)
      ensures outcome == Crashed <==>
        maxRequests <= Within(Times(old(history), key), now - windowSeconds as real, now) == 0
      ensures outcome == Crashed <==> maxRequests < 1
      ensures outcome.Limited? ==> 1 <= outcome.retryAfter <= if windowSeconds < 1 then 1 else windowSeconds
      ensures forall k :: k != key ==> Log(k) == old(Log(k))
    {
      hide Within, Times, Lawful, Trimmed, DropBefore;
      ghost var before, window := history, windowSeconds as real;
      CrashesBelowOne(before, maxRequests, window, key, now);
      WithinCounts(before, key, now - window, now);
      CleanupKeepsCount(before, maxRequests, window, key, clock, Log(key), now);
      Cleanup(key, now);
      TrimmedLater(before, key, clock - window, now - window, requestLog);
      clock := now;
      requestLog := requestLog[key := Log(key)];
      if |requestLog[key]| >= maxRequests {
        if requestLog[key] == [] {
          return Crashed;
        }
        var retryAfter := (windowSeconds as real - (now - requestLog[key][0])).Floor;
        return Limited(if retryAfter < 1 then 1 else retryAfter);
      }
      AdmitLawful(before, maxRequests, window, key, now, requestLog);
      requestLog := requestLog[key := requestLog[key] + [now]];
      history := history + [(key, now)];
      outcome := Admitted;
    }
  }

  /** Under a limit below one nothing is ever admitted, so every window is empty. */
  lemma CrashesBelowOne(history: seq<(Key, real)>, max: int, window: real, key: Key, now: real)
    requires Lawful(history, max, window)
    ensures max < 1 <==> max <= Within(Times(history, key), now - window, now) == 0
  {
  }

  /** The very first request under a limit of zero raises instead of being turned away. */
  method FirstRequestUnderZero() returns (outcome: Outcome)
    ensures outcome == Crashed
  {
    var limiter := new Limiter(0, 60, 0.0);
    outcome := limiter.Admit("ip:unknown", 0.0);
  }

  function DropBefore(s: seq<real>, cutoff: real): seq<real> {
    if s != [] && s[0] < cutoff then DropBefore(s[1..], cutoff) else s
  }

  /** `log` ends `times`, and everything before it is older than the cutoff. */
  ghost predicate Trimmed(times: seq<real>, log: seq<real>, cutoff: real) {
    exists dropped :: times == dropped + log && Below(dropped, cutoff)
  }

  function LogOf(requestLog: map<Key, seq<real>>, key: Key): seq<real> {
    if key in requestLog then requestLog[key] else []
  }

  lemma {:induction false} TimesSorted(history: seq<(Key, real)>, max: int, window: real, key: Key)
    requires Lawful(history, max, window)
    ensures Sorted(Times(history, key))
    decreases |history|
  {
    if history != [] {
      var init, last := history[..|history| - 1], history[|history| - 1];
      TimesSorted(init, max, window, key);
      TimesUntil(init, key, last.1);
    }
  }

  lemma SortedTail(s: seq<real>)
    requires Sorted(s) && s != []
    ensures Sorted(s[1..]) && AtLeast(s, s[0])
  {
  }

  lemma BelowCons(x: real, s: seq<real>, lo: real)
    requires x < lo && Below(s, lo)
    ensures Below([x] + s, lo)
  {
  }

  lemma {:induction false} DropBeforeSorted(s: seq<real>, cutoff: real) returns (dropped: seq<real>)
    requires Sorted(s)
    ensures s == dropped + DropBefore(s, cutoff)
    ensures Below(dropped, cutoff) && AtLeast(DropBefore(s, cutoff), cutoff)
    decreases |s|
  {
    if s != [] {
      SortedTail(s);
    }
    if s != [] && s[0] < cutoff {
      hide Sorted, Below, AtLeast;
      var rest := DropBeforeSorted(s[1..], cutoff);
      BelowCons(s[0], rest, cutoff);
      dropped := [s[0]] + rest;
      assert s == [s[0]] + s[1..];
    } else {
      hide Sorted;
      dropped := [];
    }
  }

  /** The trimmed list is as long as the count of the whole history's window. */
  lemma CleanupKeepsCount(history: seq<(Key, real)>, max: int, window: real, key: Key, clock: real, log: seq<real>, now: real)
    requires Lawful(history, max, window) && Until(history, clock)
    requires clock <= now && Trimmed(Times(history, key), log, clock - window)
    ensures Trimmed(Times(history, key), DropBefore(log, now - window), now - window)
    ensures |DropBefore(log, now - window)| == Within(Times(history, key), now - window, now)
    ensures AtLeast(DropBefore(log, now - window), now - window) && AtMost(DropBefore(log, now - window), now)
  {
    TimesSorted(history, max, window, key);
    TimesUntil(history, key, clock);
    TrimmedCount(Times(history, key), log, clock - window, now - window, now);
  }

  lemma NothingTrimmed(cutoff: real)
    ensures forall key :: Trimmed(Times([], key), LogOf(map[], key), cutoff)
  {
    var none: seq<real> := [];
    assert none == none + none && Below(none, cutoff);
  }

  lemma SuffixKeeps(a: seq<real>, b: seq<real>, hi: real)
    ensures Sorted(a + b) ==> Sorted(b)
    ensures AtMost(a + b, hi) ==> AtMost(b, hi)
  {
    assert forall i :: 0 <= i < |b| ==> b[i] == (a + b)[|a| + i];
  }

  lemma BelowConcat(a: seq<real>, b: seq<real>, lo: real, lo': real)
    requires Below(a, lo) && Below(b, lo') && lo <= lo'
    ensures Below(a + b, lo')
  {
  }

  lemma TrimmedCount(times: seq<real>, log: seq<real>, cutoff0: real, cutoff: real, now: real)
    requires Sorted(times) && AtMost(times, now) && cutoff0 <= cutoff
    requires Trimmed(times, log, cutoff0)
    ensures Trimmed(times, DropBefore(log, cutoff), cutoff)
    ensures |DropBefore(log, cutoff)| == Within(times, cutoff, now)
    ensures AtLeast(DropBefore(log, cutoff), cutoff) && AtMost(DropBefore(log, cutoff), now)
  {
    var earlier :| times == earlier + log && Below(earlier, cutoff0);
    hide *;
    SuffixKeeps(earlier, log, now);
    var dropped := DropBeforeSorted(log, cutoff);
    BelowConcat(earlier, dropped, cutoff0, cutoff);
    Reassociate(earlier, dropped, DropBefore(log, cutoff));
    CountKept(earlier + dropped, DropBefore(log, cutoff), cutoff, now);
  }

  lemma Reassociate(a: seq<real>, b: seq<real>, c: seq<real>)
    ensures a + (b + c) == (a + b) + c
  {
  }

  lemma CountKept(dropped: seq<real>, kept: seq<real>, cutoff: real, now: real)
    requires Below(dropped, cutoff) && AtLeast(kept, cutoff) && AtMost(dropped + kept, now)
    ensures Trimmed(dropped + kept, kept, cutoff)
    ensures |kept| == Within(dropped + kept, cutoff, now) && AtMost(kept, now)
  {
    hide Within;
    SuffixKeeps(dropped, kept, now);
    WithinConcat(dropped, kept, cutoff, now);
    WithinAllOrNone(dropped, cutoff, now);
    WithinAllOrNone(kept, cutoff, now);
    TrimmedIntro(dropped, kept, cutoff);
  }

  lemma TrimmedIntro(dropped: seq<real>, log: seq<real>, cutoff: real)
    requires Below(dropped, cutoff)
    ensures Trimmed(dropped + log, log, cutoff)
  {
  }

  /** Later cutoffs keep every other key's list trimmed. */
  lemma TrimmedLater(history: seq<(Key, real)>, key: Key, cutoff0: real, cutoff: real, requestLog: map<Key, seq<real>>)
    requires cutoff0 <= cutoff
    ensures forall k :: Trimmed(Times(history, k), LogOf(requestLog, k), cutoff0) ==>
                        Trimmed(Times(history, k), LogOf(requestLog, k), cutoff)
  {
  }

  lemma TimesPush(history: seq<(Key, real)>, key: Key, now: real, k: Key)
    ensures Times(history + [(key, now)], k) == if k == key then Times(history, k) + [now] else Times(history, k)
  {
    assert (history + [(key, now)])[..|history|] == history;
  }

  lemma AdmitLawful(history: seq<(Key, real)>, max: int, window: real, key: Key, now: real, requestLog: map<Key, seq<real>>)
    requires Lawful(history, max, window) && Until(history, now)
    requires Within(Times(history, key), now - window, now) < max
    requires key in requestLog
    requires forall k :: Trimmed(Times(history, k), LogOf(requestLog, k), now - window)
    ensures Lawful(history + [(key, now)], max, window)
    ensures forall k :: Trimmed(Times(history + [(key, now)], k),
                                LogOf(requestLog[key := requestLog[key] + [now]], k), now - window)
  {
    hide *;
    LawfulPush(history, max, window, key, now);
    forall k
      ensures Trimmed(Times(history + [(key, now)], k), LogOf(requestLog[key := requestLog[key] + [now]], k), now - window)
    {
      TimesPush(history, key, now, k);
      LogPush(requestLog, key, now, k);
      if k == key {
        TrimmedPush(Times(history, k), LogOf(requestLog, key), now - window, now);
      }
    }
  }

  lemma LawfulPush(history: seq<(Key, real)>, max: int, window: real, key: Key, now: real)
    requires Lawful(history, max, window) && Until(history, now)
    requires Within(Times(history, key), now - window, now) < max
    ensures Lawful(history + [(key, now)], max, window)
  {
    hide Within, Times, Until;
    assert (history + [(key, now)])[..|history|] == history;
  }

  lemma LogPush(requestLog: map<Key, seq<real>>, key: Key, now: real, k: Key)
    requires key in requestLog
    ensures LogOf(requestLog[key := requestLog[key] + [now]], k)
         == if k == key then LogOf(requestLog, key) + [now] else LogOf(requestLog, k)
  {
  }

  lemma TrimmedPush(times: seq<real>, log: seq<real>, cutoff: real, now: real)
    requires Trimmed(times, log, cutoff)
    ensures Trimmed(times + [now], log + [now], cutoff)
  {
    var dropped :| times == dropped + log && Below(dropped, cutoff);
    assert times + [now] == dropped + (log + [now]);
  }
}
