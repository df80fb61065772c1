/** The sliding-window limiter of app/discord_security.py. */
module RateLimiter {
  import opened Basics

  /** The timestamps still inside the window at `now`. */
  function Prune(calls: seq<real>, now: real, window: real): seq<real> {
    if calls == [] then []
    else if now - calls[0] < window then [calls[0]] + Prune(calls[1..], now, window)
    else Prune(calls[1..], now, window)
  }

  /** The positions of the calls inside the window. */
  function InWindow(calls: seq<real>, now: real, window: real): set<nat> {
    set i: nat | i < |calls| && now - calls[i] < window
  }

  lemma {:induction false} PruneAppend(a: seq<real>, b: seq<real>, now: real, window: real)
    ensures Prune(a + b, now, window) == Prune(a, now, window) + Prune(b, now, window)
  {
    if a == [] {
      assert a + b == b;
    } else {
      assert (a + b)[1..] == a[1..] + b;
      PruneAppend(a[1..], b, now, window);
    }
  }

  /** What is kept are the calls inside the window: each of them and no other. */
  lemma {:induction false} PruneIsTheWindow(calls: seq<real>, now: real, window: real)
    ensures |Prune(calls, now, window)| == |InWindow(calls, now, window)|
    ensures forall x :: x in Prune(calls, now, window) <==> x in calls && now - x < window
    decreases |calls|
  {
    if calls != [] {
      var n := |calls| - 1;
      PruneIsTheWindow(calls[..n], now, window);
      PruneAppend(calls[..n], [calls[n]], now, window);
      assert calls == calls[..n] + [calls[n]];
      assert InWindow(calls, now, window)
          == InWindow(calls[..n], now, window) + if now - calls[n] < window then {n} else {};
    }
  }

  /** Pruning early loses nothing that a later pruning would keep. */
  lemma {:induction false} PruneTwice(calls: seq<real>, early: real, late: real, window: real)
    requires early <= late
    ensures Prune(Prune(calls, early, window), late, window) == Prune(calls, late, window)
  {
    if calls != [] {
      PruneTwice(calls[1..], early, late, window);
      if early - calls[0] < window {
        assert Prune(calls, early, window)[1..] == Prune(calls[1..], early, window);
      }
    }
  }

  lemma {:induction false} PruneKeepsAll(calls: seq<real>, now: real, window: real)
    requires forall i :: 0 <= i < |calls| ==> now - calls[i] < window
    ensures Prune(calls, now, window) == calls
  {
    if calls != [] {
      PruneKeepsAll(calls[1..], now, window);
    }
  }

  ghost predicate Sorted(times: seq<real>) {
    forall i, j :: 0 <= i < j < |times| ==> times[i] <= times[j]
  }

  /** Any accepted call and the one `maxCalls` places later are a window apart. */
  ghost predicate Spaced(times: seq<real>, maxCalls: int, window: real) {
    && Sorted(times)
    && (maxCalls <= 0 ==> times == [])
    && forall i, j :: 0 <= i && j == i + maxCalls && j < |times| && maxCalls > 0 ==> times[j] - times[i] >= window
  }

  /** The test of `allow` on a full history of accepted calls. */
  predicate Admits(history: seq<real>, now: real, maxCalls: int, window: real) {
    |Prune(history, now, window)| < maxCalls
  }

  /** A call that is tested at `now` and, when accepted, recorded at `recorded`. */
  function Accept(history: seq<real>, now: real, recorded: real, maxCalls: int, window: real): seq<real> {
    if Admits(history, now, maxCalls, window) then history + [recorded] else history
  }

  lemma SuffixIsLater(history: seq<real>, i: nat)
    requires Sorted(history) && i < |history|
    ensures forall j :: 0 <= j < |history[i..]| ==> history[i] <= history[i..][j]
  {
  }

  /** Everything from a call inside the window on is kept. */
  lemma RecentStays(history: seq<real>, i: nat, now: real, window: real)
    requires Sorted(history) && i < |history| && now - history[i] < window
    ensures |Prune(history, now, window)| >= |history| - i
  {
    SuffixIsLater(history, i);
    PruneKeepsAll(history[i..], now, window);
    PruneAppend(history[..i], history[i..], now, window);
    assert history == history[..i] + history[i..];
  }

  /** When the limiter admits a call, the accepted one `maxCalls` places before it has left the window. */
  lemma AdmittedAfterWindow(history: seq<real>, now: real, maxCalls: int, window: real)
    requires Sorted(history) && Admits(history, now, maxCalls, window) && |history| >= maxCalls
    ensures now - history[|history| - maxCalls] >= window
  {
    var i := |history| - maxCalls;
    if now - history[i] < window {
      RecentStays(history, i, now, window);
    }
  }

  lemma AcceptKeepsSpaced(history: seq<real>, now: real, recorded: real, maxCalls: int, window: real)
    requires Spaced(history, maxCalls, window) && now <= recorded
    requires forall i :: 0 <= i < |history| ==> history[i] <= now
    ensures Spaced(Accept(history, now, recorded, maxCalls, window), maxCalls, window)
  {
    if Admits(history, now, maxCalls, window) {
      assert maxCalls > 0;
      var next := history + [recorded];
      forall i, j | 0 <= i && j == i + maxCalls && j < |next| ensures next[j] - next[i] >= window {
        if j == |history| {
          AdmittedAfterWindow(history, now, maxCalls, window);
        }
      }
    }
  }

  /** The positions of the calls in the half-open interval of one window length that starts at `from`. */
  function InInterval(times: seq<real>, from: real, window: real): set<nat> {
    set i: nat | i < |times| && from <= times[i] < from + window
  }

  lemma {:induction false} RangeSize(a: set<nat>, lo: nat, hi: nat)
    requires lo <= hi && forall i :: i in a ==> lo <= i < hi
    ensures |a| <= hi - lo
    decreases hi - lo
  {
    if lo == hi {
      assert a == {};
    } else {
      RangeSize(a - {hi - 1}, lo, hi - 1);
      assert hi - 1 in a ==> |a| == |a - {hi - 1}| + 1;
      assert hi - 1 !in a ==> a - {hi - 1} == a;
    }
  }

  lemma FarApart(times: seq<real>, maxCalls: int, window: real, i: nat, j: nat)
    requires Spaced(times, maxCalls, window) && j < |times| && i + maxCalls <= j
    ensures times[j] - times[i] >= window
  {
    assert times[i + maxCalls] - times[i] >= window;
  }

  /** No half-open interval of one window length holds more than `maxCalls` accepted calls. */
  lemma {:induction false} SpacedBoundsEveryInterval(times: seq<real>, maxCalls: int, window: real, from: real)
    requires Spaced(times, maxCalls, window)
    ensures |InInterval(times, from, window)| <= Max(maxCalls, 0)
  {
    var a := InInterval(times, from, window);
    if a == {} {
      return;
    }
    var first := EarliestOf(a);
    forall i | i in a ensures i < first + maxCalls {
      if i >= first + maxCalls {
        FarApart(times, maxCalls, window, first, i);
      }
    }
    RangeSize(a, first, first + maxCalls);
  }

  lemma {:induction false} EarliestOf(a: set<nat>) returns (first: nat)
    requires a != {}
    ensures first in a && forall i :: i in a ==> first <= i
    decreases |a|
  {
    var x :| x in a;
    first := x;
    if a - {x} != {} {
      var other := EarliestOf(a - {x});
      first := Min(x, other);
    }
    assert forall i :: i in a ==> i == x || i in a - {x};
  }

  /** One key's calls: the instants of the test and of the recording. */
  datatype Call = Call(now: real, recorded: real)

  ghost predicate Monotone(calls: seq<Call>) {
    && (forall i :: 0 <= i < |calls| ==> calls[i].now <= calls[i].recorded)
    && forall i, j :: 0 <= i < j < |calls| ==> calls[i].recorded <= calls[j].now
  }

  function Replay(calls: seq<Call>, maxCalls: int, window: real): seq<real> {
    if calls == [] then []
    else
      var last := calls[|calls| - 1];
      Accept(Replay(calls[..|calls| - 1], maxCalls, window), last.now, last.recorded, maxCalls, window)
  }

  /** A call is recorded in the history if and only if fewer than `maxCalls` recorded ones lie inside the window. */
  lemma ReplayRecordsExactlyWhen(calls: seq<Call>, call: Call, maxCalls: int, window: real)
    ensures var before := Replay(calls, maxCalls, window);
      Replay(calls + [call], maxCalls, window)
        == before + if |InWindow(before, call.now, window)| < maxCalls then [call.recorded] else []
  {
    assert (calls + [call])[..|calls|] == calls;
    PruneIsTheWindow(Replay(calls, maxCalls, window), call.now, window);
  }

  lemma {:induction false} ReplayIsSpaced(calls: seq<Call>, maxCalls: int, window: real)
    requires Monotone(calls)
    ensures Spaced(Replay(calls, maxCalls, window), maxCalls, window)
    ensures forall i :: 0 <= i < |Replay(calls, maxCalls, window)| ==>
      calls != [] && Replay(calls, maxCalls, window)[i] <= calls[|calls| - 1].recorded
    decreases |calls|
  {
    if calls != [] {
      var front, last := calls[..|calls| - 1], calls[|calls| - 1];
      ReplayIsSpaced(front, maxCalls, window);
      AcceptKeepsSpaced(Replay(front, maxCalls, window), last.now, last.recorded, maxCalls, window);
    }
  }

  /** The limiter's promise, for any monotone clock, any sequence of calls and any interval. */
  lemma EveryWindowIsBounded(calls: seq<Call>, maxCalls: int, window: real, from: real)
    requires Monotone(calls)
    ensures |InInterval(Replay(calls, maxCalls, window), from, window)| <= Max(maxCalls, 0)
  {
    ReplayIsSpaced(calls, maxCalls, window);
    SpacedBoundsEveryInterval(Replay(calls, maxCalls, window), maxCalls, window, from);
  }

  function Key(userId: string, command: string): string {
    userId + ":" + command
  }

  /** Users whose id has no colon never share a window, and neither do their commands. */
  lemma KeysAreSeparate(user1: string, command1: string, user2: string, command2: string)
    requires ':' !in user1 && ':' !in user2 && Key(user1, command1) == Key(user2, command2)
    ensures user1 == user2 && command1 == command2
  {
    var k1, k2 := Key(user1, command1), Key(user2, command2);
    assert k1[|user1|] == ':' && k2[|user2|] == ':';
    assert forall i :: 0 <= i < |user1| ==> k1[i] == user1[i];
    assert forall i :: 0 <= i < |user2| ==> k2[i] == user2[i];
    assert |user1| == |user2|;
    assert user1 == k1[..|user1|] && user2 == k2[..|user2|];
    assert command1 == k1[|user1| + 1..] && command2 == k2[|user2| + 1..];
  }

  /** A kept list that answers like the full history from the instant `clock` on. */
  ghost predicate Stands(kept: seq<real>, history: seq<real>, clock: real, maxCalls: int, window: real) {
    && (forall now :: now >= clock ==> Prune(kept, now, window) == Prune(history, now, window))
    && Spaced(history, maxCalls, window)
    && forall i :: 0 <= i < |history| ==> history[i] <= clock
  }

  lemma StandsLater(kept: seq<real>, history: seq<real>, early: real, late: real, maxCalls: int, window: real)
    requires Stands(kept, history, early, maxCalls, window) && early <= late
    ensures Stands(kept, history, late, maxCalls, window)
  {
  }

  lemma StandsPruned(kept: seq<real>, history: seq<real>, clock: real, now: real, maxCalls: int, window: real)
    requires Stands(kept, history, clock, maxCalls, window) && clock <= now
    ensures Prune(kept, now, window) == Prune(history, now, window)
    ensures Stands(Prune(kept, now, window), history, now, maxCalls, window)
  {
    forall late | late >= now ensures Prune(Prune(kept, now, window), late, window) == Prune(history, late, window) {
      PruneTwice(kept, now, late, window);
    }
  }

  lemma StandsExtended(kept: seq<real>, history: seq<real>, now: real, recorded: real, maxCalls: int, window: real)
    requires Stands(kept, history, now, maxCalls, window) && now <= recorded
    requires Admits(history, now, maxCalls, window)
    ensures Stands(kept + [recorded], history + [recorded], recorded, maxCalls, window)
  {
    AcceptKeepsSpaced(history, now, recorded, maxCalls, window);
    forall late | late >= recorded
      ensures Prune(kept + [recorded], late, window) == Prune(history + [recorded], late, window)
    {
      PruneAppend(kept, [recorded], late, window);
      PruneAppend(history, [recorded], late, window);
    }
  }

  ghost predicate AllLeft(history: seq<real>, now: real, window: real) {
    forall i :: 0 <= i < |history| ==> now - history[i] >= window
  }

  class CommandRateLimiter {
    const maxCalls: int
    const windowSeconds: real
    /** Pruned timestamps per key. */
    var calls: map<string, seq<real>>
    /** Everything ever accepted per key, and the latest instant read from the clock. */
    ghost var accepted: map<string, seq<real>>
    ghost var clock: real

    function CallsOf(key: string): seq<real>
      reads this`calls
    {
      if key in calls then calls[key] else []
    }

    ghost function History(key: string): seq<real>
      reads this`accepted
    {
      if key in accepted then accepted[key] else []
    }

    /** The pruned list gives the same answer as the full history from now on. */
    ghost predicate Agrees(key: string)
      reads this
    {
      Stands(CallsOf(key), History(key), clock, maxCalls, windowSeconds)
    }

    ghost predicate Valid()
      reads this
    {
      forall key :: Agrees(key)
    }

    constructor (maxCalls: int, windowSeconds: real)
      ensures Valid() && accepted == map[]
      ensures this.maxCalls == maxCalls && this.windowSeconds == windowSeconds
    {
      this.maxCalls, this.windowSeconds := maxCalls, windowSeconds;
      calls, accepted, clock := map[], map[], 0.0;
    }

    method Cleanup(key: string, now: real)
      requires Valid() && clock <= now
      modifies this`calls, this`clock
      ensures Valid() && clock == now
      ensures CallsOf(key) == Prune(History(key), now, windowSeconds)
      ensures forall other :: other != key ==> CallsOf(other) == old(CallsOf(other))
    {
      assert Agrees(key);
      StandsPruned(CallsOf(key), History(key), clock, now, maxCalls, windowSeconds);
      calls := calls[key := Prune(CallsOf(key), now, windowSeconds)];
      clock := now;
      forall other ensures Agrees(other) {
        if other != key {
          assert old(Agrees(other));
          StandsLater(CallsOf(other), History(other), old(clock), now, maxCalls, windowSeconds);
        }
      }
    }

    /** The write of an admitted call. */
    method Record(key: string, recorded: real)
      requires Valid() && clock <= recorded && Admits(History(key), clock, maxCalls, windowSeconds)
      modifies this
      ensures Valid() && clock == recorded
      ensures History(key) == old(History(key)) + [recorded]
      ensures forall other :: other != key ==> History(other) == old(History(other))
    {
      assert Agrees(key);
      StandsExtended(CallsOf(key), History(key), clock, recorded, maxCalls, windowSeconds);
      calls := calls[key := CallsOf(key) + [recorded]];
      accepted := accepted[key := History(key) + [recorded]];
      clock := recorded;
      forall other ensures Agrees(other) {
        if other != key {
          assert old(Agrees(other));
          StandsLater(CallsOf(other), History(other), old(clock), recorded, maxCalls, windowSeconds);
        }
      }
    }

    /** Accepts exactly when fewer than `maxCalls` accepted calls of this key lie inside the window, and then records
        the call; with a positive limit a user whose calls are all a window old is always accepted. */
    method Allow(userId: string, command: string, now: real, recorded: real) returns (allowed: bool)
      requires Valid() && clock <= now <= recorded
      modifies this
      ensures Valid()
      ensures var key := Key(userId, command);
        && (allowed <==> |InWindow(old(History(key)), now, windowSeconds)| < maxCalls)
        && History(key) == old(History(key)) + (if allowed then [recorded] else [])
        && forall other :: other != key ==> History(other) == old(History(other))
      ensures maxCalls >= 1 && AllLeft(old(History(Key(userId, command))), now, windowSeconds) ==> allowed
      ensures clock == if allowed then recorded else now
    {
      var key := Key(userId, command);
      PruneIsTheWindow(History(key), now, windowSeconds);
      Cleanup(key, now);
      allowed := |CallsOf(key)| < maxCalls;
      if allowed {
        Record(key, recorded);
      }
    }

    /** What is left of the limit after the accepted calls inside the window: positive exactly when `Allow` would
        accept at the same instant, and the whole limit once all calls are a window old. */
    method Remaining(userId: string, command: string, now: real) returns (n: nat)
      requires Valid() && clock <= now
      modifies this`calls, this`clock
      ensures Valid() && clock == now
      ensures n == Max(0, maxCalls - |InWindow(History(Key(userId, command)), now, windowSeconds)|)
      ensures maxCalls >= 0 && AllLeft(History(Key(userId, command)), now, windowSeconds) ==> n == maxCalls
    {
      var key := Key(userId, command);
      PruneIsTheWindow(History(key), now, windowSeconds);
      Cleanup(key, now);
      n := Max(0, maxCalls - |CallsOf(key)|);
    }
  }
}
