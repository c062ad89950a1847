/** Per-socket token buckets (src/limits.rs). Times are seconds; `f64` is modelled by `real`. */
module Limits {
  import opened Common

  datatype Bucket = Bucket(capacity: nat, tokens: real, refill: real, last: real) {
    ghost predicate Valid() {
      0.0 <= tokens <= capacity as real && 0.0 <= refill
    }
  }

  function NewBucket(capacity: nat, refill: real, now: real): Bucket {
    Bucket(capacity, capacity as real, refill, now)
  }

  /** Tokens available at `now`, before anything is spent. */
  function Available(b: Bucket, now: real): real {
    var elapsed := if now > b.last then now - b.last else 0.0;
    Min(b.tokens + elapsed * b.refill, b.capacity as real)
  }

  /** The bucket after a visit at `now` that spends one token or none. */
  function Visit(b: Bucket, now: real, spend: bool): Bucket {
    b.(last := now, tokens := Available(b, now) - if spend then 1.0 else 0.0)
  }

  /** The decision `try_take_at` makes. */
  predicate Grants(b: Bucket, now: real) {
    Available(b, now) >= 1.0
  }

  class TokenBucket {
    const capacity: nat
    var tokens: real
    const refillPerSec: real
    var last: real

    ghost function State(): Bucket
      reads this
    {
      Bucket(capacity, tokens, refillPerSec, last)
    }

    constructor (capacity: nat, refillPerSec: real, now: real)
      ensures State() == NewBucket(capacity, refillPerSec, now)
      ensures this.capacity == capacity && tokens == capacity as real && this.refillPerSec == refillPerSec && last == now
    {
      this.capacity := capacity;
      this.tokens := capacity as real;
      this.refillPerSec := refillPerSec;
      this.last := now;
    }

    method TryTakeAt(now: real) returns (ok: bool)
      modifies this
      ensures ok == Grants(old(State()), now)
      ensures State() == Visit(old(State()), now, ok)
      ensures old(State()).Valid() ==> Spends(old(State()), now, ok, State())
    {
      hide Spends;
      ghost var before := State();
      var elapsed := if now > last then now - last else 0.0;
      last := now;
      tokens := Min(tokens + elapsed * refillPerSec, capacity as real);
      if before.Valid() {
        TakesExactly(before, now);
      }
      if tokens >= 1.0 {
        tokens := tokens - 1.0;
        return true;
      }
      return false;
    }
  }

  // ------------------------------------------------------------- one call

  /** What one call does, in numbers: the tokens held grow by the refill for the time since the last call,
      up to the capacity; the call is granted exactly when that makes a whole token, which it spends. A
      clock that went back refills nothing. */
  ghost predicate Spends(b: Bucket, now: real, ok: bool, after: Bucket) {
    var offered := if b.last <= now then b.tokens + b.refill * (now - b.last) else b.tokens;
    && (ok <==> b.capacity >= 1 && offered >= 1.0)
    && after.tokens == (if offered <= b.capacity as real then offered else b.capacity as real)
                       - (if ok then 1.0 else 0.0)
    && after.last == now && after.capacity == b.capacity && after.refill == b.refill
  }

  lemma TakesExactly(b: Bucket, now: real)
    requires b.Valid()
    ensures Spends(b, now, Grants(b, now), Visit(b, now, Grants(b, now)))
  {
    if b.last <= now {
      hide Available, Visit, Grants;
      AfterOneVisit(b, now, Grants(b, now));
    } else {
      assert b.tokens <= b.capacity as real;
    }
  }

  /** A drained bucket is granted again once the refill has made a token, and not before. */
  lemma DrainedRecovers(b: Bucket, now: real)
    requires b.Valid() && b.tokens == 0.0 && b.last <= now && b.capacity >= 1
    ensures Grants(b, now) <==> b.refill * (now - b.last) >= 1.0
  {
    TakesExactly(b, now);
  }

  // ------------------------------------------------------------- runs of calls

  ghost predicate NonDecreasing(times: seq<real>) {
    forall i, j :: 0 <= i <= j < |times| ==> times[i] <= times[j]
  }

  /** The bucket after `try_take_at` was called at each of `times`. */
  function After(b: Bucket, times: seq<real>): Bucket {
    if times == [] then b
    else
      var before := After(b, times[..|times| - 1]);
      var now := times[|times| - 1];
      Visit(before, now, Grants(before, now))
  }

  /** How many of those calls returned `true`. */
  function Accepted(b: Bucket, times: seq<real>): nat {
    if times == [] then 0
    else
      var before := After(b, times[..|times| - 1]);
      Accepted(b, times[..|times| - 1]) + if Grants(before, times[|times| - 1]) then 1 else 0
  }

  lemma PrefixOrdered(times: seq<real>)
    requires NonDecreasing(times) && times != []
    ensures NonDecreasing(times[..|times| - 1])
  {
  }

  /** Tokens stay in `[0, capacity]` and `last` is the time of the last call, over every run. */
  lemma {:induction false} StaysValid(b: Bucket, times: seq<real>)
    requires b.Valid()
    ensures After(b, times).Valid()
    ensures After(b, times).capacity == b.capacity && After(b, times).refill == b.refill
    ensures times != [] ==> After(b, times).last == times[|times| - 1]
  {
    if times != [] {
      StaysValid(b, times[..|times| - 1]);
      var before := After(b, times[..|times| - 1]);
      RefillStaysNonNegative(before, times[|times| - 1]);
    }
  }

  lemma RefillStaysNonNegative(b: Bucket, now: real)
    requires b.Valid()
    ensures 0.0 <= Available(b, now) <= b.capacity as real
  {
    if now > b.last {
      assert (now - b.last) * b.refill >= 0.0;
    }
  }

  ghost function Gain(refill: real, from: real, to: real): real {
    refill * (to - from)
  }

  /** Tokens earned between the first and the last of `times`, gap by gap. */
  ghost function Earned(refill: real, times: seq<real>): real {
    var n := |times| - 1;
    if n < 1 then 0.0 else Earned(refill, times[..n]) + Gain(refill, times[n - 1], times[n])
  }

  lemma {:induction false} EarnedOverWindow(refill: real, times: seq<real>)
    requires times != []
    ensures Earned(refill, times) == refill * (times[|times| - 1] - times[0])
  {
    var n := |times| - 1;
    if n >= 1 {
      EarnedOverWindow(refill, times[..n]);
      var t0, t1, t2 := times[0], times[n - 1], times[n];
      assert refill * (t2 - t0) == refill * (t1 - t0) + refill * (t2 - t1);
    }
  }

  lemma RefillIsBounded(b: Bucket, now: real)
    requires b.Valid() && b.last <= now
    ensures Available(b, now) <= b.tokens + Gain(b.refill, b.last, now)
  {
  }

  /** Every call spends what it grants: tokens left plus tokens granted never exceed the budget. */
  lemma {:induction false} Budget(b: Bucket, times: seq<real>)
    requires b.Valid() && NonDecreasing(times) && times != []
    ensures After(b, times).tokens + Accepted(b, times) as real
              <= b.capacity as real + Earned(b.refill, times)
  {
    hide Available, Grants, Gain;
    var n := |times| - 1;
    var prefix, now := times[..n], times[n];
    StaysValid(b, prefix);
    var before := After(b, prefix);
    RefillStaysNonNegative(before, now);
    assert After(b, times).tokens + Accepted(b, times) as real
           == Available(before, now) + Accepted(b, prefix) as real;
    if n > 0 {
      PrefixOrdered(times);
      Budget(b, prefix);
      assert before.last == times[n - 1] <= now;
      RefillIsBounded(before, now);
    }
  }

  /** Window bound: any consecutive calls, whatever came before them, grant at most
      `capacity + refill * (duration)`. */
  lemma WindowBound(b: Bucket, earlier: seq<real>, times: seq<real>)
    requires b.Valid() && NonDecreasing(times) && times != []
    ensures Accepted(After(b, earlier), times) as real
              <= b.capacity as real + b.refill * (times[|times| - 1] - times[0])
  {
    hide After, Accepted, Earned, Granted;
    StaysValid(b, earlier);
    var start := After(b, earlier);
    Budget(start, times);
    StaysValid(start, times);
    EarnedOverWindow(b.refill, times);
  }

  // -------------------------------------------- rejected calls leave no trace

  /** The times of the granted calls only. */
  function Granted(b: Bucket, times: seq<real>): seq<real> {
    if times == [] then []
    else
      var prefix := times[..|times| - 1];
      var now := times[|times| - 1];
      Granted(b, prefix) + if Grants(After(b, prefix), now) then [now] else []
  }

  /** Refilling at a moment in between does not change what is available later. */
  lemma RefillComposes(b: Bucket, mid: real, now: real)
    requires b.Valid() && b.last <= mid <= now
    ensures Available(Visit(b, mid, false), now) == Available(b, now)
  {
    assert (now - b.last) * b.refill == (mid - b.last) * b.refill + (now - mid) * b.refill;
    assert (now - mid) * b.refill >= 0.0;
  }

  /** Deleting every rejected call from a run changes no decision: at any later time the bucket
      that saw the rejected calls and the one that did not offer the same tokens. */
  lemma {:induction false} RejectedCallsLeaveNoTrace(b: Bucket, times: seq<real>, now: real)
    requires b.Valid() && NonDecreasing(times)
    requires times == [] || (b.last <= times[0] && times[|times| - 1] <= now)
    requires b.last <= now
    ensures Available(After(b, times), now) == Available(After(b, Granted(b, times)), now)
    ensures |Granted(b, times)| == Accepted(b, times)
    ensures After(b, Granted(b, times)).last <= now
    ensures Accepted(b, Granted(b, times)) == Accepted(b, times)
    decreases |times|
  {
    if times != [] {
      var n := |times| - 1;
      var prefix, t := times[..n], times[n];
      PrefixOrdered(times);
      assert n > 0 ==> prefix[0] == times[0] && prefix[n - 1] == times[n - 1];
      StaysValid(b, prefix);
      RejectedCallsLeaveNoTrace(b, prefix, t);
      var kept := Granted(b, prefix);
      StaysValid(b, kept);
      var before, thin := After(b, prefix), After(b, kept);
      if Grants(before, t) {
        assert (kept + [t])[..|kept|] == kept;
        assert After(b, kept + [t]) == Visit(thin, t, true);
        assert Visit(thin, t, true) == Visit(before, t, true);
      } else {
        assert Granted(b, times) == kept;
        RefillComposes(before, t, now);
        RejectedCallsLeaveNoTrace(b, prefix, now);
      }
    }
  }

  // ------------------------------------------------------- greedy is optimal

  /** The bucket under some other accept/reject policy. */
  function AfterPolicy(b: Bucket, times: seq<real>, choice: seq<bool>): Bucket
    requires |choice| == |times|
  {
    if times == [] then b
    else
      var n := |times| - 1;
      Visit(AfterPolicy(b, times[..n], choice[..n]), times[n], choice[n])
  }

  /** The policy only accepts when a whole token is available: same capacity, same refill. */
  ghost predicate Obeys(b: Bucket, times: seq<real>, choice: seq<bool>)
    requires |choice| == |times|
  {
    times == [] ||
    var n := |times| - 1;
    && Obeys(b, times[..n], choice[..n])
    && (choice[n] ==> Grants(AfterPolicy(b, times[..n], choice[..n]), times[n]))
  }

  function Count(choice: seq<bool>): nat {
    if choice == [] then 0
    else Count(choice[..|choice| - 1]) + if choice[|choice| - 1] then 1 else 0
  }

  /** One call: a lead of `k` accepted requests still covers the other policy's extra tokens. */
  lemma LeadSurvivesRefill(g: Bucket, h: Bucket, k: nat, now: real)
    requires g.capacity == h.capacity && g.refill == h.refill && g.last == h.last <= now
    requires h.tokens <= g.tokens + k as real
    ensures Available(h, now) <= Available(g, now) + k as real
  {
    if now > g.last {
      var gain := (now - g.last) * g.refill;
      assert Available(h, now) == Min(h.tokens + gain, h.capacity as real);
      assert Available(g, now) == Min(g.tokens + gain, g.capacity as real);
    }
  }

  /** Greedy optimality: no policy obeying the same rule accepts more than `try_take_at` does. The
      second conclusion is the potential: the other policy's extra tokens never exceed its deficit.
      As it holds for every run, it holds for every prefix of a run. */
  lemma {:induction false} GreedyIsOptimal(b: Bucket, times: seq<real>, choice: seq<bool>)
    requires b.Valid() && NonDecreasing(times) && |choice| == |times| && Obeys(b, times, choice)
    requires times != [] ==> b.last <= times[0]
    ensures Count(choice) <= Accepted(b, times)
    ensures AfterPolicy(b, times, choice).tokens
              <= After(b, times).tokens + (Accepted(b, times) - Count(choice)) as real
    ensures AfterPolicy(b, times, choice).last == After(b, times).last
    ensures AfterPolicy(b, times, choice).capacity == b.capacity
    ensures AfterPolicy(b, times, choice).refill == b.refill
  {
    if times != [] {
      var n := |times| - 1;
      var prefix, rest := times[..n], choice[..n];
      PrefixOrdered(times);
      GreedyIsOptimal(b, prefix, rest);
      StaysValid(b, prefix);
      var g, h := After(b, prefix), AfterPolicy(b, prefix, rest);
      LeadSurvivesRefill(g, h, Accepted(b, prefix) - Count(rest), times[n]);
    }
  }

  lemma {:induction false} ObeysPrefix(b: Bucket, times: seq<real>, choice: seq<bool>, k: nat)
    requires |choice| == |times| && Obeys(b, times, choice) && k <= |times|
    ensures Obeys(b, times[..k], choice[..k])
    decreases |times|
  {
    if k < |times| {
      var n := |times| - 1;
      ObeysPrefix(b, times[..n], choice[..n], k);
      assert times[..n][..k] == times[..k] && choice[..n][..k] == choice[..k];
    } else {
      assert times[..k] == times && choice[..k] == choice;
    }
  }

  /** The same at every moment of the run: the greedy count is never behind. */
  lemma GreedyNeverBehind(b: Bucket, times: seq<real>, choice: seq<bool>, k: nat)
    requires b.Valid() && NonDecreasing(times) && |choice| == |times| && Obeys(b, times, choice)
    requires times != [] ==> b.last <= times[0]
    requires k <= |times|
    ensures Count(choice[..k]) <= Accepted(b, times[..k])
  {
    ObeysPrefix(b, times, choice, k);
    GreedyIsOptimal(b, times[..k], choice[..k]);
  }

  // -------------------------------------------------- a rival that knows no bucket

  /** The rule by windows alone: among any consecutive calls at most `capacity + refill * (duration)` are
      accepted. */
  ghost predicate WithinWindows(capacity: nat, refill: real, times: seq<real>, choice: seq<bool>)
    requires |choice| == |times|
  {
    forall i, j :: 0 <= i <= j < |times| ==>
      Count(choice[i..j + 1]) as real <= capacity as real + refill * (times[j] - times[i])
  }

  /** What the window from `i` to `j` still allows. */
  ghost function Slack(b: Bucket, times: seq<real>, choice: seq<bool>, i: nat, j: nat): real
    requires i <= j < |times| == |choice|
  {
    b.capacity as real + Gain(b.refill, times[i], times[j]) - Count(choice[i..j + 1]) as real
  }

  lemma WindowHasSlack(b: Bucket, times: seq<real>, choice: seq<bool>, i: nat, j: nat)
    requires i <= j < |times| == |choice| && WithinWindows(b.capacity, b.refill, times, choice)
    ensures Slack(b, times, choice, i, j) >= 0.0
  {
    hide Count;
  }

  lemma SlackOfPrefix(b: Bucket, times: seq<real>, choice: seq<bool>, i: nat, j: nat)
    requires i <= j < |times| - 1 && |times| == |choice|
    ensures Slack(b, times[..|times| - 1], choice[..|times| - 1], i, j) == Slack(b, times, choice, i, j)
  {
    hide Count, Gain;
    assert choice[..|times| - 1][i..j + 1] == choice[i..j + 1];
  }

  lemma CountSnoc(choice: seq<bool>, i: nat, n: nat)
    requires i <= n < |choice|
    ensures Count(choice[i..n + 1]) == Count(choice[i..n]) + if choice[n] then 1 else 0
  {
    assert choice[i..n + 1][..n - i] == choice[i..n];
  }

  lemma GainGrows(refill: real, t0: real, t1: real, t2: real)
    ensures Gain(refill, t0, t1) + Gain(refill, t1, t2) == Gain(refill, t0, t2)
    ensures Gain(refill, t0, t0) == 0.0
  {
  }

  lemma SlackOfLast(b: Bucket, times: seq<real>, choice: seq<bool>)
    requires |times| == |choice| > 0
    ensures var n := |times| - 1;
            Slack(b, times, choice, n, n) == b.capacity as real - if choice[n] then 1.0 else 0.0
  {
    hide Count, Gain;
    var n := |times| - 1;
    CountSnoc(choice, n, n);
    assert choice[n..n] == [];
    assert Count([]) == 0 by { NothingAccepted(); }
    GainGrows(b.refill, times[n], times[n], times[n]);
  }

  lemma NothingAccepted()
    ensures Count([]) == 0
  {
  }

  lemma SlackSnoc(b: Bucket, times: seq<real>, choice: seq<bool>, i: nat)
    requires |times| == |choice| && i + 1 < |times|
    ensures var n := |times| - 1;
            Slack(b, times, choice, i, n) == Slack(b, times, choice, i, n - 1)
              + Gain(b.refill, times[n - 1], times[n]) - if choice[n] then 1.0 else 0.0
  {
    hide Count, Gain;
    var n := |times| - 1;
    CountSnoc(choice, i, n);
    GainGrows(b.refill, times[i], times[n - 1], times[n]);
  }

  lemma OrderedPair(times: seq<real>, i: nat, j: nat)
    requires NonDecreasing(times) && i <= j < |times|
    ensures times[i] <= times[j]
  {
  }

  lemma AfterOneVisit(b: Bucket, now: real, spend: bool)
    requires b.last <= now
    ensures var offered, after := b.tokens + Gain(b.refill, b.last, now), Visit(b, now, spend);
            && after.tokens == (if offered <= b.capacity as real then offered else b.capacity as real)
                               - (if spend then 1.0 else 0.0)
            && (Grants(b, now) <==> after.tokens + (if spend then 1.0 else 0.0) >= 1.0)
            && after.last == now && after.capacity == b.capacity && after.refill == b.refill
  {
    assert (now - b.last) * b.refill == Gain(b.refill, b.last, now);
  }

  lemma GainIsPositive(refill: real, from: real, to: real)
    requires 0.0 <= refill && from <= to
    ensures Gain(refill, from, to) >= 0.0
  {
  }

  lemma {:induction false} PolicyKeepsSetting(b: Bucket, times: seq<real>, choice: seq<bool>)
    requires |choice| == |times|
    ensures var after := AfterPolicy(b, times, choice);
            && after.capacity == b.capacity && after.refill == b.refill
            && after.last == if times == [] then b.last else times[|times| - 1]
  {
    hide Available;
    if times != [] {
      PolicyKeepsSetting(b, times[..|times| - 1], choice[..|times| - 1]);
    }
  }

  /** From a full bucket, what any policy has left is exactly the slack of one of its windows. */
  lemma {:induction false} SlackIsLeft(b: Bucket, times: seq<real>, choice: seq<bool>) returns (i: nat)
    requires b.Valid() && b.tokens == b.capacity as real && NonDecreasing(times) && |choice| == |times| > 0
    requires b.last <= times[0]
    ensures i < |times| && AfterPolicy(b, times, choice).tokens == Slack(b, times, choice, i, |times| - 1)
  {
    hide NonDecreasing, Slack, Gain, Visit, Grants;
    var n := |times| - 1;
    var prefix, rest, now := times[..n], choice[..n], times[n];
    var before := AfterPolicy(b, prefix, rest);
    PolicyKeepsSetting(b, prefix, rest);
    SlackOfLast(b, times, choice);
    i := n;
    if n == 0 {
      GainIsPositive(b.refill, b.last, now);
      AfterOneVisit(before, now, choice[n]);
    } else {
      PrefixOrdered(times);
      var k := SlackIsLeft(b, prefix, rest);
      OrderedPair(times, n - 1, n);
      AfterOneVisit(before, now, choice[n]);
      SlackOfPrefix(b, times, choice, k, n - 1);
      SlackSnoc(b, times, choice, k);
      if before.tokens + Gain(b.refill, before.last, now) <= b.capacity as real {
        i := k;
      }
    }
  }

  lemma WindowsOfPrefix(b: Bucket, times: seq<real>, choice: seq<bool>)
    requires |choice| == |times| > 0
    requires forall i, j :: 0 <= i <= j < |times| ==> Slack(b, times, choice, i, j) >= 0.0
    ensures var n := |times| - 1;
            forall i, j :: 0 <= i <= j < n ==> Slack(b, times[..n], choice[..n], i, j) >= 0.0
  {
    hide Slack;
    var n := |times| - 1;
    forall i, j | 0 <= i <= j < n ensures Slack(b, times[..n], choice[..n], i, j) >= 0.0 {
      SlackOfPrefix(b, times, choice, i, j);
    }
  }

  /** Windows say no less than the bucket: a choice within all windows never overdraws it. */
  lemma {:induction false} WindowsObey(b: Bucket, times: seq<real>, choice: seq<bool>)
    requires b.Valid() && b.tokens == b.capacity as real && NonDecreasing(times) && |choice| == |times|
    requires times != [] ==> b.last <= times[0]
    requires forall i, j :: 0 <= i <= j < |times| ==> Slack(b, times, choice, i, j) >= 0.0
    ensures Obeys(b, times, choice)
  {
    hide NonDecreasing, Slack, Gain, Visit, Grants;
    if times != [] {
      var n := |times| - 1;
      PrefixOrdered(times);
      WindowsOfPrefix(b, times, choice);
      WindowsObey(b, times[..n], choice[..n]);
      var i := SlackIsLeft(b, times, choice);
      PolicyKeepsSetting(b, times[..n], choice[..n]);
      if n > 0 {
        OrderedPair(times, n - 1, n);
      }
      AfterOneVisit(AfterPolicy(b, times[..n], choice[..n]), times[n], choice[n]);
    }
  }

  /** Greedy optimality against every rival that keeps the windows, whatever it is made of: from a full
      bucket no choice of calls with at most `capacity + refill * (duration)` acceptances in each window
      accepts more calls than `try_take_at`, whose own grants keep all windows too. */
  lemma GreedyIsBestForWindows(b: Bucket, times: seq<real>, choice: seq<bool>)
    requires b.Valid() && b.tokens == b.capacity as real && NonDecreasing(times) && |choice| == |times|
    requires times != [] ==> b.last <= times[0]
    requires WithinWindows(b.capacity, b.refill, times, choice)
    ensures Count(choice) <= Accepted(b, times)
  {
    hide WithinWindows, Slack, Count, Obeys, NonDecreasing;
    forall i, j | 0 <= i <= j < |times| ensures Slack(b, times, choice, i, j) >= 0.0 {
      WindowHasSlack(b, times, choice, i, j);
    }
    WindowsObey(b, times, choice);
    GreedyIsOptimal(b, times, choice);
  }
}
