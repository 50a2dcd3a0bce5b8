/**
  The token bucket of the HTTP server, one bucket per client.

  The code keeps a running level. What that level promises is a statement about whole runs:
  a call is let through exactly when no window ending at it would be overdrawn.
  Floats are reals, and each call is one atomic step at the time the clock shows.
 */
module RateLimiter {

  datatype Call = Call(client: string, cost: real, now: real)

  function Min(a: real, b: real): real {
    if a < b then a else b
  }

  function Trickle(since: real, now: real, rate: real): real { (now - since) * rate }

  /** A level topped up for the time from since to now. */
  function Topped(level: real, since: real, now: real, rate: real, capacity: real): real {
    Min(capacity, level + Trickle(since, now, rate))
  }

  /** Everything one limiter remembers. */
  datatype State = State(tokens: map<string, real>, last: map<string, real>)

  /** The level of the caller's bucket once it has been refilled. */
  function Refilled(s: State, c: Call, rate: real, capacity: real): real {
    if c.client !in s.tokens || c.client !in s.last then capacity
    else Topped(s.tokens[c.client], s.last[c.client], c.now, rate, capacity)
  }

  function Step(s: State, c: Call, rate: real, capacity: real): (State, bool) {
    var level := Refilled(s, c, rate, capacity);
    var ok := level >= c.cost;
    (State(s.tokens[c.client := if ok then level - c.cost else level], s.last[c.client := c.now]), ok)
  }

  // ---- one client ----

  datatype Bucket = Bucket(rate: real, capacity: real, calls: seq<Call>)
  {
    /** The level call k finds. */
    function Level(k: nat): real
      requires k < |calls|
      decreases k, 0
    {
      if k == 0 then capacity
      else Topped(Level(k - 1) - Charge(k - 1), calls[k - 1].now, calls[k].now, rate, capacity)
    }

    predicate Granted(k: nat)
      requires k < |calls|
      decreases k, 1
    {
      Level(k) >= calls[k].cost
    }

    function Charge(k: nat): real
      requires k < |calls|
      decreases k, 2
    {
      if Granted(k) then calls[k].cost else 0.0
    }

    /** The cost granted to the calls j, j + 1, ..., k - 1. */
    function Spent(j: nat, k: nat): real
      requires j <= k <= |calls|
    {
      if j == k then 0.0 else Spent(j, k - 1) + Charge(k - 1)
    }

    /** What any window of the length from call j to call k may be granted. */
    function Room(j: nat, k: nat): real
      requires j <= k < |calls|
    {
      capacity + rate * (calls[k].now - calls[j].now)
    }

    /** What the window from call j up to call k may still spend when call k arrives. */
    function Allowance(j: nat, k: nat): real
      requires j <= k < |calls|
    {
      Room(j, k) - Spent(j, k)
    }

    /** A window's allowance moves from one call to the next exactly as the level does. */
    lemma {:induction false} AllowanceStep(j: nat, k: nat)
      requires j < k < |calls|
      ensures Allowance(j, k) == Allowance(j, k - 1) - Charge(k - 1) + Gain(k)
    {
      var a, b := calls[k - 1].now - calls[j].now, calls[k].now - calls[k - 1].now;
      assert rate * (a + b) == rate * a + b * rate;
      assert calls[k].now - calls[j].now == a + b;
    }

    /** What trickles in between call k - 1 and call k. */
    function Gain(k: nat): real
      requires 0 < k < |calls|
    {
      Trickle(calls[k - 1].now, calls[k].now, rate)
    }

    /** The level is the smallest allowance over all windows that end here. */
    lemma {:induction false} LevelIsLeastAllowance(k: nat) returns (w: nat)
      requires k < |calls|
      ensures w <= k && Level(k) == Allowance(w, k)
      ensures forall j :: 0 <= j <= k ==> Level(k) <= Allowance(j, k)
    {
      assert Allowance(k, k) == capacity;
      if k == 0 {
        w := 0;
      } else {
        w := LevelIsLeastAllowance(k - 1);
        var gain := LevelStep(k);
        if Level(k) == capacity {
          w := k;
        }
      }
    }

    /** Between two calls the level and all allowances gain the same, up to the capacity. */
    lemma {:induction false} LevelStep(k: nat) returns (gain: real)
      requires 0 < k < |calls|
      ensures Level(k) == Min(capacity, Level(k - 1) - Charge(k - 1) + gain)
      ensures forall j :: 0 <= j < k ==> Allowance(j, k) == Allowance(j, k - 1) - Charge(k - 1) + gain
    {
      gain := Gain(k);
      forall j | 0 <= j < k
        ensures Allowance(j, k) == Allowance(j, k - 1) - Charge(k - 1) + gain
      {
        AllowanceStep(j, k);
      }
    }

    /** No window that ends at call k would be overdrawn by letting it through. */
    predicate OverdrawsNothing(k: nat)
      requires k < |calls|
    {
      forall j :: 0 <= j <= k ==> Spent(j, k) + calls[k].cost <= Room(j, k)
    }

    /** The exact law: a call is let through iff it overdraws no window that ends at it. */
    lemma {:induction false} GrantedExactly(k: nat)
      requires k < |calls|
      ensures Granted(k) <==> OverdrawsNothing(k)
    {
      var w := LevelIsLeastAllowance(k);
      forall j | 0 <= j <= k
        ensures Level(k) <= Allowance(j, k)
        ensures Spent(j, k) + calls[k].cost <= Room(j, k) <==> calls[k].cost <= Allowance(j, k)
      {
      }
      assert Spent(w, k) + calls[k].cost <= Room(w, k) <==> calls[k].cost <= Level(k);
    }

    /** With a clock that never goes back, no window is ever granted more than burst plus rate. */
    lemma {:induction false} WindowBound(j: nat, k: nat)
      requires j <= k < |calls|
      requires rate >= 0.0 && capacity >= 0.0
      requires forall a, b :: 0 <= a <= b < |calls| ==> calls[a].now <= calls[b].now
      ensures Spent(j, k + 1) <= Room(j, k)
      decreases k - j
    {
      if Granted(k) {
        GrantedExactly(k);
        assert Spent(j, k) + calls[k].cost <= Room(j, k);
      } else if j == k {
        NoTime(k);
      } else {
        WindowBound(j, k - 1);
        MoreTime(j, k);
      }
    }

    lemma {:induction false} NoTime(k: nat)
      requires k < |calls|
      ensures Room(k, k) == capacity
    {
    }

    lemma {:induction false} MoreTime(j: nat, k: nat)
      requires j < k < |calls| && rate >= 0.0 && calls[k - 1].now <= calls[k].now
      ensures Room(j, k - 1) <= Room(j, k)
    {
      Longer(calls[k - 1].now - calls[j].now, calls[k].now - calls[j].now);
    }

    lemma {:induction false} Longer(a: real, b: real)
      requires rate >= 0.0 && a <= b
      ensures rate * a <= rate * b
    {
      assert rate * (b - a) >= 0.0;
      assert rate * (b - a) == rate * b - rate * a;
    }

    /** Levels and decisions do not look at later calls. */
    lemma {:induction false} PrefixDecides(more: seq<Call>, k: nat)
      requires k < |calls|
      ensures var longer := this.(calls := calls + more);
              longer.Level(k) == Level(k) && (longer.Granted(k) <==> Granted(k))
    {
      var longer := this.(calls := calls + more);
      assert longer.calls[k] == calls[k];
      if k > 0 {
        PrefixDecides(more, k - 1);
        assert longer.calls[k - 1] == calls[k - 1];
        SameLevel(longer, k);
      }
    }

    lemma {:induction false} SameLevel(that: Bucket, k: nat)
      requires 0 < k < |calls| && k < |that.calls| && that.rate == rate && that.capacity == capacity
      requires that.calls[k] == calls[k] && that.calls[k - 1] == calls[k - 1]
      requires that.Level(k - 1) == Level(k - 1)
      ensures that.Level(k) == Level(k)
    {
      SameCharge(that, k - 1);
    }

    lemma {:induction false} SameCharge(that: Bucket, k: nat)
      requires k < |calls| && k < |that.calls| && that.calls[k] == calls[k] && that.Level(k) == Level(k)
      ensures that.Charge(k) == Charge(k)
    {
    }
  }

  // ---- all clients ----

  /** The limiter after a run of calls by anyone. */
  function After(calls: seq<Call>, rate: real, capacity: real): State {
    if calls == [] then State(map[], map[])
    else
      var n := |calls| - 1;
      Step(After(calls[..n], rate, capacity), calls[n], rate, capacity).0
  }

  function Own(calls: seq<Call>, client: string): seq<Call> {
    if calls == [] then []
    else
      var n := |calls| - 1;
      if calls[n].client == client then Own(calls[..n], client) + [calls[n]] else Own(calls[..n], client)
  }

  /** One more call of the same client: its level continues from the call before. */
  lemma {:induction false} OneMore(own: seq<Call>, c: Call, rate: real, capacity: real)
    requires own != []
    ensures var b, k := Bucket(rate, capacity, own), |own| - 1;
            Bucket(rate, capacity, own + [c]).Level(|own|) ==
            Topped(b.Level(k) - b.Charge(k), own[k].now, c.now, rate, capacity)
  {
    var b, k := Bucket(rate, capacity, own), |own| - 1;
    var longer := Bucket(rate, capacity, own + [c]);
    b.PrefixDecides([c], k);
    assert b.(calls := own + [c]) == longer;
    assert longer.calls[k] == own[k] && longer.calls[k + 1] == c;
    b.SameCharge(longer, k);
  }

  /** What the limiter remembers of a client is that client's own bucket. */
  ghost predicate OwnBucket(s: State, own: seq<Call>, client: string, rate: real, capacity: real) {
    && s.tokens.Keys == s.last.Keys
    && (client in s.tokens <==> own != [])
    && (own != [] ==>
          var b, k := Bucket(rate, capacity, own), |own| - 1;
          s.tokens[client] == b.Level(k) - b.Charge(k) && s.last[client] == own[k].now)
  }

  lemma {:induction false} StepOwnBucket(s: State, own: seq<Call>, c: Call, rate: real, capacity: real)
    requires OwnBucket(s, own, c.client, rate, capacity)
    ensures var (s', ok) := Step(s, c, rate, capacity);
            && OwnBucket(s', own + [c], c.client, rate, capacity)
            && (ok <==> Bucket(rate, capacity, own + [c]).Granted(|own|))
  {
    var longer, k := Bucket(rate, capacity, own + [c]), |own|;
    assert longer.calls[k] == c;
    if own != [] {
      OneMore(own, c, rate, capacity);
    }
    assert longer.Level(k) == Refilled(s, c, rate, capacity);
  }

  lemma {:induction false} AfterIsOwnBucket(calls: seq<Call>, client: string, rate: real, capacity: real)
    ensures OwnBucket(After(calls, rate, capacity), Own(calls, client), client, rate, capacity)
  {
    if calls != [] {
      var n := |calls| - 1;
      AfterIsOwnBucket(calls[..n], client, rate, capacity);
      if calls[n].client == client {
        StepOwnBucket(After(calls[..n], rate, capacity), Own(calls[..n], client), calls[n], rate, capacity);
      }
    }
  }

  /** A decision depends on the caller's own earlier calls and on nobody else's. */
  lemma {:induction false} ClientsAreIsolated(calls: seq<Call>, c: Call, rate: real, capacity: real)
    ensures var own := Own(calls, c.client) + [c];
            Step(After(calls, rate, capacity), c, rate, capacity).1
            <==> Bucket(rate, capacity, own).Granted(|own| - 1)
  {
    AfterIsOwnBucket(calls, c.client, rate, capacity);
    StepOwnBucket(After(calls, rate, capacity), Own(calls, c.client), c, rate, capacity);
  }

  /** No window of the caller's own calls that ends at the last of them is overdrawn. */
  predicate WithinEveryWindow(own: seq<Call>, rate: real, capacity: real)
    requires own != []
  {
    Bucket(rate, capacity, own).OverdrawsNothing(|own| - 1)
  }

  /** The decision on call c after any run of calls, by anyone. */
  lemma {:induction false} ExactLaw(calls: seq<Call>, c: Call, rate: real, capacity: real)
    ensures var (s, ok) := Step(After(calls, rate, capacity), c, rate, capacity);
            && s == After(calls + [c], rate, capacity)
            && Own(calls + [c], c.client) == Own(calls, c.client) + [c]
            && (ok <==> WithinEveryWindow(Own(calls + [c], c.client), rate, capacity))
  {
    assert (calls + [c])[..|calls|] == calls;
    ClientsAreIsolated(calls, c, rate, capacity);
    GrantedWithin(Own(calls + [c], c.client), rate, capacity);
  }

  lemma {:induction false} GrantedWithin(own: seq<Call>, rate: real, capacity: real)
    requires own != []
    ensures Bucket(rate, capacity, own).Granted(|own| - 1) <==> WithinEveryWindow(own, rate, capacity)
  {
    Bucket(rate, capacity, own).GrantedExactly(|own| - 1);
  }

  class TokenBucketRateLimiter {
    const rate: real
    const capacity: real
    var tokens: map<string, real>
    var lastUpdate: map<string, real>
    ghost var history: seq<Call>

    ghost predicate Valid()
      reads this
    {
      && tokens.Keys == lastUpdate.Keys
      && State(tokens, lastUpdate) == After(history, rate, capacity)
    }

    constructor (rate: real, capacity: real)
      ensures this.rate == rate && this.capacity == capacity && Valid() && history == []
    {
      this.rate, this.capacity, tokens, lastUpdate, history := rate, capacity, map[], map[], [];
    }

    /** One call, made while holding the lock. */
    method Allow(client: string, cost: real, now: real) returns (ok: bool)
      requires Valid()
      modifies this
      ensures Valid() && history == old(history) + [Call(client, cost, now)]
      ensures ok <==> WithinEveryWindow(Own(history, client), rate, capacity)
    {
      ExactLaw(history, Call(client, cost, now), rate, capacity);
      ok := Locked(client, cost, now);
      history := history + [Call(client, cost, now)];
    }

    /** The critical section. */
    method Locked(client: string, cost: real, now: real) returns (ok: bool)
      requires tokens.Keys == lastUpdate.Keys
      modifies this`tokens, this`lastUpdate
      ensures tokens.Keys == lastUpdate.Keys
      ensures (State(tokens, lastUpdate), ok) ==
              Step(old(State(tokens, lastUpdate)), Call(client, cost, now), rate, capacity)
    {
      ghost var level := Refilled(State(tokens, lastUpdate), Call(client, cost, now), rate, capacity);
      if client !in tokens {
        tokens := tokens[client := capacity];
        lastUpdate := lastUpdate[client := now];
      } else {
        var elapsed := now - lastUpdate[client];
        tokens := tokens[client := Min(capacity, tokens[client] + elapsed * rate)];
        lastUpdate := lastUpdate[client := now];
      }
      assert tokens == old(tokens)[client := level];
      if tokens[client] >= cost {
        tokens := tokens[client := tokens[client] - cost];
        assert tokens == old(tokens)[client := level - cost];
        return true;
      }
      return false;
    }
  }
}
