/** ngx_http_rate_limit.go: the windowed limiter. Times are nanoseconds of one clock. */
module RateLimit {
  datatype Bucket = Bucket(capacity: int, remaining: int, reset: int, rate: int, amount: int)

  /** A call of `take`, with the times of its two readings of the clock. */
  datatype Call = Call(checked: int, refilled: int)

  predicate Refills(b: Bucket, c: Call) { c.checked > b.reset }

  /** The bucket once a due refill has happened. */
  function Topped(b: Bucket, c: Call): Bucket {
    if Refills(b, c) then b.(reset := c.refilled + b.rate, remaining := b.capacity) else b
  }

  predicate Allows(b: Bucket, c: Call) { b.amount <= Topped(b, c).remaining }

  function Taken(b: Bucket, c: Call): Bucket {
    var t := Topped(b, c);
    if Allows(b, c) then t.(remaining := t.remaining - t.amount) else t
  }

  class Leaky {
    const capacity: int
    var remaining: int
    var reset: int
    const rate: int
    const amount: int

    constructor (b: Bucket)
      ensures State() == b
    {
      capacity, remaining, reset, rate, amount := b.capacity, b.remaining, b.reset, b.rate, b.amount;
    }

    ghost function State(): Bucket
      reads this
    {
      Bucket(capacity, remaining, reset, rate, amount)
    }

    /** `now` and `again` are the two readings of the clock; the second is used only on a refill. */
    method Take(now: int, again: int) returns (ok: bool)
      modifies this
      ensures State() == Taken(old(State()), Call(now, again))
      ensures ok == Allows(old(State()), Call(now, again))
    {
      if now > reset {
        reset := again + rate;
        remaining := capacity;
      }
      if amount > remaining {
        return false;
      }
      remaining := remaining - amount;
      return true;
    }
  }

  // ---- Runs ----

  /** Calls made one after the other while the clock does not run backwards. */
  predicate Orderly(calls: seq<Call>) {
    && (forall i :: 0 <= i < |calls| ==> calls[i].checked <= calls[i].refilled)
    && (forall i, j :: 0 <= i < j < |calls| ==> calls[i].refilled <= calls[j].checked)
  }

  function After(b: Bucket, calls: seq<Call>): Bucket
    decreases |calls|
  {
    if calls == [] then b else After(Taken(b, calls[0]), calls[1..])
  }

  /** How many calls of the run with a first reading from `a` to `z` succeed. */
  function Successes(b: Bucket, calls: seq<Call>, a: int, z: int): nat
    decreases |calls|
  {
    if calls == [] then 0
    else
      (if a <= calls[0].checked <= z && Allows(b, calls[0]) then 1 else 0)
      + Successes(Taken(b, calls[0]), calls[1..], a, z)
  }

  predicate Sane(b: Bucket) { b.amount >= 1 && b.rate >= 0 && b.remaining <= b.capacity }

  /** The remaining amount never leaves its range. */
  lemma {:induction false} AlwaysSane(b: Bucket, calls: seq<Call>)
    requires Sane(b)
    ensures Sane(After(b, calls))
    ensures 0 <= b.remaining ==> 0 <= After(b, calls).remaining
    decreases |calls|
  {
    if calls != [] {
      AlwaysSane(Taken(b, calls[0]), calls[1..]);
    }
  }

  lemma {:induction false} AfterOne(b: Bucket, calls: seq<Call>, k: nat)
    requires k < |calls|
    ensures After(b, calls[..k + 1]) == Taken(After(b, calls[..k]), calls[k])
    decreases |calls|
  {
    if k == 0 {
      assert calls[..1][1..] == [];
      assert calls[..0] == [];
    } else {
      assert calls[..k + 1][1..] == calls[1..][..k] && calls[..k][1..] == calls[1..][..k - 1];
      AfterOne(Taken(b, calls[0]), calls[1..], k - 1);
    }
  }

  lemma {:induction false} SettingsStay(b: Bucket, calls: seq<Call>)
    ensures var u := After(b, calls); u.capacity == b.capacity && u.amount == b.amount && u.rate == b.rate
    decreases |calls|
  {
    if calls != [] {
      SettingsStay(Taken(b, calls[0]), calls[1..]);
    }
  }

  /** A refill puts the next one off: the reset time stays beyond it by at least `rate`. */
  lemma {:induction false} ResetStays(b: Bucket, calls: seq<Call>, i: nat, j: nat)
    requires Sane(b) && Orderly(calls) && i < j <= |calls| && Refills(After(b, calls[..i]), calls[i])
    ensures After(b, calls[..j]).reset >= calls[i].refilled + b.rate && After(b, calls[..j]).rate == b.rate
    decreases j
  {
    AfterOne(b, calls, j - 1);
    SettingsStay(b, calls[..j - 1]);
    if j > i + 1 {
      ResetStays(b, calls, i, j - 1);
    }
  }

  // ---- The limiter without its state ----

  /** How many of the calls from `i` up to `j` are allowed. */
  function Granted(b: Bucket, calls: seq<Call>, i: nat, j: nat): nat
    requires i <= j <= |calls|
    decreases j
  {
    if i == j then 0
    else Granted(b, calls, i, j - 1) + if Allows(After(b, calls[..j - 1]), calls[j - 1]) then 1 else 0
  }

  /** The last refill before call `j` was at call `i`. */
  predicate LastRefill(b: Bucket, calls: seq<Call>, i: nat, j: nat)
    requires j <= |calls|
  {
    && i < j && Refills(After(b, calls[..i]), calls[i])
    && forall k :: i < k < j ==> !Refills(After(b, calls[..k]), calls[k])
  }

  lemma TimesOneMore(a: int, n: int)
    ensures a * (n + 1) == a * n + a
  {
  }

  lemma GrantedTake(u: Bucket, c: Call, n: nat, capacity: int)
    requires Topped(u, c).remaining == capacity - u.amount * n
    ensures Taken(u, c).remaining == capacity - u.amount * (n + if Allows(u, c) then 1 else 0)
    ensures Allows(u, c) <==> u.amount * (n + 1) <= capacity
  {
    TimesOneMore(u.amount, n);
  }

  /** What is left after a refill. */
  lemma {:induction false} SinceRefill(b: Bucket, calls: seq<Call>, i: nat, j: nat)
    requires j <= |calls| && LastRefill(b, calls, i, j)
    ensures var u := After(b, calls[..j]);
      && u.capacity == b.capacity && u.amount == b.amount && u.rate == b.rate
      && u.reset == calls[i].refilled + b.rate
      && u.remaining == b.capacity - b.amount * Granted(b, calls, i, j)
    decreases j
  {
    var u := After(b, calls[..j - 1]);
    AfterOne(b, calls, j - 1);
    SettingsStay(b, calls[..j - 1]);
    if j == i + 1 {
      GrantedTake(u, calls[i], 0, b.capacity);
    } else {
      assert !Refills(u, calls[j - 1]);
      SinceRefill(b, calls, i, j - 1);
      GrantedTake(u, calls[j - 1], Granted(b, calls, i, j - 1), b.capacity);
    }
  }

  /** Up to the first refill. */
  lemma {:induction false} BeforeRefill(b: Bucket, calls: seq<Call>, j: nat)
    requires j <= |calls| && forall k :: 0 <= k < j ==> !Refills(After(b, calls[..k]), calls[k])
    ensures var u := After(b, calls[..j]);
      u.reset == b.reset && u.amount == b.amount && u.remaining == b.remaining - b.amount * Granted(b, calls, 0, j)
    decreases j
  {
    if j == 0 {
      assert calls[..0] == [];
    } else {
      AfterOne(b, calls, j - 1);
      BeforeRefill(b, calls, j - 1);
      GrantedTake(After(b, calls[..j - 1]), calls[j - 1], Granted(b, calls, 0, j - 1), b.remaining);
    }
  }

  /** The first refill comes with the first call beyond the reset time; until then the rest is given out. */
  lemma FirstWindowIs(b: Bucket, calls: seq<Call>, j: nat)
    requires j < |calls| && forall k :: 0 <= k < j ==> !Refills(After(b, calls[..k]), calls[k])
    ensures Refills(After(b, calls[..j]), calls[j]) <==> calls[j].checked > b.reset
    ensures calls[j].checked <= b.reset ==>
      (Allows(After(b, calls[..j]), calls[j]) <==> b.amount * (1 + Granted(b, calls, 0, j)) <= b.remaining)
    ensures calls[j].checked > b.reset ==> (Allows(After(b, calls[..j]), calls[j]) <==> b.amount <= b.capacity)
  {
    BeforeRefill(b, calls, j);
    SettingsStay(b, calls[..j]);
    var u := After(b, calls[..j]);
    if !Refills(u, calls[j]) {
      GrantedTake(u, calls[j], Granted(b, calls, 0, j), b.remaining);
    }
  }

  /** The next refill comes with the first call whose first reading is beyond the last second one by the rate. */
  lemma RefillIff(b: Bucket, calls: seq<Call>, i: nat, j: nat)
    requires j < |calls| && LastRefill(b, calls, i, j)
    ensures Refills(After(b, calls[..j]), calls[j]) <==> calls[j].checked > calls[i].refilled + b.rate
  {
    SinceRefill(b, calls, i, j);
  }

  /** A call is allowed if and only if its amount and those taken since the last refill fit the capacity. */
  lemma AllowedIff(b: Bucket, calls: seq<Call>, i: nat, j: nat)
    requires j < |calls| && LastRefill(b, calls, i, j)
    ensures var taken := if calls[j].checked > calls[i].refilled + b.rate then 0 else Granted(b, calls, i, j);
      Allows(After(b, calls[..j]), calls[j]) <==> b.amount * (1 + taken) <= b.capacity
  {
    var u, n := After(b, calls[..j]), Granted(b, calls, i, j);
    SinceRefill(b, calls, i, j);
    GrantedTake(u, calls[j], if Refills(u, calls[j]) then 0 else n, b.capacity);
  }

  /** Successive refills are more than `rate` apart. */
  lemma RefillsApart(b: Bucket, calls: seq<Call>, i: nat, j: nat)
    requires Sane(b) && Orderly(calls) && i < j < |calls|
    requires Refills(After(b, calls[..i]), calls[i]) && Refills(After(b, calls[..j]), calls[j])
    ensures calls[j].checked > calls[i].refilled + b.rate
  {
    ResetStays(b, calls, i, j);
  }

  // ---- The bound ----

  /** How often `amount` fits into `r`. */
  function Room(r: int, amount: int): nat
    requires amount >= 1
    decreases if r < 0 then 0 else r
  {
    if r < amount then 0 else 1 + Room(r - amount, amount)
  }

  /** How many refills can happen within `gap` after the reset time. */
  function Windows(gap: int, rate: int): nat
    requires rate >= 0
    decreases if gap < 0 then 0 else gap
  {
    if gap <= 0 then 0 else 1 + Windows(gap - (rate + 1), rate)
  }

  lemma {:induction false} RoomGrows(r: int, s: int, amount: int)
    requires amount >= 1 && r <= s
    ensures Room(r, amount) <= Room(s, amount)
    decreases if r < 0 then 0 else r
  {
    if r >= amount {
      RoomGrows(r - amount, s - amount, amount);
    }
  }

  lemma {:induction false} WindowsGrow(g: int, h: int, rate: int)
    requires rate >= 0 && g <= h
    ensures Windows(g, rate) <= Windows(h, rate)
    decreases if g < 0 then 0 else g
  {
    if g > 0 {
      WindowsGrow(g - (rate + 1), h - (rate + 1), rate);
    }
  }

  lemma OneMore(k: nat, m: nat)
    ensures k * (1 + m) == k + k * m
  {
  }

  lemma Times(k: nat, m: nat, n: nat)
    requires m + 1 <= n
    ensures k + k * m <= k * n
  {
    assert k * n == k * (m + 1) + k * (n - (m + 1));
  }

  lemma TimesLe(k: nat, m: nat, n: nat)
    requires m <= n
    ensures k * m <= k * n
  {
    assert k * n == k * m + k * (n - m);
  }

  /** From any state: what is left now, and a full bucket for every refill up to `z`. */
  lemma {:induction false} SuccessesFrom(b: Bucket, calls: seq<Call>, a: int, z: int)
    requires Sane(b) && Orderly(calls)
    ensures Successes(b, calls, a, z)
         <= Room(b.remaining, b.amount) + Room(b.capacity, b.amount) * Windows(z - b.reset, b.rate)
    decreases |calls|
  {
    var k := Room(b.capacity, b.amount);
    if calls != [] {
      var c, t := calls[0], Taken(b, calls[0]);
      SuccessesFrom(t, calls[1..], a, z);
      if c.checked > z {
        NoneLater(t, calls[1..], a, z);
      } else if Refills(b, c) {
        WindowsGrow(z - t.reset, z - b.reset - (b.rate + 1), b.rate);
        Times(k, Windows(z - t.reset, b.rate), Windows(z - b.reset, b.rate));
      }
    }
  }

  lemma {:induction false} NoneLater(b: Bucket, calls: seq<Call>, a: int, z: int)
    requires forall i :: 0 <= i < |calls| ==> calls[i].checked > z
    ensures Successes(b, calls, a, z) == 0
    decreases |calls|
  {
    if calls != [] {
      NoneLater(Taken(b, calls[0]), calls[1..], a, z);
    }
  }

  /** The most takes that can succeed within `length`. */
  function Most(capacity: int, amount: int, rate: int, length: int): nat
    requires amount >= 1 && rate >= 0
  {
    Room(capacity, amount) * (1 + Windows(length, rate))
  }

  /** No interval of the given length sees more successful takes than `Most`. */
  lemma {:induction false} RateBound(b: Bucket, calls: seq<Call>, a: int, length: nat)
    requires Sane(b) && Orderly(calls)
    ensures Successes(b, calls, a, a + length) <= Most(b.capacity, b.amount, b.rate, length)
    decreases |calls|
  {
    var k, z := Room(b.capacity, b.amount), a + length;
    if calls != [] {
      var c, t := calls[0], Taken(b, calls[0]);
      if c.checked < a {
        RateBound(t, calls[1..], a, length);
      } else if c.checked > z {
        NoneLater(t, calls[1..], a, z);
      } else {
        SuccessesFrom(t, calls[1..], a, z);
        RoomGrows(b.remaining, b.capacity, b.amount);
        WindowsGrow(z - t.reset, length, b.rate);
        TimesLe(k, Windows(z - t.reset, b.rate), Windows(length, b.rate));
        OneMore(k, Windows(length, b.rate));
      }
    }
  }

  // ---- The bound in closed form ----

  lemma QuotientIs(x: int, d: int, q: int, r: int)
    requires d >= 1 && 0 <= r < d && x == q * d + r
    ensures x / d == q
  {
    var p := x / d;
    assert (p - q) * d == p * d - q * d && (q - p) * d == q * d - p * d;
    if p > q {
      AtLeastOne(p - q, d);
    } else if p < q {
      AtLeastOne(q - p, d);
    }
  }

  lemma AtLeastOne(k: int, d: int)
    requires k >= 1 && d >= 0
    ensures k * d >= d
  {
    assert k * d == (k - 1) * d + d;
  }

  lemma QuotientStep(x: int, d: int)
    requires d >= 1
    ensures (x - d) / d == x / d - 1
  {
    QuotientIs(x - d, d, x / d - 1, x % d);
  }

  lemma {:induction false} RoomIsQuotient(r: int, amount: int)
    requires amount >= 1 && r >= 0
    ensures Room(r, amount) == r / amount
    decreases r
  {
    if r < amount {
      QuotientIs(r, amount, 0, r);
    } else {
      RoomIsQuotient(r - amount, amount);
      QuotientStep(r, amount);
    }
  }

  lemma {:induction false} WindowsIsQuotient(gap: int, rate: int)
    requires rate >= 0 && gap >= 1
    ensures Windows(gap, rate) == (gap - 1) / (rate + 1) + 1
    decreases gap
  {
    var d := rate + 1;
    if gap <= d {
      QuotientIs(gap - 1, d, 0, gap - 1);
    } else {
      WindowsIsQuotient(gap - d, rate);
      QuotientStep(gap - 1, d);
    }
  }

  lemma {:induction false} WindowsFewer(gap: nat, rate: int)
    requires rate > 0
    ensures Windows(gap, rate) <= gap / rate + 1
    decreases gap
  {
    if gap > rate {
      WindowsFewer(gap - rate, rate);
      WindowsGrow(gap - (rate + 1), gap - rate, rate);
      QuotientStep(gap, rate);
    } else if gap > 0 {
      assert Windows(gap - (rate + 1), rate) == 0;
      assert gap / rate >= 0;
    }
  }

  /** The familiar form: a bucketful for every whole `rate` in the interval, and two more. */
  lemma RateBoundQuotient(b: Bucket, calls: seq<Call>, a: int, length: nat)
    requires Sane(b) && Orderly(calls) && b.rate > 0 && b.capacity >= 0
    ensures Successes(b, calls, a, a + length) <= (length / b.rate + 2) * (b.capacity / b.amount)
  {
    RateBound(b, calls, a, length);
    RoomIsQuotient(b.capacity, b.amount);
    WindowsFewer(length, b.rate);
    TimesLe(b.capacity / b.amount, 1 + Windows(length, b.rate), length / b.rate + 2);
  }

  // ---- The bound is attained ----

  function Burst(t: int, n: nat): seq<Call> { seq(n, _ => Call(t, t)) }

  /** A full burst at `t`, and again as soon as the bucket refills, up to `z`. */
  function Greedy(t: int, z: int, rate: int, n: nat): seq<Call>
    requires rate >= 0
    decreases if z < t then 0 else z - t + 1
  {
    if t > z then [] else Burst(t, n) + Greedy(t + rate + 1, z, rate, n)
  }

  lemma {:induction false} BurstTakes(b: Bucket, n: nat, rest: seq<Call>, t: int, a: int, z: int) returns (d: Bucket)
    requires Sane(b) && t <= b.reset && a <= t <= z && n <= Room(b.remaining, b.amount)
    ensures d == b.(remaining := d.remaining) && Sane(d)
    ensures Successes(b, Burst(t, n) + rest, a, z) == n + Successes(d, rest, a, z)
    decreases n
  {
    var calls := Burst(t, n) + rest;
    d := b;
    if n == 0 {
      assert calls == rest;
    } else {
      assert calls[0] == Call(t, t) && calls[1..] == Burst(t, n - 1) + rest;
      d := BurstTakes(Taken(b, calls[0]), n - 1, rest, t, a, z);
    }
  }

  /** Right after its reset time a bucket can be emptied, and again in every window. */
  lemma {:induction false} GreedyTakes(b: Bucket, a: int, z: int)
    requires Sane(b) && a <= b.reset + 1
    ensures var k := Room(b.capacity, b.amount);
      Successes(b, Greedy(b.reset + 1, z, b.rate, k), a, z) == k * Windows(z - b.reset, b.rate)
    decreases if z < b.reset then 0 else z - b.reset + 1
  {
    var k, t := Room(b.capacity, b.amount), b.reset + 1;
    if t <= z && k > 0 {
      var rest := Greedy(t + b.rate + 1, z, b.rate, k);
      var d := FirstBurst(b, k, rest, a, z);
      GreedyTakes(d, a, z);
      OneMore(k, Windows(z - b.reset - (b.rate + 1), b.rate));
    } else if t <= z {
      GreedyIdle(t, z, b.rate);
    }
  }

  lemma FirstBurst(b: Bucket, k: nat, rest: seq<Call>, a: int, z: int) returns (d: Bucket)
    requires Sane(b) && k == Room(b.capacity, b.amount) && k > 0 && a <= b.reset + 1 <= z
    ensures d == b.(reset := b.reset + 1 + b.rate, remaining := d.remaining) && Sane(d)
    ensures Successes(b, Burst(b.reset + 1, k) + rest, a, z) == k + Successes(d, rest, a, z)
  {
    var t := b.reset + 1;
    var calls := Burst(t, k) + rest;
    assert calls[0] == Call(t, t) && calls[1..] == Burst(t, k - 1) + rest;
    d := BurstTakes(Taken(b, Call(t, t)), k - 1, rest, t, a, z);
  }

  lemma {:induction false} GreedyIdle(t: int, z: int, rate: int)
    requires rate >= 0
    ensures Greedy(t, z, rate, 0) == []
    decreases if z < t then 0 else z - t + 1
  {
    if t <= z {
      GreedyIdle(t + rate + 1, z, rate);
    }
  }

  lemma {:induction false} GreedyOrderly(t: int, z: int, rate: int, n: nat)
    requires rate >= 0
    ensures Orderly(Greedy(t, z, rate, n))
    ensures forall i :: 0 <= i < |Greedy(t, z, rate, n)| ==> Greedy(t, z, rate, n)[i].checked >= t
    decreases if z < t then 0 else z - t + 1
  {
    if t <= z {
      GreedyOrderly(t + rate + 1, z, rate, n);
    }
  }

  /** For every limiter and every length some run reaches the bound exactly. */
  lemma BoundAttained(capacity: int, amount: int, rate: int, a: int, length: nat) returns (b: Bucket, calls: seq<Call>)
    requires amount >= 1 && rate >= 0
    ensures Sane(b) && b.capacity == capacity && b.amount == amount && b.rate == rate && Orderly(calls)
    ensures Successes(b, calls, a, a + length) == Most(capacity, amount, rate, length)
  {
    var k, z := Room(capacity, amount), a + length;
    b := Bucket(capacity, capacity, a, rate, amount);
    var rest := Greedy(a + 1, z, rate, k);
    calls := Burst(a, k) + rest;
    var d := BurstTakes(b, k, rest, a, a, z);
    GreedyTakes(d, a, z);
    GreedyOrderly(a + 1, z, rate, k);
    OneMore(k, Windows(length, rate));
  }

  // ---- When there is a bound ----

  /** A run of a limiter with the given settings. */
  predicate RunOf(capacity: int, amount: int, rate: int, b: Bucket, calls: seq<Call>) {
    b.capacity == capacity && b.amount == amount && b.rate == rate && b.remaining <= capacity && Orderly(calls)
  }

  function SuccessesWithin(b: Bucket, calls: seq<Call>, a: int, length: nat): nat {
    Successes(b, calls, a, a + length)
  }

  /** No interval of the given length sees more than `m` successful takes. */
  ghost predicate BoundedBy(capacity: int, amount: int, rate: int, length: nat, m: nat) {
    forall b: Bucket, calls, a ::
      RunOf(capacity, amount, rate, b, calls) ==> SuccessesWithin(b, calls, a, length) <= m
  }

  lemma {:induction false} NoneFits(b: Bucket, calls: seq<Call>, a: int, z: int)
    requires b.remaining <= b.capacity < b.amount
    ensures Successes(b, calls, a, z) == 0
    decreases |calls|
  {
    if calls != [] {
      NoneFits(Taken(b, calls[0]), calls[1..], a, z);
    }
  }

  /** Calls at `t` always succeed: they take nothing, or every one of them refills. */
  predicate Unlimited(b: Bucket, t: int) {
    b.amount <= b.capacity && if t > b.reset then b.rate < 0 else b.amount <= 0 && b.amount <= b.remaining
  }

  lemma {:induction false} BurstUnlimited(b: Bucket, t: int, n: nat, z: int)
    requires Unlimited(b, t) && t <= z
    ensures Successes(b, Burst(t, n), t, z) == n
    decreases n
  {
    if n > 0 {
      var calls := Burst(t, n);
      assert calls[0] == Call(t, t) && calls[1..] == Burst(t, n - 1);
      BurstUnlimited(Taken(b, calls[0]), t, n - 1, z);
    }
  }

  lemma NotBounded(capacity: int, amount: int, rate: int, length: nat, m: nat)
    requires amount <= capacity && (amount <= 0 || rate < 0)
    ensures !BoundedBy(capacity, amount, rate, length, m)
  {
    var b := Bucket(capacity, capacity, if amount <= 0 then 0 else -1, rate, amount);
    BurstUnlimited(b, 0, m + 1, length);
    assert RunOf(capacity, amount, rate, b, Burst(0, m + 1));
    assert SuccessesWithin(b, Burst(0, m + 1), 0, length) == m + 1;
  }

  /**
    * A limiter bounds the takes of an interval if and only if nothing ever fits into it, or a take
    * costs something and refills are not in the past.
    */
  lemma BoundedIff(capacity: int, amount: int, rate: int, length: nat)
    ensures (exists m :: BoundedBy(capacity, amount, rate, length, m))
       <==> capacity < amount || (amount >= 1 && rate >= 0)
  {
    if capacity < amount {
      forall b: Bucket, calls, a | RunOf(capacity, amount, rate, b, calls)
        ensures SuccessesWithin(b, calls, a, length) <= 0
      {
        NoneFits(b, calls, a, a + length);
      }
      assert BoundedBy(capacity, amount, rate, length, 0);
    } else if amount >= 1 && rate >= 0 {
      var m := Most(capacity, amount, rate, length);
      forall b: Bucket, calls, a | RunOf(capacity, amount, rate, b, calls)
        ensures SuccessesWithin(b, calls, a, length) <= m
      {
        RateBound(b, calls, a, length);
      }
      assert BoundedBy(capacity, amount, rate, length, m);
    } else {
      forall m: nat
        ensures !BoundedBy(capacity, amount, rate, length, m)
      {
        NotBounded(capacity, amount, rate, length, m);
      }
    }
  }

  // ---- The limiters of the zones ----

  const SECOND := 1_000_000_000

  /** The first limiter of a zone has nothing set; `zero` is the zero time. */
  function FirstOfZone(zero: int): Bucket { Bucket(0, 0, zero, 0, 0) }

  /** Any further one gets its rate as capacity, and no amount. */
  function NextOfZone(rate: int, now: int): Bucket { Bucket(rate, rate, now + SECOND, SECOND, 0) }

  class RateManager {
    var zones: map<string, map<string, Leaky>>

    constructor ()
      ensures zones == map[]
    {
      zones := map[];
    }

    /** setup: the limiter of a key in a zone, made if there is none. */
    method Setup(key: string, zone: string, rate: int, now: int, zero: int) returns (l: Leaky)
      modifies this
      ensures zone in zones && key in zones[zone] && zones[zone][key] == l
      ensures zones == old(zones)[zone := if zone in old(zones) then old(zones[zone])[key := l] else map[key := l]]
      ensures if zone in old(zones) then
                if key in old(zones[zone]) then l == old(zones[zone][key])
                else
                  && fresh(l) && l.State() == NextOfZone(rate, now)
                  && l.capacity == l.remaining == rate && l.reset == now + 1_000_000_000 && l.rate == 1_000_000_000
                  && l.amount == 0
              else
                && fresh(l) && l.State() == FirstOfZone(zero)
                && l.capacity == l.remaining == l.rate == l.amount == 0 && l.reset == zero
    {
      if zone in zones {
        if key in zones[zone] {
          l := zones[zone][key];
          assert zones[zone][key := l] == zones[zone];
          return;
        }
        l := new Leaky(NextOfZone(rate, now));
        zones := zones[zone := zones[zone][key := l]];
        return;
      }
      l := new Leaky(FirstOfZone(zero));
      zones := zones[zone := map[key := l]];
    }
  }

  lemma {:induction false} NoAmount(b: Bucket, calls: seq<Call>, k: nat)
    requires b.amount == 0 && b.remaining == b.capacity && k < |calls|
    ensures Allows(After(b, calls[..k]), calls[k]) <==> b.capacity >= 0
    ensures After(b, calls[..k]) == b.(reset := After(b, calls[..k]).reset)
    decreases k
  {
    if k > 0 {
      NoAmount(b, calls, k - 1);
      AfterOne(b, calls, k - 1);
    } else {
      assert calls[..0] == [];
    }
  }

  /** The limiters that `setup` makes: every call is allowed or, under a negative rate, none. */
  lemma ZonesDoNotLimit(rate: int, now: int, zero: int, calls: seq<Call>, k: nat)
    requires k < |calls|
    ensures Allows(After(FirstOfZone(zero), calls[..k]), calls[k])
    ensures Allows(After(NextOfZone(rate, now), calls[..k]), calls[k]) <==> rate >= 0
  {
    NoAmount(FirstOfZone(zero), calls, k);
    NoAmount(NextOfZone(rate, now), calls, k);
  }
}
