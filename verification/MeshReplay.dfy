/** Whole runs of a node verifying requests against its bounded nonce store. */
module MeshReplay {
  import opened Clock
  import opened Common
  import opened MeshProtocol

  datatype Verifier = Verifier(k: Primitives, node: string, token: Option<string>, capacity: int)

  datatype Arrival = Arrival(payload: Payload, now: real)

  datatype Accepted = Accepted(proof: Proof, now: real)

  datatype State = State(cache: seq<Seen>, log: seq<Accepted>)

  function Receive(v: Verifier, s: State, a: Arrival): State {
    var verdict := Verify(v.k, a.payload, v.node, v.token, a.now, s.cache, v.capacity);
    if verdict.outcome.Ok? then
      State(verdict.cache, s.log + [Accepted(Authenticate(v.k, a.payload, v.node, v.token, a.now).value, a.now)])
    else s
  }

  function Serve(v: Verifier, arrivals: seq<Arrival>): State {
    if arrivals == [] then State([], [])
    else Receive(v, Serve(v, arrivals[..|arrivals| - 1]), arrivals[|arrivals| - 1])
  }

  ghost predicate ClockNeverSteps(arrivals: seq<Arrival>) {
    InTimeOrder(arrivals, (a: Arrival) => a.now)
  }

  /** Distinct nonces accepted with a timestamp in `[lo, hi]`. */
  ghost function NoncesIn(log: seq<Accepted>, lo: real, hi: real): set<string> {
    set i | 0 <= i < |log| && lo <= log[i].proof.ts <= hi :: log[i].proof.nonce
  }

  /** No closed interval of `width` seconds holds more accepted nonces than the cache. */
  ghost predicate Quiet(log: seq<Accepted>, capacity: int, width: real) {
    forall lo: real, hi: real :: hi <= lo + width ==> |NoncesIn(log, lo, hi)| <= capacity
  }

  lemma {:induction false} NoncesGrow(log: seq<Accepted>, more: seq<Accepted>, lo: real, hi: real, hi': real)
    requires log <= more && hi <= hi'
    ensures NoncesIn(log, lo, hi) <= NoncesIn(more, lo, hi')
    ensures |NoncesIn(log, lo, hi)| <= |NoncesIn(more, lo, hi')|
  {
    forall n | n in NoncesIn(log, lo, hi) ensures n in NoncesIn(more, lo, hi') {
      var i :| 0 <= i < |log| && lo <= log[i].proof.ts <= hi && log[i].proof.nonce == n;
      assert more[i] == log[i];
    }
    var a, b := NoncesIn(log, lo, hi), NoncesIn(more, lo, hi');
    assert b == a + (b - a);
  }

  lemma {:induction false} QuietBefore(log: seq<Accepted>, more: seq<Accepted>, capacity: int, width: real)
    requires log <= more && Quiet(more, capacity, width)
    ensures Quiet(log, capacity, width)
  {
    forall lo: real, hi: real | hi <= lo + width ensures |NoncesIn(log, lo, hi)| <= capacity {
      NoncesGrow(log, more, lo, hi, hi);
    }
  }

  // ---- the store's invariant ----

  ghost predicate Logged(log: seq<Accepted>, e: Seen) {
    exists i :: 0 <= i < |log| && log[i].proof.nonce == e.nonce && log[i].proof.ts == e.at
  }

  ghost predicate CacheInv(s: State, capacity: int) {
    && |s.cache| <= capacity
    && (forall i, j :: 0 <= i < j < |s.cache| ==> s.cache[i].nonce != s.cache[j].nonce)
    && (forall i :: 0 <= i < |s.cache| ==> Logged(s.log, s.cache[i]))
  }

  ghost predicate LogInv(log: seq<Accepted>, clock: real) {
    forall i :: 0 <= i < |log| ==> log[i].now <= clock && Abs(log[i].now - log[i].proof.ts) <= MAX_CLOCK_SKEW
  }

  // An accepted request is still remembered, or more than a cacheful of nonces is younger.
  ghost predicate Accounted(s: State, capacity: int, clock: real, a: Accepted) {
    Seen(a.proof.nonce, a.proof.ts) in s.cache ||
    |NoncesIn(s.log, a.proof.ts, clock + MAX_CLOCK_SKEW)| > capacity
  }

  ghost predicate Inv(s: State, capacity: int, clock: real) {
    && CacheInv(s, capacity) && LogInv(s.log, clock)
    && forall i :: 0 <= i < |s.log| ==> Accounted(s, capacity, clock, s.log[i])
  }

  function CacheNonces(cache: seq<Seen>): set<string> {
    set i | 0 <= i < |cache| :: cache[i].nonce
  }

  lemma {:induction false} CacheNoncesSize(cache: seq<Seen>)
    requires forall i, j :: 0 <= i < j < |cache| ==> cache[i].nonce != cache[j].nonce
    ensures |CacheNonces(cache)| == |cache|
  {
    if cache != [] {
      var init, last := cache[..|cache| - 1], cache[|cache| - 1];
      CacheNoncesSize(init);
      assert forall i :: 0 <= i < |init| ==> init[i] == cache[i];
      forall n | n in CacheNonces(cache) ensures n in CacheNonces(init) + {last.nonce} {
        var i :| 0 <= i < |cache| && cache[i].nonce == n;
        if i < |init| { assert init[i].nonce == n; }
      }
      forall n | n in CacheNonces(init) + {last.nonce} ensures n in CacheNonces(cache) {
        if n != last.nonce {
          var i :| 0 <= i < |init| && init[i].nonce == n;
          assert cache[i].nonce == n;
        } else {
          assert cache[|cache| - 1].nonce == n;
        }
      }
      assert CacheNonces(cache) == CacheNonces(init) + {last.nonce};
    }
  }

  /** When the full cache makes room for `m`, cacheful-plus-one nonces lie from the older of the two on. */
  lemma {:induction false} EvictionCrowd(s: State, m: Accepted, clock: real, lo: real)
    requires CacheInv(s, |s.cache|) && LogInv(s.log + [m], clock) && !Knows(s.cache, m.proof.nonce)
    requires lo <= m.proof.ts && forall i :: 0 <= i < |s.cache| ==> lo <= s.cache[i].at
    ensures |NoncesIn(s.log + [m], lo, clock + MAX_CLOCK_SKEW)| > |s.cache|
  {
    var log, hi := s.log + [m], clock + MAX_CLOCK_SKEW;
    var all := CacheNonces(s.cache) + {m.proof.nonce};
    CacheNoncesSize(s.cache);
    forall n | n in all ensures n in NoncesIn(log, lo, hi) {
      if n == m.proof.nonce {
        assert log[|s.log|] == m;
      } else {
        var i :| 0 <= i < |s.cache| && s.cache[i].nonce == n;
        assert Logged(s.log, s.cache[i]);
        var j :| 0 <= j < |s.log| && s.log[j].proof.nonce == n && s.log[j].proof.ts == s.cache[i].at;
        assert log[j] == s.log[j];
      }
    }
    var crowd := NoncesIn(log, lo, hi);
    assert crowd == all + (crowd - all);
  }

  lemma {:induction false} RemoveAt(cache: seq<Seen>, i: nat, e: Seen)
    requires i < |cache|
    ensures e in cache ==> e == cache[i] || e in cache[..i] + cache[i + 1..]
    ensures e in cache[..i] + cache[i + 1..] ==> e in cache
  {
    assert cache == cache[..i] + [cache[i]] + cache[i + 1..];
  }

  lemma {:induction false} ClaimKeepsCache(s: State, capacity: int, m: Accepted)
    requires CacheInv(s, capacity) && 0 < capacity
    requires Claim(s.cache, capacity, m.proof.nonce, m.proof.ts).Ok?
    ensures CacheInv(State(Claim(s.cache, capacity, m.proof.nonce, m.proof.ts).value, s.log + [m]), capacity)
  {
    var log := s.log + [m];
    assert log[|s.log|] == m;
    forall i | 0 <= i < |s.cache| ensures Logged(log, s.cache[i]) {
      assert Logged(s.log, s.cache[i]);
      var j :| 0 <= j < |s.log| && s.log[j].proof.nonce == s.cache[i].nonce && s.log[j].proof.ts == s.cache[i].at;
      assert log[j] == s.log[j];
    }
    assert Logged(log, Seen(m.proof.nonce, m.proof.ts));
  }

  // Making room only ever costs an entry that more than a cacheful of nonces is younger than.
  lemma {:induction false} EvictedIsCrowdedOut(v: Verifier, s: State, m: Accepted, now: real)
    requires CacheInv(s, v.capacity) && 0 < v.capacity == |s.cache|
    requires LogInv(s.log + [m], now) && m.now == now && !Knows(s.cache, m.proof.nonce)
    requires Quiet(s.log + [m], v.capacity, 2.0 * MAX_CLOCK_SKEW)
    ensures |NoncesIn(s.log + [m], s.cache[Oldest(s.cache)].at, now + MAX_CLOCK_SKEW)| > v.capacity
  {
    var first := s.cache[Oldest(s.cache)];
    assert (s.log + [m])[|s.log|] == m;
    assert now + MAX_CLOCK_SKEW <= m.proof.ts + 2.0 * MAX_CLOCK_SKEW;
    if m.proof.ts < first.at {
      EvictionCrowd(s, m, now, m.proof.ts);
    } else {
      EvictionCrowd(s, m, now, first.at);
    }
  }

  lemma {:induction false} AcceptKeepsAccount(v: Verifier, s: State, clock: real, m: Accepted, cache: seq<Seen>, i: nat)
    requires 0 < v.capacity && Inv(s, v.capacity, clock) && clock <= m.now
    requires LogInv(s.log + [m], m.now) && Quiet(s.log + [m], v.capacity, 2.0 * MAX_CLOCK_SKEW)
    requires Claim(s.cache, v.capacity, m.proof.nonce, m.proof.ts) == Ok(cache) && i < |s.log|
    ensures Accounted(State(cache, s.log + [m]), v.capacity, m.now, s.log[i])
  {
    assert Accounted(s, v.capacity, clock, s.log[i]);
    var e := Seen(s.log[i].proof.nonce, s.log[i].proof.ts);
    if e !in s.cache {
      NoncesGrow(s.log, s.log + [m], e.at, clock + MAX_CLOCK_SKEW, m.now + MAX_CLOCK_SKEW);
    } else if |s.cache| == v.capacity {
      EvictedIsCrowdedOut(v, s, m, m.now);
      RemoveAt(s.cache, Oldest(s.cache), e);
    }
  }

  lemma {:induction false} AcceptKeepsInv(v: Verifier, s: State, clock: real, a: Arrival)
    requires 0 < v.capacity && Inv(s, v.capacity, clock) && clock <= a.now
    requires Receive(v, s, a) != s && Quiet(Receive(v, s, a).log, v.capacity, 2.0 * MAX_CLOCK_SKEW)
    ensures Inv(Receive(v, s, a), v.capacity, a.now)
  {
    var s' := Receive(v, s, a);
    var m := s'.log[|s.log|];
    ClaimKeepsCache(s, v.capacity, m);
    assert LogInv(s'.log, a.now);
    forall i | 0 <= i < |s.log| ensures Accounted(s', v.capacity, a.now, s.log[i]) {
      AcceptKeepsAccount(v, s, clock, m, s'.cache, i);
    }
  }

  lemma {:induction false} WaitKeepsInv(s: State, capacity: int, clock: real, clock': real)
    requires Inv(s, capacity, clock) && clock <= clock'
    ensures Inv(s, capacity, clock')
  {
    forall i | 0 <= i < |s.log| ensures Accounted(s, capacity, clock', s.log[i]) {
      assert Accounted(s, capacity, clock, s.log[i]);
      NoncesGrow(s.log, s.log, s.log[i].proof.ts, clock + MAX_CLOCK_SKEW, clock' + MAX_CLOCK_SKEW);
    }
  }

  lemma {:induction false} RunKeepsInv(v: Verifier, arrivals: seq<Arrival>, clock: real)
    requires 0 < v.capacity && ClockNeverSteps(arrivals)
    requires forall i :: 0 <= i < |arrivals| ==> arrivals[i].now <= clock
    requires Quiet(Serve(v, arrivals).log, v.capacity, 2.0 * MAX_CLOCK_SKEW)
    ensures Inv(Serve(v, arrivals), v.capacity, clock)
  {
    if arrivals != [] {
      var init, a := arrivals[..|arrivals| - 1], arrivals[|arrivals| - 1];
      var s, s' := Serve(v, init), Serve(v, arrivals);
      QuietBefore(s.log, s'.log, v.capacity, 2.0 * MAX_CLOCK_SKEW);
      RunKeepsInv(v, init, a.now);
      if s' != s { AcceptKeepsInv(v, s, a.now, a); }
      WaitKeepsInv(s', v.capacity, a.now, clock);
    }
  }

  lemma {:induction false} LogGrows(v: Verifier, arrivals: seq<Arrival>, n: nat)
    requires n <= |arrivals|
    ensures Serve(v, arrivals[..n]).log <= Serve(v, arrivals).log
    decreases |arrivals|
  {
    if n < |arrivals| {
      LogGrows(v, arrivals[..|arrivals| - 1], n);
      assert arrivals[..|arrivals| - 1][..n] == arrivals[..n];
    } else {
      assert arrivals[..n] == arrivals;
    }
  }

  // A store without room refuses everything.
  lemma {:induction false} NothingIsAccepted(v: Verifier, arrivals: seq<Arrival>)
    requires v.capacity <= 0
    ensures Serve(v, arrivals) == State([], [])
  {
    if arrivals != [] { NothingIsAccepted(v, arrivals[..|arrivals| - 1]); }
  }

  /**
   Single use.  If no closed interval of `60 + slack` seconds holds more accepted nonces than
   the cache, then a nonce accepted once is not accepted again under a timestamp at most
   `slack` later; with no slack, the same signed request is accepted at most once.
   */
  lemma {:induction false} NonceIsSingleUse(v: Verifier, arrivals: seq<Arrival>, slack: real, i: nat, j: nat)
    requires ClockNeverSteps(arrivals) && 0.0 <= slack
    requires Quiet(Serve(v, arrivals).log, v.capacity, 2.0 * MAX_CLOCK_SKEW + slack)
    requires i < j < |Serve(v, arrivals).log|
    ensures var log := Serve(v, arrivals).log;
      log[i].proof.nonce == log[j].proof.nonce ==> log[j].proof.ts > log[i].proof.ts + slack
    decreases |arrivals|
  {
    if v.capacity <= 0 {
      NothingIsAccepted(v, arrivals);
      return;
    }
    var init, a := arrivals[..|arrivals| - 1], arrivals[|arrivals| - 1];
    var s, s' := Serve(v, init), Serve(v, arrivals);
    var width := 2.0 * MAX_CLOCK_SKEW + slack;
    QuietBefore(s.log, s'.log, v.capacity, width);
    if j < |s.log| {
      NonceIsSingleUse(v, init, slack, i, j);
    } else {
      RunKeepsInv(v, init, a.now);
      var first, again := s.log[i], s'.log[j];
      assert Accounted(s, v.capacity, a.now, first);
      assert !Knows(s.cache, again.proof.nonce);
      assert Seen(first.proof.nonce, first.proof.ts) in s.cache ==> Knows(s.cache, first.proof.nonce);
      assert again.proof.ts <= first.proof.ts + slack ==> a.now + MAX_CLOCK_SKEW <= first.proof.ts + width;
    }
  }

  /** Renderings of timestamps more than `slack` apart differ. */
  ghost predicate StampResolves(k: Primitives, slack: real) {
    forall x: real, y: real :: k.stamp(x) == k.stamp(y) ==> Abs(x - y) <= slack
  }

  // Every log entry carries the signature it was checked against.
  lemma {:induction false} LogIsSigned(v: Verifier, arrivals: seq<Arrival>, i: nat)
    requires i < |Serve(v, arrivals).log|
    ensures v.token.Some?
    ensures var p := Serve(v, arrivals).log[i].proof;
      p.request.node == v.node && p.signature == Signature(v.k, v.token.value, p.request, p.nonce, p.ts)
  {
    var init := arrivals[..|arrivals| - 1];
    if i < |Serve(v, init).log| { LogIsSigned(v, init, i); }
  }

  /** No signature is accepted twice, even under a timestamp altered below the rendered precision. */
  lemma {:induction false} SignatureIsSingleUse(v: Verifier, arrivals: seq<Arrival>, slack: real, i: nat, j: nat)
    requires ClockNeverSteps(arrivals) && 0.0 <= slack
    requires v.token.Some? && Sound(v.k, v.token.value) && StampResolves(v.k, slack)
    requires Quiet(Serve(v, arrivals).log, v.capacity, 2.0 * MAX_CLOCK_SKEW + slack)
    requires i < j < |Serve(v, arrivals).log|
    ensures Serve(v, arrivals).log[i].proof.signature != Serve(v, arrivals).log[j].proof.signature
  {
    NonceIsSingleUse(v, arrivals, slack, i, j);
    LogIsSigned(v, arrivals, i);
    LogIsSigned(v, arrivals, j);
    var p, q := Serve(v, arrivals).log[i].proof, Serve(v, arrivals).log[j].proof;
    if p.signature == q.signature {
      SameSignature(v.k, v.token.value, p.request, p.nonce, p.ts, q.request, q.nonce, q.ts);
    }
  }

  // ---- the bound is tight ----

  function Name(i: nat): string { seq(i, _ => 'n') }

  function Sent(v: Verifier, nonce: string): Arrival
    requires v.token.Some?
  {
    Arrival(BuildRequest(v.k, v.token.value, Request(v.node, "", "", false), nonce, 0.0), 0.0)
  }

  function ProofOf(v: Verifier, nonce: string): Proof
    requires v.token.Some?
  {
    var r := Request(v.node, "", "", false);
    Proof(r, nonce, 0.0, Signature(v.k, v.token.value, r, nonce, 0.0))
  }

  /** `n` different requests, all stamped 0 and all received at 0. */
  function Burst(v: Verifier, n: nat): seq<Arrival>
    requires v.token.Some?
  {
    seq(n, (i: nat) => Sent(v, Name(i)))
  }

  lemma {:induction false} NamesDiffer(i: nat, j: nat)
    ensures Name(i) == Name(j) ==> i == j
  {
    assert |Name(i)| == i && |Name(j)| == j;
  }

  function Names(n: nat): seq<Seen> {
    seq(n, (i: nat) => Seen(Name(i), 0.0))
  }

  lemma {:induction false} NextNameIsNew(n: nat)
    ensures !Knows(Names(n), Name(n)) && Names(n) + [Seen(Name(n), 0.0)] == Names(n + 1)
  {
    forall i | 0 <= i < n ensures Names(n)[i].nonce != Name(n) { NamesDiffer(i, n); }
  }

  ghost predicate NamedFrom(log: seq<Accepted>, v: Verifier, n: nat)
    requires v.token.Some?
  {
    |log| == n && forall i :: 0 <= i < n ==> log[i].proof == ProofOf(v, Name(i))
  }

  // A request whose nonce the cache does not know is accepted.
  lemma {:induction false} SentIsAccepted(v: Verifier, s: State, nonce: string)
    requires v.token.Some? && v.token.value != "" && 0 < v.capacity && !Knows(s.cache, nonce)
    ensures var s' := Receive(v, s, Sent(v, nonce));
      && s'.log == s.log + [Accepted(ProofOf(v, nonce), 0.0)]
      && Ok(s'.cache) == Claim(s.cache, v.capacity, nonce, 0.0)
  {
  }

  lemma {:induction false} BurstStep(v: Verifier, n: nat)
    requires v.token.Some?
    ensures Serve(v, Burst(v, n + 1)) == Receive(v, Serve(v, Burst(v, n)), Sent(v, Name(n)))
  {
    assert Burst(v, n + 1)[..n] == Burst(v, n);
  }

  lemma {:induction false} BurstFills(v: Verifier, n: nat)
    requires v.token.Some? && v.token.value != "" && n <= v.capacity
    ensures Serve(v, Burst(v, n)).cache == Names(n) && NamedFrom(Serve(v, Burst(v, n)).log, v, n)
  {
    if n > 0 {
      BurstFills(v, n - 1);
      BurstStep(v, n - 1);
      NextNameIsNew(n - 1);
      var s := Serve(v, Burst(v, n - 1));
      SentIsAccepted(v, s, Name(n - 1));
      NamedMore(v, s.log, n - 1);
    }
  }

  lemma {:induction false} NamedMore(v: Verifier, log: seq<Accepted>, n: nat)
    requires v.token.Some? && NamedFrom(log, v, n)
    ensures NamedFrom(log + [Accepted(ProofOf(v, Name(n)), 0.0)], v, n + 1)
  {
  }

  lemma {:induction false} FullCacheShifts(c: nat)
    requires 0 < c
    ensures var r := Claim(Names(c), c, Name(c), 0.0);
      r.Ok? && !Knows(r.value, Name(0))
  {
    var cache := Names(c);
    NextNameIsNew(c);
    assert cache[0].at == cache[Oldest(cache)].at;
    var after := Claim(cache, c, Name(c), 0.0).value;
    assert after == cache[1..] + [Seen(Name(c), 0.0)];
    forall i | 0 <= i < c ensures after[i].nonce != Name(0) { NamesDiffer(i + 1, 0); }
  }

  // The request after the full burst pushes out the first nonce of the burst.
  lemma {:induction false} OverflowForgetsFirst(v: Verifier)
    requires v.token.Some? && v.token.value != "" && 0 < v.capacity
    ensures var s := Serve(v, Burst(v, v.capacity + 1));
      NamedFrom(s.log, v, v.capacity + 1) && !Knows(s.cache, Name(0))
  {
    var c := v.capacity;
    BurstFills(v, c);
    BurstStep(v, c);
    NextNameIsNew(c);
    var s := Serve(v, Burst(v, c));
    SentIsAccepted(v, s, Name(c));
    NamedMore(v, s.log, c);
    FullCacheShifts(c);
  }

  /** One nonce more than the cache holds, in one instant, and the first request is accepted again. */
  lemma {:induction false} OneMoreNonceReplays(v: Verifier)
    requires v.token.Some? && v.token.value != "" && 0 < v.capacity
    ensures var arrivals := Burst(v, v.capacity + 1) + [Sent(v, Name(0))];
      var log := Serve(v, arrivals).log;
      && ClockNeverSteps(arrivals) && Quiet(log, v.capacity + 1, 2.0 * MAX_CLOCK_SKEW)
      && |log| == v.capacity + 2 && log[0].proof == log[v.capacity + 1].proof
  {
    var c := v.capacity;
    OverflowForgetsFirst(v);
    var arrivals := Burst(v, c + 1) + [Sent(v, Name(0))];
    assert arrivals[..c + 1] == Burst(v, c + 1);
    SentIsAccepted(v, Serve(v, Burst(v, c + 1)), Name(0));
    var log := Serve(v, arrivals).log;
    forall i | 0 <= i < |log| ensures exists k :: 0 <= k <= c && log[i].proof.nonce == Name(k) {
      assert log[i].proof.nonce == Name(if i <= c then i else 0);
    }
    NoncesBounded(log, c);
  }

  lemma {:induction false} NoncesBounded(log: seq<Accepted>, c: nat)
    requires forall i :: 0 <= i < |log| ==> exists k :: 0 <= k <= c && log[i].proof.nonce == Name(k)
    ensures Quiet(log, c + 1, 2.0 * MAX_CLOCK_SKEW)
  {
    var names := set k | 0 <= k <= c :: Name(k);
    NameCount(c + 1);
    assert names == set k | 0 <= k < c + 1 :: Name(k);
    forall lo: real, hi: real ensures |NoncesIn(log, lo, hi)| <= c + 1 {
      var some := NoncesIn(log, lo, hi);
      forall n | n in some ensures n in names {
        var i :| 0 <= i < |log| && log[i].proof.nonce == n;
        var k :| 0 <= k <= c && log[i].proof.nonce == Name(k);
      }
      assert names == some + (names - some);
    }
  }

  lemma {:induction false} NameCount(n: nat)
    ensures |set k | 0 <= k < n :: Name(k)| <= n
  {
    if n > 0 {
      NameCount(n - 1);
      var fewer := set k | 0 <= k < n - 1 :: Name(k);
      assert (set k | 0 <= k < n :: Name(k)) == fewer + {Name(n - 1)};
    }
  }

  // ---- a restarted node has forgotten every nonce ----

  /** The `i`-th arrival of this process's lifetime is accepted. */
  predicate Accepts(v: Verifier, arrivals: seq<Arrival>, i: nat) {
    i < |arrivals| &&
    var a, cache := arrivals[i], Serve(v, arrivals[..i]).cache;
    Verify(v.k, a.payload, v.node, v.token, a.now, cache, v.capacity).outcome.Ok?
  }

  /** One payload accepted in a lifetime that ended by `restart` and in the next, `grace` or more after it. */
  predicate Replayed(v: Verifier, life: seq<Arrival>, i: nat, next: seq<Arrival>, j: nat, restart: real, grace: real) {
    && Accepts(v, life, i) && Accepts(v, next, j) && life[i].payload == next[j].payload
    && life[i].now <= restart && restart + grace <= next[j].now
  }

  ghost predicate GraceStopsReplay(v: Verifier, grace: real) {
    forall life, i, next, j, restart :: !Replayed(v, life, i, next, j, restart, grace)
  }

  lemma {:induction false} AcceptedInWindow(v: Verifier, arrivals: seq<Arrival>, i: nat)
    requires Accepts(v, arrivals, i)
    ensures v.capacity > 0 && v.token.Some? && v.token.value != ""
    ensures var a := arrivals[i];
      a.payload.Envelope? && a.payload.timestamp.JNum? && Abs(a.now - a.payload.timestamp.n) <= MAX_CLOCK_SKEW
  {
    if v.capacity <= 0 { NothingIsAccepted(v, arrivals[..i]); }
  }

  lemma {:induction false} FirstIsAccepted(v: Verifier, ts: real, now: real)
    requires v.token.Some? && v.token.value != "" && v.capacity > 0 && Abs(now - ts) <= MAX_CLOCK_SKEW
    ensures Accepts(v, [Arrival(BuildRequest(v.k, v.token.value, Request(v.node, "", "", false), "", ts), now)], 0)
  {
    BuiltRequestVerifies(v.k, v.token.value, Request(v.node, "", "", false), "", ts, now, [], v.capacity);
  }

  /** Across a restart a request stays single-use exactly when the node refuses requests for more than twice
      the skew window, or accepts none at all. */
  lemma {:induction false} GraceStopsReplayIff(v: Verifier, grace: real)
    requires 0.0 <= grace
    ensures GraceStopsReplay(v, grace) <==>
      grace > 2.0 * MAX_CLOCK_SKEW || v.capacity <= 0 || v.token == None || v.token == Some("")
  {
    if grace > 2.0 * MAX_CLOCK_SKEW || v.capacity <= 0 || v.token == None || v.token == Some("") {
      forall life, i, next, j, restart ensures !Replayed(v, life, i, next, j, restart, grace) {
        if Replayed(v, life, i, next, j, restart, grace) {
          AcceptedInWindow(v, life, i);
          AcceptedInWindow(v, next, j);
        }
      }
    } else {
      var p := BuildRequest(v.k, v.token.value, Request(v.node, "", "", false), "", MAX_CLOCK_SKEW);
      FirstIsAccepted(v, MAX_CLOCK_SKEW, 0.0);
      FirstIsAccepted(v, MAX_CLOCK_SKEW, grace);
      assert Replayed(v, [Arrival(p, 0.0)], 0, [Arrival(p, grace)], 0, 0.0, grace);
    }
  }
}
