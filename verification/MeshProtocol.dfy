/** The signed request envelope, its verification, and the bounded store of used nonces. */
module MeshProtocol {
  import opened Common

  const MAX_CLOCK_SKEW: real := 30.0

  /** One decoded JSON member, as far as verification tells them apart. */
  datatype Json = JStr(s: string) | JNum(n: real) | JBool(b: bool) | JOther | JMissing

  datatype Payload =
    | Undecodable
    | NotAnObject
    | Envelope(v: Json, node: Json, model: Json, prompt: Json, stream: Json,
               nonce: Json, timestamp: Json, signature: Json)

  /** SHA-256 in hex, HMAC-SHA-256 in hex, and the fixed-precision rendering of a timestamp. */
  datatype Primitives = Primitives(sha: string -> string, mac: (string, string) -> string, stamp: real -> string)

  datatype Request = Request(node: string, model: string, prompt: string, stream: bool)

  datatype Refusal =
    | NotConfigured | Malformed | UnsupportedVersion | OtherNode | OutsideWindow | BadSignature
    | NonceUsed
    | CacheCannotEvict  // `min` of an empty cache: only a capacity of zero or less gets here

  function BodyMaterial(model: string, prompt: string, stream: bool): string {
    model + ['\0'] + prompt + ['\0'] + (if stream then "1" else "0")
  }

  function SignedMaterial(node: string, nonce: string, stamp: string, digest: string): string {
    node + ['\n'] + nonce + ['\n'] + stamp + ['\n'] + digest
  }

  function Signature(k: Primitives, token: string, r: Request, nonce: string, ts: real): string {
    k.mac(token, SignedMaterial(r.node, nonce, k.stamp(ts), k.sha(BodyMaterial(r.model, r.prompt, r.stream))))
  }

  function BuildRequest(k: Primitives, token: string, r: Request, nonce: string, ts: real): Payload {
    Envelope(JNum(1.0), JStr(r.node), JStr(r.model), JStr(r.prompt), JBool(r.stream),
             JStr(nonce), JNum(ts), JStr(Signature(k, token, r, nonce, ts)))
  }

  /** A request that passed every check except the nonce's. */
  datatype Proof = Proof(request: Request, nonce: string, ts: real, signature: string)

  function Abs(x: real): real { if x < 0.0 then -x else x }

  function Authenticate(k: Primitives, p: Payload, node: string, token: Option<string>, now: real)
    : Result<Proof, Refusal>
  {
    if token == None || token.value == "" then Err(NotConfigured)
    else if !p.Envelope? then Err(Malformed)
    // `True == 1` in Python, so a boolean version passes.
    else if p.v != JNum(1.0) && p.v != JBool(true) then Err(UnsupportedVersion)
    else
      var stream := if p.stream == JMissing then JBool(false) else p.stream;
      if !(p.node.JStr? && p.model.JStr? && p.prompt.JStr? && stream.JBool? &&
           p.nonce.JStr? && p.timestamp.JNum? && p.signature.JStr?) then Err(Malformed)
      else if p.node.s != node then Err(OtherNode)
      else if Abs(now - p.timestamp.n) > MAX_CLOCK_SKEW then Err(OutsideWindow)
      else
        var r := Request(node, p.model.s, p.prompt.s, stream.b);
        if p.signature.s != Signature(k, token.value, r, p.nonce.s, p.timestamp.n) then Err(BadSignature)
        else Ok(Proof(r, p.nonce.s, p.timestamp.n, p.signature.s))
  }

  // ---- the nonce store: a dictionary in insertion order ----

  datatype Seen = Seen(nonce: string, at: real)

  predicate Knows(cache: seq<Seen>, nonce: string) {
    exists i :: 0 <= i < |cache| && cache[i].nonce == nonce
  }

  /** First entry with the smallest timestamp. */
  function Oldest(cache: seq<Seen>): (i: nat)
    requires cache != []
    ensures i < |cache|
    ensures forall j :: 0 <= j < |cache| ==> cache[i].at <= cache[j].at
    ensures forall j :: 0 <= j < i ==> cache[i].at < cache[j].at
  {
    if |cache| == 1 then 0
    else
      var i := Oldest(cache[..|cache| - 1]);
      if cache[|cache| - 1].at < cache[i].at then |cache| - 1 else i
  }

  function Claim(cache: seq<Seen>, capacity: int, nonce: string, ts: real): Result<seq<Seen>, Refusal> {
    if Knows(cache, nonce) then Err(NonceUsed)
    else if |cache| >= capacity then
      if cache == [] then Err(CacheCannotEvict)
      else Ok(cache[..Oldest(cache)] + cache[Oldest(cache) + 1..] + [Seen(nonce, ts)])
    else Ok(cache + [Seen(nonce, ts)])
  }

  class NonceCache {
    const capacity: int
    var seen: seq<Seen>

    constructor (capacity: int)
      ensures this.capacity == capacity && seen == []
    {
      this.capacity, seen := capacity, [];
    }

    /** `min` over the dictionary, keyed by timestamp: the first of equals wins. */
    method FindOldest() returns (oldest: nat)
      requires seen != []
      ensures oldest == Oldest(seen)
    {
      oldest := 0;
      for i := 1 to |seen|
        invariant oldest == Oldest(seen[..i])
      {
        assert seen[..i + 1][..i] == seen[..i];
        if seen[i].at < seen[oldest].at { oldest := i; }
      }
      assert seen[..|seen|] == seen;
    }

    method ClaimNonce(nonce: string, ts: real) returns (r: Result<bool, Refusal>)
      modifies this
      ensures match Claim(old(seen), capacity, nonce, ts) {
        case Ok(cache) => r == Ok(true) && seen == cache
        case Err(NonceUsed) => r == Ok(false) && seen == old(seen)
        case Err(e) => r == Err(e) && seen == old(seen)
      }
    {
      var known := false;
      for i := 0 to |seen|
        invariant known == Knows(seen[..i], nonce)
      {
        assert forall j :: 0 <= j < i ==> seen[..i][j] == seen[..i + 1][j];
        assert seen[..i + 1][i] == seen[i];
        if seen[i].nonce == nonce { known := true; }
      }
      assert seen[..|seen|] == seen;
      if known { return Ok(false); }
      if |seen| >= capacity {
        if seen == [] { return Err(CacheCannotEvict); }
        var oldest := FindOldest();
        seen := seen[..oldest] + seen[oldest + 1..];
      }
      seen := seen + [Seen(nonce, ts)];
      r := Ok(true);
    }

    method VerifyRequest(k: Primitives, p: Payload, node: string, token: Option<string>, now: real)
      returns (r: Result<Request, Refusal>)
      modifies this
      ensures var v := Verify(k, p, node, token, now, old(seen), capacity);
        r == v.outcome && seen == v.cache
    {
      var proof := Authenticate(k, p, node, token, now);
      if proof.Err? { return Err(proof.error); }
      var claim := ClaimNonce(proof.value.nonce, proof.value.ts);
      if claim.Err? { return Err(claim.error); }
      if !claim.value { return Err(NonceUsed); }
      r := Ok(proof.value.request);
    }
  }

  datatype Verdict = Verdict(outcome: Result<Request, Refusal>, cache: seq<Seen>)

  /** Authentication first; a nonce is only spent by a request that is otherwise genuine. */
  function Verify(k: Primitives, p: Payload, node: string, token: Option<string>, now: real,
                  cache: seq<Seen>, capacity: int): Verdict
  {
    match Authenticate(k, p, node, token, now)
    case Err(e) => Verdict(Err(e), cache)
    case Ok(proof) =>
      match Claim(cache, capacity, proof.nonce, proof.ts)
      case Err(e) => Verdict(Err(e), cache)
      case Ok(cache') => Verdict(Ok(proof.request), cache')
  }

  /** A freshly built request is accepted by the node it names, and only its nonce is spent. */
  lemma {:induction false} BuiltRequestVerifies(k: Primitives, token: string, r: Request, nonce: string, ts: real,
                                                now: real, cache: seq<Seen>, capacity: int)
    requires token != "" && Abs(now - ts) <= MAX_CLOCK_SKEW && 0 < capacity
    ensures Verify(k, BuildRequest(k, token, r, nonce, ts), r.node, Some(token), now, cache, capacity).outcome ==
      if Knows(cache, nonce) then Err(NonceUsed) else Ok(r)
  {
  }

  // ---- exactly what is accepted ----

  /** The text a signature covers, field by field. */
  function Covered(k: Primitives, r: Request, nonce: string, ts: real): string {
    var body := r.model + "\0" + r.prompt + "\0" + (if r.stream then "1" else "0");
    r.node + "\n" + nonce + "\n" + k.stamp(ts) + "\n" + k.sha(body)
  }

  /** An envelope of version 1 with every field of the right kind; a missing stream flag means no. */
  predicate WellFormed(p: Payload, r: Request, nonce: string, ts: real, signature: string) {
    && p.Envelope? && (p.v == JNum(1.0) || p.v == JBool(true))
    && p.node == JStr(r.node) && p.model == JStr(r.model) && p.prompt == JStr(r.prompt)
    && (p.stream == JBool(r.stream) || (p.stream == JMissing && !r.stream))
    && p.nonce == JStr(nonce) && p.timestamp == JNum(ts) && p.signature == JStr(signature)
  }

  /** Authentic: for this node, stamped within thirty seconds either way, and signed with the node's token. */
  predicate Authentic(k: Primitives, p: Payload, node: string, token: Option<string>, now: real, proof: Proof) {
    && token.Some? && token.value != "" && WellFormed(p, proof.request, proof.nonce, proof.ts, proof.signature)
    && proof.request.node == node && proof.ts - 30.0 <= now <= proof.ts + 30.0
    && proof.signature == k.mac(token.value, Covered(k, proof.request, proof.nonce, proof.ts))
  }

  lemma {:induction false} CoveredIsSigned(k: Primitives, token: string, r: Request, nonce: string, ts: real)
    ensures Signature(k, token, r, nonce, ts) == k.mac(token, Covered(k, r, nonce, ts))
  {
    var flag := if r.stream then "1" else "0";
    assert BodyMaterial(r.model, r.prompt, r.stream) == r.model + "\0" + r.prompt + "\0" + flag;
    assert SignedMaterial(r.node, nonce, k.stamp(ts), k.sha(BodyMaterial(r.model, r.prompt, r.stream)))
        == Covered(k, r, nonce, ts);
  }

  /** Exactly authentic envelopes pass every check but the nonce's. */
  lemma {:induction false} AuthenticIff(k: Primitives, p: Payload, node: string, token: Option<string>, now: real,
                                        proof: Proof)
    ensures Authenticate(k, p, node, token, now) == Ok(proof) <==> Authentic(k, p, node, token, now, proof)
  {
    if token.Some? { CoveredIsSigned(k, token.value, proof.request, proof.nonce, proof.ts); }
  }

  predicate Typed(p: Payload) {
    && p.Envelope? && p.node.JStr? && p.model.JStr? && p.prompt.JStr? && (p.stream.JBool? || p.stream == JMissing)
    && p.nonce.JStr? && p.timestamp.JNum? && p.signature.JStr?
  }

  /** The checks in the order they are made, each with what its failure is called. */
  function Checks(p: Payload, node: string, token: Option<string>, now: real): seq<(bool, Refusal)> {
    [(token.Some? && token.value != "", NotConfigured),
     (p.Envelope?, Malformed),
     (p.Envelope? && p.v in {JNum(1.0), JBool(true)}, UnsupportedVersion),
     (Typed(p), Malformed),
     (Typed(p) && p.node.s == node, OtherNode),
     (Typed(p) && p.timestamp.n - 30.0 <= now <= p.timestamp.n + 30.0, OutsideWindow),
     (false, BadSignature)]
  }

  /** Whatever is refused is refused for the first check it fails, the signature's being the last. */
  lemma {:induction false} FirstFailureIsBlamed(k: Primitives, p: Payload, node: string, token: Option<string>,
                                                now: real, i: nat)
    requires Authenticate(k, p, node, token, now).Err? && i < 7 && !Checks(p, node, token, now)[i].0
    requires forall j :: 0 <= j < i ==> Checks(p, node, token, now)[j].0
    ensures Authenticate(k, p, node, token, now) == Err(Checks(p, node, token, now)[i].1)
  {
    var checks := Checks(p, node, token, now);
    assert i > 0 ==> checks[0].0;
    assert i > 1 ==> checks[1].0;
    assert i > 2 ==> checks[2].0;
    assert i > 3 ==> checks[3].0;
    assert i > 4 ==> checks[4].0;
    assert i > 5 ==> checks[5].0;
  }

  /** What a claim does: a known nonce is refused; a new one is remembered, for the oldest if there is no room. */
  lemma {:induction false} ClaimRemembers(cache: seq<Seen>, capacity: int, nonce: string, ts: real)
    ensures Claim(cache, capacity, nonce, ts) == Err(NonceUsed) <==>
      exists i :: 0 <= i < |cache| && cache[i].nonce == nonce
    ensures Claim(cache, capacity, nonce, ts).Ok? ==>
      var after := Claim(cache, capacity, nonce, ts).value;
      && after[|after| - 1] == Seen(nonce, ts)
      && (|cache| < capacity ==> after[..|after| - 1] == cache)
      && (|cache| >= capacity ==> |after| == |cache| && exists i :: Evicted(cache, after, i))
  {
    if Claim(cache, capacity, nonce, ts).Ok? && |cache| >= capacity {
      assert Evicted(cache, Claim(cache, capacity, nonce, ts).value, Oldest(cache));
    }
  }

  /** `after` lacks the `i`-th entry, which no entry predates. */
  predicate Evicted(cache: seq<Seen>, after: seq<Seen>, i: nat) {
    && i < |cache| && 0 < |after| && after[..|after| - 1] == cache[..i] + cache[i + 1..]
    && (forall j :: 0 <= j < |cache| ==> cache[i].at <= cache[j].at)
    && (forall j :: 0 <= j < i ==> cache[i].at < cache[j].at)
  }

  // ---- what a signature binds ----

  lemma {:induction false} CutAtLast(sep: char, a: string, b: string, a': string, b': string)
    requires a + [sep] + b == a' + [sep] + b' && sep !in b && sep !in b'
    ensures a == a' && b == b'
  {
    var s := a + [sep] + b;
    assert s[|a|] == sep && s[|a'|] == sep;
    assert forall i :: |a| < i < |s| ==> s[i] == b[i - |a| - 1] && s[i] != sep;
    assert forall i :: |a'| < i < |s| ==> s[i] == b'[i - |a'| - 1] && s[i] != sep;
    assert a == s[..|a|] && a' == s[..|a'|];
    assert b == s[|a| + 1..] && b' == s[|a'| + 1..];
  }

  /** Under one model the digest material determines prompt and stream flag. */
  lemma {:induction false} SameModelSameBody(m: string, p: string, s: bool, p': string, s': bool)
    requires BodyMaterial(m, p, s) == BodyMaterial(m, p', s')
    ensures p == p' && s == s'
  {
    var t, t' := BodyMaterial(m, p, s), BodyMaterial(m, p', s');
    assert t[|t| - 1] == t'[|t'| - 1];
    assert p == t[|m| + 1..|t| - 2] && p' == t'[|m| + 1..|t'| - 2];
  }

  predicate HasNul(r: Request) { '\0' in r.model || '\0' in r.prompt }

  ghost predicate SameMaterial(r: Request, r': Request) {
    BodyMaterial(r.model, r.prompt, r.stream) == BodyMaterial(r'.model, r'.prompt, r'.stream)
  }

  lemma {:induction false} MaterialParts(r: Request)
    ensures BodyMaterial(r.model, r.prompt, r.stream) ==
      (r.model + ['\0'] + r.prompt) + ['\0'] + (if r.stream then "1" else "0")
  {
  }

  // Model and prompt without a NUL leave one place for the separator between them.
  lemma {:induction false} OneSeparator(m: string, p: string, m': string, p': string)
    requires m + ['\0'] + p == m' + ['\0'] + p' && '\0' !in m && '\0' !in p
    ensures m == m' && p == p'
  {
    var s := m + ['\0'] + p;
    assert s[|m'|] == '\0';
    assert forall i :: 0 <= i < |m| ==> s[i] == m[i];
    assert forall i :: |m| < i < |s| ==> s[i] == p[i - |m| - 1];
    assert m == s[..|m|] && m' == s[..|m'|] && p == s[|m| + 1..] && p' == s[|m'| + 1..];
  }

  lemma {:induction false} MaterialIsUnique(r: Request, r': Request)
    requires !HasNul(r) && SameMaterial(r, r') && r.node == r'.node
    ensures r == r'
  {
    MaterialParts(r);
    MaterialParts(r');
    CutAtLast('\0', r.model + ['\0'] + r.prompt, if r.stream then "1" else "0",
              r'.model + ['\0'] + r'.prompt, if r'.stream then "1" else "0");
    OneSeparator(r.model, r.prompt, r'.model, r'.prompt);
  }

  /** A NUL anywhere in model or prompt is another place to split them. */
  lemma {:induction false} Resplit(r: Request) returns (r': Request)
    requires HasNul(r)
    ensures r' != r && r'.node == r.node && SameMaterial(r, r')
  {
    if '\0' in r.model {
      var i :| 0 <= i < |r.model| && r.model[i] == '\0';
      var a, b := r.model[..i], r.model[i + 1..];
      assert r.model == a + ['\0'] + b;
      r' := r.(model := a, prompt := b + ['\0'] + r.prompt);
      assert r'.model + ['\0'] + r'.prompt == r.model + ['\0'] + r.prompt;
    } else {
      var i :| 0 <= i < |r.prompt| && r.prompt[i] == '\0';
      var b, c := r.prompt[..i], r.prompt[i + 1..];
      assert r.prompt == b + ['\0'] + c;
      r' := r.(model := r.model + ['\0'] + b, prompt := c);
      assert |r'.model| > |r.model|;
      assert r'.model + ['\0'] + r'.prompt == r.model + ['\0'] + r.prompt;
    }
    MaterialParts(r);
    MaterialParts(r');
  }

  /** The digest material of a request is its alone exactly when neither model nor prompt holds a NUL. */
  lemma {:induction false} MaterialBindsBodyIff(r: Request)
    ensures (forall r': Request :: r'.node == r.node && SameMaterial(r, r') ==> r' == r) <==> !HasNul(r)
  {
    if HasNul(r) {
      var r' := Resplit(r);
    } else {
      forall r': Request | r'.node == r.node && SameMaterial(r, r') ensures r' == r { MaterialIsUnique(r, r'); }
    }
  }

  /** Collision-freedom of the hash and the MAC, and newline-free renderings. */
  ghost predicate Sound(k: Primitives, token: string) {
    && (forall x, y :: k.sha(x) == k.sha(y) ==> x == y)
    && (forall x, y :: k.mac(token, x) == k.mac(token, y) ==> x == y)
    && (forall x :: '\n' !in k.sha(x)) && (forall t :: '\n' !in k.stamp(t))
  }

  /** Envelope `p` authenticates and carries the signature made for `r`. */
  ghost predicate Carries(k: Primitives, token: string, r: Request, nonce: string, ts: real, p: Payload, now: real) {
    && Authenticate(k, p, r.node, Some(token), now).Ok? && p.Envelope?
    && p.signature == JStr(Signature(k, token, r, nonce, ts))
  }

  /** Whatever authenticates under the signature of `r` is `r`. */
  ghost predicate Bound(k: Primitives, token: string, r: Request, nonce: string, ts: real) {
    forall p, now :: Carries(k, token, r, nonce, ts, p, now) ==>
      Authenticate(k, p, r.node, Some(token), now).value.request == r
  }

  lemma {:induction false} SameSignature(k: Primitives, token: string, r: Request, nonce: string, ts: real,
                      r': Request, nonce': string, ts': real)
    requires Sound(k, token) && r.node == r'.node
    requires Signature(k, token, r, nonce, ts) == Signature(k, token, r', nonce', ts')
    ensures nonce == nonce' && k.stamp(ts) == k.stamp(ts') && SameMaterial(r, r')
  {
    var d, d' := k.sha(BodyMaterial(r.model, r.prompt, r.stream)), k.sha(BodyMaterial(r'.model, r'.prompt, r'.stream));
    var a, a' := r.node + ['\n'] + nonce, r'.node + ['\n'] + nonce';
    assert SignedMaterial(r.node, nonce, k.stamp(ts), d) == a + ['\n'] + k.stamp(ts) + ['\n'] + d;
    assert SignedMaterial(r'.node, nonce', k.stamp(ts'), d') == a' + ['\n'] + k.stamp(ts') + ['\n'] + d';
    CutAtLast('\n', a + ['\n'] + k.stamp(ts), d, a' + ['\n'] + k.stamp(ts'), d');
    CutAtLast('\n', a, k.stamp(ts), a', k.stamp(ts'));
    assert nonce == a[|r.node| + 1..] && nonce' == a'[|r.node| + 1..];
  }

  /** Nonce and rendered timestamp cannot be altered under a signature, whatever the body. */
  lemma {:induction false} SignatureBindsNonce(k: Primitives, token: string, r: Request, nonce: string, ts: real,
                                               p: Payload, now: real)
    requires Sound(k, token) && Carries(k, token, r, nonce, ts, p, now)
    ensures var got := Authenticate(k, p, r.node, Some(token), now).value;
      got.nonce == nonce && k.stamp(got.ts) == k.stamp(ts) && SameMaterial(r, got.request)
  {
    var got := Authenticate(k, p, r.node, Some(token), now).value;
    SameSignature(k, token, r, nonce, ts, got.request, got.nonce, got.ts);
  }

  /** An envelope carrying the signature of `r` that the node accepts as another request. */
  lemma {:induction false} ResplitIsAccepted(k: Primitives, token: string, r: Request, nonce: string, ts: real,
                                             now: real)
    returns (p: Payload)
    requires token != "" && HasNul(r) && Abs(now - ts) <= MAX_CLOCK_SKEW
    ensures Carries(k, token, r, nonce, ts, p, now)
    ensures Authenticate(k, p, r.node, Some(token), now).value.request != r
  {
    var r' := Resplit(r);
    p := BuildRequest(k, token, r', nonce, ts);
  }

  /** The smallest case: model "a" asked "b NUL c" is accepted as model "a NUL b" asked "c". */
  lemma {:induction false} PromptMovesIntoModel(k: Primitives, token: string, node: string, nonce: string, ts: real)
    requires token != ""
    ensures var signed, served := Request(node, "a", "b\0c", false), Request(node, "a\0b", "c", false);
      var p := BuildRequest(k, token, served, nonce, ts);
      Carries(k, token, signed, nonce, ts, p, ts) && Authenticate(k, p, node, Some(token), ts).value.request == served
  {
    assert "a" + ['\0'] + "b\0c" == "a\0b" + ['\0'] + "c";
  }

  /**
   A signature is proof of one request exactly when the request's model and prompt hold no NUL, which
   its signer can check beforehand.
   */
  lemma {:induction false} SignatureBindsRequestIff(k: Primitives, token: string, r: Request, nonce: string, ts: real)
    requires Sound(k, token) && token != ""
    ensures Bound(k, token, r, nonce, ts) <==> !HasNul(r)
  {
    if HasNul(r) {
      var p := ResplitIsAccepted(k, token, r, nonce, ts, ts);
    } else {
      forall p, now | Carries(k, token, r, nonce, ts, p, now)
        ensures Authenticate(k, p, r.node, Some(token), now).value.request == r
      {
        SignatureBindsNonce(k, token, r, nonce, ts, p, now);
        MaterialIsUnique(r, Authenticate(k, p, r.node, Some(token), now).value.request);
      }
    }
  }
}
