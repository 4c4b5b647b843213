/** One streamed inference: the node's replies, the scheduler's mesh stream, the dispatcher's answer. */
module MeshStreaming {
  import opened Common

  datatype Reply =
    | Chunk(index: int, text: string)
    | Done
    | Failure(status: int)
    | NoContent  // an `ok` reply with neither chunk nor terminator

  /** What the drain thread puts on the queue: replies, transport trouble, and always a final `End`. */
  datatype Item = Decoded(reply: Reply) | Broken | End

  // ---- the node ----

  /** What the model produces for one request: some chunks, then completion or an error. */
  datatype Generation = Generation(chunks: seq<string>, error: Option<int>)

  function ChunkReplies(chunks: seq<string>): seq<Reply> {
    seq(|chunks|, (i: nat) requires i < |chunks| => Chunk(i, chunks[i]))
  }

  function Replies(g: Generation): seq<Reply> {
    ChunkReplies(g.chunks) + [if g.error == None then Done else Failure(g.error.value)]
  }

  method ServeStream(g: Generation) returns (replies: seq<Reply>)
    ensures replies == Replies(g) && |replies| == |g.chunks| + 1
    ensures forall i :: 0 <= i < |g.chunks| ==> replies[i] == Chunk(i, g.chunks[i])
    ensures replies[|g.chunks|] == if g.error == None then Done else Failure(g.error.value)
  {
    replies := [];
    var index := 0;
    while index < |g.chunks|
      invariant index <= |g.chunks| && replies == ChunkReplies(g.chunks[..index])
    {
      replies := replies + [Chunk(index, g.chunks[index])];
      index := index + 1;
    }
    assert g.chunks[..index] == g.chunks;
    if g.error == None {
      replies := replies + [Done];
    } else {
      replies := replies + [Failure(g.error.value)];
    }
  }

  // ---- the scheduler ----

  datatype Ending = Clean | Raised(status: int)

  datatype Stream = Stream(yielded: seq<string>, ending: Ending)

  datatype Dispatch =
    | FallBackToHttp         // nothing was yielded and nothing was refused
    | Refused(status: int)   // the node's answer, before any token
    | Streamed(stream: Stream)

  /** Everything iterating a mesh stream over `items` yields, and how it stops. */
  function Walk(items: seq<Item>): Stream {
    if items == [] then Stream([], Raised(502))
    else match items[0]
      case End => Stream([], Raised(502))
      case Broken => Stream([], Raised(502))
      case Decoded(Failure(status)) => Stream([], Raised(status))
      case Decoded(Done) => Stream([], Clean)
      case Decoded(NoContent) => Walk(items[1..])
      case Decoded(Chunk(_, text)) =>
        var rest := Walk(items[1..]);
        Stream([text] + rest.yielded, rest.ending)
  }

  /** The first item decides the transport; `inTime` says it arrived within the first-reply timeout. */
  function OpenStream(items: seq<Item>, inTime: bool): Dispatch {
    if items == [] || !inTime then FallBackToHttp
    else match items[0]
      case End => FallBackToHttp
      case Broken => FallBackToHttp
      case Decoded(Failure(status)) => Refused(status)
      case Decoded(Done) => Streamed(Stream([], Clean))
      case Decoded(NoContent) => Refused(502)
      case Decoded(Chunk(_, _)) => Streamed(Walk(items))
  }

  // ---- the drain thread ----

  /** What the reply iterator hands over: a transport error, nothing usable, or a payload that decodes or not. */
  datatype Delivery = TransportError | Blank | Sample(reply: Option<Reply>)

  function Kept(deliveries: seq<Delivery>): seq<Item> {
    if deliveries == [] then []
    else
      var before, d := Kept(deliveries[..|deliveries| - 1]), deliveries[|deliveries| - 1];
      match d
      case Blank => before
      case TransportError => before + [Broken]
      case Sample(None) => before + [Broken]
      case Sample(Some(reply)) => before + [Decoded(reply)]
  }

  /** Deliveries in order, trouble marked, and the end mark last and only there; `broke` is a raise of the iterator. */
  method Drain(deliveries: seq<Delivery>, broke: bool) returns (queue: seq<Item>)
    ensures queue == Drained(deliveries, broke)
    ensures End !in queue[..|queue| - 1]
  {
    queue := [];
    for i := 0 to |deliveries|
      invariant queue == Kept(deliveries[..i]) && End !in queue
    {
      assert deliveries[..i + 1][..i] == deliveries[..i];
      match deliveries[i] {
        case TransportError => queue := queue + [Broken];
        case Blank =>
        case Sample(None) => queue := queue + [Broken];
        case Sample(Some(reply)) => queue := queue + [Decoded(reply)];
      }
    }
    assert deliveries[..|deliveries|] == deliveries;
    if broke {
      queue := queue + [Broken];
    }
    queue := queue + [End];
  }

  datatype Next = Yield(text: string) | Stop | Raise(status: int)

  class MeshStream {
    var firstChunk: Option<string>
    var queue: seq<Item>
    var lastIndex: int
    var finished: bool

    constructor (firstChunk: Option<string>, queue: seq<Item>, finished: bool)
      ensures this.firstChunk == firstChunk && this.queue == queue && this.finished == finished
    {
      this.firstChunk, this.queue, this.finished, lastIndex := firstChunk, queue, finished, 0;
    }

    /** What is still to come. */
    ghost function Rest(): Stream
      reads this
    {
      var tail := if finished then Stream([], Clean) else Walk(queue);
      if firstChunk.Some? then Stream([firstChunk.value] + tail.yielded, tail.ending) else tail
    }

    /** `__anext__`; an empty queue would block forever, and the drain thread always ends it with `End`. */
    method GetNext() returns (n: Next)
      requires finished || End in queue
      modifies this
      ensures match n {
        case Yield(text) =>
          && old(Rest()) == Stream([text] + Rest().yielded, Rest().ending)
          && (finished || End in queue)
          && (old(firstChunk).Some? || |queue| < old(|queue|)) && |queue| <= old(|queue|) && firstChunk == None
        case Stop => old(Rest()) == Stream([], Clean)
        case Raise(status) => old(Rest()) == Stream([], Raised(status))
      }
    {
      if firstChunk.Some? {
        n := Yield(firstChunk.value);
        firstChunk := None;
        return;
      }
      if finished { return Stop; }
      while true
        invariant !finished && End in queue && firstChunk == None && |queue| <= old(|queue|)
        invariant Walk(queue) == old(Rest())
        decreases |queue|
      {
        var item := queue[0];
        if item != End { assert End in queue[1..]; }
        queue := queue[1..];
        match item {
          case End =>
            finished := true;
            return Raise(502);
          case Broken =>
            finished := true;
            return Raise(502);
          case Decoded(Failure(status)) =>
            finished := true;
            return Raise(status);
          case Decoded(Done) =>
            finished := true;
            return Stop;
          case Decoded(NoContent) =>
          case Decoded(Chunk(index, text)) =>
            lastIndex := index;
            return Yield(text);
        }
      }
    }
  }

  /** The dispatcher's token iterator over one query's queue. */
  method OpenInferenceStream(useMesh: bool, items: seq<Item>, inTime: bool) returns (d: Dispatch)
    requires End in items
    ensures d == if useMesh then OpenStream(items, inTime) else FallBackToHttp
  {
    if !useMesh || !inTime { return FallBackToHttp; }
    var stream: MeshStream;
    match items[0] {
      case End => return FallBackToHttp;
      case Broken => return FallBackToHttp;
      case Decoded(Failure(status)) => return Refused(status);
      case Decoded(NoContent) => return Refused(502);
      case Decoded(Done) => stream := new MeshStream(None, items[1..], true);
      case Decoded(Chunk(_, text)) =>
        assert End in items[1..];
        stream := new MeshStream(Some(text), items[1..], false);
    }
    ghost var goal := stream.Rest();
    var yielded: seq<string> := [];
    while true
      invariant fresh(stream) && (stream.finished || End in stream.queue)
      invariant goal == Stream(yielded + stream.Rest().yielded, stream.Rest().ending)
      decreases stream.firstChunk.Some?, |stream.queue|
    {
      var n := stream.GetNext();
      match n {
        case Yield(text) => yielded := yielded + [text];
        case Stop => return Streamed(Stream(yielded, Clean));
        case Raise(status) => return Streamed(Stream(yielded, Raised(status)));
      }
    }
  }

  // ---- any queue at all ----

  predicate Carries(item: Item) { item.Decoded? && item.reply.Chunk? }

  predicate Skips(item: Item) { item.Decoded? && item.reply.NoContent? }

  /** Texts of the chunks, in order. */
  function TextsOf(items: seq<Item>): seq<string> {
    if items == [] then []
    else (if Carries(items[0]) then [items[0].reply.text] else []) + TextsOf(items[1..])
  }

  /** What the item that ends a stream makes of it. */
  predicate EndsAs(item: Item, ending: Ending) {
    || (item == Decoded(Done) && ending == Clean)
    || (item.Decoded? && item.reply.Failure? && ending == Raised(item.reply.status))
    || (item in {Broken, End} && ending == Raised(502))
  }

  /** The first `n` items carry chunks or nothing, and the next one ends the stream. */
  ghost predicate EndsAt(items: seq<Item>, n: nat, ending: Ending) {
    n < |items| && EndsAs(items[n], ending) && forall k :: 0 <= k < n ==> Carries(items[k]) || Skips(items[k])
  }

  lemma {:induction false} WalkToEnd(items: seq<Item>, n: nat, ending: Ending)
    requires EndsAt(items, n, ending)
    ensures Walk(items) == Stream(TextsOf(items[..n]), ending)
  {
    if n > 0 {
      assert items[1..][..n - 1] == items[..n][1..];
      WalkToEnd(items[1..], n - 1, ending);
    }
  }

  /** What the dispatcher makes of any queue: where the first trouble or terminator comes decides, and nothing after. */
  lemma {:induction false} QueueDecides(items: seq<Item>, n: nat, ending: Ending)
    requires EndsAt(items, n, ending)
    ensures OpenStream(items, true) ==
      if Skips(items[0]) then Refused(502)
      else if n > 0 then Streamed(Stream(TextsOf(items[..n]), ending))
      else if items[0] == Decoded(Done) then Streamed(Stream([], Clean))
      else if items[0] in {Broken, End} then FallBackToHttp
      else Refused(items[0].reply.status)
    ensures OpenStream(items, false) == FallBackToHttp
  {
    WalkToEnd(items, n, ending);
  }

  // ---- any deliveries at all ----

  predicate Passes(d: Delivery) {
    d == Blank || (d.Sample? && d.reply.Some? && (d.reply.value.Chunk? || d.reply.value.NoContent?))
  }

  predicate BringsText(d: Delivery) { d.Sample? && d.reply.Some? && d.reply.value.Chunk? }

  function DeliveredTexts(deliveries: seq<Delivery>): seq<string> {
    if deliveries == [] then []
    else
      var init, d := deliveries[..|deliveries| - 1], deliveries[|deliveries| - 1];
      DeliveredTexts(init) + if BringsText(d) then [d.reply.value.text] else []
  }

  lemma {:induction false} TextsConcat(a: seq<Item>, b: seq<Item>)
    ensures TextsOf(a + b) == TextsOf(a) + TextsOf(b)
  {
    if a == [] {
      assert a + b == b;
    } else {
      assert (a + b)[1..] == a[1..] + b;
      TextsConcat(a[1..], b);
    }
  }

  lemma {:induction false} OneText(item: Item)
    ensures TextsOf([item]) == if Carries(item) then [item.reply.text] else []
  {
    assert [item][1..] == [];
  }

  /** Draining keeps the texts and the order, and leaves nothing but chunks and empty replies of what passes. */
  lemma {:induction false} PassedIsKept(deliveries: seq<Delivery>)
    requires forall k :: 0 <= k < |deliveries| ==> Passes(deliveries[k])
    ensures TextsOf(Kept(deliveries)) == DeliveredTexts(deliveries)
    ensures forall k :: 0 <= k < |Kept(deliveries)| ==> Carries(Kept(deliveries)[k]) || Skips(Kept(deliveries)[k])
    ensures Kept(deliveries) == [] <==> forall k :: 0 <= k < |deliveries| ==> deliveries[k] == Blank
  {
    if deliveries != [] {
      var init, d := deliveries[..|deliveries| - 1], deliveries[|deliveries| - 1];
      PassedIsKept(init);
      assert forall k :: 0 <= k < |init| ==> deliveries[k] == init[k];
      if d != Blank {
        TextsConcat(Kept(init), [Decoded(d.reply.value)]);
        OneText(Decoded(d.reply.value));
      }
    }
  }

  lemma {:induction false} KeptConcat(a: seq<Delivery>, b: seq<Delivery>)
    ensures Kept(a + b) == Kept(a) + Kept(b)
  {
    if b == [] {
      assert a + b == a;
    } else {
      assert (a + b)[..|a + b| - 1] == a + b[..|b| - 1];
      KeptConcat(a, b[..|b| - 1]);
    }
  }

  /** The queue of a query: what was kept, a raise of the iterator if there was one, and the end mark. */
  function Drained(deliveries: seq<Delivery>, broke: bool): seq<Item> {
    Kept(deliveries) + (if broke then [Broken] else []) + [End]
  }

  /** What one delivery that does not pass does to a stream. */
  predicate DeliveryEndsAs(d: Delivery, ending: Ending) {
    || (d == Sample(Some(Done)) && ending == Clean)
    || (d.Sample? && d.reply.Some? && d.reply.value.Failure? && ending == Raised(d.reply.value.status))
    || ((d == TransportError || d == Sample(None)) && ending == Raised(502))
  }

  /** The deliveries pass up to the `n`-th, and that one, or running out of them, ends the stream. */
  ghost predicate RunsOutAt(deliveries: seq<Delivery>, n: nat, ending: Ending) {
    && n <= |deliveries| && (forall k :: 0 <= k < n ==> Passes(deliveries[k]))
    && if n == |deliveries| then ending == Raised(502) else DeliveryEndsAs(deliveries[n], ending)
  }

  lemma {:induction false} RunsOutSomewhere(deliveries: seq<Delivery>) returns (n: nat, ending: Ending)
    ensures RunsOutAt(deliveries, n, ending)
    decreases |deliveries|
  {
    if deliveries == [] {
      n, ending := 0, Raised(502);
    } else if Passes(deliveries[0]) {
      n, ending := RunsOutSomewhere(deliveries[1..]);
      n := n + 1;
      assert forall k :: 1 <= k < n ==> deliveries[k] == deliveries[1..][k - 1];
    } else {
      n := 0;
      ending := match deliveries[0]
        case Sample(Some(Done)) => Clean
        case Sample(Some(Failure(status))) => Raised(status)
        case _ => Raised(502);
    }
  }

  // The item the ending delivery leaves on the queue, or what closes the queue without one.
  function EndItem(deliveries: seq<Delivery>, broke: bool, n: nat): Item {
    if n < |deliveries| then
      match deliveries[n]
      case Sample(Some(reply)) => Decoded(reply)
      case _ => Broken
    else if broke then Broken else End
  }

  lemma {:induction false} DrainedEnds(deliveries: seq<Delivery>, broke: bool, n: nat, ending: Ending)
    requires RunsOutAt(deliveries, n, ending)
    ensures var lead := Kept(deliveries[..n]);
      && EndsAt(Drained(deliveries, broke), |lead|, ending) && Drained(deliveries, broke)[..|lead|] == lead
      && Drained(deliveries, broke)[|lead|] == EndItem(deliveries, broke, n)
  {
    var lead := Kept(deliveries[..n]);
    PassedIsKept(deliveries[..n]);
    if n < |deliveries| {
      var d, rest := deliveries[n], deliveries[n + 1..];
      assert deliveries == deliveries[..n] + ([d] + rest);
      KeptConcat(deliveries[..n], [d] + rest);
      KeptConcat([d], rest);
      assert [d][..0] == [] && Kept([d]) == [EndItem(deliveries, broke, n)];
      assert Drained(deliveries, broke)[|lead|] == EndItem(deliveries, broke, n);
    } else {
      assert deliveries[..n] == deliveries;
    }
  }

  /** The first delivery that is not blank. */
  ghost predicate LeadsWith(deliveries: seq<Delivery>, d: Delivery) {
    exists k :: 0 <= k < |deliveries| && deliveries[k] == d && d != Blank
      && forall j :: 0 <= j < k ==> deliveries[j] == Blank
  }

  lemma {:induction false} FirstKept(deliveries: seq<Delivery>)
    requires (forall k :: 0 <= k < |deliveries| ==> Passes(deliveries[k])) && Kept(deliveries) != []
    ensures Skips(Kept(deliveries)[0]) <==> LeadsWith(deliveries, Sample(Some(NoContent)))
  {
    var init, d := deliveries[..|deliveries| - 1], deliveries[|deliveries| - 1];
    assert forall k :: 0 <= k < |init| ==> deliveries[k] == init[k];
    PassedIsKept(init);
    if Kept(init) != [] {
      FirstKept(init);
      BlankNoLonger(init, d);
    } else {
      assert forall k :: 0 <= k < |init| ==> deliveries[k] == Blank;
      if d == Sample(Some(NoContent)) { assert deliveries[|init|] == d; }
    }
  }

  lemma {:induction false} BlankNoLonger(init: seq<Delivery>, d: Delivery)
    requires exists k :: 0 <= k < |init| && init[k] != Blank
    ensures forall x :: LeadsWith(init + [d], x) <==> LeadsWith(init, x)
  {
    var all := init + [d];
    var some :| 0 <= some < |init| && init[some] != Blank;
    forall x | LeadsWith(all, x) ensures LeadsWith(init, x) {
      var k :| 0 <= k < |all| && all[k] == x && x != Blank && forall j :: 0 <= j < k ==> all[j] == Blank;
      assert all[some] != Blank && k <= some;
      assert init[k] == x && forall j :: 0 <= j < k ==> init[j] == all[j];
    }
    forall x | LeadsWith(init, x) ensures LeadsWith(all, x) {
      var k :| 0 <= k < |init| && init[k] == x && x != Blank && forall j :: 0 <= j < k ==> init[j] == Blank;
      assert all[k] == x && forall j :: 0 <= j < k ==> all[j] == init[j];
    }
  }

  /**
   Over every sequence of deliveries: what passes before the first trouble or terminator is yielded, chunk by
   chunk, and that alone decides how the stream ends.
   */
  lemma {:induction false} DeliveriesDecide(deliveries: seq<Delivery>, broke: bool, n: nat, ending: Ending)
    requires RunsOutAt(deliveries, n, ending)
    ensures var d := OpenStream(Drained(deliveries, broke), true);
      if LeadsWith(deliveries[..n], Sample(Some(NoContent))) then d == Refused(502)
      else if exists k :: 0 <= k < n && deliveries[k] != Blank then
        d == Streamed(Stream(DeliveredTexts(deliveries[..n]), ending))
      else if ending == Clean then d == Streamed(Stream([], Clean))
      else if n < |deliveries| && deliveries[n].Sample? && deliveries[n].reply.Some? then
        d == Refused(deliveries[n].reply.value.status)
      else d == FallBackToHttp
  {
    var items, lead := Drained(deliveries, broke), Kept(deliveries[..n]);
    DrainedEnds(deliveries, broke, n, ending);
    PassedIsKept(deliveries[..n]);
    QueueDecides(items, |lead|, ending);
    assert forall k :: 0 <= k < n ==> deliveries[..n][k] == deliveries[k];
    if lead != [] {
      FirstKept(deliveries[..n]);
      assert items[0] == lead[0];
    } else if LeadsWith(deliveries[..n], Sample(Some(NoContent))) {
      assert false;
    }
  }

  /** A stream ends cleanly exactly when a terminator is delivered before any trouble, and not after an empty start. */
  lemma {:induction false} CleanIffTerminated(deliveries: seq<Delivery>, broke: bool)
    ensures var d := OpenStream(Drained(deliveries, broke), true);
      (d.Streamed? && d.stream.ending == Clean) <==>
        exists n: nat :: RunsOutAt(deliveries, n, Clean) && !LeadsWith(deliveries[..n], Sample(Some(NoContent)))
  {
    var d := OpenStream(Drained(deliveries, broke), true);
    if d.Streamed? && d.stream.ending == Clean {
      var n, ending := RunsOutSomewhere(deliveries);
      DeliveriesDecide(deliveries, broke, n, ending);
      assert RunsOutAt(deliveries, n, Clean);
    }
    if n: nat :| RunsOutAt(deliveries, n, Clean) && !LeadsWith(deliveries[..n], Sample(Some(NoContent))) {
      DeliveriesDecide(deliveries, broke, n, Clean);
    }
  }

  // ---- in-order prefixes ----

  /** The queue of a query that received `replies` and nothing after. */
  function Queue(replies: seq<Reply>): seq<Item> {
    seq(|replies|, (i: nat) requires i < |replies| => Decoded(replies[i])) + [End]
  }

  function Delivered(replies: seq<Reply>): seq<Delivery> {
    seq(|replies|, (i: nat) requires i < |replies| => Sample(Some(replies[i])))
  }

  /** Draining well-formed replies fills exactly that queue. */
  lemma {:induction false} DrainFillsQueue(replies: seq<Reply>)
    ensures Kept(Delivered(replies)) + [End] == Queue(replies)
  {
    if replies != [] {
      var init := replies[..|replies| - 1];
      DrainFillsQueue(init);
      assert Delivered(replies)[..|replies| - 1] == Delivered(init);
      assert Kept(Delivered(init)) == Queue(init)[..|init|];
      assert Queue(replies)[..|replies|] == Queue(init)[..|init|] + [Decoded(replies[|replies| - 1])];
    }
  }

  lemma {:induction false} WalkChunk(index: int, text: string, rest: seq<Reply>)
    ensures Walk(Queue([Chunk(index, text)] + rest)) ==
      Stream([text] + Walk(Queue(rest)).yielded, Walk(Queue(rest)).ending)
  {
    assert Queue([Chunk(index, text)] + rest)[1..] == Queue(rest);
  }

  /** A run of chunk replies is yielded in order before anything that follows. */
  lemma {:induction false} WalkChunks(indices: seq<int>, chunks: seq<string>, rest: seq<Reply>)
    requires |indices| == |chunks|
    ensures var lead := seq(|chunks|, (i: nat) requires i < |chunks| => Chunk(indices[i], chunks[i]));
      Walk(Queue(lead + rest)) == Stream(chunks + Walk(Queue(rest)).yielded, Walk(Queue(rest)).ending)
    decreases |chunks|
  {
    var lead := seq(|chunks|, (i: nat) requires i < |chunks| => Chunk(indices[i], chunks[i]));
    if chunks == [] {
      assert lead + rest == rest;
    } else {
      var tail := seq(|chunks| - 1, (i: nat) requires i < |chunks| - 1 => Chunk(indices[1..][i], chunks[1..][i]));
      assert lead + rest == [Chunk(indices[0], chunks[0])] + (tail + rest);
      WalkChunk(indices[0], chunks[0], tail + rest);
      WalkChunks(indices[1..], chunks[1..], rest);
      assert chunks == [chunks[0]] + chunks[1..];
    }
  }

  /** What iteration yields and how it ends when the first `k` replies arrive. */
  lemma {:induction false} WalkPrefix(g: Generation, k: nat)
    requires k <= |Replies(g)|
    ensures Walk(Queue(Replies(g)[..k])) ==
      if k <= |g.chunks| then Stream(g.chunks[..k], Raised(502))
      else Stream(g.chunks, if g.error == None then Clean else Raised(g.error.value))
  {
    var n := if k <= |g.chunks| then k else |g.chunks|;
    var rest := Replies(g)[n..k];
    var lead := seq(n, (i: nat) requires i < n => Chunk(i, g.chunks[..n][i]));
    var indices := seq(n, (i: nat) => i as int);
    assert lead == seq(n, (i: nat) requires i < n => Chunk(indices[i], g.chunks[..n][i]));
    assert Replies(g)[..k] == lead + rest;
    WalkChunks(indices, g.chunks[..n], rest);
    if k <= |g.chunks| {
      assert rest == [] && Queue(rest)[0] == End;
    } else {
      assert rest == [Replies(g)[|g.chunks|]] && Queue(rest)[0] == Decoded(rest[0]);
    }
  }

  /**
   Over any in-order prefix of the node's replies: a clean end means the whole generation, an
   error comes after a prefix of it, and HTTP is only tried before any token.
   */
  lemma {:induction false} PrefixIsNeverMistakenForWhole(g: Generation, k: nat, inTime: bool)
    requires k <= |Replies(g)|
    ensures match OpenStream(Queue(Replies(g)[..k]), inTime) {
      case FallBackToHttp => k == 0 || !inTime
      case Refused(status) => g.chunks == [] && g.error == Some(status) && k == 1
      case Streamed(Stream(yielded, Clean)) => yielded == g.chunks && g.error == None && k == |Replies(g)|
      case Streamed(Stream(yielded, Raised(_))) => yielded <= g.chunks && (k < |Replies(g)| || g.error.Some?)
    }
    ensures inTime && k == |Replies(g)| && g.error == None ==>
      OpenStream(Queue(Replies(g)[..k]), inTime) == Streamed(Stream(g.chunks, Clean))
  {
    WalkPrefix(g, k);
    if k > 0 {
      assert Queue(Replies(g)[..k])[0] == Decoded(Replies(g)[0]);
    } else {
      assert Queue(Replies(g)[..k])[0] == End;
    }
  }

  // ---- replies that fail to be sent ----

  /** `_reply` swallows a failed send and the loop goes on: only the marked chunks get through. */
  function Through(chunks: seq<string>, ok: seq<bool>, from: nat): seq<Reply>
    requires |ok| == |chunks|
    decreases |chunks|
  {
    if chunks == [] then []
    else (if ok[0] then [Chunk(from, chunks[0])] else []) + Through(chunks[1..], ok[1..], from + 1)
  }

  function Texts(chunks: seq<string>, ok: seq<bool>): (r: seq<string>)
    requires |ok| == |chunks|
    ensures |r| <= |chunks|
    decreases |chunks|
  {
    if chunks == [] then []
    else (if ok[0] then [chunks[0]] else []) + Texts(chunks[1..], ok[1..])
  }

  // The chunks that got through are yielded, then whatever follows them decides.
  lemma {:induction false} WalkThrough(chunks: seq<string>, ok: seq<bool>, from: nat, rest: seq<Reply>)
    requires |ok| == |chunks|
    ensures Walk(Queue(Through(chunks, ok, from) + rest)) ==
      Stream(Texts(chunks, ok) + Walk(Queue(rest)).yielded, Walk(Queue(rest)).ending)
    decreases |chunks|
  {
    if chunks == [] {
      assert Through(chunks, ok, from) + rest == rest;
    } else {
      WalkThrough(chunks[1..], ok[1..], from + 1, rest);
      ThroughStep(chunks, ok, from, rest);
      TextsStep(chunks, ok, Walk(Queue(rest)).yielded);
      if ok[0] {
        WalkChunk(from, chunks[0], Through(chunks[1..], ok[1..], from + 1) + rest);
      }
    }
  }

  lemma {:induction false} ThroughStep(chunks: seq<string>, ok: seq<bool>, from: nat, rest: seq<Reply>)
    requires |ok| == |chunks| && chunks != []
    ensures var later := Through(chunks[1..], ok[1..], from + 1) + rest;
      Through(chunks, ok, from) + rest == if ok[0] then [Chunk(from, chunks[0])] + later else later
  {
  }

  lemma {:induction false} TextsStep(chunks: seq<string>, ok: seq<bool>, rest: seq<string>)
    requires |ok| == |chunks| && chunks != []
    ensures var later := Texts(chunks[1..], ok[1..]) + rest;
      Texts(chunks, ok) + rest == if ok[0] then [chunks[0]] + later else later
  {
  }

  function Text(chunks: seq<string>): string {
    if chunks == [] then [] else chunks[0] + Text(chunks[1..])
  }

  /** Every chunk that was not sent was empty. */
  predicate OnlyEmptyLost(chunks: seq<string>, ok: seq<bool>)
    requires |ok| == |chunks|
  {
    forall i :: 0 <= i < |chunks| ==> ok[i] || chunks[i] == []
  }

  lemma {:induction false} TextIsWholeIff(chunks: seq<string>, ok: seq<bool>)
    requires |ok| == |chunks|
    ensures |Text(Texts(chunks, ok))| <= |Text(chunks)|
    ensures Text(Texts(chunks, ok)) == Text(chunks) <==> OnlyEmptyLost(chunks, ok)
    decreases |chunks|
  {
    if chunks != [] {
      TextIsWholeIff(chunks[1..], ok[1..]);
      LostLater(chunks, ok);
      var c, rest, later := chunks[0], Texts(chunks[1..], ok[1..]), Text(chunks[1..]);
      if ok[0] {
        assert Texts(chunks, ok) == [c] + rest && ([c] + rest)[1..] == rest;
        assert (c + Text(rest))[|c|..] == Text(rest) && (c + later)[|c|..] == later;
      } else {
        assert Texts(chunks, ok) == rest;
        assert c == [] ==> c + later == later;
      }
    }
  }

  lemma {:induction false} LostLater(chunks: seq<string>, ok: seq<bool>)
    requires |ok| == |chunks| && chunks != []
    ensures OnlyEmptyLost(chunks, ok) <==> (ok[0] || chunks[0] == []) && OnlyEmptyLost(chunks[1..], ok[1..])
  {
    assert forall i :: 1 <= i < |chunks| ==> chunks[i] == chunks[1..][i - 1] && ok[i] == ok[1..][i - 1];
  }

  /** What arrives of a generation: the chunks marked `ok`, and the closing reply if `closed`. */
  function Arrived(g: Generation, ok: seq<bool>, closed: bool): seq<Reply>
    requires |ok| == |g.chunks|
  {
    Through(g.chunks, ok, 0) + if closed then [Replies(g)[|g.chunks|]] else []
  }

  function EndingOf(g: Generation, closed: bool): Ending {
    if !closed then Raised(502) else if g.error == None then Clean else Raised(g.error.value)
  }

  lemma {:induction false} DispatchOfArrived(g: Generation, ok: seq<bool>, closed: bool)
    requires |ok| == |g.chunks|
    ensures OpenStream(Queue(Arrived(g, ok, closed)), true) ==
      if Texts(g.chunks, ok) == [] && !closed then FallBackToHttp
      else if Texts(g.chunks, ok) == [] && g.error.Some? then Refused(g.error.value)
      else Streamed(Stream(Texts(g.chunks, ok), EndingOf(g, closed)))
  {
    var rest := if closed then [Replies(g)[|g.chunks|]] else [];
    WalkThrough(g.chunks, ok, 0, rest);
    FirstThrough(g.chunks, ok, 0);
    assert Queue(rest)[0] == if closed then Decoded(rest[0]) else End;
    if Texts(g.chunks, ok) != [] {
      assert Queue(Arrived(g, ok, closed))[0] == Decoded(Through(g.chunks, ok, 0)[0]);
    } else {
      assert Arrived(g, ok, closed) == rest;
    }
  }

  lemma {:induction false} FirstThrough(chunks: seq<string>, ok: seq<bool>, from: nat)
    requires |ok| == |chunks|
    ensures |Through(chunks, ok, from)| == |Texts(chunks, ok)|
    ensures Through(chunks, ok, from) != [] ==> Through(chunks, ok, from)[0].Chunk?
    decreases |chunks|
  {
    if chunks != [] { FirstThrough(chunks[1..], ok[1..], from + 1); }
  }

  /**
   Whatever sends fail: the dispatcher's stream ends cleanly exactly when the generation succeeded
   and its terminator got through, and the text is then the whole generation exactly when no chunk
   that was lost carried any.
   */
  lemma {:induction false} CleanEndIsWholeIff(g: Generation, ok: seq<bool>, closed: bool)
    requires |ok| == |g.chunks|
    ensures var d := OpenStream(Queue(Arrived(g, ok, closed)), true);
      && ((d.Streamed? && d.stream.ending == Clean) <==> closed && g.error == None)
      && (d.Streamed? ==> (Text(d.stream.yielded) == Text(g.chunks) <==> OnlyEmptyLost(g.chunks, ok)))
  {
    DispatchOfArrived(g, ok, closed);
    TextIsWholeIff(g.chunks, ok);
  }

  /** A dropped chunk goes unnoticed: "b" alone is served as a complete "a", "b". */
  lemma {:induction false} DroppedChunkGoesUnnoticed()
    ensures OpenStream(Queue(Arrived(Generation(["a", "b"], None), [false, true], true)), true)
         == Streamed(Stream(["b"], Clean))
  {
    var chunks, ok := ["a", "b"], [false, true];
    DispatchOfArrived(Generation(chunks, None), ok, true);
    assert chunks[1..] == ["b"] && ok[1..] == [true] && ["b"][1..] == [];
    assert Texts(chunks, ok) == Texts(["b"], [true]) == ["b"];
  }
}
