/**
 Sliding-window backpressure between a stream router and its receiver.  The sender's wait loop
 is split at the points where an ACK callback can run.
 */
module Backpressure {
  import opened Common

  /** `EventLoop` runs ACK callbacks between the sender's turns; `Threaded` runs them at any moment. */
  datatype Callbacks = EventLoop | Threaded

  datatype Config = Config(window: int, callbacks: Callbacks)

  /** Where the sending coroutine stands in its wait loop. */
  datatype Pc = Ready | SawFull | Asleep

  datatype Link = Link(
    sent: nat, acked: int, event: bool, pc: Pc,  // the router
    processed: nat,                              // the receiver
    data: set<nat>, acks: set<nat>)              // frames and ACKs in flight

  datatype Event =
    | Check            // evaluate the loop condition; send if the window is open
    | Sleep            // clear the event and wait on it
    | Wake             // the event is set: go round the loop again
    | DeliverFrame(frame: nat)
    | LoseFrame(frame: nat)
    | DeliverAck(seqNo: nat, again: bool)  // `again`: a duplicate stays in flight
    | LoseAck(seqNo: nat)

  function Max(a: int, b: int): int { if a >= b then a else b }

  const IDLE := Link(0, 0, false, Ready, 0, {}, {})

  predicate WindowFull(c: Config, s: Link) { s.sent - s.acked >= c.window }

  function ReceiveAck(s: Link, seqNo: nat): Link {
    s.(acked := Max(s.acked, seqNo), event := true)
  }

  function Step(c: Config, s: Link, e: Event): Link {
    match e
    case Check =>
      if s.pc != Ready then s
      else if WindowFull(c, s) then s.(pc := SawFull)
      else s.(sent := s.sent + 1, data := s.data + {s.sent + 1})
    case Sleep => if s.pc == SawFull then s.(event := false, pc := Asleep) else s
    case Wake => if s.pc == Asleep && s.event then s.(pc := Ready) else s
    case DeliverFrame(f) =>
      if f !in s.data then s
      else s.(data := s.data - {f}, processed := s.processed + 1, acks := s.acks + {s.processed + 1})
    case LoseFrame(f) => s.(data := s.data - {f})
    case DeliverAck(k, again) =>
      if k !in s.acks || (c.callbacks == EventLoop && s.pc == SawFull) then s
      else ReceiveAck(s, k).(acks := if again then s.acks else s.acks - {k})
    case LoseAck(k) => s.(acks := s.acks - {k})
  }

  function Run(c: Config, es: seq<Event>): Link {
    if es == [] then IDLE else Step(c, Run(c, es[..|es| - 1]), es[|es| - 1])
  }

  // ---- the window is respected ----

  ghost predicate Inv(c: Config, s: Link) {
    && 0 <= s.acked <= s.processed <= s.sent
    && s.sent - s.acked <= Max(c.window, 0)
    && (forall k :: k in s.acks ==> k <= s.processed)
    && (forall f :: f in s.data ==> f <= s.sent)
    && |s.data| <= s.sent - s.processed
  }

  lemma {:induction false} StepKeepsInv(c: Config, s: Link, e: Event)
    requires Inv(c, s)
    ensures Inv(c, Step(c, s, e))
  {
    match e
    case Check => CheckKeepsInv(c, s);
    case DeliverFrame(f) => FrameKeepsInv(c, s, f);
    case LoseFrame(f) => SetSizes(s.data, f);
    case _ =>
  }

  lemma {:induction false} CheckKeepsInv(c: Config, s: Link)
    requires Inv(c, s)
    ensures Inv(c, Step(c, s, Check))
  {
    SetSizes(s.data, s.sent + 1);
  }

  lemma {:induction false} FrameKeepsInv(c: Config, s: Link, f: nat)
    requires Inv(c, s)
    ensures Inv(c, Step(c, s, DeliverFrame(f)))
  {
    SetSizes(s.data, f);
    var s' := Step(c, s, DeliverFrame(f));
    assert forall k :: k in s'.acks ==> k in s.acks || k == s.processed + 1;
  }

  lemma SetSizes(a: set<nat>, x: nat)
    ensures |a + {x}| <= |a| + 1
    ensures |a - {x}| == |a| - if x in a then 1 else 0
  {
    if x in a { assert a + {x} == a; } else { assert a - {x} == a; }
  }

  lemma {:induction false} RunKeepsInv(c: Config, es: seq<Event>)
    ensures Inv(c, Run(c, es))
  {
    if es != [] {
      RunKeepsInv(c, es[..|es| - 1]);
      StepKeepsInv(c, Run(c, es[..|es| - 1]), es[|es| - 1]);
    }
  }

  /** Whatever is lost, repeated or reordered, frames sent but not processed stay within the window. */
  lemma {:induction false} WindowIsRespected(c: Config, es: seq<Event>)
    ensures Run(c, es).sent - Run(c, es).processed <= Max(c.window, 0)
  {
    RunKeepsInv(c, es);
  }

  // ---- a waiting sender is never stranded ----

  predicate LossFree(es: seq<Event>) {
    forall i :: 0 <= i < |es| ==> !es[i].LoseFrame? && !es[i].LoseAck?
  }

  ghost predicate HelpIsComing(s: Link) {
    s.data != {} || exists k :: k in s.acks && k > s.acked
  }

  // Nothing is unaccounted for: every frame is in flight or processed, every ACK in flight or seen.
  ghost predicate Accounted(s: Link) {
    && |s.data| == s.sent - s.processed
    && forall k :: 1 <= k <= s.processed ==> k in s.acks || k <= s.acked
  }

  lemma {:induction false} RunIsAccounted(c: Config, es: seq<Event>)
    requires LossFree(es)
    ensures Accounted(Run(c, es))
  {
    if es != [] {
      var init, e := es[..|es| - 1], es[|es| - 1];
      RunIsAccounted(c, init);
      RunKeepsInv(c, init);
      var s := Run(c, init);
      if e == Check { assert s.sent + 1 !in s.data; }
    }
  }

  /** Without losses, a full window of positive size has a frame or a larger ACK still in flight. */
  lemma {:induction false} FullWindowWillOpen(c: Config, es: seq<Event>)
    requires LossFree(es) && c.window > 0 && WindowFull(c, Run(c, es))
    ensures HelpIsComing(Run(c, es))
  {
    RunIsAccounted(c, es);
    RunKeepsInv(c, es);
    var s := Run(c, es);
    if s.data == {} {
      assert s.processed == s.sent > s.acked;
      assert s.processed in s.acks;
    }
  }

  ghost predicate FullWindowsOpen(c: Config) {
    forall es :: LossFree(es) && WindowFull(c, Run(c, es)) ==> HelpIsComing(Run(c, es))
  }

  /** A full window can count on help exactly when it has room for a frame at all. */
  lemma {:induction false} FullWindowsOpenIff(c: Config)
    ensures FullWindowsOpen(c) <==> c.window > 0
  {
    if c.window > 0 {
      forall es | LossFree(es) && WindowFull(c, Run(c, es)) ensures HelpIsComing(Run(c, es)) {
        FullWindowWillOpen(c, es);
      }
    } else {
      assert LossFree([]) && WindowFull(c, Run(c, [])) && !HelpIsComing(Run(c, []));
    }
  }

  /** No loss-free run leaves the sender waiting on a cleared event with nothing on its way. */
  ghost predicate NeverStranded(c: Config) {
    forall es :: LossFree(es) && Run(c, es).pc == Asleep && !Run(c, es).event ==> HelpIsComing(Run(c, es))
  }

  lemma {:induction false} SleeperSawFull(c: Config, es: seq<Event>)
    requires c.callbacks == EventLoop
    ensures var s := Run(c, es);
      s.pc == SawFull || (s.pc == Asleep && !s.event) ==> WindowFull(c, s)
  {
    if es != [] { SleeperSawFull(c, es[..|es| - 1]); }
  }

  // ---- progress ----

  /** An ACK that arrives is remembered if it is the largest, and rings the event; it never closes the window. */
  lemma {:induction false} AckOpens(c: Config, s: Link, k: nat, again: bool)
    requires k in s.acks && !(c.callbacks == EventLoop && s.pc == SawFull)
    ensures var s' := Step(c, s, DeliverAck(k, again));
      && s'.event && s'.acked >= k && s'.acked >= s.acked && (s'.acked == k || s'.acked == s.acked)
      && s'.sent == s.sent && s'.processed == s.processed && s'.pc == s.pc && s'.data == s.data
      && (k in s'.acks <==> again) && s'.acks + {k} == s.acks
  {
  }

  /** A sleeper that was rung goes on, and sends as soon as there is room. */
  lemma {:induction false} RungSenderSends(c: Config, s: Link)
    requires s.pc == Asleep && s.event && s.sent - s.acked < c.window
    ensures Step(c, Step(c, s, Wake), Check) == s.(pc := Ready, sent := s.sent + 1, data := s.data + {s.sent + 1})
  {
  }

  /** A sleeper that was not rung stays asleep. */
  lemma {:induction false} UnrungSenderSleeps(c: Config, s: Link)
    requires s.pc == Asleep && !s.event
    ensures Step(c, s, Wake) == s && Step(c, s, Check) == s && Step(c, s, Sleep) == s
  {
  }

  /** However many frames there are to send, any window with room lets all of them through. */
  lemma {:induction false} AnyNumberGoesThrough(c: Config, n: nat) returns (es: seq<Event>)
    requires c.window > 0
    ensures LossFree(es) && Run(c, es) == Link(n, n, n > 0, Ready, n, {}, {})
  {
    es := [];
    if n > 0 {
      es := AnyNumberGoesThrough(c, n - 1);
      RunSnoc(c, es, Check);
      RunSnoc(c, es + [Check], DeliverFrame(n));
      RunSnoc(c, es + [Check] + [DeliverFrame(n)], DeliverAck(n, false));
      es := es + [Check] + [DeliverFrame(n)] + [DeliverAck(n, false)];
    }
  }

  // ---- the lost wake-up ----

  predicate Between(lo: nat, x: nat, hi: nat) { lo < x <= hi }

  function Range(lo: nat, hi: nat): set<nat> { set x: nat | x <= hi && Between(lo, x, hi) }

  lemma {:induction false} RangeEnds(lo: nat, hi: nat)
    requires lo < hi
    ensures Range(lo, hi) - {lo + 1} == Range(lo + 1, hi)
    ensures Range(lo, hi - 1) + {hi} == Range(lo, hi)
  {
  }

  lemma {:induction false} RunSnoc(c: Config, es: seq<Event>, e: Event)
    ensures Run(c, es + [e]) == Step(c, Run(c, es), e)
  {
    assert (es + [e])[..|es|] == es;
  }

  lemma {:induction false} SendMany(c: Config, n: nat) returns (es: seq<Event>)
    requires n <= c.window
    ensures LossFree(es) && Run(c, es) == IDLE.(sent := n, data := Range(0, n))
  {
    es := [];
    if n == 0 {
      assert Range(0, 0) == {};
    } else {
      es := SendMany(c, n - 1);
      RunSnoc(c, es, Check);
      RangeEnds(0, n);
      es := es + [Check];
    }
  }

  lemma {:induction false} ProcessMany(c: Config, w: nat, n: nat) returns (es: seq<Event>)
    requires n <= w == c.window
    ensures LossFree(es) && Run(c, es) == IDLE.(sent := w, processed := n, data := Range(n, w), acks := Range(0, n))
  {
    if n == 0 {
      es := SendMany(c, w);
      assert Range(0, 0) == {};
    } else {
      es := ProcessMany(c, w, n - 1);
      RunSnoc(c, es, DeliverFrame(n));
      RangeEnds(n - 1, w);
      RangeEnds(0, n);
      es := es + [DeliverFrame(n)];
    }
  }

  // Between the check that finds the window full and the clear, `n` ACKs arrive.
  lemma {:induction false} AckMany(c: Config, w: nat, n: nat) returns (es: seq<Event>)
    requires n <= w == c.window && w > 0 && c.callbacks == Threaded
    ensures LossFree(es)
    ensures Run(c, es) == Link(w, n, n > 0, SawFull, w, {}, Range(n, w))
  {
    if n == 0 {
      es := ProcessMany(c, w, w);
      RunSnoc(c, es, Check);
      es := es + [Check];
      assert Range(w, w) == {};
    } else {
      es := AckMany(c, w, n - 1);
      RunSnoc(c, es, DeliverAck(n, false));
      RangeEnds(n - 1, w);
      es := es + [DeliverAck(n, false)];
    }
  }

  // A window without room is full before anything was sent.
  lemma {:induction false} NoRoomStrands(c: Config) returns (es: seq<Event>)
    requires c.window <= 0
    ensures LossFree(es) && Run(c, es) == IDLE.(pc := Asleep)
  {
    RunSnoc(c, [], Check);
    RunSnoc(c, [Check], Sleep);
    assert [] + [Check] == [Check];
    es := [Check] + [Sleep];
  }

  /** With callbacks on another thread, or a window without room, a run that strands the sender for good. */
  lemma {:induction false} SenderIsStranded(c: Config) returns (es: seq<Event>)
    requires c.callbacks == Threaded || c.window <= 0
    ensures LossFree(es)
    ensures var w := Max(c.window, 0); Run(c, es) == Link(w, w, false, Asleep, w, {}, {})
  {
    if c.window <= 0 {
      es := NoRoomStrands(c);
    } else {
      es := AckMany(c, c.window, c.window);
      RunSnoc(c, es, Sleep);
      es := es + [Sleep];
      assert Range(c.window, c.window) == {};
    }
  }

  /** No wake-up is lost exactly when ACKs cannot land between check and clear and the window has room. */
  lemma {:induction false} NeverStrandedIff(c: Config)
    ensures NeverStranded(c) <==> c.callbacks == EventLoop && c.window > 0
  {
    if c.callbacks == EventLoop && c.window > 0 {
      forall es | LossFree(es) && Run(c, es).pc == Asleep && !Run(c, es).event
        ensures HelpIsComing(Run(c, es))
      {
        SleeperSawFull(c, es);
        FullWindowWillOpen(c, es);
      }
    } else {
      var es := SenderIsStranded(c);
      assert !HelpIsComing(Run(c, es));
    }
  }

  // ---- the two ends as objects ----

  /** The sending end.  `send_chunk` is cut at the await, and its loop test is a step of its own. */
  class StreamRouter {
    const window: int
    var sentCount: nat
    var ackCount: int
    var ackEvent: bool
    var pc: Pc

    constructor (window: int)
      ensures this.window == window && Shows(IDLE)
    {
      this.window, sentCount, ackCount, ackEvent, pc := window, 0, 0, false, Ready;
    }

    /** These fields are the router's part of the link. */
    ghost predicate Shows(s: Link)
      reads this
    {
      sentCount == s.sent && ackCount == s.acked && ackEvent == s.event && pc == s.pc
    }

    method CheckWindow(ghost c: Config, ghost s: Link) returns (frame: Option<nat>)
      requires c.window == window && Shows(s) && pc == Ready
      modifies this
      ensures Shows(Step(c, s, Check))
      ensures Step(c, s, Check).data == s.data + if frame.Some? then {frame.value} else {}
    {
      if sentCount - ackCount >= window {
        pc := SawFull;
        return None;
      }
      sentCount := sentCount + 1;
      frame := Some(sentCount);
    }

    method ClearAndWait(ghost c: Config, ghost s: Link)
      requires Shows(s) && pc == SawFull
      modifies this
      ensures Shows(Step(c, s, Sleep))
    {
      ackEvent := false;
      pc := Asleep;
    }

    method Resume(ghost c: Config, ghost s: Link)
      requires Shows(s) && pc == Asleep && ackEvent
      modifies this
      ensures Shows(Step(c, s, Wake))
    {
      pc := Ready;
    }

    method OnAck(seqNo: nat, ghost s: Link)
      requires Shows(s)
      modifies this
      ensures Shows(ReceiveAck(s, seqNo))
    {
      ackCount := if ackCount >= seqNo then ackCount else seqNo;
      ackEvent := true;
    }
  }

  class StreamReceiver {
    var processedCount: nat

    constructor ()
      ensures processedCount == 0
    {
      processedCount := 0;
    }

    method SendAck() returns (seqNo: nat)
      modifies this
      ensures seqNo == processedCount == old(processedCount) + 1
    {
      processedCount := processedCount + 1;
      seqNo := processedCount;
    }
  }

  /** Both ends and the mesh between them. */
  ghost function Joined(router: StreamRouter, receiver: StreamReceiver, data: set<nat>, acks: set<nat>): Link
    reads router, receiver
  {
    Link(router.sentCount, router.ackCount, router.ackEvent, router.pc, receiver.processedCount, data, acks)
  }

  /** One event played on the objects is one step of the model. */
  method Play(c: Config, router: StreamRouter, receiver: StreamReceiver, data: set<nat>, acks: set<nat>, e: Event)
    returns (data': set<nat>, acks': set<nat>)
    requires router.window == c.window
    modifies router, receiver
    ensures Joined(router, receiver, data', acks') == Step(c, old(Joined(router, receiver, data, acks)), e)
  {
    ghost var s := Joined(router, receiver, data, acks);
    data', acks' := data, acks;
    match e {
      case Check =>
        if router.pc == Ready {
          var frame := router.CheckWindow(c, s);
          if frame.Some? { data' := data + {frame.value}; }
        }
      case Sleep => if router.pc == SawFull { router.ClearAndWait(c, s); }
      case Wake => if router.pc == Asleep && router.ackEvent { router.Resume(c, s); }
      case DeliverFrame(f) =>
        if f in data {
          var seqNo := receiver.SendAck();
          data', acks' := data - {f}, acks + {seqNo};
        }
      case LoseFrame(f) => data' := data - {f};
      case DeliverAck(k, again) =>
        if k in acks && !(c.callbacks == EventLoop && router.pc == SawFull) {
          router.OnAck(k, s);
          if !again { acks' := acks - {k}; }
        }
      case LoseAck(k) => acks' := acks - {k};
    }
  }

  /** However the mesh behaves, the live objects follow the model, and so keep within the window. */
  method Drive(c: Config, es: seq<Event>)
    returns (router: StreamRouter, receiver: StreamReceiver, data: set<nat>, acks: set<nat>)
    ensures Joined(router, receiver, data, acks) == Run(c, es)
    ensures router.sentCount - receiver.processedCount <= Max(c.window, 0)
  {
    router := new StreamRouter(c.window);
    receiver := new StreamReceiver();
    data, acks := {}, {};
    for i := 0 to |es|
      invariant fresh(router) && fresh(receiver) && router.window == c.window
      invariant Joined(router, receiver, data, acks) == Run(c, es[..i])
    {
      assert es[..i + 1][..i] == es[..i];
      data, acks := Play(c, router, receiver, data, acks, es[i]);
    }
    assert es[..|es|] == es;
    WindowIsRespected(c, es);
  }
}
