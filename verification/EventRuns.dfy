/** What the event words hold over whole runs of the kernel, told from the calls and from what they hand back
    (kernel/base/ipc/los_event.c). */
module EventRuns {
  import opened Ledger
  import opened Runs
  import opened Soundness
  import opened Tasks
  import Event

  /** The step is a read of event `e`, at once or after a wait. */
  predicate ReadsEvent(s: Step, w: World, e: nat) { (s.EventRead? && s.e == e) || ResumesOn(s, w, EvL(e)) }

  /** ... and it hands back bits, among them those of `b`. */
  predicate HandsBack(s: Step, w: World, r: Reply, e: nat, b: bv32)
  {
    ReadsEvent(s, w, e) && r.Bits? && !Event.IsError(r.uwEvents) && Event.Hits(r.uwEvents, b)
  }

  /** The reader has asked for the bits that it gets to be cleared. */
  predicate Clears(s: Step, w: World)
  {
    if s.EventRead? then Event.ModeClear(s.mode)
    else s.ResumeCall? && w.run in w.c.tcb && w.c.tcb[w.run].wait.Waiting? && w.c.tcb[w.run].wait.call.EventArgs?
         && Event.ModeClear(w.c.tcb[w.run].wait.call.uwEventMode)
  }

  /** The step sets bit `b` of event `e`. */
  predicate WritesBit(s: Step, r: Reply, e: nat, b: bv32)
  {
    s.EventWrite? && s.e == e && r == Reply.Bits(0) && Event.Hits(s.uwEvents, b)
  }

  /** The step takes bit `b` out of event `e`: a read that clears has handed it back, or it is not among those that a
      call of `LOS_EventClear` keeps. */
  predicate DropsBit(s: Step, w: World, r: Reply, e: nat, b: bv32)
  {
    || (HandsBack(s, w, r, e, b) && Clears(s, w))
    || (s.EventClear? && s.e == e && !Event.Hits(s.uwEvents, b))
  }

  lemma EventAnswers(s: Step, w: World, r: Reply)
    requires r == Answer(s, w)
    ensures KindOf(s) == EventKind ==> r == EventAnswer(s, w)
    ensures KindOf(s) == ResumeKind ==> r == EndAnswer(s, w)
  {
    hide SemAnswer, MuxAnswer, QueueAnswer, EndAnswer, EventAnswer, MailAnswer, TaskAnswer, SetAnswer;
  }

  /** A poll, bit by bit: what it hands back was there, and goes exactly if that was asked for. */
  lemma PollBit(id: bv32, mask: bv32, mode: bv32, b: bv32)
    requires Event.GoodArgs(mask, mode) && Event.Single(b)
    ensures var r := Event.Polled(id, mask, mode);
            && !Event.IsError(r) && (Event.Hits(r, b) ==> Event.Hits(id, b))
            && (Event.Hits(Event.AfterPoll(id, mask, mode), b) <==>
                 Event.Hits(id, b) && !(Event.Hits(r, b) && Event.ModeClear(mode)))
  {
    var r := Event.Polled(id, mask, mode);
    Event.PollMeaning(id, mask, mode);
    Event.PollTakes(id, mask, mode);
    Event.PollPart(id, mask, mode);
    TookBit(id, Event.AfterPoll(id, mask, mode), r, mode, b);
    PartBit(id, mask, b);
    hide Event.Polled, Event.AfterPoll, Event.GoodArgs, Event.Took, Event.Single, Event.IsError, Event.ModeClear;
  }

  lemma PartBit(id: bv32, mask: bv32, b: bv32)
    ensures Event.Hits(id & mask, b) ==> Event.Hits(id, b)
    ensures !Event.Hits(0, b)
  {
  }

  lemma TookBit(id0: bv32, id1: bv32, r: bv32, mode: bv32, b: bv32)
    requires Event.Took(id0, id1, r, mode) && Event.Single(b)
    ensures Event.Hits(id1, b) <==> Event.Hits(id0, b) && !(Event.Hits(r, b) && Event.ModeClear(mode))
  {
    if r != 0 && Event.ModeClear(mode) {
      TakenBit(id1, r, b);
    } else if r == 0 {
      PartBit(0, 0, b);
    }
  }

  lemma TakenBit(rest: bv32, r: bv32, b: bv32)
    requires rest & r == 0 && Event.Single(b)
    ensures Event.Hits(rest, b) <==> Event.Hits(rest | r, b) && !Event.Hits(r, b)
  {
    Event.BothBits(rest, r, b);
    Event.HitsEither(rest, r, b);
    Event.HitsBack(r, b);
    NothingHits(rest & r, b);
    assert Event.SetBits(rest, r) == rest | r;
    hide Event.Hits, Event.Single;
  }

  lemma EventsOf(w: World)
    requires Sound(w)
    ensures Event.EventsOk(w.events, w.c)
  {
    hide WF, Event.EventsOk;
  }

  /** What a step makes of one bit. */
  predicate BitTold(s: Step, w: World, events: seq<bv32>, r: Reply, e: nat, b: bv32)
  {
    && e < |w.events| == |events|
    && (Event.Hits(events[e], b) <==>
         WritesBit(s, r, e, b) || (Event.Hits(w.events[e], b) && !DropsBit(s, w, r, e, b)))
    && (HandsBack(s, w, r, e, b) ==> Event.Hits(w.events[e], b))
  }

  /** One step, bit by bit. */
  lemma BitStep(s: Step, w: World, w': World, r: Reply, e: nat, b: bv32)
    requires Sound(w) && Follows(s, w, w') && r == Answer(s, w) && e < |w.events| && Event.Single(b)
    ensures BitTold(s, w, w'.events, r, e, b)
  {
    hide *;
    EventsBooked(s, w, w');
    EventAnswers(s, w, r);
    KindIs(s);
    if s.EventRead? {
      ReadBit(s, w, r, e, b);
    } else if s.ResumeCall? {
      BackBit(s, w, r, e, b);
    } else if s.EventWrite? {
      WroteBit(s, w, r, e, b);
    } else if s.EventClear? {
      ClearedBit(s, w, r, e, b);
    } else {
      OtherBit(s, w, r, e, b);
    }
  }

  lemma KindIs(s: Step)
    ensures KindOf(s) == EventKind <==> s.EventRead? || s.EventWrite? || s.EventClear?
    ensures KindOf(s) == ResumeKind <==> s.ResumeCall?
  {
  }

  lemma OtherBit(s: Step, w: World, r: Reply, e: nat, b: bv32)
    requires !s.EventRead? && !s.EventWrite? && !s.EventClear? && !s.ResumeCall? && e < |w.events|
    ensures BitTold(s, w, EventsAfter(s, w), r, e, b)
  {
    WordsAfter(s, w);
    NotRead(s, w, r, e, b);
    hide EventsAfter, HandsBack, Clears, Event.Hits;
  }

  /** The event words after a step that is no read. */
  lemma WordsAfter(s: Step, w: World)
    requires !s.EventRead? && !s.ResumeCall?
    ensures EventsAfter(s, w)
            == if s.EventWrite? && s.e < |w.events| && !Event.IsError(s.uwEvents)
               then w.events[s.e := Event.SetBits(w.events[s.e], s.uwEvents)]
               else if s.EventClear? && s.e < |w.events|
               then w.events[s.e := Event.KeepBits(w.events[s.e], s.uwEvents)] else w.events
  {
    hide Event.SetBits, Event.KeepBits, Event.IsError, Event.AfterPoll;
  }

  lemma NotRead(s: Step, w: World, r: Reply, e: nat, b: bv32)
    requires !s.EventRead? && !s.ResumeCall?
    ensures !HandsBack(s, w, r, e, b)
  {
  }

  lemma EventsBooked(s: Step, w: World, w': World)
    requires Follows(s, w, w')
    ensures w'.events == EventsAfter(s, w)
  {
    hide Time, Priorities, MailFollows, EventsAfter, Elects;
  }

  lemma WriteAnswered(s: Step, w: World, r: Reply)
    requires s.EventWrite? && r == EventAnswer(s, w)
    ensures r == Reply.Bits(0) <==> s.e < |w.events| && !Event.IsError(s.uwEvents)
  {
    Event.SetBitErrors();
    hide Event.IsError;
  }

  lemma WroteBit(s: Step, w: World, r: Reply, e: nat, b: bv32)
    requires s.EventWrite? && e < |w.events| && r == EventAnswer(s, w) && Event.Single(b)
    ensures BitTold(s, w, EventsAfter(s, w), r, e, b)
  {
    hide *;
    WriteAnswered(s, w, r);
    WordsAfter(s, w);
    NotRead(s, w, r, e, b);
    if s.e < |w.events| && !Event.IsError(s.uwEvents) {
      Event.SetBitsAll(w.events[s.e], s.uwEvents);
      assert Event.Hits(Event.SetBits(w.events[s.e], s.uwEvents), b) <==>
          Event.Hits(w.events[s.e], b) || Event.Hits(s.uwEvents, b);
      WroteTold(s, w, Event.SetBits(w.events[s.e], s.uwEvents), r, e, b);
    } else {
      NotWritten(s, w, r, e, b);
    }
  }

  lemma WroteTold(s: Step, w: World, word: bv32, r: Reply, e: nat, b: bv32)
    requires s.EventWrite? && s.e < |w.events| && e < |w.events| && r == Reply.Bits(0) && !HandsBack(s, w, r, e, b)
    requires Event.Hits(word, b) <==> Event.Hits(w.events[s.e], b) || Event.Hits(s.uwEvents, b)
    ensures BitTold(s, w, w.events[s.e := word], r, e, b)
  {
    hide Event.Hits, HandsBack;
  }

  lemma NotWritten(s: Step, w: World, r: Reply, e: nat, b: bv32)
    requires s.EventWrite? && e < |w.events| && r != Reply.Bits(0) && !HandsBack(s, w, r, e, b)
    ensures BitTold(s, w, w.events, r, e, b)
  {
    hide Event.Hits, HandsBack;
  }

  lemma ClearedBit(s: Step, w: World, r: Reply, e: nat, b: bv32)
    requires s.EventClear? && e < |w.events| && Event.Single(b)
    ensures BitTold(s, w, EventsAfter(s, w), r, e, b)
  {
    WordsAfter(s, w);
    NotRead(s, w, r, e, b);
    if s.e < |w.events| { Event.KeptBits(w.events[s.e], s.uwEvents); }
    hide EventsAfter, HandsBack, Clears, Event.Hits, Event.KeepBits, Event.Single;
  }

  lemma ReadBit(s: Step, w: World, r: Reply, e: nat, b: bv32)
    requires s.EventRead? && e < |w.events| && r == EventAnswer(s, w) && Event.Single(b)
    ensures BitTold(s, w, EventsAfter(s, w), r, e, b)
  {
    hide *;
    if Heard(s, w) {
      ReadAnswered(s, w, r);
      HeardIs(s, w);
      PollBit(w.events[s.e], s.mask, s.mode, b);
      NothingHits(Event.Polled(w.events[s.e], s.mask, s.mode), b);
      ReadTold(s, w, r, e, b);
    } else {
      Unheard(s, w, r, e, b);
    }
  }

  /** The read is one that can be made. */
  predicate Heard(s: Step, w: World)
  {
    s.EventRead? && MayCall(w, s.uwTimeout, s.isr) && s.e < |w.events| && Event.GoodArgs(s.mask, s.mode) && !s.isr
  }

  lemma HeardIs(s: Step, w: World)
    ensures Heard(s, w) ==> s.EventRead? && s.e < |w.events| && Event.GoodArgs(s.mask, s.mode)
  {
    hide Event.GoodArgs;
  }

  lemma ReadAnswered(s: Step, w: World, r: Reply)
    requires Heard(s, w) && r == EventAnswer(s, w)
    ensures EventsAfter(s, w) == w.events[s.e := Event.AfterPoll(w.events[s.e], s.mask, s.mode)]
    ensures var p := Event.Polled(w.events[s.e], s.mask, s.mode);
            if p != 0 then r == Reply.Bits(p) else r.Bits? ==> r.uwEvents == 0 || Event.IsError(r.uwEvents)
  {
    Event.ReadErrors(s.mask, s.mode, s.isr);
    hide Event.Polled, Event.AfterPoll, Event.GoodArgs, Event.IsError, Event.ArgError,
      Event.ModeClear;
  }

  lemma ReadTold(s: Step, w: World, r: Reply, e: nat, b: bv32)
    requires s.EventRead? && s.e < |w.events| && e < |w.events|
    requires var p := Event.Polled(w.events[s.e], s.mask, s.mode);
             && !Event.IsError(p) && (p == 0 ==> !Event.Hits(p, b))
                && (Event.Hits(p, b) ==> Event.Hits(w.events[s.e], b))
             && (Event.Hits(Event.AfterPoll(w.events[s.e], s.mask, s.mode), b) <==>
                  Event.Hits(w.events[s.e], b) && !(Event.Hits(p, b) && Event.ModeClear(s.mode)))
             && if p != 0 then r == Reply.Bits(p) else r.Bits? ==> r.uwEvents == 0 || Event.IsError(r.uwEvents)
    ensures BitTold(s, w, w.events[s.e := Event.AfterPoll(w.events[s.e], s.mask, s.mode)], r, e, b)
  {
    hide Event.Hits, Event.Polled, Event.AfterPoll, Event.IsError, Event.ModeClear;
  }

  lemma Unheard(s: Step, w: World, r: Reply, e: nat, b: bv32)
    requires s.EventRead? && e < |w.events| && r == EventAnswer(s, w) && !Heard(s, w)
    ensures BitTold(s, w, EventsAfter(s, w), r, e, b)
  {
    Event.ReadErrors(s.mask, s.mode, s.isr);
    hide Event.Hits, Event.Polled, Event.AfterPoll, Event.GoodArgs, Event.IsError, Event.ArgError,
      Event.ModeClear;
  }

  lemma NothingHits(r: bv32, b: bv32)
    ensures r == 0 ==> !Event.Hits(r, b)
  {
  }

  lemma BackBit(s: Step, w: World, r: Reply, e: nat, b: bv32)
    requires s.ResumeCall? && Sound(w) && e < |w.events| && r == EndAnswer(s, w) && Event.Single(b)
    ensures BitTold(s, w, EventsAfter(s, w), r, e, b)
  {
    EventsOf(w);
    if Returns(s, w) && w.c.tcb[w.run].wait.id.EvL? { BackHere(s, w, r, e, b); } else { BackElsewhere(s, w, r, e, b); }
  }

  /** The end of a call that is not a read of events. */
  lemma BackElsewhere(s: Step, w: World, r: Reply, e: nat, b: bv32)
    requires s.ResumeCall? && e < |w.events| && r == EndAnswer(s, w)
    requires !(Returns(s, w) && w.c.tcb[w.run].wait.id.EvL?)
    ensures BitTold(s, w, EventsAfter(s, w), r, e, b)
  {
    hide Event.Hits, Event.AfterPoll, Event.IsError;
  }

  lemma BackHere(s: Step, w: World, r: Reply, e: nat, b: bv32)
    requires s.ResumeCall? && Event.EventsOk(w.events, w.c) && e < |w.events| && r == EndAnswer(s, w)
             && Event.Single(b)
    requires Returns(s, w) && w.c.tcb[w.run].wait.id.EvL?
    ensures BitTold(s, w, EventsAfter(s, w), r, e, b)
  {
    var x := w.c.tcb[w.run].wait;
    assert Event.CallOk(x.call);
    hide *;
    BackAnswered(s, w, r);
    CallIs(x.call);
    if x.id.e < |w.events| && !w.c.tcb[w.run].timeout {
      PollBit(w.events[x.id.e], x.call.uwEventMask, x.call.uwEventMode, b);
      BackTold(s, w, r, e, b);
    } else {
      NothingBack(s, w, r, e, b);
    }
  }

  lemma CallIs(call: Call)
    requires Event.CallOk(call)
    ensures call.EventArgs? && Event.GoodArgs(call.uwEventMask, call.uwEventMode)
  {
  }

  lemma BackAnswered(s: Step, w: World, r: Reply)
    requires s.ResumeCall? && r == EndAnswer(s, w) && Returns(s, w) && w.c.tcb[w.run].wait.id.EvL?
             && Event.CallOk(w.c.tcb[w.run].wait.call)
    ensures w.run in w.c.tcb && w.c.tcb[w.run].wait.Waiting?
    ensures var x := w.c.tcb[w.run].wait;
            if w.c.tcb[w.run].timeout || x.id.e >= |w.events| then
              EventsAfter(s, w) == w.events && (r.Bits? ==> Event.IsError(r.uwEvents))
            else
              && EventsAfter(s, w)
                 == w.events[x.id.e := Event.AfterPoll(w.events[x.id.e], x.call.uwEventMask, x.call.uwEventMode)]
              && r == Reply.Bits(Event.Polled(w.events[x.id.e], x.call.uwEventMask, x.call.uwEventMode))
  {
    Event.ReadErrors(0, 0, false);
    hide Event.Polled, Event.AfterPoll, Event.GoodArgs, Event.IsError, Event.ArgError;
  }

  lemma BackTold(s: Step, w: World, r: Reply, e: nat, b: bv32)
    requires s.ResumeCall? && e < |w.events| && w.run in w.c.tcb && w.c.tcb[w.run].wait.Waiting?
    requires var x := w.c.tcb[w.run].wait;
             && x.id.EvL? && x.id.e < |w.events| && x.call.EventArgs?
             && var p := Event.Polled(w.events[x.id.e], x.call.uwEventMask, x.call.uwEventMode);
                && r == Reply.Bits(p) && !Event.IsError(p)
                && (Event.Hits(p, b) ==> Event.Hits(w.events[x.id.e], b))
                && (Event.Hits(Event.AfterPoll(w.events[x.id.e], x.call.uwEventMask, x.call.uwEventMode), b) <==>
                     Event.Hits(w.events[x.id.e], b)
                     && !(Event.Hits(p, b) && Event.ModeClear(x.call.uwEventMode)))
    ensures var x := w.c.tcb[w.run].wait;
            BitTold(s, w, w.events[x.id.e := Event.AfterPoll(w.events[x.id.e], x.call.uwEventMask,
                    x.call.uwEventMode)], r, e, b)
  {
    hide Event.Hits, Event.Polled, Event.AfterPoll, Event.IsError, Event.ModeClear;
  }

  lemma NothingBack(s: Step, w: World, r: Reply, e: nat, b: bv32)
    requires s.ResumeCall? && e < |w.events| && (r.Bits? ==> Event.IsError(r.uwEvents))
    ensures BitTold(s, w, w.events, r, e, b)
  {
    hide Event.Hits, Event.IsError, Event.ModeClear;
  }

  /** The last step in the first `n` that was about bit `b` of event `e` has set it, not taken it; or there was none,
      and the bit was there. */
  predicate LastWritten(trace: seq<World>, steps: seq<Step>, replies: seq<Reply>, e: nat, b: bv32, n: nat)
    requires n <= |steps| && n <= |replies| && n < |trace|
  {
    if n == 0 then e < |trace[0].events| && Event.Hits(trace[0].events[e], b)
    else
      var s, w, r := steps[n - 1], trace[n - 1], replies[n - 1];
      WritesBit(s, r, e, b) || (!DropsBit(s, w, r, e, b) && LastWritten(trace, steps, replies, e, b, n - 1))
  }

  /** Over any run: a bit is in the event word if and only if the last step that was about it has written it: it stays
      from the write until a clearing read hands it back or a clear drops it, and it comes from nowhere else. */
  lemma {:induction false} BitsStay(trace: seq<World>, steps: seq<Step>, replies: seq<Reply>, e: nat, b: bv32, n: nat)
    requires IsRun(trace, steps) && Answered(trace, steps, replies) && n <= |steps|
             && e < |trace[0].events| && Event.Single(b)
    ensures |trace[n].events| == |trace[0].events|
    ensures Event.Hits(trace[n].events[e], b) <==> LastWritten(trace, steps, replies, e, b, n)
  {
    hide IsRun, Answered, Follows, Sound, Answer, WritesBit, DropsBit, HandsBack, Event.Hits, Event.Single;
    if n > 0 {
      RunStep(trace, steps, n - 1);
      AnsweredStep(trace, steps, replies, n - 1);
      BitsStay(trace, steps, replies, e, b, n - 1);
      BitStep(steps[n - 1], trace[n - 1], trace[n], replies[n - 1], e, b);
    }
  }

  /** Over any run: a read hands back only bits that have been written, and that no clearing read has handed back and no
      clear has dropped since. */
  lemma ReadsAreWritten(trace: seq<World>, steps: seq<Step>, replies: seq<Reply>, e: nat, b: bv32, n: nat)
    requires IsRun(trace, steps) && Answered(trace, steps, replies) && n < |steps|
             && e < |trace[0].events| && Event.Single(b)
    requires HandsBack(steps[n], trace[n], replies[n], e, b)
    ensures LastWritten(trace, steps, replies, e, b, n)
  {
    RunStep(trace, steps, n);
    AnsweredStep(trace, steps, replies, n);
    BitsStay(trace, steps, replies, e, b, n);
    BitStep(steps[n], trace[n], trace[n + 1], replies[n], e, b);
    hide IsRun, Answered, Follows, Sound, Answer, WritesBit, DropsBit, HandsBack, Event.Hits, Event.Single, LastWritten;
  }
}
