/** The browser collector: the playback state machine, the content script that drives it, and how the
    events it emits fold back into the time that was really played. Times are milliseconds. */
module Collector {
  import opened Events

  datatype Native = Play | Paused | Seeked | Ended | TimeUpdate | Hide

  const PROGRESS_INTERVAL := 30_000

  datatype SessionState = SessionState(started: bool, lastProgress: int)

  const NEW_SESSION := SessionState(false, 0)

  datatype Outcome = Outcome(state: SessionState, typ: Option<EventType>)

  function StepOf(state: SessionState, native: Native, now: int): Outcome {
    match native
    case Play =>
      if !state.started then Outcome(SessionState(true, now), Some(Start)) else Outcome(state, Some(Resume))
    case Paused => Outcome(state, if state.started then Some(Pause) else None)
    case Seeked => Outcome(state, if state.started then Some(Seek) else None)
    case Ended => if state.started then Outcome(state.(started := false), Some(Stop)) else Outcome(state, None)
    case Hide => if state.started then Outcome(state.(started := false), Some(Stop)) else Outcome(state, None)
    case TimeUpdate =>
      if state.started && now - state.lastProgress >= PROGRESS_INTERVAL
      then Outcome(state.(lastProgress := now), Some(Progress)) else Outcome(state, None)
  }

  datatype Switch = Switch(state: SessionState, current: string, close: Option<EventType>)

  function SwitchMedia(state: SessionState, current: Option<string>, newId: string, now: int): Switch {
    if current == Some(newId) then Switch(state, newId, None)
    else Switch(NEW_SESSION, newId, if state.started then StepOf(state, Hide, now).typ else None)
  }

  // ----- the content script -----

  datatype Sent = Sent(typ: EventType, id: string, position: int, at: int)

  // What the page tells the content script: the media it shows, if any, and what its player did.
  datatype Cue = Cue(identity: Option<string>, native: Native, at: int, position: int)

  datatype Script = Script(state: SessionState, current: Option<string>, lastPosition: int)

  // The state after the media switch, and the stop that closes the media switched away from.
  function Switched(s: Script, id: string, at: int): (Script, seq<Sent>) {
    if s.current != Some(id) then
      var t := SwitchMedia(s.state, s.current, id, at);
      (Script(t.state, Some(id), s.lastPosition),
       if t.close.Some? && s.current.Some? then [Sent(Stop, s.current.value, s.lastPosition, at)] else [])
    else (s, [])
  }

  function EmitStep(s: Script, cue: Cue): (Script, seq<Sent>) {
    if cue.identity.None? then (s, [])
    else
      var id := cue.identity.value;
      var (t, closing) := Switched(s, id, cue.at);
      var r := StepOf(t.state, cue.native, cue.at);
      (Script(r.state, t.current, cue.position),
       closing + (if r.typ.Some? then [Sent(r.typ.value, id, cue.position, cue.at)] else []))
  }

  class Content {
    var state: SessionState
    var current: Option<string>
    var lastPosition: int
    var sent: seq<Sent>

    ghost function View(): Script
      reads this
    {
      Script(state, current, lastPosition)
    }

    constructor (identity: Option<string>)
      ensures View() == Script(NEW_SESSION, identity, 0) && sent == []
    {
      state, current, lastPosition, sent := NEW_SESSION, identity, 0, [];
    }

    method EmitClose(id: string, position: int, now: int)
      modifies this`sent
      ensures sent == old(sent) + [Sent(Stop, id, position, now)]
    {
      sent := sent + [Sent(Stop, id, position, now)];
    }

    method Emit(cue: Cue)
      modifies this
      ensures View() == EmitStep(old(View()), cue).0 && sent == old(sent) + EmitStep(old(View()), cue).1
    {
      if cue.identity.None? {
        return;
      }
      var id := cue.identity.value;
      if current != Some(id) {
        var t := SwitchMedia(state, current, id, cue.at);
        if t.close.Some? && current.Some? {
          EmitClose(current.value, lastPosition, cue.at);
        }
        state, current := t.state, Some(id);
      }
      lastPosition := cue.position;
      var r := StepOf(state, cue.native, cue.at);
      state := r.state;
      if r.typ.Some? {
        sent := sent + [Sent(r.typ.value, id, cue.position, cue.at)];
      }
    }
  }

  // ----- the grammar of a whole trace -----

  datatype Phase = Broken | Closed | Open(id: string, since: int, progress: nat)

  // start (progress | pause | resume | seek)* stop, one media open at a time.
  function PhaseAfter(trace: seq<Sent>): Phase {
    if trace == [] then Closed else Advance(PhaseAfter(trace[..|trace| - 1]), trace[|trace| - 1])
  }

  function Advance(p: Phase, e: Sent): Phase {
    match p
    case Broken => Broken
    case Closed => if e.typ.Start? then Open(e.id, e.at, 0) else Broken
    case Open(id, since, progress) =>
      if e.id != id || e.typ.Start? then Broken
      else if e.typ.Stop? then Closed
      else Open(id, since, if e.typ.Progress? then progress + 1 else progress)
  }

  function RunScript(identity: Option<string>, cues: seq<Cue>): (Script, seq<Sent>) {
    if cues == [] then (Script(NEW_SESSION, identity, 0), [])
    else
      var (s, trace) := RunScript(identity, cues[..|cues| - 1]);
      var (t, more) := EmitStep(s, cues[|cues| - 1]);
      (t, trace + more)
  }

  ghost predicate MonotoneCues(cues: seq<Cue>) {
    forall i, j | 0 <= i < j < |cues| :: cues[i].at <= cues[j].at
  }

  // The script's state and the trace so far agree, and progress events are an interval apart.
  ghost predicate Agrees(s: Script, p: Phase) {
    if s.state.started then
      p.Open? && s.current == Some(p.id) && p.since + PROGRESS_INTERVAL * p.progress <= s.state.lastProgress
    else p.Closed?
  }

  function AdvanceAll(p: Phase, more: seq<Sent>): Phase
    requires |more| <= 2
  {
    if |more| == 0 then p else if |more| == 1 then Advance(p, more[0]) else Advance(Advance(p, more[0]), more[1])
  }

  lemma SentMore(trace: seq<Sent>, more: seq<Sent>)
    requires |more| <= 2
    ensures PhaseAfter(trace + more) == AdvanceAll(PhaseAfter(trace), more)
  {
    if |more| == 0 {
      assert trace + more == trace;
    } else if |more| == 1 {
      assert (trace + more)[..|trace|] == trace;
    } else {
      assert (trace + more)[..|trace| + 1] == trace + [more[0]];
      assert (trace + [more[0]])[..|trace|] == trace;
    }
  }

  lemma EmitAgrees(s: Script, p: Phase, cue: Cue)
    requires Agrees(s, p)
    ensures var (t, more) := EmitStep(s, cue); |more| <= 2 && Agrees(t, AdvanceAll(p, more))
  {
    if cue.identity.Some? {
      var (m, closing) := Switched(s, cue.identity.value, cue.at);
      assert Agrees(m, AdvanceAll(p, closing));
    }
  }

  /** On every run, with any media switches, the trace is a word of the grammar: what is open is what the
      script believes is playing, and progress events within it are at least an interval apart. */
  lemma {:induction false} TraceGrammar(identity: Option<string>, cues: seq<Cue>)
    ensures Agrees(RunScript(identity, cues).0, PhaseAfter(RunScript(identity, cues).1))
  {
    if cues != [] {
      var before, cue := cues[..|cues| - 1], cues[|cues| - 1];
      TraceGrammar(identity, before);
      var (s, trace) := RunScript(identity, before);
      EmitAgrees(s, PhaseAfter(trace), cue);
      hide EmitStep, Agrees, AdvanceAll;
      SentMore(trace, EmitStep(s, cue).1);
    }
  }

  lemma {:induction false} ProgressClock(identity: Option<string>, cues: seq<Cue>)
    requires MonotoneCues(cues) && RunScript(identity, cues).0.state.started
    ensures cues != [] && RunScript(identity, cues).0.state.lastProgress <= cues[|cues| - 1].at
  {
    if cues != [] {
      var before := cues[..|cues| - 1];
      if RunScript(identity, before).0.state.started {
        ProgressClock(identity, before);
        assert cues[|cues| - 2].at <= cues[|cues| - 1].at;
      }
    }
  }

  /** An open period of length T holds at most T / 30000 progress events. */
  lemma ProgressBound(identity: Option<string>, cues: seq<Cue>)
    requires MonotoneCues(cues)
    ensures var p := PhaseAfter(RunScript(identity, cues).1);
      p != Broken && (p.Open? ==> cues != [] && p.progress <= (cues[|cues| - 1].at - p.since) / PROGRESS_INTERVAL)
  {
    TraceGrammar(identity, cues);
    if RunScript(identity, cues).0.state.started {
      ProgressClock(identity, cues);
    }
  }

  function OfMedia(trace: seq<Sent>, id: string): seq<Sent> {
    if trace == [] then []
    else OfMedia(trace[..|trace| - 1], id) + (if trace[|trace| - 1].id == id then [trace[|trace| - 1]] else [])
  }

  /** Seen from one media item, a well-formed trace is a well-formed trace of that item, open exactly when
      the item is. */
  lemma {:induction false} MediaGrammar(trace: seq<Sent>, id: string)
    requires PhaseAfter(trace) != Broken
    ensures PhaseAfter(OfMedia(trace, id)) ==
      (if PhaseAfter(trace).Open? && PhaseAfter(trace).id == id then PhaseAfter(trace) else Closed)
  {
    if trace != [] {
      var before, e := trace[..|trace| - 1], trace[|trace| - 1];
      MediaGrammar(before, id);
      var own := OfMedia(before, id);
      assert (own + [e])[..|own|] == own;
      assert own + [] == own;
    }
  }
}
