/** What the content script sends of each cue, told from the cues and the trace so far alone. */
module Cues {
  import opened Events
  import opened Collector

  // Where the media stood when a cue last showed it.
  function LastShown(cues: seq<Cue>, id: string): int {
    if cues == [] then 0
    else
      var cue := cues[|cues| - 1];
      if cue.identity == Some(id) then cue.position else LastShown(cues[..|cues| - 1], id)
  }

  // When a start or a progress event was last sent.
  function LastMark(trace: seq<Sent>): int {
    if trace == [] then 0
    else
      var e := trace[|trace| - 1];
      if e.typ.Start? || e.typ.Progress? then e.at else LastMark(trace[..|trace| - 1])
  }

  // The media left behind is closed where it was last shown.
  function Closing(cues: seq<Cue>, trace: seq<Sent>, cue: Cue): seq<Sent> {
    var p := PhaseAfter(trace);
    if cue.identity.Some? && p.Open? && p.id != cue.identity.value
    then [Sent(Stop, p.id, LastShown(cues, p.id), cue.at)] else []
  }

  // What the player does is told of the media it shows: nothing but a start while that is not open, and of the
  // time passing only every thirty seconds.
  function Told(trace: seq<Sent>, cue: Cue): Option<EventType> {
    var p := PhaseAfter(trace);
    var open := p.Open? && cue.identity == Some(p.id);
    match cue.native
    case Play => Some(if open then Resume else Start)
    case Paused => if open then Some(Pause) else None
    case Seeked => if open then Some(Seek) else None
    case Ended => if open then Some(Stop) else None
    case Hide => if open then Some(Stop) else None
    case TimeUpdate => if open && cue.at - LastMark(trace) >= 30_000 then Some(Progress) else None
  }

  function Sends(cues: seq<Cue>, trace: seq<Sent>, cue: Cue): seq<Sent> {
    if cue.identity.None? then []
    else
      var told := Told(trace, cue);
      Closing(cues, trace, cue) +
      (if told.Some? then [Sent(told.value, cue.identity.value, cue.position, cue.at)] else [])
  }

  // What the script remembers is what the cues and the trace tell.
  ghost predicate Remembers(s: Script, cues: seq<Cue>, trace: seq<Sent>) {
    && Agrees(s, PhaseAfter(trace))
    && (s.state.started ==> s.current.Some? && s.state.lastProgress == LastMark(trace))
    && (s.state.started ==> s.lastPosition == LastShown(cues, s.current.value))
  }

  lemma MarkOne(trace: seq<Sent>, e: Sent)
    ensures LastMark(trace + [e]) == if e.typ.Start? || e.typ.Progress? then e.at else LastMark(trace)
  {
    assert (trace + [e])[..|trace|] == trace;
  }

  lemma MarkMore(trace: seq<Sent>, more: seq<Sent>)
    requires |more| <= 2
    ensures |more| == 0 ==> LastMark(trace + more) == LastMark(trace)
    ensures |more| > 0 && (more[|more| - 1].typ.Start? || more[|more| - 1].typ.Progress?) ==>
      LastMark(trace + more) == more[|more| - 1].at
    ensures |more| == 1 && !more[0].typ.Start? && !more[0].typ.Progress? ==> LastMark(trace + more) == LastMark(trace)
  {
    if |more| == 0 {
      assert trace + more == trace;
    } else if |more| == 1 {
      MarkOne(trace, more[0]);
      assert trace + more == trace + [more[0]];
    } else {
      MarkOne(trace + [more[0]], more[1]);
      assert trace + more == trace + [more[0]] + [more[1]];
    }
  }

  // What one cue sends, from what the script remembers.
  lemma EmitTells(s: Script, cues: seq<Cue>, trace: seq<Sent>, cue: Cue)
    requires Remembers(s, cues, trace) && cue.identity.Some?
    ensures EmitStep(s, cue).1 == Sends(cues, trace, cue)
  {
    hide PhaseAfter, LastShown, LastMark;
  }

  lemma EmitRemembers(s: Script, cues: seq<Cue>, trace: seq<Sent>, cue: Cue)
    requires Remembers(s, cues, trace)
    ensures Remembers(EmitStep(s, cue).0, cues + [cue], trace + EmitStep(s, cue).1)
  {
    assert (cues + [cue])[..|cues|] == cues;
    EmitAgrees(s, PhaseAfter(trace), cue);
    SentMore(trace, EmitStep(s, cue).1);
    MarkMore(trace, EmitStep(s, cue).1);
    hide PhaseAfter, LastMark;
    if cue.identity.None? {
      assert trace + [] == trace;
    }
  }

  lemma {:induction false} AlwaysRemembers(identity: Option<string>, cues: seq<Cue>)
    ensures Remembers(RunScript(identity, cues).0, cues, RunScript(identity, cues).1)
  {
    hide Remembers, EmitStep;
    if cues == [] {
      StartRemembers(identity);
    } else {
      var before, cue := cues[..|cues| - 1], cues[|cues| - 1];
      AlwaysRemembers(identity, before);
      EmitRemembers(RunScript(identity, before).0, before, RunScript(identity, before).1, cue);
      assert cues == before + [cue];
    }
  }

  lemma StartRemembers(identity: Option<string>)
    ensures Remembers(Script(NEW_SESSION, identity, 0), [], [])
  {
  }

  /** Over every run: a cue that shows no media sends nothing; any other sends first, if it shows another media than
      the one that is open, the stop of that one, with the position at which a cue last showed it, and then what its
      own media's player did, with its own position. */
  lemma EveryCue(identity: Option<string>, cues: seq<Cue>, cue: Cue)
    ensures var trace := RunScript(identity, cues).1;
      RunScript(identity, cues + [cue]).1 == trace + Sends(cues, trace, cue)
  {
    AlwaysRemembers(identity, cues);
    assert (cues + [cue])[..|cues|] == cues;
    if cue.identity.Some? {
      EmitTells(RunScript(identity, cues).0, cues, RunScript(identity, cues).1, cue);
      hide EmitStep, Sends, Remembers;
    }
  }
}
