/** The collector and the fold compose: what Fold counts as watched is the time the player really played. */
module PlayTime {
  import opened Events
  import opened Collector

  // One native player event and when it fired, in milliseconds.
  datatype Beat = Beat(native: Native, at: int)

  datatype Emission = Emission(typ: EventType, at: int)

  datatype Trace = Trace(state: SessionState, sent: seq<Emission>)

  function Emitted(beats: seq<Beat>): Trace {
    if beats == [] then Trace(NEW_SESSION, [])
    else
      var t, b := Emitted(beats[..|beats| - 1]), beats[|beats| - 1];
      var r := StepOf(t.state, b.native, b.at);
      Trace(r.state, t.sent + (if r.typ.Some? then [Emission(r.typ.value, b.at)] else []))
  }

  // ----- the truth about the player -----

  // A player plays from a play event until the next pause, end or hide.
  function StillPlaying(playing: bool, native: Native): bool {
    match native
    case Play => true
    case Paused => false
    case Ended => false
    case Hide => false
    case Seeked => playing
    case TimeUpdate => playing
  }

  predicate Playing(beats: seq<Beat>) {
    beats != [] && StillPlaying(Playing(beats[..|beats| - 1]), beats[|beats| - 1].native)
  }

  function TimePlayed(beats: seq<Beat>): int {
    if |beats| < 2 then 0
    else
      var n := |beats| - 1;
      TimePlayed(beats[..n]) + (if Playing(beats[..n]) then beats[n].at - beats[n - 1].at else 0)
  }

  // The time played since the last event that was sent.
  function Unreported(beats: seq<Beat>): int {
    var sent := Emitted(beats).sent;
    if beats == [] || sent == [] || !Playing(beats) then 0 else beats[|beats| - 1].at - sent[|sent| - 1].at
  }

  // A well-behaved player: the clock does not run back, events come at most thirty seconds apart while playing,
  // and nothing is scrubbed while a session is paused.
  ghost predicate Regular(beats: seq<Beat>) {
    forall n | 0 < n < |beats| :: RegularAt(beats[..n], beats[n - 1].at, beats[n])
  }

  ghost predicate RegularAt(before: seq<Beat>, last: int, b: Beat) {
    && last <= b.at
    && (Playing(before) ==> b.at - last <= PROGRESS_INTERVAL)
    && (Emitted(before).state.started && !Playing(before) ==> !b.native.Seeked? && !b.native.TimeUpdate?)
  }

  function Counts(typ: EventType): bool {
    !typ.Pause? && !typ.Stop?
  }

  function SpanOf(a: Emission, b: Emission): int {
    if Counts(a.typ) && 0 < b.at - a.at <= 2 * PROGRESS_INTERVAL then b.at - a.at else 0
  }

  function Reported(sent: seq<Emission>): int {
    if |sent| < 2 then 0 else Reported(sent[..|sent| - 1]) + SpanOf(sent[|sent| - 2], sent[|sent| - 1])
  }

  // The last thing sent tells whether the player plays, and was sent recently while it does.
  ghost predicate InTouch(beats: seq<Beat>) {
    if beats == [] then true
    else Knows(Emitted(beats).state, Emitted(beats).sent, Playing(beats), beats[|beats| - 1].at)
  }

  ghost predicate Knows(state: SessionState, sent: seq<Emission>, playing: bool, now: int) {
    if sent == [] then !playing && !state.started
    else KnowsLast(state, sent[|sent| - 1], playing, now)
  }

  ghost predicate KnowsLast(state: SessionState, last: Emission, playing: bool, now: int) {
    && (playing ==> state.started)
    && (Counts(last.typ) <==> playing)
    && last.at <= now
    && (state.started ==> state.lastProgress <= last.at)
    && (playing ==> now - last.at < PROGRESS_INTERVAL)
  }

  lemma ReportedSnoc(sent: seq<Emission>, e: Emission)
    ensures Reported(sent + [e]) == Reported(sent) + (if sent == [] then 0 else SpanOf(sent[|sent| - 1], e))
  {
    assert (sent + [e])[..|sent|] == sent;
  }

  lemma Snoc(before: seq<Beat>, b: Beat)
    ensures var t, r := Emitted(before), StepOf(Emitted(before).state, b.native, b.at);
      Emitted(before + [b]) == Trace(r.state, t.sent + (if r.typ.Some? then [Emission(r.typ.value, b.at)] else []))
    ensures Playing(before + [b]) == StillPlaying(Playing(before), b.native)
    ensures TimePlayed(before + [b]) ==
      TimePlayed(before) + (if Playing(before) then b.at - before[|before| - 1].at else 0)
    ensures before == [] ==> !Playing(before)
  {
    assert (before + [b])[..|before|] == before;
  }

  // What one more event adds to what is known after the events before it.
  lemma {:induction false} BeatKeepsTouch(before: seq<Beat>, b: Beat)
    requires InTouch(before) && (before != [] ==> RegularAt(before, before[|before| - 1].at, b))
    ensures InTouch(before + [b])
  {
    Snoc(before, b);
    var t, r := Emitted(before), StepOf(Emitted(before).state, b.native, b.at);
    hide Emitted, Playing, Reported, TimePlayed;
    if before == [] {
      Nothing();
    } else {
      KnowsMore(t.state, t.sent, Playing(before), before[|before| - 1].at, b);
    }
  }

  lemma KnowsMore(state: SessionState, sent: seq<Emission>, playing: bool, now: int, b: Beat)
    requires Knows(state, sent, playing, now) && now <= b.at
    requires playing ==> b.at - now <= PROGRESS_INTERVAL
    requires state.started && !playing ==> !b.native.Seeked? && !b.native.TimeUpdate?
    ensures var r := StepOf(state, b.native, b.at);
      Knows(r.state, sent + (if r.typ.Some? then [Emission(r.typ.value, b.at)] else []),
        StillPlaying(playing, b.native), b.at)
  {
  }

  lemma RegularPrefix(beats: seq<Beat>, n: nat)
    requires Regular(beats) && n <= |beats|
    ensures Regular(beats[..n])
  {
    hide RegularAt;
    forall i | 0 < i < n ensures RegularAt(beats[..n][..i], beats[..n][i - 1].at, beats[..n][i]) {
      assert beats[..n][..i] == beats[..i];
      assert RegularAt(beats[..i], beats[i - 1].at, beats[i]);
    }
  }

  // ----- the exact account -----

  // Whether the player plays after what was sent: a seek or progress leaves that as it was.
  predicate PlaysAfter(sent: seq<Emission>) {
    sent != [] && match sent[|sent| - 1].typ
      case Start => true
      case Resume => true
      case Pause => false
      case Stop => false
      case Progress => PlaysAfter(sent[..|sent| - 1])
      case Seek => PlaysAfter(sent[..|sent| - 1])
  }

  function PlayedBetween(playing: bool, a: Emission, b: Emission): int {
    if playing then b.at - a.at else 0
  }

  // What is counted between consecutive emissions beyond what was played between them.
  function Excess(sent: seq<Emission>): int {
    if |sent| < 2 then 0
    else
      var n := |sent| - 1;
      Excess(sent[..n]) + SpanOf(sent[n - 1], sent[n]) - PlayedBetween(PlaysAfter(sent[..n]), sent[n - 1], sent[n])
  }

  lemma ExcessSnoc(sent: seq<Emission>, e: Emission)
    requires sent != []
    ensures Excess(sent + [e]) ==
      Excess(sent) + SpanOf(sent[|sent| - 1], e) - PlayedBetween(PlaysAfter(sent), sent[|sent| - 1], e)
  {
    assert (sent + [e])[..|sent|] == sent;
  }

  lemma PlaysSnoc(sent: seq<Emission>, e: Emission)
    ensures PlaysAfter(sent + [e]) == match e.typ
      case Start => true case Resume => true case Pause => false case Stop => false case _ => PlaysAfter(sent)
  {
    assert (sent + [e])[..|sent|] == sent;
  }

  // The trace tells whether the player plays, and a player that plays has a session.
  lemma {:induction false} TraceTells(beats: seq<Beat>)
    ensures Playing(beats) == PlaysAfter(Emitted(beats).sent)
    ensures Playing(beats) ==> Emitted(beats).state.started
  {
    if beats == [] {
      Nothing();
    } else {
      var before, b := beats[..|beats| - 1], beats[|beats| - 1];
      TraceTells(before);
      Snoc(before, b);
      var t, r := Emitted(before), StepOf(Emitted(before).state, b.native, b.at);
      assert beats == before + [b];
      hide Emitted, Playing, PlaysAfter;
      if r.typ.Some? {
        PlaysSnoc(t.sent, Emission(r.typ.value, b.at));
      } else {
        assert t.sent + [] == t.sent;
      }
    }
  }

  /** With nothing asked of the player at all: the watched time of what was sent, and the time played since, is the
      time really played and the excess over it. */
  lemma {:induction false} Accounted(beats: seq<Beat>)
    ensures Reported(Emitted(beats).sent) + Unreported(beats) == TimePlayed(beats) + Excess(Emitted(beats).sent)
  {
    if beats == [] {
      Nothing();
    } else {
      var before, b := beats[..|beats| - 1], beats[|beats| - 1];
      assert beats == before + [b];
      Accounted(before);
      TraceTells(before);
      TraceTells(beats);
      Snoc(before, b);
      var t, r := Emitted(before), StepOf(Emitted(before).state, b.native, b.at);
      assert t.sent == [] ==> !PlaysAfter(t.sent);
      hide Emitted, Playing, Reported, TimePlayed, Excess, PlaysAfter;
      if r.typ.None? {
        assert t.sent + [] == t.sent;
      } else {
        var e := Emission(r.typ.value, b.at);
        ReportedSnoc(t.sent, e);
        if t.sent == [] {
          OneEmission(e);
          assert t.sent + [e] == [e];
        } else {
          ExcessSnoc(t.sent, e);
        }
      }
    }
  }

  lemma OneEmission(e: Emission)
    ensures Excess([e]) == 0 && Excess([]) == 0
  {
  }

  // While playing, the next emission comes within a minute; after a seek or progress sent while paused, it does not.
  predicate TruePair(playing: bool, a: Emission, b: Emission) {
    var d := b.at - a.at;
    if playing then 0 <= d <= 2 * PROGRESS_INTERVAL else Counts(a.typ) ==> d <= 0 || d > 2 * PROGRESS_INTERVAL
  }

  ghost predicate TrueTrace(sent: seq<Emission>) {
    forall i | 0 < i < |sent| :: TruePair(PlaysAfter(sent[..i]), sent[i - 1], sent[i])
  }

  lemma TruePairIff(sent: seq<Emission>, e: Emission)
    requires sent != []
    ensures var a, p := sent[|sent| - 1], PlaysAfter(sent);
      SpanOf(a, e) == PlayedBetween(p, a, e) <==> TruePair(p, a, e)
  {
  }

  lemma TrueTraceSnoc(sent: seq<Emission>, e: Emission)
    ensures TrueTrace(sent + [e]) <==>
      TrueTrace(sent) && (sent != [] ==> TruePair(PlaysAfter(sent), sent[|sent| - 1], e))
  {
    hide TruePair, PlaysAfter;
    var more := sent + [e];
    assert more[..|sent|] == sent;
    forall i | 0 < i < |sent| ensures more[..i] == sent[..i] {
    }
    if TrueTrace(more) {
      forall i | 0 < i < |sent| ensures TruePair(PlaysAfter(sent[..i]), sent[i - 1], sent[i]) {
        assert TruePair(PlaysAfter(more[..i]), more[i - 1], more[i]);
      }
    }
    if sent != [] && TrueTrace(more) {
      assert TruePair(PlaysAfter(more[..|sent|]), more[|sent| - 1], more[|sent|]);
    }
  }

  ghost predicate RightAt(beats: seq<Beat>) {
    Reported(Emitted(beats).sent) + Unreported(beats) == TimePlayed(beats)
  }

  // One more event keeps the account right exactly when it adds a true pair, or none.
  lemma {:induction false} BeatStaysRight(before: seq<Beat>, b: Beat)
    requires RightAt(before)
    ensures TrueTrace(Emitted(before).sent) ==> (RightAt(before + [b]) <==> TrueTrace(Emitted(before + [b]).sent))
    ensures TrueTrace(Emitted(before + [b]).sent) ==> TrueTrace(Emitted(before).sent)
  {
    Accounted(before);
    Accounted(before + [b]);
    Snoc(before, b);
    var t, r := Emitted(before), StepOf(Emitted(before).state, b.native, b.at);
    hide Emitted, Playing, Reported, TimePlayed, Excess, PlaysAfter, TrueTrace, TruePair, Unreported;
    if r.typ.None? {
      assert t.sent + [] == t.sent;
    } else {
      var e := Emission(r.typ.value, b.at);
      TrueTraceSnoc(t.sent, e);
      if t.sent == [] {
        OneEmission(e);
        assert t.sent + [e] == [e];
      } else {
        ExcessSnoc(t.sent, e);
        TruePairIff(t.sent, e);
      }
    }
  }

  /** The watched time is right at every moment if and only if, while the player plays, no two emissions are more
      than a minute apart or out of order, and no seek or progress sent while it is paused is followed by another
      emission within a minute. */
  lemma {:induction false} RightAtEveryMomentIff(beats: seq<Beat>)
    ensures (forall n | 0 <= n <= |beats| :: RightAt(beats[..n])) <==> TrueTrace(Emitted(beats).sent)
  {
    hide RightAt, TrueTrace, Emitted;
    if beats == [] {
      assert RightAt([]) && TrueTrace(Emitted([]).sent) by { NothingRight(); }
    } else {
      var m := |beats| - 1;
      var before := beats[..m];
      RightAtEveryMomentIff(before);
      assert beats == before + [beats[m]] && beats[..|beats|] == beats;
      assert forall n | 0 <= n <= m :: before[..n] == beats[..n];
      if RightAt(before) {
        BeatStaysRight(before, beats[m]);
      } else {
        assert before[..m] == before;
        TrueTraceShrinks(before, beats[m]);
      }
    }
  }

  lemma NothingRight()
    ensures RightAt([]) && TrueTrace(Emitted([]).sent)
  {
    Nothing();
  }

  lemma {:induction false} TrueTraceShrinks(before: seq<Beat>, b: Beat)
    ensures TrueTrace(Emitted(before + [b]).sent) ==> TrueTrace(Emitted(before).sent)
  {
    Snoc(before, b);
    var t, r := Emitted(before), StepOf(Emitted(before).state, b.native, b.at);
    hide Emitted, TrueTrace;
    if r.typ.Some? {
      TrueTraceSnoc(t.sent, Emission(r.typ.value, b.at));
    } else {
      assert t.sent + [] == t.sent;
    }
  }

  // A well-behaved player's trace is true.
  lemma {:induction false} RegularIsTrue(beats: seq<Beat>)
    requires Regular(beats)
    ensures InTouch(beats) && TrueTrace(Emitted(beats).sent)
  {
    if beats == [] {
      NothingRight();
    } else {
      hide InTouch, RegularAt, Emitted, Playing, TrueTrace;
      var n := |beats| - 1;
      RegularPrefix(beats, n);
      RegularIsTrue(beats[..n]);
      assert n > 0 ==> RegularAt(beats[..n], beats[n - 1].at, beats[n]);
      BeatKeepsTouch(beats[..n], beats[n]);
      BeatIsTrue(beats[..n], beats[n]);
      assert beats == beats[..n] + [beats[n]];
    }
  }

  lemma NextPairTrue(state: SessionState, sent: seq<Emission>, playing: bool, now: int, e: Emission)
    requires Knows(state, sent, playing, now) && sent != [] && now <= e.at &&
      (playing ==> e.at - now <= PROGRESS_INTERVAL)
    ensures TruePair(playing, sent[|sent| - 1], e)
  {
  }

  lemma {:induction false} BeatIsTrue(before: seq<Beat>, b: Beat)
    requires InTouch(before) && TrueTrace(Emitted(before).sent)
    requires before != [] ==> RegularAt(before, before[|before| - 1].at, b)
    ensures TrueTrace(Emitted(before + [b]).sent)
  {
    var t, r := Emitted(before), StepOf(Emitted(before).state, b.native, b.at);
    assert before == [] ==> t.sent == [];
    hide Emitted, TrueTrace, Playing, PlaysAfter, Knows, TruePair;
    Snoc(before, b);
    TraceTells(before);
    if r.typ.Some? {
      var e := Emission(r.typ.value, b.at);
      TrueTraceSnoc(t.sent, e);
      if t.sent != [] {
        NextPairTrue(t.state, t.sent, Playing(before), before[|before| - 1].at, e);
      }
    } else {
      assert t.sent + [] == t.sent;
    }
  }

  /** In particular it is right at every moment of every regular run. */
  lemma ReportsPlayTime(beats: seq<Beat>)
    requires Regular(beats)
    ensures RightAt(beats)
  {
    hide RightAt, TrueTrace, Regular, InTouch;
    RegularIsTrue(beats);
    RightAtEveryMomentIff(beats);
    assert beats[..|beats|] == beats;
  }

  // ----- one media among others -----

  // What happens to the player of one media while the page shows one media after another: its own events, and a
  // hide when the page moves on to another media.
  function BeatsOf(identity: Option<string>, cues: seq<Cue>, id: string): seq<Beat> {
    if cues == [] then []
    else
      var before, cue := cues[..|cues| - 1], cues[|cues| - 1];
      BeatsOf(identity, before, id) + BeatOf(RunScript(identity, before).0.current, cue, id)
  }

  function BeatOf(current: Option<string>, cue: Cue, id: string): seq<Beat> {
    if cue.identity == Some(id) then [Beat(cue.native, cue.at)]
    else if cue.identity.Some? && current == Some(id) then [Beat(Hide, cue.at)]
    else []
  }

  function Emissions(trace: seq<Sent>): seq<Emission> {
    seq(|trace|, i requires 0 <= i < |trace| => Emission(trace[i].typ, trace[i].at))
  }

  // The script and the media's own state agree, up to a clock that does not matter while nothing is open.
  ghost predicate SameSession(s: Script, state: SessionState, id: string) {
    if s.current == Some(id) then s.state.started == state.started && (state.started ==> s.state == state)
    else !state.started
  }

  lemma OfMediaSnoc(trace: seq<Sent>, e: Sent, id: string)
    ensures OfMedia(trace + [e], id) == OfMedia(trace, id) + (if e.id == id then [e] else [])
  {
    assert (trace + [e])[..|trace|] == trace;
  }

  lemma OfMediaMore(trace: seq<Sent>, more: seq<Sent>, id: string)
    requires |more| <= 2
    ensures OfMedia(trace + more, id) == OfMedia(trace, id) + OfMedia(more, id)
  {
    hide OfMedia;
    if |more| == 0 {
      assert trace + more == trace;
      OfNone(id);
    } else if |more| == 1 {
      assert more == [] + [more[0]] && trace + more == trace + [more[0]];
      OfMediaSnoc(trace, more[0], id);
      OfMediaSnoc([], more[0], id);
      OfNone(id);
    } else {
      assert trace + more == trace + [more[0]] + [more[1]] && more == [] + [more[0]] + [more[1]];
      OfMediaSnoc(trace, more[0], id);
      OfMediaSnoc(trace + [more[0]], more[1], id);
      OfMediaSnoc([], more[0], id);
      OfMediaSnoc([] + [more[0]], more[1], id);
      OfNone(id);
    }
  }

  lemma OfNone(id: string)
    ensures OfMedia([], id) == []
  {
  }

  lemma OfShort(x: seq<Sent>, id: string)
    requires |x| <= 1
    ensures OfMedia(x, id) == if |x| == 1 && x[0].id == id then x else []
  {
    OfNone(id);
    if |x| == 1 {
      assert x == [] + [x[0]];
      OfMediaSnoc([], x[0], id);
    }
  }

  // What a cue sends: perhaps a stop of the media left behind, perhaps an event of the media shown.
  lemma CueSends(s: Script, cue: Cue)
    requires cue.identity.Some?
    ensures var (t, more) := EmitStep(s, cue); var (m, closing) := Switched(s, cue.identity.value, cue.at);
      var r := StepOf(m.state, cue.native, cue.at);
      var own := if r.typ.Some? then [Sent(r.typ.value, cue.identity.value, cue.position, cue.at)] else [];
      && more == closing + own && t == Script(r.state, Some(cue.identity.value), cue.position) && |closing| <= 1
  {
  }

  // What one cue does to one media is what its beat does.
  lemma CueIsBeat(s: Script, state: SessionState, cue: Cue, id: string)
    requires SameSession(s, state, id)
    ensures var (t, more) := EmitStep(s, cue); var beat := BeatOf(s.current, cue, id);
      && |more| <= 2
      && if beat == [] then SameSession(t, state, id) && Emissions(OfMedia(more, id)) == []
         else var r := StepOf(state, beat[0].native, beat[0].at);
           SameSession(t, r.state, id)
           && Emissions(OfMedia(more, id)) == if r.typ.Some? then [Emission(r.typ.value, beat[0].at)] else []
  {
    hide OfMedia;
    if cue.identity.None? {
      OfNone(id);
    } else {
      var other := cue.identity.value;
      var (m, closing) := Switched(s, other, cue.at);
      var r := StepOf(m.state, cue.native, cue.at);
      var own := if r.typ.Some? then [Sent(r.typ.value, other, cue.position, cue.at)] else [];
      CueSends(s, cue);
      hide EmitStep;
      OfMediaMore(closing, own, id);
      OfShort(closing, id);
      OfShort(own, id);
      if other != id {
        assert OfMedia(own, id) == [];
      }
    }
  }

  /** Seen from one media, a run with any switches sends what its own player, hidden whenever the page moves on,
      would send alone. Everything proved of one player holds of each media. */
  lemma {:induction false} MediaTrace(identity: Option<string>, cues: seq<Cue>, id: string)
    ensures Emissions(OfMedia(RunScript(identity, cues).1, id)) == Emitted(BeatsOf(identity, cues, id)).sent
    ensures SameSession(RunScript(identity, cues).0, Emitted(BeatsOf(identity, cues, id)).state, id)
  {
    if cues == [] {
      Nothing();
    } else {
      var before, cue := cues[..|cues| - 1], cues[|cues| - 1];
      MediaTrace(identity, before, id);
      var (s, trace) := RunScript(identity, before);
      var (t, more) := EmitStep(s, cue);
      var beats, beat := BeatsOf(identity, before, id), BeatOf(s.current, cue, id);
      hide EmitStep, SameSession, OfMedia, BeatOf, Emitted;
      CueIsBeat(s, Emitted(beats).state, cue, id);
      OfMediaMore(trace, more, id);
      EmissionsMore(OfMedia(trace, id), OfMedia(more, id));
      BeatLength(s.current, cue, id);
      if beat == [] {
        assert beats + beat == beats;
        assert Emissions(OfMedia(trace, id)) + [] == Emissions(OfMedia(trace, id));
      } else {
        assert beat == [beat[0]];
        Snoc(beats, beat[0]);
      }
    }
  }

  lemma BeatLength(current: Option<string>, cue: Cue, id: string)
    ensures |BeatOf(current, cue, id)| <= 1
  {
  }

  lemma EmissionsMore(x: seq<Sent>, y: seq<Sent>)
    ensures Emissions(x + y) == Emissions(x) + Emissions(y)
  {
  }

  /** Nothing scrubbed while paused is not a luxury: a second of play, a pause, one seek during it and ten
      seconds later play again make the rest of the pause count as watched. */
  lemma ScrubbingWhilePausedCounts(a: seq<Beat>, b: seq<Beat>, c: seq<Beat>, d: seq<Beat>)
    requires a == [] + [Beat(Play, 0)] && b == a + [Beat(Paused, 1000)]
    requires c == b + [Beat(Seeked, 2000)] && d == c + [Beat(Play, 12000)]
    ensures TimePlayed(d) == 1000 && Reported(Emitted(d).sent) == 11000
  {
    hide Emitted, Playing, TimePlayed, Reported;
    var w, x, y, z := Emission(Start, 0), Emission(Pause, 1000), Emission(Seek, 2000), Emission(Resume, 12000);
    Nothing();
    Snoc([], Beat(Play, 0));
    Snoc(a, Beat(Paused, 1000));
    Snoc(b, Beat(Seeked, 2000));
    Snoc(c, Beat(Play, 12000));
    ReportedSnoc([], w);
    ReportedSnoc([] + [w], x);
    ReportedSnoc([] + [w] + [x], y);
    ReportedSnoc([] + [w] + [x] + [y], z);
    assert Emitted(d).sent == [] + [w] + [x] + [y] + [z];
  }

  lemma Nothing()
    ensures Emitted([]) == Trace(NEW_SESSION, []) && !Playing([]) && TimePlayed([]) == 0 && Reported([]) == 0
  {
  }
}
