/** How a drift report is laid out: in which order, and how often, it lists what. */
module Reports {
  import opened Events
  import opened Drift

  // The list names the elements at these positions of s, one after the other.
  ghost predicate ListsAt<T>(out: seq<T>, s: seq<T>, at: seq<nat>) {
    && |out| == |at|
    && (forall i | 0 <= i < |at| :: at[i] < |s| && out[i] == s[at[i]])
    && (forall i, j | 0 <= i < j < |at| :: at[i] < at[j])
  }

  ghost predicate Lists<T(!new)>(out: seq<T>, s: seq<T>, at: seq<nat>, keep: T -> bool) {
    ListsAt(out, s, at) && forall p | 0 <= p < |s| :: p in at <==> keep(s[p])
  }

  lemma ListsMore<T(!new)>(out: seq<T>, s: seq<T>, at: seq<nat>, keep: T -> bool, x: T)
    requires Lists(out, s, at, keep)
    ensures if keep(x) then Lists(out + [x], s + [x], at + [|s|], keep) else Lists(out, s + [x], at, keep)
  {
    if keep(x) {
      forall p | 0 <= p <= |s| ensures p in at + [|s|] <==> keep((s + [x])[p]) {
        assert p in at + [|s|] <==> p in at || p == |s|;
      }
    } else {
      assert |s| !in at;
    }
  }

  lemma AddedStep(rebuilt: seq<Rebuilt>, stored: map<NaturalKey, Session>)
    requires rebuilt != []
    ensures var n, was := |rebuilt| - 1, Added(rebuilt[..|rebuilt| - 1], stored);
      Added(rebuilt, stored) == if NaturalKeyOf(rebuilt[n].session) in stored then was else was + [rebuilt[n]]
  {
    hide NaturalKeyOf;
  }

  lemma {:induction false} AddedAt(rebuilt: seq<Rebuilt>, stored: map<NaturalKey, Session>, keep: Rebuilt -> bool)
    returns (at: seq<nat>)
    requires forall rb :: keep(rb) <==> NaturalKeyOf(rb.session) !in stored
    ensures Lists(Added(rebuilt, stored), rebuilt, at, keep)
  {
    hide NaturalKeyOf, ListsAt;
    at := [];
    if rebuilt == [] {
      ListsNothing(keep);
    } else {
      var n := |rebuilt| - 1;
      AddedStep(rebuilt, stored);
      hide Added, Lists;
      var before := AddedAt(rebuilt[..n], stored, keep);
      ListsMore(Added(rebuilt[..n], stored), rebuilt[..n], before, keep, rebuilt[n]);
      assert rebuilt == rebuilt[..n] + [rebuilt[n]];
      at := if keep(rebuilt[n]) then before + [n] else before;
    }
  }

  lemma ListsNothing<T(!new)>(keep: T -> bool)
    ensures Lists([], [], [], keep)
  {
  }

  lemma RemovedStep(stored: seq<Session>, seen: set<NaturalKey>)
    requires stored != []
    ensures var n, was := |stored| - 1, Removed(stored[..|stored| - 1], seen);
      Removed(stored, seen) == if NaturalKeyOf(stored[n]) in seen then was else was + [stored[n]]
  {
    hide NaturalKeyOf;
  }

  lemma {:induction false} RemovedAt(stored: seq<Session>, seen: set<NaturalKey>, keep: Session -> bool)
    returns (at: seq<nat>)
    requires forall s :: keep(s) <==> NaturalKeyOf(s) !in seen
    ensures Lists(Removed(stored, seen), stored, at, keep)
  {
    hide NaturalKeyOf, ListsAt;
    at := [];
    if stored == [] {
      ListsNothing(keep);
    } else {
      var n := |stored| - 1;
      RemovedStep(stored, seen);
      hide Removed, Lists;
      var before := RemovedAt(stored[..n], seen, keep);
      ListsMore(Removed(stored[..n], seen), stored[..n], before, keep, stored[n]);
      assert stored == stored[..n] + [stored[n]];
      at := if keep(stored[n]) then before + [n] else before;
    }
  }

  predicate Differing(b: Session, stored: map<NaturalKey, Session>) {
    NaturalKeyOf(b) in stored && ChangedFields(stored[NaturalKeyOf(b)], b) != []
  }

  function SessionsOf(rebuilt: seq<Rebuilt>): seq<Session> {
    seq(|rebuilt|, i requires 0 <= i < |rebuilt| => rebuilt[i].session)
  }

  function ChangedTo(changes: seq<Change>): seq<Session> {
    seq(|changes|, i requires 0 <= i < |changes| => changes[i].rebuilt)
  }

  lemma ChangedStep(rebuilt: seq<Rebuilt>, stored: map<NaturalKey, Session>)
    requires rebuilt != []
    ensures var n := |rebuilt| - 1;
      && SessionsOf(rebuilt) == SessionsOf(rebuilt[..n]) + [rebuilt[n].session]
      && ChangedTo(Changed(rebuilt, stored)) == ChangedTo(Changed(rebuilt[..n], stored)) +
           if Differing(rebuilt[n].session, stored) then [rebuilt[n].session] else []
  {
    hide ChangedFields;
  }

  lemma {:induction false} ChangedAt(rebuilt: seq<Rebuilt>, stored: map<NaturalKey, Session>, keep: Session -> bool)
    returns (at: seq<nat>)
    requires forall b :: keep(b) <==> Differing(b, stored)
    ensures Lists(ChangedTo(Changed(rebuilt, stored)), SessionsOf(rebuilt), at, keep)
  {
    at := [];
    if rebuilt != [] {
      var n := |rebuilt| - 1;
      var before := ChangedAt(rebuilt[..n], stored, keep);
      ChangedStep(rebuilt, stored);
      hide Differing, Changed, ChangedTo;
      var b := rebuilt[n].session;
      ListsMore(ChangedTo(Changed(rebuilt[..n], stored)), SessionsOf(rebuilt[..n]), before, keep, b);
      hide Lists;
      var was := ChangedTo(Changed(rebuilt[..n], stored));
      assert was + [] == was;
      at := if keep(b) then before + [n] else before;
    }
  }

  // The fields in the order in which a report names them.
  function Rank(g: Field): nat {
    match g
    case WatchedSeconds => 0
    case MaxPositionSeconds => 1
    case CompletedFlag => 2
    case EndedAt => 3
    case EventCount => 4
  }

  lemma FieldsInOrder(s: Session, b: Session)
    ensures var fs := ChangedFields(s, b); forall i, j | 0 <= i < j < |fs| :: Rank(fs[i]) < Rank(fs[j])
  {
  }

  predicate SameKey(s: Session, b: Session) {
    s.media == b.media && s.instance == b.instance && s.agg.started == b.agg.started
  }

  // A stored session that no later one hides has this one's key, and they disagree.
  ghost predicate Stale(stored: seq<Session>, b: Session) {
    exists s :: Kept(stored, s) && SameKey(s, b) && s.agg != b.agg
  }

  lemma AgreeOrNot(s: Session, b: Session)
    ensures NaturalKeyOf(s) == NaturalKeyOf(b) <==> SameKey(s, b)
    ensures SameKey(s, b) ==> (ChangedFields(s, b) != [] <==> s.agg != b.agg)
  {
  }

  lemma DifferingIsStale(stored: seq<Session>, b: Session)
    ensures Differing(b, ByKey(stored)) <==> Stale(stored, b)
    ensures NaturalKeyOf(b) in ByKey(stored) <==> exists s :: s in stored && SameKey(s, b)
  {
    ByKeyIsKept(stored);
    forall s ensures NaturalKeyOf(s) == NaturalKeyOf(b) <==> SameKey(s, b) {
      AgreeOrNot(s, b);
    }
    hide Kept, ByKey, ChangedFields, NaturalKeyOf, SameKey;
    if NaturalKeyOf(b) in ByKey(stored) {
      var s := ByKey(stored)[NaturalKeyOf(b)];
      AgreeOrNot(s, b);
      assert Kept(stored, s) && s in stored;
    }
  }

  lemma KeyRebuilt(rebuilt: seq<Rebuilt>, s: Session)
    ensures NaturalKeyOf(s) in KeysOf(rebuilt) <==> exists rb :: rb in rebuilt && SameKey(s, rb.session)
  {
    forall b: Session ensures NaturalKeyOf(s) == NaturalKeyOf(b) <==> SameKey(s, b) {
      AgreeOrNot(s, b);
    }
    hide NaturalKeyOf, SameKey;
  }

  /** A report lists the added sessions and the changed ones in the order of the rebuild and the removed ones in the
      order they were read: each that is unmatched, or stale, exactly once, and no other. */
  lemma ReportInOrder(stored: seq<Session>, rebuilt: seq<Rebuilt>)
    returns (added: seq<nat>, removed: seq<nat>, changed: seq<nat>)
    ensures var rep := DiffOf(stored, rebuilt);
      && ListsAt(rep.added, rebuilt, added) && ListsAt(rep.removed, stored, removed)
      && ListsAt(ChangedTo(rep.changed), SessionsOf(rebuilt), changed)
    ensures forall p | 0 <= p < |rebuilt| ::
      p in added <==> !exists s :: s in stored && SameKey(s, rebuilt[p].session)
    ensures forall p | 0 <= p < |stored| ::
      p in removed <==> !exists rb :: rb in rebuilt && SameKey(stored[p], rb.session)
    ensures forall p | 0 <= p < |rebuilt| :: p in changed <==> Stale(stored, rebuilt[p].session)
  {
    hide Differing, Stale, SameKey, NaturalKeyOf, ByKey, KeysOf, Added, Removed, Changed, ChangedTo;
    var byKey := ByKey(stored);
    added := AddedAt(rebuilt, byKey, (rb: Rebuilt) => NaturalKeyOf(rb.session) !in byKey);
    removed := RemovedAt(stored, KeysOf(rebuilt), (s: Session) => NaturalKeyOf(s) !in KeysOf(rebuilt));
    changed := ChangedAt(rebuilt, byKey, (b: Session) => Differing(b, byKey));
    hide ListsAt;
    forall p | 0 <= p < |rebuilt| ensures
      (NaturalKeyOf(rebuilt[p].session) in byKey <==> exists s :: s in stored && SameKey(s, rebuilt[p].session)) &&
      (Differing(rebuilt[p].session, byKey) <==> Stale(stored, rebuilt[p].session))
    {
      DifferingIsStale(stored, rebuilt[p].session);
    }
    forall p | 0 <= p < |stored| ensures
      NaturalKeyOf(stored[p]) in KeysOf(rebuilt) <==> exists rb :: rb in rebuilt && SameKey(stored[p], rb.session)
    {
      KeyRebuilt(rebuilt, stored[p]);
    }
  }

  /** A change names the fields in which the two sessions disagree in one fixed order. */
  lemma ChangesNameInOrder(stored: seq<Session>, rebuilt: seq<Rebuilt>, c: Change)
    requires c in DiffOf(stored, rebuilt).changed
    ensures forall i, j | 0 <= i < j < |c.fields| :: Rank(c.fields[i]) < Rank(c.fields[j])
  {
    hide DiffOf, Kept, ChangedFields, Rank;
    ReportMeaning(stored, rebuilt);
    FieldsInOrder(c.stored, c.rebuilt);
  }
}
