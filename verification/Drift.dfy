/** Comparing stored sessions with a rebuild, on the natural key (media item, instance, start). */
module Drift {
  import opened Sorting
  import opened Stamps
  import opened Events

  datatype NaturalKey = NaturalKey(key: Key, started: Time)

  function NaturalKeyOf(s: Session): NaturalKey {
    NaturalKey(s.KeyOf(), s.agg.started)
  }

  datatype Field = WatchedSeconds | MaxPositionSeconds | CompletedFlag | EndedAt | EventCount

  function ChangedFields(s: Session, b: Session): seq<Field> {
    (if s.agg.watched != b.agg.watched then [WatchedSeconds] else []) +
    (if s.agg.maxPos != b.agg.maxPos then [MaxPositionSeconds] else []) +
    (if s.agg.completed != b.agg.completed then [CompletedFlag] else []) +
    (if s.agg.ended != b.agg.ended then [EndedAt] else []) +
    (if s.agg.count != b.agg.count then [EventCount] else [])
  }

  datatype Change = Change(key: NaturalKey, fields: seq<Field>, stored: Session, rebuilt: Session)

  datatype Report = Report(added: seq<Rebuilt>, removed: seq<Session>, changed: seq<Change>) {
    predicate HasDrift() {
      |added| + |removed| + |changed| > 0
    }
  }

  // The stored sessions by natural key; a later one with the same key replaces an earlier one.
  function ByKey(stored: seq<Session>): map<NaturalKey, Session> {
    if stored == [] then map[]
    else ByKey(stored[..|stored| - 1])[NaturalKeyOf(stored[|stored| - 1]) := stored[|stored| - 1]]
  }

  function KeysOf(rebuilt: seq<Rebuilt>): set<NaturalKey> {
    set rb | rb in rebuilt :: NaturalKeyOf(rb.session)
  }

  function Added(rebuilt: seq<Rebuilt>, stored: map<NaturalKey, Session>): seq<Rebuilt> {
    if rebuilt == [] then []
    else
      var rb := rebuilt[|rebuilt| - 1];
      Added(rebuilt[..|rebuilt| - 1], stored) + (if NaturalKeyOf(rb.session) in stored then [] else [rb])
  }

  function Changed(rebuilt: seq<Rebuilt>, stored: map<NaturalKey, Session>): seq<Change> {
    if rebuilt == [] then []
    else
      var b := rebuilt[|rebuilt| - 1].session;
      var k := NaturalKeyOf(b);
      Changed(rebuilt[..|rebuilt| - 1], stored) +
      (if k in stored && ChangedFields(stored[k], b) != [] then
         [Change(k, ChangedFields(stored[k], b), stored[k], b)] else [])
  }

  function Removed(stored: seq<Session>, seen: set<NaturalKey>): seq<Session> {
    if stored == [] then []
    else
      var s := stored[|stored| - 1];
      Removed(stored[..|stored| - 1], seen) + (if NaturalKeyOf(s) in seen then [] else [s])
  }

  function DiffOf(stored: seq<Session>, rebuilt: seq<Rebuilt>): Report {
    Report(Added(rebuilt, ByKey(stored)), Removed(stored, KeysOf(rebuilt)), Changed(rebuilt, ByKey(stored)))
  }

  lemma NextRebuilt(rebuilt: seq<Rebuilt>, i: nat, stored: map<NaturalKey, Session>)
    requires i < |rebuilt|
    ensures var b, k := rebuilt[i].session, NaturalKeyOf(rebuilt[i].session);
      && KeysOf(rebuilt[..i + 1]) == KeysOf(rebuilt[..i]) + {k}
      && Added(rebuilt[..i + 1], stored) == Added(rebuilt[..i], stored) + (if k in stored then [] else [rebuilt[i]])
      && Changed(rebuilt[..i + 1], stored) == Changed(rebuilt[..i], stored) +
           (if k in stored && ChangedFields(stored[k], b) != [] then
              [Change(k, ChangedFields(stored[k], b), stored[k], b)] else [])
  {
    assert rebuilt[..i + 1] == rebuilt[..i] + [rebuilt[i]];
    assert rebuilt[..i + 1][..i] == rebuilt[..i];
  }

  method Diff(stored: seq<Session>, rebuilt: seq<Rebuilt>) returns (rep: Report)
    ensures rep == DiffOf(stored, rebuilt)
  {
    var storedByKey: map<NaturalKey, Session> := map[];
    for i := 0 to |stored|
      invariant storedByKey == ByKey(stored[..i])
    {
      assert stored[..i + 1][..i] == stored[..i];
      storedByKey := storedByKey[NaturalKeyOf(stored[i]) := stored[i]];
    }
    assert stored[..|stored|] == stored;
    rep := Report([], [], []);
    var seen := {};
    for i := 0 to |rebuilt|
      invariant seen == KeysOf(rebuilt[..i])
      invariant rep == Report(Added(rebuilt[..i], storedByKey), [], Changed(rebuilt[..i], storedByKey))
    {
      NextRebuilt(rebuilt, i, storedByKey);
      var b := rebuilt[i].session;
      var key := NaturalKeyOf(b);
      seen := seen + {key};
      if key !in storedByKey {
        rep := rep.(added := rep.added + [rebuilt[i]]);
      } else {
        var fields := ChangedFields(storedByKey[key], b);
        if |fields| > 0 {
          rep := rep.(changed := rep.changed + [Change(key, fields, storedByKey[key], b)]);
        }
      }
    }
    assert rebuilt[..|rebuilt|] == rebuilt;
    for i := 0 to |stored|
      invariant rep == Report(Added(rebuilt, storedByKey), Removed(stored[..i], seen), Changed(rebuilt, storedByKey))
    {
      assert stored[..i + 1][..i] == stored[..i];
      if NaturalKeyOf(stored[i]) !in seen {
        rep := rep.(removed := rep.removed + [stored[i]]);
      }
    }
  }

  // ----- what a report without drift says -----

  // What a session claims about its key: everything that is compared.
  datatype Profile = Profile(key: Key, agg: Agg)

  function ProfileOf(s: Session): Profile {
    Profile(s.KeyOf(), s.agg)
  }

  function StoredProfiles(stored: seq<Session>): set<Profile> {
    set s | s in stored :: ProfileOf(s)
  }

  function RebuiltProfiles(rebuilt: seq<Rebuilt>): set<Profile> {
    set rb | rb in rebuilt :: ProfileOf(rb.session)
  }

  function StoredProfileList(stored: seq<Session>): seq<Profile> {
    seq(|stored|, i requires 0 <= i < |stored| => ProfileOf(stored[i]))
  }

  function RebuiltProfileList(rebuilt: seq<Rebuilt>): seq<Profile> {
    seq(|rebuilt|, i requires 0 <= i < |rebuilt| => ProfileOf(rebuilt[i].session))
  }

  ghost predicate UniqueKeys(stored: seq<Session>) {
    forall i, j | 0 <= i < j < |stored| :: NaturalKeyOf(stored[i]) != NaturalKeyOf(stored[j])
  }

  // What every reconstruction has: see Refinement.GroupsUnique.
  ghost predicate UniqueRebuiltKeys(rebuilt: seq<Rebuilt>) {
    forall i, j | 0 <= i < j < |rebuilt| :: NaturalKeyOf(rebuilt[i].session) != NaturalKeyOf(rebuilt[j].session)
  }

  // ----- which stored rows a diff compares -----

  ghost predicate LastOfKey(stored: seq<Session>, i: nat)
    requires i < |stored|
  {
    forall j | i < j < |stored| :: NaturalKeyOf(stored[j]) != NaturalKeyOf(stored[i])
  }

  // The rows that are compared: those that no later row with the same natural key hides.
  ghost predicate Kept(stored: seq<Session>, s: Session) {
    exists i: nat :: i < |stored| && stored[i] == s && LastOfKey(stored, i)
  }

  ghost function KeptProfiles(stored: seq<Session>): set<Profile> {
    set s | s in stored && Kept(stored, s) :: ProfileOf(s)
  }

  lemma KeptStep(stored: seq<Session>, s: Session)
    requires stored != []
    ensures var t, last := stored[..|stored| - 1], stored[|stored| - 1];
      Kept(stored, s) <==> s == last || (Kept(t, s) && NaturalKeyOf(s) != NaturalKeyOf(last))
  {
    var n := |stored| - 1;
    var t, last := stored[..n], stored[n];
    assert LastOfKey(stored, n);
    if i: nat :| i < |stored| && stored[i] == s && LastOfKey(stored, i) {
      assert i < n ==> t[i] == s && LastOfKey(t, i);
    }
    if i: nat :| i < n && t[i] == s && LastOfKey(t, i) {
      assert NaturalKeyOf(s) != NaturalKeyOf(last) ==> LastOfKey(stored, i);
    }
  }

  /** The map by natural key holds exactly the kept rows, and has every key there is. */
  lemma {:induction false} ByKeyIsKept(stored: seq<Session>)
    ensures forall k | k in ByKey(stored) :: NaturalKeyOf(ByKey(stored)[k]) == k && Kept(stored, ByKey(stored)[k])
    ensures forall s | s in stored :: NaturalKeyOf(s) in ByKey(stored)
    ensures forall s | Kept(stored, s) ::
      s in stored && NaturalKeyOf(s) in ByKey(stored) && ByKey(stored)[NaturalKeyOf(s)] == s
  {
    hide Kept;
    if stored == [] {
      NothingKept();
    } else {
      var t := stored[..|stored| - 1];
      ByKeyIsKept(t);
      assert stored == t + [stored[|stored| - 1]];
      forall s ensures Kept(stored, s) <==>
        s == stored[|stored| - 1] || (Kept(t, s) && NaturalKeyOf(s) != NaturalKeyOf(stored[|stored| - 1]))
      {
        KeptStep(stored, s);
      }
    }
  }

  lemma NothingKept()
    ensures forall s :: !Kept([], s)
  {
  }

  lemma KeyIsKept(stored: seq<Session>, s: Session) returns (kept: Session)
    requires s in stored
    ensures kept in stored && Kept(stored, kept) && NaturalKeyOf(kept) == NaturalKeyOf(s)
  {
    ByKeyIsKept(stored);
    kept := ByKey(stored)[NaturalKeyOf(s)];
    hide ByKey, Kept;
  }

  lemma UniqueAreKept(stored: seq<Session>)
    requires UniqueKeys(stored)
    ensures forall s | s in stored :: Kept(stored, s)
    ensures KeptProfiles(stored) == StoredProfiles(stored)
  {
    forall s | s in stored ensures Kept(stored, s) {
      var i: nat :| i < |stored| && stored[i] == s;
      assert LastOfKey(stored, i);
    }
  }

  // ----- what a silent report says -----

  lemma {:induction false} AddedEmptyIff(rebuilt: seq<Rebuilt>, stored: map<NaturalKey, Session>)
    ensures Added(rebuilt, stored) == [] <==> forall rb | rb in rebuilt :: NaturalKeyOf(rb.session) in stored
  {
    if rebuilt != [] {
      var t, last := rebuilt[..|rebuilt| - 1], rebuilt[|rebuilt| - 1];
      AddedEmptyIff(t, stored);
      assert rebuilt == t + [last];
      assert Added(rebuilt, stored) == Added(t, stored) + (if NaturalKeyOf(last.session) in stored then [] else [last]);
    }
  }

  lemma {:induction false} RemovedEmptyIff(stored: seq<Session>, seen: set<NaturalKey>)
    ensures Removed(stored, seen) == [] <==> forall s | s in stored :: NaturalKeyOf(s) in seen
  {
    if stored != [] {
      RemovedEmptyIff(stored[..|stored| - 1], seen);
      assert stored == stored[..|stored| - 1] + [stored[|stored| - 1]];
    }
  }

  lemma {:induction false} ChangedEmptyIff(rebuilt: seq<Rebuilt>, stored: map<NaturalKey, Session>)
    requires forall k | k in stored :: NaturalKeyOf(stored[k]) == k
    ensures Changed(rebuilt, stored) == [] <==>
      forall rb | rb in rebuilt && NaturalKeyOf(rb.session) in stored ::
        ProfileOf(stored[NaturalKeyOf(rb.session)]) == ProfileOf(rb.session)
  {
    if rebuilt != [] {
      ChangedEmptyIff(rebuilt[..|rebuilt| - 1], stored);
      assert rebuilt == rebuilt[..|rebuilt| - 1] + [rebuilt[|rebuilt| - 1]];
    }
  }

  lemma SilentMatches(stored: seq<Session>, rebuilt: seq<Rebuilt>)
    requires !DiffOf(stored, rebuilt).HasDrift()
    ensures KeptProfiles(stored) == RebuiltProfiles(rebuilt)
  {
    var byKey := ByKey(stored);
    ByKeyIsKept(stored);
    AddedEmptyIff(rebuilt, byKey);
    RemovedEmptyIff(stored, KeysOf(rebuilt));
    ChangedEmptyIff(rebuilt, byKey);
    hide Kept, ByKey, Added, Removed, Changed;
    forall p ensures p in KeptProfiles(stored) <==> p in RebuiltProfiles(rebuilt) {
      if p in KeptProfiles(stored) {
        var s :| s in stored && Kept(stored, s) && ProfileOf(s) == p;
        var rb :| rb in rebuilt && NaturalKeyOf(rb.session) == NaturalKeyOf(s);
        assert ProfileOf(rb.session) == p;
      }
      if p in RebuiltProfiles(rebuilt) {
        var rb :| rb in rebuilt && ProfileOf(rb.session) == p;
        assert ProfileOf(byKey[NaturalKeyOf(rb.session)]) == p;
      }
    }
  }

  lemma MatchingIsSilent(stored: seq<Session>, rebuilt: seq<Rebuilt>)
    requires KeptProfiles(stored) == RebuiltProfiles(rebuilt)
    ensures !DiffOf(stored, rebuilt).HasDrift()
  {
    var byKey := ByKey(stored);
    ByKeyIsKept(stored);
    AddedEmptyIff(rebuilt, byKey);
    RemovedEmptyIff(stored, KeysOf(rebuilt));
    ChangedEmptyIff(rebuilt, byKey);
    hide Kept, ByKey, Added, Removed, Changed;
    forall rb | rb in rebuilt
      ensures NaturalKeyOf(rb.session) in byKey && ProfileOf(byKey[NaturalKeyOf(rb.session)]) == ProfileOf(rb.session)
    {
      assert ProfileOf(rb.session) in KeptProfiles(stored);
      var s :| s in stored && Kept(stored, s) && ProfileOf(s) == ProfileOf(rb.session);
      assert NaturalKeyOf(s) == NaturalKeyOf(rb.session);
    }
    forall s | s in stored ensures NaturalKeyOf(s) in KeysOf(rebuilt) {
      var kept := byKey[NaturalKeyOf(s)];
      assert ProfileOf(kept) in RebuiltProfiles(rebuilt);
      var rb :| rb in rebuilt && ProfileOf(rb.session) == ProfileOf(kept);
      assert NaturalKeyOf(kept) == NaturalKeyOf(rb.session);
    }
  }

  /** A diff of any rows against any rebuild is silent exactly when the kept rows and the rebuilt sessions are the
      same up to ids, source kind and bookkeeping times. Rows hidden behind a later one with their key have no say. */
  lemma NoDriftIff(stored: seq<Session>, rebuilt: seq<Rebuilt>)
    ensures !DiffOf(stored, rebuilt).HasDrift() <==> KeptProfiles(stored) == RebuiltProfiles(rebuilt)
  {
    hide DiffOf, KeptProfiles, RebuiltProfiles;
    if !DiffOf(stored, rebuilt).HasDrift() {
      SilentMatches(stored, rebuilt);
    }
    if KeptProfiles(stored) == RebuiltProfiles(rebuilt) {
      MatchingIsSilent(stored, rebuilt);
    }
  }

  // ----- when silence means agreement -----

  lemma Repeated(q: seq<Profile>, i: nat, j: nat)
    requires i < j < |q| && q[i] == q[j]
    ensures multiset(q)[q[i]] >= 2
  {
    assert q == q[..j] + [q[j]] + q[j + 1..];
    assert q[..j][i] == q[i];
    assert multiset(q[..j])[q[i]] >= 1;
  }

  lemma {:induction false} TwoPlaces(q: seq<Profile>, p: Profile) returns (i: nat, j: nat)
    requires multiset(q)[p] >= 2
    ensures i < j < |q| && q[i] == q[j] == p
  {
    var n := |q| - 1;
    assert q == q[..n] + [q[n]];
    if q[n] == p {
      assert p in multiset(q[..n]);
      i :| 0 <= i < n && q[i] == p;
      j := n;
    } else {
      i, j := TwoPlaces(q[..n], p);
    }
  }

  lemma OnePlace(q: seq<Profile>, p: Profile)
    requires forall i, j | 0 <= i < j < |q| :: q[i] != q[j]
    ensures multiset(q)[p] == if p in q then 1 else 0
  {
    assert p in q <==> p in multiset(q);
    if multiset(q)[p] >= 2 {
      var i, j := TwoPlaces(q, p);
    }
  }

  lemma RebuiltOnce(rebuilt: seq<Rebuilt>, p: Profile)
    requires UniqueRebuiltKeys(rebuilt)
    ensures multiset(RebuiltProfileList(rebuilt))[p] == if p in RebuiltProfileList(rebuilt) then 1 else 0
  {
    var b := RebuiltProfileList(rebuilt);
    forall i, j | 0 <= i < j < |b| ensures b[i] != b[j] {
      assert NaturalKeyOf(rebuilt[i].session) != NaturalKeyOf(rebuilt[j].session);
    }
    OnePlace(b, p);
  }

  // Rows that add up to rebuilt sessions repeat no key either.
  lemma SameListSameKeys(stored: seq<Session>, rebuilt: seq<Rebuilt>)
    requires UniqueRebuiltKeys(rebuilt)
    requires multiset(StoredProfileList(stored)) == multiset(RebuiltProfileList(rebuilt))
    ensures UniqueKeys(stored)
  {
    var a, b := StoredProfileList(stored), RebuiltProfileList(rebuilt);
    forall i, j | 0 <= i < j < |stored| ensures NaturalKeyOf(stored[i]) != NaturalKeyOf(stored[j]) {
      if a[i] == a[j] {
        Repeated(a, i, j);
        RebuiltOnce(rebuilt, a[i]);
      } else {
        assert a[i] in multiset(b) && a[j] in multiset(b);
        var x :| 0 <= x < |b| && b[x] == a[i];
        var y :| 0 <= y < |b| && b[y] == a[j];
        assert NaturalKeyOf(rebuilt[x].session) != NaturalKeyOf(rebuilt[y].session);
      }
    }
  }

  lemma ProfilesInList(stored: seq<Session>, rebuilt: seq<Rebuilt>)
    ensures forall p :: p in StoredProfileList(stored) <==> p in StoredProfiles(stored)
    ensures forall p :: p in RebuiltProfileList(rebuilt) <==> p in RebuiltProfiles(rebuilt)
  {
    var a, b := StoredProfileList(stored), RebuiltProfileList(rebuilt);
    forall s | s in stored ensures ProfileOf(s) in a {
      var i :| 0 <= i < |stored| && stored[i] == s;
      assert a[i] == ProfileOf(s);
    }
    forall rb | rb in rebuilt ensures ProfileOf(rb.session) in b {
      var i :| 0 <= i < |rebuilt| && rebuilt[i] == rb;
      assert b[i] == ProfileOf(rb.session);
    }
  }

  lemma UniqueLists(stored: seq<Session>, rebuilt: seq<Rebuilt>)
    requires UniqueKeys(stored) && UniqueRebuiltKeys(rebuilt) && StoredProfiles(stored) == RebuiltProfiles(rebuilt)
    ensures multiset(StoredProfileList(stored)) == multiset(RebuiltProfileList(rebuilt))
  {
    var a, b := StoredProfileList(stored), RebuiltProfileList(rebuilt);
    forall i, j | 0 <= i < j < |a| ensures a[i] != a[j] {
      assert NaturalKeyOf(stored[i]) != NaturalKeyOf(stored[j]);
    }
    ProfilesInList(stored, rebuilt);
    forall p ensures multiset(a)[p] == multiset(b)[p] {
      OnePlace(a, p);
      RebuiltOnce(rebuilt, p);
    }
  }

  /** When the report's silence can be believed: the stored rows are the rebuilt sessions, each as often, if and
      only if the diff is silent and no two rows share a natural key. So with rows that share one a silent diff
      is always wrong, and without it always right. */
  lemma SilenceIsAgreementIff(stored: seq<Session>, rebuilt: seq<Rebuilt>)
    requires UniqueRebuiltKeys(rebuilt)
    ensures multiset(StoredProfileList(stored)) == multiset(RebuiltProfileList(rebuilt)) <==>
      !DiffOf(stored, rebuilt).HasDrift() && UniqueKeys(stored)
  {
    hide DiffOf, KeptProfiles, UniqueRebuiltKeys, StoredProfileList, RebuiltProfileList;
    NoDriftIff(stored, rebuilt);
    ProfilesInList(stored, rebuilt);
    if UniqueKeys(stored) {
      UniqueAreKept(stored);
    }
    hide UniqueKeys, StoredProfiles, RebuiltProfiles;
    if multiset(StoredProfileList(stored)) == multiset(RebuiltProfileList(rebuilt)) {
      SameListSameKeys(stored, rebuilt);
      SameProfilesIn(StoredProfileList(stored), RebuiltProfileList(rebuilt), StoredProfiles(stored),
        RebuiltProfiles(rebuilt));
    } else if !DiffOf(stored, rebuilt).HasDrift() && UniqueKeys(stored) {
      UniqueLists(stored, rebuilt);
    }
  }

  lemma SameProfilesIn(a: seq<Profile>, b: seq<Profile>, A: set<Profile>, B: set<Profile>)
    requires multiset(a) == multiset(b) && (forall p :: p in a <==> p in A) && forall p :: p in b <==> p in B
    ensures A == B
  {
    SameElems(a, b);
  }

  // Rows whose profiles are those of the rebuilt sessions hide nothing from one another.
  lemma SameProfilesSilent(stored: seq<Session>, rebuilt: seq<Rebuilt>)
    requires UniqueRebuiltKeys(rebuilt) && StoredProfiles(stored) == RebuiltProfiles(rebuilt)
    ensures !DiffOf(stored, rebuilt).HasDrift()
  {
    forall s, t | s in stored && t in stored && NaturalKeyOf(s) == NaturalKeyOf(t)
      ensures ProfileOf(s) == ProfileOf(t)
    {
      assert ProfileOf(s) in RebuiltProfiles(rebuilt) && ProfileOf(t) in RebuiltProfiles(rebuilt);
      var a :| a in rebuilt && ProfileOf(a.session) == ProfileOf(s);
      var b :| b in rebuilt && ProfileOf(b.session) == ProfileOf(t);
      KeyNamesOneRebuilt(rebuilt, a, b);
    }
    hide DiffOf, KeptProfiles, StoredProfiles, RebuiltProfiles, UniqueRebuiltKeys;
    AgreeingKept(stored);
    NoDriftIff(stored, rebuilt);
  }

  // ----- when the order of the rows matters -----

  // Rows that share a natural key share everything else that is compared.
  ghost predicate KeysAgree(stored: seq<Session>) {
    forall s, t | s in stored && t in stored && NaturalKeyOf(s) == NaturalKeyOf(t) :: ProfileOf(s) == ProfileOf(t)
  }

  lemma AgreeingKept(stored: seq<Session>)
    requires KeysAgree(stored)
    ensures KeptProfiles(stored) == StoredProfiles(stored)
  {
    hide Kept;
    forall s | s in stored ensures ProfileOf(s) in KeptProfiles(stored) {
      var kept := KeyIsKept(stored, s);
      assert ProfileOf(kept) == ProfileOf(s);
    }
  }

  lemma SameOrderless(stored: seq<Session>, other: seq<Session>)
    requires KeysAgree(stored) && multiset(other) == multiset(stored)
    ensures KeptProfiles(other) == KeptProfiles(stored)
  {
    SameElems(other, stored);
    AgreeingKept(stored);
    AgreeingKept(other);
  }

  lemma {:induction false} SessionsWith(P: set<Profile>) returns (rebuilt: seq<Rebuilt>)
    ensures RebuiltProfiles(rebuilt) == P
  {
    rebuilt := [];
    if P != {} {
      var p :| p in P;
      var rest := SessionsWith(P - {p});
      var rb := Rebuilt(Session("", p.key.media, "", p.key.instance, p.agg, ZERO_TIME, ZERO_TIME), []);
      rebuilt := rest + [rb];
      assert ProfileOf(rb.session) == p && P == (P - {p}) + {p};
      assert forall x :: x in rebuilt <==> x in rest || x == rb;
    }
  }

  lemma MovedLast(stored: seq<Session>, u: Session) returns (other: seq<Session>)
    requires u in stored
    ensures multiset(other) == multiset(stored) && u in other && Kept(other, u)
  {
    var i :| 0 <= i < |stored| && stored[i] == u;
    other := stored[..i] + stored[i + 1..] + [u];
    assert stored == stored[..i] + [u] + stored[i + 1..];
    assert LastOfKey(other, |other| - 1);
  }

  // The kept row of a key is the only one with a say.
  lemma KeptSpeaks(stored: seq<Session>, u: Session, p: Profile)
    requires Kept(stored, u) && p in KeptProfiles(stored)
    requires p.key == u.KeyOf() && p.agg.started == u.agg.started
    ensures p == ProfileOf(u)
  {
    ByKeyIsKept(stored);
    hide ByKey, Kept;
    var s :| s in stored && Kept(stored, s) && ProfileOf(s) == p;
    assert NaturalKeyOf(s) == NaturalKeyOf(u);
  }

  lemma OrderMatters(stored: seq<Session>) returns (other: seq<Session>, rebuilt: seq<Rebuilt>)
    requires !KeysAgree(stored)
    ensures multiset(other) == multiset(stored)
    ensures !DiffOf(stored, rebuilt).HasDrift() && DiffOf(other, rebuilt).HasDrift()
  {
    var s, t :| s in stored && t in stored && NaturalKeyOf(s) == NaturalKeyOf(t) && ProfileOf(s) != ProfileOf(t);
    var kept := KeyIsKept(stored, s);
    var u := if ProfileOf(s) != ProfileOf(kept) then s else t;
    other := MovedLast(stored, u);
    rebuilt := SessionsWith(KeptProfiles(stored));
    hide Kept, DiffOf, KeptProfiles;
    NoDriftIff(stored, rebuilt);
    NoDriftIff(other, rebuilt);
    if KeptProfiles(other) == KeptProfiles(stored) {
      assert ProfileOf(kept) in KeptProfiles(stored) by { KeptIn(stored, kept); }
      KeptSpeaks(other, u, ProfileOf(kept));
    }
  }

  lemma KeptIn(stored: seq<Session>, s: Session)
    requires s in stored && Kept(stored, s)
    ensures ProfileOf(s) in KeptProfiles(stored)
  {
  }

  /** The answer does not depend on the order in which the rows are read if and only if rows that share a natural
      key agree. Otherwise the order decides, which for such rows is that of their minted ids. */
  lemma OrderIrrelevantIff(stored: seq<Session>)
    ensures KeysAgree(stored) <==> forall other, rebuilt | multiset(other) == multiset(stored) ::
      DiffOf(other, rebuilt).HasDrift() == DiffOf(stored, rebuilt).HasDrift()
  {
    hide DiffOf, KeptProfiles, RebuiltProfiles, KeysAgree;
    if KeysAgree(stored) {
      forall other, rebuilt | multiset(other) == multiset(stored)
        ensures DiffOf(other, rebuilt).HasDrift() == DiffOf(stored, rebuilt).HasDrift()
      {
        SameOrderless(stored, other);
        NoDriftIff(stored, rebuilt);
        NoDriftIff(other, rebuilt);
      }
    } else {
      var other, rebuilt := OrderMatters(stored);
    }
  }

  // ----- what a report with drift says -----

  lemma {:induction false} AddedMembers(rebuilt: seq<Rebuilt>, stored: map<NaturalKey, Session>)
    ensures forall rb :: rb in Added(rebuilt, stored) <==> rb in rebuilt && NaturalKeyOf(rb.session) !in stored
  {
    if rebuilt != [] {
      var t, last := rebuilt[..|rebuilt| - 1], rebuilt[|rebuilt| - 1];
      AddedMembers(t, stored);
      assert rebuilt == t + [last];
    }
  }

  lemma {:induction false} RemovedMembers(stored: seq<Session>, seen: set<NaturalKey>)
    ensures forall s :: s in Removed(stored, seen) <==> s in stored && NaturalKeyOf(s) !in seen
  {
    if stored != [] {
      var t, last := stored[..|stored| - 1], stored[|stored| - 1];
      RemovedMembers(t, seen);
      assert stored == t + [last];
    }
  }

  predicate Differs(c: Change, rb: Rebuilt, stored: map<NaturalKey, Session>) {
    && c.key == NaturalKeyOf(rb.session) && c.rebuilt == rb.session
    && c.key in stored && c.stored == stored[c.key]
    && c.fields == ChangedFields(c.stored, c.rebuilt) && c.fields != []
  }

  lemma {:induction false} ChangedMembers(rebuilt: seq<Rebuilt>, stored: map<NaturalKey, Session>)
    ensures forall c :: c in Changed(rebuilt, stored) <==> exists rb :: rb in rebuilt && Differs(c, rb, stored)
  {
    hide ChangedFields;
    if rebuilt != [] {
      var t, last := rebuilt[..|rebuilt| - 1], rebuilt[|rebuilt| - 1];
      ChangedMembers(t, stored);
      assert rebuilt == t + [last];
      forall c ensures c in Changed(rebuilt, stored) <==> c in Changed(t, stored) || Differs(c, last, stored) {
      }
      assert forall rb :: rb in rebuilt <==> rb in t || rb == last;
    }
  }

  // One session is new, gone, or on both sides under one key.
  ghost predicate Matched(s: Session, rb: Rebuilt) {
    NaturalKeyOf(s) == NaturalKeyOf(rb.session)
  }

  predicate Disagree(f: Field, a: Agg, b: Agg) {
    match f
    case WatchedSeconds => a.watched != b.watched
    case MaxPositionSeconds => a.maxPos != b.maxPos
    case CompletedFlag => a.completed != b.completed
    case EndedAt => a.ended != b.ended
    case EventCount => a.count != b.count
  }

  lemma OneFlag(before: seq<Field>, flag: bool, f: Field, g: Field)
    ensures g in before + (if flag then [f] else []) <==> g in before || (flag && g == f)
  {
  }

  // The fields a change lists are exactly those in which the two sessions disagree.
  lemma FieldsMeaning(s: Session, b: Session, g: Field)
    ensures g in ChangedFields(s, b) <==> Disagree(g, s.agg, b.agg)
  {
    var u, v := s.agg, b.agg;
    var c1 := if u.watched != v.watched then [WatchedSeconds] else [];
    var c2 := c1 + if u.maxPos != v.maxPos then [MaxPositionSeconds] else [];
    var c3 := c2 + if u.completed != v.completed then [CompletedFlag] else [];
    var c4 := c3 + if u.ended != v.ended then [EndedAt] else [];
    OneFlag(c1, u.maxPos != v.maxPos, MaxPositionSeconds, g);
    OneFlag(c2, u.completed != v.completed, CompletedFlag, g);
    OneFlag(c3, u.ended != v.ended, EndedAt, g);
    OneFlag(c4, u.count != v.count, EventCount, g);
  }

  // The change is that of a kept row and the rebuilt session it matches, which disagree.
  ghost predicate Reported(c: Change, s: Session, rb: Rebuilt) {
    && Matched(s, rb) && ProfileOf(s) != ProfileOf(rb.session)
    && c.key == NaturalKeyOf(s) && c.stored == s && c.rebuilt == rb.session && c.fields == ChangedFields(s, rb.session)
  }

  lemma DiffersIsReported(stored: seq<Session>, c: Change, rb: Rebuilt)
    ensures Differs(c, rb, ByKey(stored)) <==> Kept(stored, c.stored) && Reported(c, c.stored, rb)
  {
    ByKeyIsKept(stored);
    hide ByKey, Kept;
  }

  lemma ChangesMeaning(stored: seq<Session>, rebuilt: seq<Rebuilt>)
    ensures forall c :: c in DiffOf(stored, rebuilt).changed <==>
      Kept(stored, c.stored) && exists rb :: rb in rebuilt && Reported(c, c.stored, rb)
  {
    ChangedMembers(rebuilt, ByKey(stored));
    hide ByKey, Kept, Differs, Reported, Changed, Added, Removed;
    forall c, rb ensures Differs(c, rb, ByKey(stored)) <==> Kept(stored, c.stored) && Reported(c, c.stored, rb) {
      DiffersIsReported(stored, c, rb);
    }
  }

  lemma UnmatchedMeaning(stored: seq<Session>, rebuilt: seq<Rebuilt>)
    ensures var rep := DiffOf(stored, rebuilt);
      && (forall rb :: rb in rep.added <==> rb in rebuilt && forall s | s in stored :: !Matched(s, rb))
      && (forall s :: s in rep.removed <==> s in stored && forall rb | rb in rebuilt :: !Matched(s, rb))
  {
    ByKeyIsKept(stored);
    AddedMembers(rebuilt, ByKey(stored));
    RemovedMembers(stored, KeysOf(rebuilt));
    hide Added, Removed, Changed, ByKey;
    assert forall s | Kept(stored, s) :: s in stored;
    hide Kept;
    forall rb | rb in rebuilt && NaturalKeyOf(rb.session) in ByKey(stored)
      ensures exists s :: s in stored && Matched(s, rb)
    {
      var s := ByKey(stored)[NaturalKeyOf(rb.session)];
      assert s in stored && Matched(s, rb);
    }
  }

  /** What a report lists, for any rows and any rebuild: the rebuilt sessions no row matches, the rows no rebuilt
      session matches, and each kept row that matches one but disagrees with it, with exactly the fields in which
      it does. */
  lemma ReportMeaning(stored: seq<Session>, rebuilt: seq<Rebuilt>)
    ensures var rep := DiffOf(stored, rebuilt);
      && (forall rb :: rb in rep.added <==> rb in rebuilt && forall s | s in stored :: !Matched(s, rb))
      && (forall s :: s in rep.removed <==> s in stored && forall rb | rb in rebuilt :: !Matched(s, rb))
      && (forall c :: c in rep.changed <==> Kept(stored, c.stored) && exists rb ::
        rb in rebuilt && Reported(c, c.stored, rb))
      && (forall c, g | c in rep.changed :: g in c.fields <==> Disagree(g, c.stored.agg, c.rebuilt.agg))
  {
    UnmatchedMeaning(stored, rebuilt);
    ChangesMeaning(stored, rebuilt);
    hide DiffOf, Kept, Matched, ChangedFields, Disagree;
    var rep := DiffOf(stored, rebuilt);
    forall c, g | c in rep.changed ensures g in c.fields <==> Disagree(g, c.stored.agg, c.rebuilt.agg) {
      FieldsMeaning(c.stored, c.rebuilt, g);
    }
  }

  // ----- a report as a patch -----

  lemma KeyNamesOneRebuilt(rebuilt: seq<Rebuilt>, a: Rebuilt, b: Rebuilt)
    requires UniqueRebuiltKeys(rebuilt) && a in rebuilt && b in rebuilt
    requires NaturalKeyOf(a.session) == NaturalKeyOf(b.session)
    ensures a == b
  {
    var i :| 0 <= i < |rebuilt| && rebuilt[i] == a;
    var j :| 0 <= j < |rebuilt| && rebuilt[j] == b;
  }

  function Taken(rep: Report): set<Profile> {
    StoredProfiles(rep.removed) + set c | c in rep.changed :: ProfileOf(c.stored)
  }

  function Given(rep: Report): set<Profile> {
    RebuiltProfiles(rep.added) + set c | c in rep.changed :: ProfileOf(c.rebuilt)
  }

  // A kept row that agrees with its rebuilt session is left alone.
  lemma AgreeingStays(stored: seq<Session>, rebuilt: seq<Rebuilt>, s: Session, rb: Rebuilt)
    requires UniqueRebuiltKeys(rebuilt) && Kept(stored, s) && rb in rebuilt && ProfileOf(s) == ProfileOf(rb.session)
    ensures ProfileOf(s) !in Taken(DiffOf(stored, rebuilt))
  {
    ReportMeaning(stored, rebuilt);
    var rep := DiffOf(stored, rebuilt);
    hide DiffOf, ChangedFields, UniqueRebuiltKeys, Kept;
    forall t | t in rep.removed ensures ProfileOf(t) != ProfileOf(s) {
      assert !Matched(t, rb);
    }
    forall c | c in rep.changed ensures ProfileOf(c.stored) != ProfileOf(s) {
      if ProfileOf(c.stored) == ProfileOf(s) {
        var b :| b in rebuilt && Reported(c, c.stored, b);
        KeyNamesOneRebuilt(rebuilt, b, rb);
      }
    }
  }

  lemma RebuiltIsCovered(stored: seq<Session>, rebuilt: seq<Rebuilt>, rb: Rebuilt)
    requires UniqueRebuiltKeys(rebuilt) && rb in rebuilt
    ensures var rep, p := DiffOf(stored, rebuilt), ProfileOf(rb.session);
      p in Given(rep) || (p in KeptProfiles(stored) && p !in Taken(rep))
  {
    ReportMeaning(stored, rebuilt);
    var rep := DiffOf(stored, rebuilt);
    hide DiffOf, ChangedFields, UniqueRebuiltKeys, Kept;
    if rb !in rep.added {
      var t :| t in stored && Matched(t, rb);
      var s := KeyIsKept(stored, t);
      if ProfileOf(s) == ProfileOf(rb.session) {
        AgreeingStays(stored, rebuilt, s, rb);
      } else {
        var c := Change(NaturalKeyOf(s), ChangedFields(s, rb.session), s, rb.session);
        assert Reported(c, c.stored, rb);
      }
    }
  }

  lemma UntakenAgrees(stored: seq<Session>, rebuilt: seq<Rebuilt>, s: Session)
    requires Kept(stored, s) && s in stored && ProfileOf(s) !in Taken(DiffOf(stored, rebuilt))
    ensures ProfileOf(s) in RebuiltProfiles(rebuilt)
  {
    ReportMeaning(stored, rebuilt);
    var rep := DiffOf(stored, rebuilt);
    hide DiffOf, ChangedFields, Kept;
    assert s !in rep.removed;
    var rb :| rb in rebuilt && Matched(s, rb);
    var c := Change(NaturalKeyOf(s), ChangedFields(s, rb.session), s, rb.session);
    assert Reported(c, c.stored, rb) ==> c in rep.changed;
  }

  lemma GivenIsRebuilt(stored: seq<Session>, rebuilt: seq<Rebuilt>)
    ensures Given(DiffOf(stored, rebuilt)) <= RebuiltProfiles(rebuilt)
  {
    ReportMeaning(stored, rebuilt);
    hide DiffOf, ChangedFields, Kept;
  }

  /** A report is a patch of the kept rows: taking the removed and the changed ones out, and putting the added and
      the changed ones in, gives exactly the rebuilt sessions. */
  lemma ReportIsPatch(stored: seq<Session>, rebuilt: seq<Rebuilt>)
    requires UniqueRebuiltKeys(rebuilt)
    ensures var rep := DiffOf(stored, rebuilt);
      KeptProfiles(stored) - Taken(rep) + Given(rep) == RebuiltProfiles(rebuilt)
  {
    var rep := DiffOf(stored, rebuilt);
    hide DiffOf, UniqueRebuiltKeys, Kept, Taken, Given;
    GivenIsRebuilt(stored, rebuilt);
    forall p | p in RebuiltProfiles(rebuilt)
      ensures p in Given(rep) || (p in KeptProfiles(stored) && p !in Taken(rep))
    {
      var rb :| rb in rebuilt && ProfileOf(rb.session) == p;
      RebuiltIsCovered(stored, rebuilt, rb);
    }
    forall p | p in KeptProfiles(stored) && p !in Taken(rep) ensures p in RebuiltProfiles(rebuilt) {
      var s :| s in stored && Kept(stored, s) && ProfileOf(s) == p;
      UntakenAgrees(stored, rebuilt, s);
    }
  }

  // A rebuilt session that no stored one matches is drift.
  lemma UnmatchedDrifts(stored: seq<Session>, rebuilt: seq<Rebuilt>, i: nat)
    requires i < |rebuilt| && forall s | s in stored :: NaturalKeyOf(s) != NaturalKeyOf(rebuilt[i].session)
    ensures DiffOf(stored, rebuilt).HasDrift()
  {
    UnmatchedMeaning(stored, rebuilt);
    hide Added, Removed, Changed;
    assert rebuilt[i] in rebuilt;
    assert rebuilt[i] in DiffOf(stored, rebuilt).added;
  }
}
