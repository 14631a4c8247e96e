/** The event log: watch events, the key that sessions are grouped by, and replay order. */
module Events {
  import opened Sorting
  import opened Stamps

  datatype Option<+T> = None | Some(value: T)

  datatype EventType = Start | Progress | Pause | Resume | Stop | Seek

  // Sessions are formed per media item and source instance.
  datatype Key = Key(media: string, instance: string)

  datatype Event = Event(id: string, media: string, kind: string, instance: string,
                         typ: EventType, pos: Option<real>, at: Time) {
    function KeyOf(): Key { Key(media, instance) }
  }

  const NO_EVENT := Event("", "", "", "", Start, None, ZERO_TIME)

  // What a session row says about its events.
  datatype Agg = Agg(started: Time, ended: Time, watched: int, maxPos: real, completed: bool, count: nat)

  datatype Session = Session(id: string, media: string, kind: string, instance: string, agg: Agg,
                             created: Time, updated: Time) {
    function KeyOf(): Key { Key(media, instance) }
  }

  // One output of the reconstruction; its session has no id yet.
  datatype Rebuilt = Rebuilt(session: Session, eventIds: seq<string>)

  // Replay order: occurred_at, then id.
  predicate Before(a: Event, b: Event) {
    a.at < b.at || (a.at == b.at && StrLess(a.id, b.id))
  }

  predicate Earlier(a: Event, b: Event) {
    a.at < b.at
  }

  ghost predicate Ordered(s: seq<Event>) {
    forall i, j | 0 <= i < j < |s| :: Before(s[i], s[j])
  }

  ghost predicate DistinctIds(S: set<Event>) {
    forall a, b | a in S && b in S && a.id == b.id :: a == b
  }

  lemma BeforeAsymmetric(a: Event, b: Event)
    ensures !(Before(a, b) && Before(b, a))
  {
    StrLessAsymmetric(a.id, b.id);
  }

  lemma BeforeTotal(a: Event, b: Event)
    ensures a.id == b.id || Before(a, b) || Before(b, a)
  {
    StrLessTotal(a.id, b.id);
  }

  lemma BeforeTransitive()
    ensures Transitive(Before)
  {
    forall a, b, c | Before(a, b) && Before(b, c) ensures Before(a, c) {
      if a.at == b.at == c.at {
        StrLessTransitive(a.id, b.id, c.id);
      }
    }
  }

  // A set of events has only one replay order.
  lemma OrderedUnique(s: seq<Event>, t: seq<Event>)
    requires Ordered(s) && Ordered(t) && Elems(s) == Elems(t)
    ensures s == t
  {
    forall x, y | x in s && y in s ensures !(Before(x, y) && Before(y, x)) {
      BeforeAsymmetric(x, y);
    }
    SortedUnique(s, t, Before);
  }

  // An ordered sequence lists each event once.
  lemma {:induction false} OrderedSize(s: seq<Event>)
    requires Ordered(s)
    ensures |Elems(s)| == |s|
  {
    if s != [] {
      OrderedSize(s[1..]);
      forall x | x in s[1..] ensures x != s[0] {
        assert Before(s[0], x);
        BeforeAsymmetric(x, x);
      }
      assert s == [s[0]] + s[1..];
      assert Elems(s) == {s[0]} + Elems(s[1..]);
    }
  }

  /** The replay order of a set of events. */
  ghost function Arrange(S: set<Event>): (s: seq<Event>)
    requires DistinctIds(S)
    ensures Ordered(s) && Elems(s) == S && |s| == |S|
  {
    if S == {} then [] else
      var e :| e in S;
      ArrangeStep(S, e, Arrange(S - {e}));
      InsertStable(e, Arrange(S - {e}), Before)
  }

  lemma ArrangeStep(S: set<Event>, e: Event, rest: seq<Event>)
    requires DistinctIds(S) && e in S && Ordered(rest) && Elems(rest) == S - {e} && |rest| == |S - {e}|
    ensures var s := InsertStable(e, rest, Before); Ordered(s) && Elems(s) == S && |s| == |S|
  {
    hide Ordered, Before, InsertStable;
    forall x | x in rest ensures x.id != e.id {
      assert x in Elems(rest);
    }
    ArrangeInsert(e, rest);
  }

  lemma ArrangeInsert(e: Event, rest: seq<Event>)
    requires Ordered(rest) && forall x | x in rest :: x.id != e.id
    ensures Ordered(InsertStable(e, rest, Before))
    ensures Elems(InsertStable(e, rest, Before)) == Elems(rest) + {e}
  {
    BeforeTransitive();
    forall y | y in rest ensures if Before(y, e) then Before(y, e) else Before(e, y) {
      BeforeTotal(y, e);
    }
    InsertSorted(e, rest, Before, Before);
    SameElems(InsertStable(e, rest, Before), rest + [e]);
  }

  lemma ArrangeUnique(s: seq<Event>, S: set<Event>)
    requires DistinctIds(S) && Ordered(s) && Elems(s) == S
    ensures s == Arrange(S)
  {
    OrderedUnique(s, Arrange(S));
  }

  ghost predicate DistinctSeqIds(s: seq<Event>) {
    forall i, j | 0 <= i < j < |s| :: s[i].id != s[j].id
  }

  // The batch sort (occurred_at, id) of events with distinct ids is their replay order.
  lemma SortIsArrange(s: seq<Event>)
    requires DistinctSeqIds(s)
    ensures DistinctIds(Elems(s)) && StableSort(s, Before) == Arrange(Elems(s))
  {
    BeforeTransitive();
    forall i, j | 0 <= i < j < |s|
      ensures if Before(s[j], s[i]) then Before(s[j], s[i]) else Before(s[i], s[j])
    {
      BeforeTotal(s[i], s[j]);
    }
    StableSortRefines(s, Before, Before);
    ArrangeUnique(StableSort(s, Before), Elems(s));
  }

  // ORDER BY occurred_at, id on the stored text.
  predicate TextLess(a: Event, b: Event) {
    StampLess(a.at, b.at) || (SameStamp(a.at, b.at) && StrLess(a.id, b.id))
  }

  ghost predicate TextOrdered(s: seq<Event>) {
    forall i, j | 0 <= i < j < |s| :: TextLess(s[i], s[j])
  }

  lemma TextLessTransitive()
    ensures Transitive(TextLess)
  {
    forall a, b, c | TextLess(a, b) && TextLess(b, c) ensures TextLess(a, c) {
      if StampLess(a.at, b.at) && StampLess(b.at, c.at) {
        StampLessTransitive(a.at, b.at, c.at);
      } else if SameStamp(a.at, b.at) && SameStamp(b.at, c.at) {
        StrLessTransitive(a.id, b.id, c.id);
      }
    }
  }

  // Rows with distinct ids, sorted by the database.
  lemma TextSorted(s: seq<Event>)
    requires DistinctSeqIds(s)
    ensures TextOrdered(StableSort(s, TextLess)) && Elems(StableSort(s, TextLess)) == Elems(s)
  {
    TextLessTransitive();
    forall i, j | 0 <= i < j < |s|
      ensures if TextLess(s[j], s[i]) then TextLess(s[j], s[i]) else TextLess(s[i], s[j])
    {
      StrLessTotal(s[i].id, s[j].id);
      StampLessTotal(s[i].at, s[j].at);
    }
    StableSortRefines(s, TextLess, TextLess);
  }

  // ORDER BY started_at, id on the stored text.
  predicate RowLess(a: Session, b: Session) {
    StampLess(a.agg.started, b.agg.started) || (SameStamp(a.agg.started, b.agg.started) && StrLess(a.id, b.id))
  }

  /** The two printed orders are those of times but within a second, and of ids within one time. */
  lemma PrintedOrders(a: Event, b: Event, s: Session, t: Session)
    ensures TextLess(a, b) ==> a.at < b.at + SECOND && (a.at == b.at ==> StrLess(a.id, b.id))
    ensures b.at >= a.at + SECOND || (a.at == b.at && StrLess(a.id, b.id)) ==> TextLess(a, b)
    ensures RowLess(s, t) ==>
      s.agg.started < t.agg.started + SECOND && (s.agg.started == t.agg.started ==> StrLess(s.id, t.id))
    ensures t.agg.started >= s.agg.started + SECOND || (s.agg.started == t.agg.started && StrLess(s.id, t.id)) ==>
      RowLess(s, t)
  {
    PrintedOrder(a.at, b.at);
    PrintedOrder(s.agg.started, t.agg.started);
    hide StampLess, SameStamp, StrLess;
  }

  lemma PrintedOrder(a: Time, b: Time)
    ensures b - a >= SECOND ==> StampLess(a, b)
    ensures StampLess(a, b) || SameStamp(a, b) ==> a < b + SECOND
    ensures a == b ==> SameStamp(a, b) && !StampLess(a, b)
  {
    StampOrderAcross(a, b);
    StampOrderAcross(b, a);
    StampLessAsymmetric(a, b);
    StampLessTotal(a, b);
  }

  lemma RowLessTransitive()
    ensures Transitive(RowLess)
  {
    forall a, b, c | RowLess(a, b) && RowLess(b, c) ensures RowLess(a, c) {
      if StampLess(a.agg.started, b.agg.started) && StampLess(b.agg.started, c.agg.started) {
        StampLessTransitive(a.agg.started, b.agg.started, c.agg.started);
      } else if SameStamp(a.agg.started, b.agg.started) && SameStamp(b.agg.started, c.agg.started) {
        StrLessTransitive(a.id, b.id, c.id);
      }
    }
  }

  lemma RowLessAsymmetric(a: Session, b: Session)
    ensures !(RowLess(a, b) && RowLess(b, a))
  {
    StrLessAsymmetric(a.id, b.id);
    StampLessAsymmetric(a.agg.started, b.agg.started);
    StampLessTotal(a.agg.started, b.agg.started);
  }

  lemma RowsSorted(s: seq<Session>)
    requires forall i, j | 0 <= i < j < |s| :: s[i].id != s[j].id
    ensures Sorted(StableSort(s, RowLess), RowLess) && Elems(StableSort(s, RowLess)) == Elems(s)
  {
    RowLessTransitive();
    forall i, j | 0 <= i < j < |s|
      ensures if RowLess(s[j], s[i]) then RowLess(s[j], s[i]) else RowLess(s[i], s[j])
    {
      StrLessTotal(s[i].id, s[j].id);
      StampLessTotal(s[i].agg.started, s[j].agg.started);
    }
    StableSortRefines(s, RowLess, RowLess);
  }

  /** Fold's own stable sort by time turns any rows that arrive ordered by printed time and id into
      replay order, whatever the text order did within a second. */
  lemma TextOrderHealed(s: seq<Event>, S: set<Event>)
    requires DistinctIds(S) && TextOrdered(s) && Elems(s) == S
    ensures StableSort(s, Earlier) == Arrange(S)
  {
    BeforeTransitive();
    forall i, j | 0 <= i < j < |s|
      ensures if Earlier(s[j], s[i]) then Before(s[j], s[i]) else Before(s[i], s[j])
    {
      if s[i].at == s[j].at {
        StampLessAsymmetric(s[i].at, s[i].at);
        assert TextLess(s[i], s[j]);
      }
    }
    StableSortRefines(s, Earlier, Before);
    ArrangeUnique(StableSort(s, Earlier), S);
  }
}
