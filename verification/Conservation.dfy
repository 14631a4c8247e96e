/** Cutting a stream into sessions and watched time: nothing watched is lost at the cuts. */
module Conservation {
  import opened Sorting
  import opened Stamps
  import opened Events
  import opened Folding
  import opened Partition

  function KeyEvents(S: set<Event>, k: Key): set<Event> {
    set e | e in S && e.KeyOf() == k
  }

  ghost function KeySessions(P: set<seq<Event>>, k: Key): set<seq<Event>> {
    set g: seq<Event> | g in P && g != [] && g[0].KeyOf() == k
  }

  lemma KeyPartition(P: set<seq<Event>>, S: set<Event>, gap: int, k: Key)
    requires IsGapPartition(P, S, gap)
    ensures IsGapPartition(KeySessions(P, k), KeyEvents(S, k), gap)
  {
    var Pk, Sk := KeySessions(P, k), KeyEvents(S, k);
    forall g | g in Pk ensures Elems(g) <= Sk {
      assert Elems(g) <= S;
      forall e | e in Elems(g) ensures e in Sk {
        assert e in g;
      }
    }
    forall e | e in Sk ensures exists g :: g in Pk && e in g {
      var g :| g in P && e in g;
      assert g in Pk;
    }
  }

  /** On one key, the sessions of a gap partition are the key's stream cut from left to right. */
  lemma KeySessionsAreSplit(P: set<seq<Event>>, S: set<Event>, gap: int, k: Key)
    requires IsGapPartition(P, S, gap) && DistinctIds(S) && gap >= 0
    ensures KeySessions(P, k) == Elems(Split(Arrange(KeyEvents(S, k)), gap))
  {
    hide StrLess, IsGapPartition, Split;
    var Sk := KeyEvents(S, k);
    var s := Arrange(Sk);
    KeyPartition(P, S, gap, k);
    forall e | e in s ensures e.KeyOf() == k {
      assert e in Elems(s);
    }
    SplitIsPartition(s, gap);
    PartitionUnique(KeySessions(P, k), Elems(Split(s, gap)), Sk, gap);
  }

  function TotalWatched(p: seq<seq<Event>>, maxGap: int): int {
    if p == [] then 0 else TotalWatched(p[..|p| - 1], maxGap) + Watched(p[|p| - 1], maxGap)
  }

  function TotalSeconds(p: seq<seq<Event>>, maxGap: int): int {
    if p == [] then 0 else TotalSeconds(p[..|p| - 1], maxGap) + RoundSeconds(Watched(p[|p| - 1], maxGap))
  }

  lemma {:induction false} SplitKeepsWatched(s: seq<Event>, gap: int, maxGap: int)
    requires gap >= maxGap || maxGap <= 0
    ensures TotalWatched(Split(s, gap), maxGap) == Watched(s, maxGap)
  {
    if s != [] {
      var n := |s| - 1;
      SplitKeepsWatched(s[..n], gap, maxGap);
      SplitFlattens(s[..n], gap);
      var p, q := Split(s[..n], gap), Split(s, gap);
      if n > 0 && !OpensNewSession(s[n - 1].at, s[n].at, gap) {
        var g := p[|p| - 1];
        assert q[..|q| - 1] == p[..|p| - 1];
        assert (g + [s[n]])[..|g|] == g;
      } else {
        assert q[..|q| - 1] == p;
      }
    }
  }

  /** Splitting conserves the watched time of every stream exactly when the session gap is at least
      the longest interval that counts. */
  lemma SplitConservesIff(gap: int, maxGap: int)
    ensures (forall s: seq<Event> :: TotalWatched(Split(s, gap), maxGap) == Watched(s, maxGap))
       <==> gap >= maxGap || maxGap <= 0
  {
    if gap >= maxGap || maxGap <= 0 {
      forall s: seq<Event> ensures TotalWatched(Split(s, gap), maxGap) == Watched(s, maxGap) {
        SplitKeepsWatched(s, gap, maxGap);
      }
    } else {
      var d := if gap < 0 then 1 else gap + 1;
      var a := Event("a", "m", "vlc", "i", Start, None, 0);
      var b := a.(id := "b", typ := Progress, at := d);
      assert [a, b][..1] == [a] && [a][..0] == [];
      assert Split([a], gap) == [[a]] && Split([a, b], gap) == [[a], [b]];
      assert [[a], [b]][..1] == [[a]] && [[a]][..0] == [];
      assert TotalWatched([[a]], maxGap) == Watched([a], maxGap) == 0;
      assert TotalWatched([[a], [b]], maxGap) == TotalWatched([[a]], maxGap) + Watched([b], maxGap) == 0;
      assert Watched([a, b], maxGap) == Watched([a], maxGap) + Interval(a, b, maxGap) == d;
    }
  }

  lemma {:induction false} RoundingBound(p: seq<seq<Event>>, maxGap: int)
    ensures -SECOND * |p| <= 2 * (TotalWatched(p, maxGap) - SECOND * TotalSeconds(p, maxGap)) <= SECOND * |p|
  {
    if p != [] {
      RoundingBound(p[..|p| - 1], maxGap);
      RoundSecondsClose(Watched(p[|p| - 1], maxGap));
    }
  }

  /** For every key of every log: the watched times of its sessions, before rounding, add up to the
      watched time of its whole unsplit stream; rounding each session moves the total by at most half
      a second a session; and no session is watched for longer than it spans. */
  lemma SplittingLosesNoWatchedTime(P: set<seq<Event>>, S: set<Event>, k: Key, cfg: Config)
    requires IsGapPartition(P, S, cfg.gap) && DistinctIds(S)
    requires 0 <= cfg.gap && 2 * cfg.cadence <= cfg.gap
    ensures var stream := Arrange(KeyEvents(S, k));
      var p := Split(stream, cfg.gap);
      var maxGap := 2 * cfg.cadence;
      && Elems(p) == KeySessions(P, k)
      && (forall i, j | 0 <= i < j < |p| :: p[i] != p[j])
      && TotalWatched(p, maxGap) == Watched(stream, maxGap)
      && -SECOND * |p| <= 2 * (Watched(stream, maxGap) - SECOND * TotalSeconds(p, maxGap)) <= SECOND * |p|
      && (forall g: seq<Event> | g in p :: g != [] && Watched(g, maxGap) <= g[|g| - 1].at - g[0].at)
  {
    var stream := Arrange(KeyEvents(S, k));
    var p := Split(stream, cfg.gap);
    KeySessionsAreSplit(P, S, cfg.gap, k);
    SplitDistinct(stream, cfg.gap);
    SplitKeepsWatched(stream, cfg.gap, 2 * cfg.cadence);
    RoundingBound(p, 2 * cfg.cadence);
    forall g: seq<Event> | g in p ensures g != [] && Watched(g, 2 * cfg.cadence) <= g[|g| - 1].at - g[0].at {
      assert g in Elems(p);
      WatchedWithinSpan(g, 2 * cfg.cadence);
    }
  }
}
