/** Keys as text: joined with NUL bytes, as the reconstruction and the drift report join them. */
module KeyText {

  const NUL: char := 0 as char

  // The grouping key of an event.
  function GroupText(media: string, instance: string): string {
    media + [NUL] + instance
  }

  // The natural key of a session, with its start printed.
  function NaturalText(media: string, instance: string, started: string): string {
    media + [NUL] + instance + [NUL] + started
  }

  // Where two readings of one text put their NULs.
  lemma Readings(a: string, b: string, c: string, d: string)
    requires a + [NUL] + b == c + [NUL] + d
    ensures |a| < |c| ==> c[|a|] == NUL && b[|c| - |a| - 1] == NUL
    ensures |a| == |c| ==> a == c && b == d
  {
    var s, t := a + [NUL] + b, c + [NUL] + d;
    assert s[|a|] == t[|a|] && s[|c|] == t[|c|];
    assert a == s[..|a|] && c == t[..|c|] && b == s[|a| + 1..] && d == t[|c| + 1..];
  }

  // A text splits in one way at its first NUL, and in one way at its last.
  lemma FirstPart(a: string, b: string, c: string, d: string)
    requires NUL !in a && NUL !in c && a + [NUL] + b == c + [NUL] + d
    ensures a == c && b == d
  {
    Readings(a, b, c, d);
    Readings(c, d, a, b);
  }

  lemma LastPart(a: string, b: string, c: string, d: string)
    requires NUL !in b && NUL !in d && a + [NUL] + b == c + [NUL] + d
    ensures a == c && b == d
  {
    Readings(a, b, c, d);
    Readings(c, d, a, b);
  }

  // A set of media ids none of which could be mistaken for another with part of an instance.
  ghost predicate Unmistakable(medias: set<string>) {
    forall m, n, i, j | m in medias && n in medias && GroupText(m, i) == GroupText(n, j) :: m == n && i == j
  }

  ghost predicate PrefixFree(medias: set<string>) {
    forall m, n | m in medias && n in medias && m != n :: !(m + [NUL] <= n)
  }

  /** Joined text tells keys apart exactly when no media id is another one followed by a NUL; ids without a NUL
      are always safe, whatever the instances contain. */
  lemma TextKeysFaithfulIff(medias: set<string>)
    ensures Unmistakable(medias) <==> PrefixFree(medias)
    ensures (forall m | m in medias :: NUL !in m) ==> Unmistakable(medias)
  {
    if PrefixFree(medias) {
      forall m, n, i, j | m in medias && n in medias && GroupText(m, i) == GroupText(n, j) ensures m == n && i == j {
        SameOrPrefix(m, i, n, j);
      }
    } else {
      var m, n :| m in medias && n in medias && m != n && m + [NUL] <= n;
      var rest := n[|m| + 1..];
      assert m + [NUL] + (rest + [NUL]) == n + [NUL] + "";
      assert GroupText(m, rest + [NUL]) == GroupText(n, "");
    }
    if forall m | m in medias :: NUL !in m {
      forall m, n, i, j | m in medias && n in medias && GroupText(m, i) == GroupText(n, j) ensures m == n && i == j {
        FirstPart(m, i, n, j);
      }
    }
  }

  lemma SameOrPrefix(m: string, i: string, n: string, j: string)
    requires GroupText(m, i) == GroupText(n, j)
    ensures (m == n && i == j) || m + [NUL] <= n || n + [NUL] <= m
  {
    var s := GroupText(m, i);
    assert m + [NUL] == s[..|m| + 1] && n + [NUL] == s[..|n| + 1];
    assert m == s[..|m|] && n == s[..|n|] && i == s[|m| + 1..] && j == s[|n| + 1..];
  }

  /** The three-part key is just as safe: only the media id must be free of NULs, since a printed time is. */
  lemma NaturalTextFaithful(m: string, i: string, t: string, n: string, j: string, u: string)
    requires NUL !in m && NUL !in n && NUL !in t && NUL !in u
    requires NaturalText(m, i, t) == NaturalText(n, j, u)
    ensures m == n && i == j && t == u
  {
    LastPart(GroupText(m, i), t, GroupText(n, j), u);
    FirstPart(m, i, n, j);
  }
}
