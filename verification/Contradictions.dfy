/** Contradiction flags on evidence sources, found in one pass. */
module Contradictions {
  import opened Prelude
  import Hashing

  datatype Source = Source(title: string, excerpt: Option<string>, contradictionFlags: seq<string>, rest: string)

  const MISMATCH := "content_mismatch"

  function TitleOf(s: Source): string {
    Hashing.Lower(s.title)
  }

  function ExcerptOf(s: Source): string {
    s.excerpt.GetOr("")
  }

  /** The same title but for letter case. */
  predicate SameTitle(a: Source, b: Source) { Hashing.SameText(a.title, b.title) }

  /** The same excerpt; none is as good as an empty one. */
  predicate SameExcerpt(a: Source, b: Source) {
    if a.excerpt.Some? && b.excerpt.Some? then a.excerpt.value == b.excerpt.value
    else (a.excerpt.Some? ==> a.excerpt.value == "") && (b.excerpt.Some? ==> b.excerpt.value == "")
  }

  lemma SameMeans(a: Source, b: Source)
    ensures TitleOf(a) == TitleOf(b) <==> SameTitle(a, b)
    ensures ExcerptOf(a) == ExcerptOf(b) <==> SameExcerpt(a, b)
  {
    Hashing.LowerForgets(a.title, b.title);
  }

  /** Source j is the nearest earlier one with the title of source i. */
  predicate Nearest(sources: seq<Source>, j: nat, i: nat)
    requires j < i < |sources|
  {
    SameTitle(sources[j], sources[i]) && forall k | j < k < i :: !SameTitle(sources[k], sources[i])
  }

  predicate Mismatch(sources: seq<Source>, i: nat)
    requires i < |sources|
  {
    exists j: nat :: j < i && Nearest(sources, j, i) && !SameExcerpt(sources[j], sources[i])
  }

  predicate Disagree(sources: seq<Source>, j: nat, i: nat)
    requires j < i < |sources|
  {
    SameTitle(sources[j], sources[i]) && !SameExcerpt(sources[j], sources[i])
  }

  lemma AllSameMeans(sources: seq<Source>, i: nat)
    requires i < |sources|
    ensures forall k | 0 <= k < |sources| ::
      && (TitleOf(sources[k]) == TitleOf(sources[i]) <==> SameTitle(sources[k], sources[i]))
      && (ExcerptOf(sources[k]) == ExcerptOf(sources[i]) <==> SameExcerpt(sources[k], sources[i]))
  {
    forall k | 0 <= k < |sources|
      ensures TitleOf(sources[k]) == TitleOf(sources[i]) <==> SameTitle(sources[k], sources[i])
      ensures ExcerptOf(sources[k]) == ExcerptOf(sources[i]) <==> SameExcerpt(sources[k], sources[i])
    {
      SameMeans(sources[k], sources[i]);
    }
  }

  /** The last of the first n sources with this title. */
  function Latest(sources: seq<Source>, n: nat, title: string): Option<nat>
    requires n <= |sources|
  {
    if n == 0 then None
    else if TitleOf(sources[n - 1]) == title then Some(n - 1)
    else Latest(sources, n - 1, title)
  }

  lemma {:induction false} LatestMeans(sources: seq<Source>, n: nat, title: string)
    requires n <= |sources|
    ensures match Latest(sources, n, title)
      case Some(j) => j < n && TitleOf(sources[j]) == title && forall k | j < k < n :: TitleOf(sources[k]) != title
      case None => forall k | 0 <= k < n :: TitleOf(sources[k]) != title
  {
    if n == 0 || TitleOf(sources[n - 1]) == title {
    } else {
      LatestMeans(sources, n - 1, title);
    }
  }

  /** Each title seen so far maps to the excerpt of its latest source. */
  ghost predicate SeenMeans(seen: map<string, string>, sources: seq<Source>, n: nat)
    requires n <= |sources|
  {
    forall title ::
      && (title in seen <==> Latest(sources, n, title).Some?)
      && (title in seen ==> LatestExcerpt(sources, n, title) == Some(seen[title]))
  }

  function LatestExcerpt(sources: seq<Source>, n: nat, title: string): Option<string>
    requires n <= |sources|
  {
    match Latest(sources, n, title)
    case Some(j) => if j < n then Some(ExcerptOf(sources[j])) else None
    case None => None
  }

  lemma SeenDecides(seen: map<string, string>, sources: seq<Source>, i: nat)
    requires i < |sources| && SeenMeans(seen, sources, i)
    ensures Mismatch(sources, i) <==> TitleOf(sources[i]) in seen && seen[TitleOf(sources[i])] != ExcerptOf(sources[i])
  {
    var title := TitleOf(sources[i]);
    LatestMeans(sources, i, title);
    AllSameMeans(sources, i);
    if title in seen {
      var latest := Latest(sources, i, title).value;
      assert Nearest(sources, latest, i);
    }
  }

  lemma SeenExtended(seen: map<string, string>, sources: seq<Source>, i: nat)
    requires i < |sources| && SeenMeans(seen, sources, i)
    ensures SeenMeans(seen[TitleOf(sources[i]) := ExcerptOf(sources[i])], sources, i + 1)
  {
    var seen' := seen[TitleOf(sources[i]) := ExcerptOf(sources[i])];
    forall title
      ensures title in seen' <==> Latest(sources, i + 1, title).Some?
      ensures title in seen' ==> LatestExcerpt(sources, i + 1, title) == Some(seen'[title])
    {
      LatestMeans(sources, i, title);
      if TitleOf(sources[i]) != title { assert Latest(sources, i + 1, title) == Latest(sources, i, title); }
    }
  }

  predicate FlaggedRight(flagged: Source, sources: seq<Source>, i: nat)
    requires i < |sources|
  {
    flagged == sources[i].(contradictionFlags := sources[i].contradictionFlags
        + if Mismatch(sources, i) then ["content_mismatch"] else [])
  }

  /** Every source comes back as it was, with one flag more exactly where it differs from its nearest namesake. */
  method DetectContradictions(sources: seq<Source>) returns (flagged: seq<Source>)
    ensures |flagged| == |sources|
    ensures forall i: nat | i < |sources| :: FlaggedRight(flagged[i], sources, i)
  {
    var seen: map<string, string> := map[];
    flagged := [];
    for i := 0 to |sources|
      invariant |flagged| == i && SeenMeans(seen, sources, i)
      invariant forall j: nat | j < i :: FlaggedRight(flagged[j], sources, j)
    {
      var key := TitleOf(sources[i]);
      var excerpt := ExcerptOf(sources[i]);
      var flags := sources[i].contradictionFlags;
      SeenDecides(seen, sources, i);
      SeenExtended(seen, sources, i);
      if key in seen && seen[key] != excerpt {
        flags := flags + [MISMATCH];
      }
      seen := seen[key := excerpt];
      assert FlaggedRight(sources[i].(contradictionFlags := flags), sources, i);
      flagged := flagged + [sources[i].(contradictionFlags := flags)];
    }
  }

  /** Going back from a disagreeing pair through sources of the same title meets a mismatch on the way. */
  lemma {:induction false} DisagreementShows(sources: seq<Source>, j: nat, i: nat) returns (m: nat)
    requires j < i < |sources| && Disagree(sources, j, i)
    ensures j < m <= i && Mismatch(sources, m)
    decreases i
  {
    LatestMeans(sources, i, TitleOf(sources[i]));
    AllSameMeans(sources, i);
    AllSameMeans(sources, j);
    var latest := Latest(sources, i, TitleOf(sources[i])).value;
    assert Nearest(sources, latest, i);
    if !SameExcerpt(sources[latest], sources[i]) {
      m := i;
    } else {
      SameMeans(sources[j], sources[latest]);
      m := DisagreementShows(sources, j, latest);
    }
  }

  /** Comparing each source only with its nearest predecessor misses nothing: no flag is added at all
      exactly when no two sources anywhere share a title and differ in excerpt. */
  lemma OnePassIsComplete(sources: seq<Source>)
    ensures (forall i: nat | i < |sources| :: !Mismatch(sources, i))
        <==> forall j: nat, i: nat | j < i < |sources| :: !Disagree(sources, j, i)
  {
    if j: nat, i: nat :| j < i < |sources| && Disagree(sources, j, i) {
      var m := DisagreementShows(sources, j, i);
    }
    if i: nat :| i < |sources| && Mismatch(sources, i) {
      var j: nat :| j < i && Nearest(sources, j, i) && !SameExcerpt(sources[j], sources[i]);
      assert Disagree(sources, j, i);
    }
  }
}
