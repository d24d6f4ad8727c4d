/**
 * Choosing a stream: the first descriptor of a candidate list that meets a
 * criterion, as the selectors of the manager look for it.
 */
module Selection {
  import opened Wrappers
  import opened Streams
  import opened StableSort
  import opened Ranking

  /** What a selector looks for in a descriptor. */
  datatype Criterion =
    | Mp4             // best audio: an mp4 container
    | ProgressiveMp4  // best video: an mp4 container holding audio and video
    | ItagIs(itag: int)

  predicate Satisfies(e: Entry, c: Criterion) {
    match c
    case Mp4 => e.format == "mp4"
    case ProgressiveMp4 => e.format == "mp4" && e.progressive == AVAILABLE
    case ItagIs(n) => e.itag == n
  }

  /**
   * The index of the first descriptor in `s` that meets `c`, or `None`
   * when no descriptor does.
   */
  function FirstIndex(s: seq<Entry>, c: Criterion): (r: Option<nat>)
    ensures r.Some? ==> r.value < |s| && Satisfies(s[r.value], c)
    ensures r.Some? ==> forall j :: 0 <= j < r.value ==> !Satisfies(s[j], c)
    ensures r.None? ==> forall j :: 0 <= j < |s| ==> !Satisfies(s[j], c)
  {
    if s == [] then None
    else if Satisfies(s[0], c) then Some(0)
    else
      match FirstIndex(s[1..], c)
      case None => None
      case Some(i) => Some(i + 1)
  }

  /**
   * The "best" stream is really the best: when the ranking of kind `k` has
   * a descriptor meeting `c`, the first such one is a descriptor of kind `k`
   * of the manager whose rank no other descriptor of that kind meeting `c`
   * exceeds; when it has none, no descriptor of kind `k` meets `c`.
   */
  lemma BestIsHighestRanked(s: seq<Entry>, k: Kind, c: Criterion)
    ensures FirstIndex(Ranked(s, k), c).None? ==>
      forall e :: e in s && e.kind == k ==> !Satisfies(e, c)
    ensures FirstIndex(Ranked(s, k), c).Some? ==>
      var best := Ranked(s, k)[FirstIndex(Ranked(s, k), c).value];
      best in s && best.kind == k && Satisfies(best, c) &&
      forall e :: e in s && e.kind == k && Satisfies(e, c) ==> Rank(e) <= Rank(best)
  {
    var ranked := Ranked(s, k);
    RankedMembers(s, k);
    FirstMatchIsMax(ranked, c);
    if FirstIndex(ranked, c).Some? {
      forall e | e in s && e.kind == k && Satisfies(e, c)
        ensures Rank(e) <= Rank(ranked[FirstIndex(ranked, c).value])
      {
        var j :| 0 <= j < |ranked| && ranked[j] == e;
      }
    }
  }

  /** In a sequence sorted by rank, the first match has the highest rank among the matches. */
  lemma FirstMatchIsMax(r: seq<Entry>, c: Criterion)
    requires SortedDesc(Rank, r)
    ensures FirstIndex(r, c).Some? ==>
      forall j :: 0 <= j < |r| && Satisfies(r[j], c) ==> Rank(r[j]) <= Rank(r[FirstIndex(r, c).value])
  {
    if FirstIndex(r, c).Some? {
      var i := FirstIndex(r, c).value;
      forall j | 0 <= j < |r| && Satisfies(r[j], c) ensures Rank(r[j]) <= Rank(r[i]) {
        assert i <= j;
      }
    }
  }

  /**
   * The scenario of three streams, 720p and 1080p progressive mp4 video and
   * 128kbps audio: the best video is the 1080p one.
   */
  lemma BestVideoOfThree(v720: Entry, v1080: Entry, a128: Entry)
    requires v720.kind == Video && v720.quality == "720p"
    requires v1080.kind == Video && v1080.quality == "1080p"
    requires a128.kind == Audio && a128.quality == "128kbps"
    requires Satisfies(v720, ProgressiveMp4) && Satisfies(v1080, ProgressiveMp4)
    ensures Ranked([v720, v1080, a128], Video) == [v1080, v720]
    ensures FirstIndex(Ranked([v720, v1080, a128], Video), ProgressiveMp4) == Some(0)
  {
    var s := [v720, v1080, a128];
    assert OfKind(s, Video) == [v720, v1080] by {
      assert s[..|s| - 1] == [v720, v1080] && [v720, v1080][..1] == [v720] && [v720][..0] == [];
      assert OfKind([v720], Video) == [v720];
      assert OfKind([v720, v1080], Video) == [v720, v1080];
    }
    ScenarioRanks(v720, v1080);
    SortTwo(v720, v1080);
  }

  /** Sorting two descriptors whose ranks increase swaps them. */
  lemma SortTwo(lo: Entry, hi: Entry)
    requires Rank(lo) < Rank(hi)
    ensures Sort(Rank, [lo, hi]) == [hi, lo]
  {
  }

  /** The ranks of the scenario's two video labels. */
  lemma ScenarioRanks(v720: Entry, v1080: Entry)
    requires v720.kind == Video && v720.quality == "720p"
    requires v1080.kind == Video && v1080.quality == "1080p"
    ensures Rank(v720) == 720 && Rank(v1080) == 1080
  {
    assert Stem(v720) == "720" && Stem(v1080) == "1080";
    assert DecimalValue("7") == 7 && DecimalValue("72") == 72 && DecimalValue("720") == 720 by {
      assert "72"[..1] == "7" && "720"[..2] == "72";
    }
    assert DecimalValue("10") == 10 && DecimalValue("108") == 108 && DecimalValue("1080") == 1080 by {
      assert "10"[..1] == "1" && "108"[..2] == "10" && "1080"[..3] == "108";
    }
  }
}
