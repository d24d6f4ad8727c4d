/**
 * The stream manager: the descriptors of one video's streams and the one
 * stream currently selected for download.
 */
module Manager {
  import opened Wrappers
  import opened Streams
  import opened StableSort
  import opened Ranking
  import opened Selection
  import Sanitizer

  /** What a download is asked to do: fetch `stream` into `directory` as `filename`. */
  datatype DownloadJob = DownloadJob(stream: RawStream, directory: string, filename: string)

  /** The message of the exception `download` raises when nothing is selected. */
  const NO_STREAM := "cannot found any stream"

  class YoutubeManager {
    /** The video's title, as the download library reports it (it may hold HTML entities). */
    const title: string
    /** The library's HTML unescaping (`html.unescape`), which is not part of this model. */
    const unescape: string -> string
    /** The descriptors of the streams that have a quality label; never changed. */
    const streams: seq<Entry>
    /** The stream chosen for download, if any. */
    var selection: Option<Entry>

    /**
     * The class invariant: the selection is nothing or one of the manager's
     * own descriptors, since only the selectors assign it.
     */
    ghost predicate Valid()
      reads this
    {
      selection.Some? ==> selection.value in streams
    }

    /** Builds the descriptors of the video's streams; nothing is selected yet. */
    constructor (title: string, unescape: string -> string, available: seq<RawStream>)
      ensures this.title == title && this.unescape == unescape
      ensures streams == Fetched(available)
      ensures selection == None
      ensures Valid()
    {
      var fetched := FetchAll(available);
      this.title := title;
      this.unescape := unescape;
      streams := fetched;
      selection := None;
    }

    /**
     * Keeps the streams that have a resolution or a bitrate, in order, and
     * builds a descriptor for each.
     */
    static method FetchAll(available: seq<RawStream>) returns (results: seq<Entry>)
      ensures results == Fetched(available)
      ensures |results| == CountKept(available)
      ensures forall i :: 0 <= i < |available| && HasQuality(available[i]) ==>
        CountKept(available[..i]) < |results| && results[CountKept(available[..i])] == Describe(available[i])
      ensures forall e :: e in results ==>
        e.source in available && HasQuality(e.source) && e == Describe(e.source)
    {
      results := [];
      for i := 0 to |available|
        invariant results == Fetched(available[..i])
      {
        var s := available[i];
        assert available[..i + 1][..i] == available[..i] && available[..i + 1][i] == s;
        assert Fetched(available[..i + 1]) == Fetched(available[..i]) + (if HasQuality(s) then [Describe(s)] else []);
        if HasQuality(s) {
          results := results + [Describe(s)];
        }
      }
      assert available[..|available|] == available;
      FetchedLength(available);
      forall i | 0 <= i < |available| && HasQuality(available[i])
        ensures CountKept(available[..i]) < |results| && results[CountKept(available[..i])] == Describe(available[i])
      {
        FetchedPlacement(available, i);
      }
      forall e | e in results
        ensures e.source in available && HasQuality(e.source) && e == Describe(e.source)
      {
        FetchedSources(available, e);
      }
    }

    /**
     * The file name for the download: the title, HTML-unescaped, with unsafe
     * characters deleted.
     */
    function FileName(): (name: string)
      ensures forall i :: 0 <= i < |name| ==> name[i] !in Sanitizer.FORBIDDEN
      ensures forall c :: c !in Sanitizer.FORBIDDEN ==> multiset(name)[c] == multiset(unescape(title))[c]
    {
      var name := Sanitizer.Sanitize(unescape(title));
      forall c | c !in Sanitizer.FORBIDDEN ensures multiset(name)[c] == multiset(unescape(title))[c] {
        Sanitizer.SanitizeKeepsOthers(unescape(title), c);
      }
      name
    }

    /**
     * The descriptors of kind `kind`, highest quality first, equal qualities
     * in the order of `streams`. The quality label of each must parse.
     */
    method Only(kind: Kind) returns (res: seq<Entry>)
      requires forall e :: e in streams && e.kind == kind ==> LabelParses(e)
      ensures res == Ranked(streams, kind)
      ensures forall e :: e in res <==> e in streams && e.kind == kind
      ensures multiset(res) == multiset(OfKind(streams, kind))
      ensures SortedDesc(Rank, res)
      ensures StableOrder(Rank, res, OfKind(streams, kind))
    {
      var matching := [];
      for i := 0 to |streams|
        invariant matching == OfKind(streams[..i], kind)
      {
        if streams[i].kind == kind {
          matching := matching + [streams[i]];
        }
        assert streams[..i + 1][..i] == streams[..i];
      }
      assert streams[..|streams|] == streams;
      res := Sort(Rank, matching);
      RankedSpec(streams, kind, res);
      RankedMembers(streams, kind);
    }

    /**
     * Selects the first candidate meeting `c`, if any; otherwise the
     * selection stays as it was.
     */
    method SelectFirst(candidates: seq<Entry>, c: Criterion) returns (hit: bool)
      requires Valid()
      requires forall e :: e in candidates ==> e in streams
      modifies this`selection
      ensures Valid()
      ensures hit == FirstIndex(candidates, c).Some?
      ensures hit ==> selection == Some(candidates[FirstIndex(candidates, c).value])
      ensures !hit ==> selection == old(selection)
    {
      for i := 0 to |candidates|
        invariant forall j :: 0 <= j < i ==> !Satisfies(candidates[j], c)
        invariant selection == old(selection)
      {
        if Satisfies(candidates[i], c) {
          selection := Some(candidates[i]);
          return true;
        }
      }
      return false;
    }

    /**
     * Selects the best mp4 audio stream and returns this manager; returns
     * null, leaving the selection alone, when there is none.
     */
    method BestAudio() returns (r: YoutubeManager?)
      requires Valid()
      requires forall e :: e in streams && e.kind == Audio ==> LabelParses(e)
      modifies this`selection
      ensures Valid()
      ensures var hit := FirstIndex(Ranked(streams, Audio), Mp4);
        && (hit.Some? ==> selection == Some(Ranked(streams, Audio)[hit.value]) && r == this)
        && (hit.None? ==> selection == old(selection) && r == null)
    {
      var audio := Only(Audio);
      var hit := SelectFirst(audio, Mp4);
      r := if hit then this else null;
    }

    /**
     * Selects the best progressive mp4 video stream and returns this
     * manager; returns null, leaving the selection alone, when there is none.
     */
    method BestVideo() returns (r: YoutubeManager?)
      requires Valid()
      requires forall e :: e in streams && e.kind == Video ==> LabelParses(e)
      modifies this`selection
      ensures Valid()
      ensures var hit := FirstIndex(Ranked(streams, Video), ProgressiveMp4);
        && (hit.Some? ==> selection == Some(Ranked(streams, Video)[hit.value]) && r == this)
        && (hit.None? ==> selection == old(selection) && r == null)
    {
      var video := Only(Video);
      var hit := SelectFirst(video, ProgressiveMp4);
      r := if hit then this else null;
    }

    /**
     * Selects the first stream with the given itag, keeping the selection
     * when there is none; always returns this manager.
     */
    method StreamAt(itag: int) returns (r: YoutubeManager)
      requires Valid()
      modifies this`selection
      ensures Valid()
      ensures r == this
      ensures var hit := FirstIndex(streams, ItagIs(itag));
        && (hit.Some? ==> selection == Some(streams[hit.value]))
        && (hit.None? ==> selection == old(selection))
    {
      var _ := SelectFirst(streams, ItagIs(itag));
      r := this;
    }

    /**
     * The download that would start: the selected stream, which is one of
     * the reported streams, saved under the sanitised title; an error when
     * nothing is selected.
     */
    method Download(directory: string) returns (job: Result<DownloadJob, string>)
      requires Valid()
      ensures job.Failure? <==> selection.None?
      ensures job.Failure? ==> job.error == NO_STREAM
      ensures job.Success? ==>
        job.value.stream == selection.value.source &&
        job.value.directory == directory &&
        job.value.filename == FileName()
      ensures job.Success? ==> exists e :: e in streams && job.value.stream == e.source
    {
      if selection.None? {
        return Failure(NO_STREAM);
      }
      job := Success(DownloadJob(selection.value.source, directory, FileName()));
    }
  }
}
