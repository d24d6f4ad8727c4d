/**
 * The stream records of the downloader: what the video-hosting library
 * reports for each stream, and the descriptor the manager builds from it.
 */
module Streams {
  import opened Wrappers

  /** The media kind of a stream, the first half of its MIME type. */
  datatype Kind = Video | Audio

  /**
   * One stream as the download library reports it. `resolution` ("720p")
   * is set for video streams and `abr` ("128kbps") for audio streams;
   * either may be missing (`None`) or empty.
   */
  datatype RawStream = RawStream(
    itag: int,
    kind: Kind,
    mimeType: string,
    resolution: Option<string>,
    abr: Option<string>,
    isProgressive: bool)

  /**
   * The descriptor the manager keeps for a stream: the library's stream
   * itself (`source`, the first half of the pair ytget.py stores) and the table
   * fields derived from it.
   */
  datatype Entry = Entry(
    source: RawStream,
    itag: int,
    kind: Kind,
    format: string,
    quality: string,
    progressive: string)

  /** The marker stored in `progressive` for a progressive stream. */
  const AVAILABLE := "available"

  /** Python truthiness of an optional string: present and non-empty. */
  predicate Truthy(o: Option<string>) {
    o.Some? && o.value != ""
  }

  /** A stream has a quality label when it has a resolution or a bitrate. */
  predicate HasQuality(s: RawStream) {
    Truthy(s.resolution) || Truthy(s.abr)
  }

  /** The quality label: the resolution when there is one, else the bitrate. */
  function QualityOf(s: RawStream): (q: string)
    requires HasQuality(s)
    ensures q != ""
    ensures Truthy(s.resolution) ==> Some(q) == s.resolution
    ensures !Truthy(s.resolution) ==> Some(q) == s.abr
  {
    if Truthy(s.resolution) then s.resolution.value else s.abr.value
  }

  /**
   * The last '/'-separated segment of a MIME type ("video/mp4" gives "mp4"),
   * what `split('/')[-1]` returns: a suffix of the input with no '/' in it
   * that is either the whole input or preceded by a '/'.
   */
  function Subtype(mime: string): (r: string)
    ensures '/' !in r
    ensures |r| <= |mime| && r == mime[|mime| - |r|..]
    ensures |r| < |mime| ==> mime[|mime| - |r| - 1] == '/'
  {
    if mime == [] then []
    else if mime[|mime| - 1] == '/' then []
    else Subtype(mime[..|mime| - 1]) + [mime[|mime| - 1]]
  }

  /** The descriptor built for a stream that has a quality label. */
  function Describe(s: RawStream): (e: Entry)
    requires HasQuality(s)
    ensures e.source == s && e.itag == s.itag && e.kind == s.kind && e.quality == QualityOf(s)
    ensures '/' !in e.format
    ensures e.progressive == AVAILABLE <==> s.isProgressive
  {
    Entry(s, s.itag, s.kind, Subtype(s.mimeType), QualityOf(s),
          if s.isProgressive then AVAILABLE else "")
  }

  /** The descriptors of the streams that have a quality label, in order. */
  function Fetched(raw: seq<RawStream>): seq<Entry> {
    if raw == [] then []
    else
      var last := raw[|raw| - 1];
      Fetched(raw[..|raw| - 1]) + (if HasQuality(last) then [Describe(last)] else [])
  }

  /** How many of the streams have a quality label. */
  function CountKept(raw: seq<RawStream>): nat {
    if raw == [] then 0
    else CountKept(raw[..|raw| - 1]) + (if HasQuality(raw[|raw| - 1]) then 1 else 0)
  }

  /** Fetching yields one descriptor per stream that has a quality label. */
  lemma {:induction false} FetchedLength(raw: seq<RawStream>)
    ensures |Fetched(raw)| == CountKept(raw)
  {
    if raw != [] {
      FetchedLength(raw[..|raw| - 1]);
    }
  }

  /**
   * Fetching keeps the input order: the stream at index `i`, when it has a
   * quality label, lands at the position given by the number of kept
   * streams before it.
   */
  lemma {:induction false} FetchedPlacement(raw: seq<RawStream>, i: nat)
    requires i < |raw| && HasQuality(raw[i])
    ensures CountKept(raw[..i]) < |Fetched(raw)|
    ensures Fetched(raw)[CountKept(raw[..i])] == Describe(raw[i])
  {
    var p := raw[..|raw| - 1];
    FetchedLength(p);
    if i < |p| {
      assert raw[..i] == p[..i];
      assert raw[i] == p[i];
      FetchedPlacement(p, i);
    } else {
      assert raw[..i] == p;
    }
  }

  /** Every descriptor is built from one of the input streams that has a quality label. */
  lemma {:induction false} FetchedSources(raw: seq<RawStream>, e: Entry)
    requires e in Fetched(raw)
    ensures e.source in raw && HasQuality(e.source) && e == Describe(e.source)
  {
    var p := raw[..|raw| - 1];
    if e in Fetched(p) {
      FetchedSources(p, e);
      assert e.source in p;
    }
  }
}
