# ytget stream selection, modelled in Dafny

`ytget.py` is a command-line downloader. It asks a video-hosting library for the
streams of a video and builds a descriptor for each one. The descriptor holds the
itag, the kind (video or audio), the container format, the quality label and a
progressive marker. The script then picks one stream and downloads it under the
video's title with unsafe characters deleted. The `YoutubeManager` class does the
picking. It keeps the descriptors and one mutable selection (`_sel`), and it offers
three selectors:

- `best_audio`: the highest-bitrate mp4 audio stream;
- `best_video`: the highest-resolution progressive mp4 video stream;
- `stream_at`: the stream with a given itag.

This project models that class and proves what it promises.

Modules, one per component of the class:

- `Wrappers`: `Option` and `Result`.
- `Streams`: the library's stream record (`RawStream`) and the descriptor (`Entry`). Also holds the
  quality rule (resolution, otherwise bitrate), the MIME subtype (`split('/')[-1]`), and
  `Fetched`, the filtered list of descriptors.
- `Sanitizer`: the file-name filter that deletes `/ : * ? . " < > | #`.
- `StableSort`: a stable sort into descending key order, as `sorted(..., key=..., reverse=True)`
  computes it. Its result is proved sorted, a permutation and stable. It is also proved unique:
  any sorted, stable arrangement of the input is equal to it. So the insertion sort used here
  returns what Python's sort returns.
- `Ranking`: the numeric key of a quality label (the label minus "p" for video, minus "kbps"
  for audio, read as a decimal number), the partition by kind, and `Ranked`, the sorted partition.
- `Selection`: the first descriptor meeting a criterion, and the proof that the first match in a
  ranking has the highest rank among the matches.
- `Manager`: the class `YoutubeManager`. `streams` and `title` are constant fields and `selection`
  is a mutable field. Its invariant `Valid` says the selection is nothing or one of the manager's streams. The methods are the source's methods, with their loops.

Stability is stated per key. For every key value, the descriptors with that key appear in the
output in the same order as in the input (`StableOrder`).

## Model

| member | source | states |
|---|---|---|
| `Streams.QualityOf` | ytget.py:29 | the quality label is the resolution when that is present and non-empty, otherwise the bitrate, and it is never empty |
| `Streams.Subtype` | ytget.py:36 | the format is the last '/'-separated segment of the MIME type: a suffix with no '/', either the whole string or preceded by '/' |
| `Streams.HasQuality` | ytget.py:29-30 | definition: a stream is kept when its resolution or its bitrate is present and non-empty (Python truthiness); used by the fetch contracts below |
| `Streams.Describe` | ytget.py:31-40 | the descriptor keeps the stream, its itag and kind, and takes the quality label above; its format holds no '/', and its progressive marker is "available" exactly when the stream is progressive |
| `Streams.Fetched` | ytget.py:28-41 | definition: the descriptors of the kept streams in input order; `FetchedLength`, `FetchedPlacement`, `FetchedSources` and `FetchAll` state its properties |
| `Streams.FetchedLength` | ytget.py:28-31 | one descriptor is kept per stream that has a resolution or a bitrate |
| `Streams.FetchedPlacement` | ytget.py:28-41 | a kept stream's descriptor sits at the position given by the number of kept streams before it, so input order is preserved |
| `Streams.FetchedSources` | ytget.py:28-41 | every descriptor is built from an input stream that has a quality label |
| `Manager.YoutubeManager.constructor` | ytget.py:19-21 | the manager holds the fetched descriptors and the title, nothing is selected, and the invariant (the selection is nothing or one of the manager's streams) holds |
| `Manager.YoutubeManager.FetchAll` | ytget.py:24-43 | the loop returns exactly the fetched descriptors: count, order and origin as above |
| `Manager.YoutubeManager.FileName` | ytget.py:45-47 | the file name is the HTML-unescaped title with the forbidden characters deleted: none remains, and every other character of the unescaped title survives as often as it occurs |
| `Sanitizer.Sanitize` | ytget.py:62-64 | the result is no longer than the input and contains none of the forbidden characters: slash, colon, asterisk, question mark, dot, double quote, the two angle brackets, vertical bar and hash |
| `Sanitizer.SanitizeKeepsOthers` | ytget.py:64 | every other character survives, as many times as it occurs in the input |
| `Sanitizer.SanitizeKeepsOrder` | ytget.py:64 | the result is a subsequence of the input, so surviving characters keep their order |
| `Sanitizer.SanitizeAppend` | ytget.py:64 | sanitising a concatenation is the concatenation of the sanitised parts: the deletion is per character, so runs and single characters are treated alike |
| `Sanitizer.SanitizeFixedPoint` | ytget.py:64 | a string is unchanged by sanitising exactly when it has no forbidden character |
| `Sanitizer.SanitizeIdempotent` | ytget.py:64 | sanitising twice equals sanitising once |
| `Ranking.Suffix` | ytget.py:71-78 | definition: the unit cut off the label, one character ("p") for video and four ("kbps") for audio; used by `Stem` |
| `Ranking.Stem` | ytget.py:71-78 | definition: the label without its unit, empty when the label is shorter than the unit, as the slices `[:-1]` and `[:-4]` give; used by `Rank` and the `Only` precondition |
| `Ranking.Rank` | ytget.py:71-78 | definition: the sort key, the decimal value of the stem; `DecimalRoundTrip` and `LabelRoundTrip` state what it reads |
| `Ranking.DecimalRoundTrip` | ytget.py:71 | reading the decimal notation of n gives n, so the key is the number the label was written with |
| `Ranking.LabelRoundTrip` | ytget.py:71-78 | a label written as a number followed by its kind's unit ("720p", "128kbps") parses, and its key is that number |
| `Ranking.OfKind` | ytget.py:66-77 | definition: the descriptors of one kind in stream order, what the two filter loops build; `OfKindCount` and `PartitionByKind` state its properties |
| `Ranking.Ranked` | ytget.py:66-78 | definition: the sorted partition, what `_only_video` and `_only_audio` return; `RankedMembers`, `RankedSpec` and `Only` state its properties |
| `Ranking.OfKindCount` | ytget.py:66-70 | the partition of a kind holds each descriptor of that kind as often as the input does, and no other descriptor |
| `Ranking.PartitionByKind` | ytget.py:66-78 | the video and audio partitions together are exactly the descriptors: nothing lost, nothing duplicated |
| `Ranking.RankedMembers` | ytget.py:66-78 | a descriptor is in a kind's ranking exactly when it is in the manager's streams and is of that kind |
| `Ranking.RankedSpec` | ytget.py:66-78 | a kind's ranking is a permutation of that kind's descriptors, sorted by non-increasing key and stable, and it is the only sequence with these properties |
| `StableSort.Sort` | ytget.py:71 | the sorted result has non-increasing keys and is a permutation of the input |
| `StableSort.InsertPermutes` | ytget.py:71 | an insertion step adds the one element and keeps every other element |
| `StableSort.InsertSorted` | ytget.py:71 | an insertion step keeps a sorted sequence sorted |
| `StableSort.InsertStable` | ytget.py:71 | an insertion step places the element in front of the later elements with the same key |
| `StableSort.SortStable` | ytget.py:71 | for every key, elements with that key keep their input order (Python's `sorted` is stable with `reverse=True`) |
| `StableSort.StableSortUnique` | ytget.py:71 | two sorted arrangements that agree on the order within every key are equal |
| `Manager.YoutubeManager.Only` | ytget.py:66-78 | the filter loop and sort return the ranking of the kind: exactly the streams of that kind, a permutation of its descriptors, sorted by non-increasing key, stable |
| `Selection.Satisfies` | ytget.py:80-97 | definition: the three selector conditions, an mp4 format (line 82), an mp4 format with the progressive marker "available" (line 88), and an equal itag (line 94); used by `FirstIndex` and the selectors |
| `Selection.FirstIndex` | ytget.py:80-97 | the first index whose descriptor meets the criterion, with no earlier one meeting it, or None exactly when no descriptor meets it |
| `Selection.BestIsHighestRanked` | ytget.py:80-90 | the first match in a ranking is a descriptor of that kind, and no matching descriptor of that kind has a higher key; no match means no descriptor of the kind meets the criterion |
| `Selection.FirstMatchIsMax` | ytget.py:80-90 | in a sequence sorted by key, no descriptor meeting the criterion has a higher key than the first one that does |
| `Selection.BestVideoOfThree` | ytget.py:86-90 | with progressive mp4 streams at 720p and 1080p and one 128kbps audio stream, the video ranking is [1080p, 720p], and the best video is the 1080p stream |
| `Manager.YoutubeManager.SelectFirst` | ytget.py:81-84 | the selection becomes the first candidate that meets the criterion; if none does, it is unchanged and the result is false; the selection stays nothing or one of the manager's streams |
| `Manager.YoutubeManager.BestAudio` | ytget.py:80-84 | the selection becomes the first mp4 stream of the audio ranking and the manager is returned; otherwise the selection is unchanged and null is returned, with no error; the selection stays nothing or one of the manager's streams |
| `Manager.YoutubeManager.BestVideo` | ytget.py:86-90 | the selection becomes the first progressive mp4 stream of the video ranking and the manager is returned; otherwise the selection is unchanged and null is returned; the selection stays nothing or one of the manager's streams |
| `Manager.YoutubeManager.StreamAt` | ytget.py:92-97 | the selection becomes the first stream, in stream order, with the itag, and is kept when no stream has it; the manager is always returned and the streams are never changed; the selection stays nothing or one of the manager's streams |
| `Manager.YoutubeManager.Download` | ytget.py:99-107 | with nothing selected, it fails with "cannot found any stream"; otherwise the download is of the selected stream, which is one of the reported streams, into the given directory, under the file name above |

## Left out

- Fetching from the network (`YouTube(url)`, `yt.streams`, ytget.py:26-27): the streams the library reports are a parameter of the constructor, and so is the title (ytget.py:49-51).
- The `size` column (ytget.py:38): it is float formatting of the file size, used only for printing. Descriptors have no size field.
- `html.unescape` (ytget.py:63) is a library call. The manager takes it as an uninterpreted function `unescape`, and `FileName` applies `Sanitize` to its result. Nothing is proved about the unescaping itself.
- The effects of `download` (ytget.py:103-107): registering the progress callback and writing the file are library I/O. `Download` returns the request that would be made.
- `render_progress_bar` and `on_progress` (ytget.py:110-126): float arithmetic, the terminal size and printing. The code has no guard against a zero file size.
- `main` (ytget.py:129-184): argument parsing, the URL check, table printing and the catch-all error printing. Because `-a`, `-b` and `-n` run in that order, a later selector overwrites an earlier selection. `-n 0` is ignored because 0 is falsy.
- The install-on-import fallback (ytget.py:9-14) and `audicon.py`, which runs an external transcoder and deletes files.
- Manager.YoutubeManager.Only: requires the label, with its unit cut off, to be a non-empty run of ASCII digits. Python's `int` also accepts surrounding whitespace, a sign, underscores and other Unicode digits. The model treats those labels as outside its domain. The source raises `ValueError` for anything else, and the model does not model that exception.
- Manager.YoutubeManager.BestAudio: requires the same of every audio label, and Manager.YoutubeManager.BestVideo of every video label, because they call `Only`.
- A stream's kind is `Video` or `Audio`. The library's type string is not modelled beyond these two values.
- Python's sort is Timsort. The model sorts by insertion. `StableSortUnique` shows that every stable descending sort returns the same sequence, so the algorithm makes no observable difference.
- Object identity: a descriptor is a value, so two streams with equal fields are equal descriptors. In Python they are distinct tuples.
