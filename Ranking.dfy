/**
 * Partitioning the descriptors by kind and ranking each partition by the
 * number in its quality label, highest first, ties in input order.
 */
module Ranking {
  import opened Streams
  import opened StableSort

  /** The unit that ends a quality label: "p" for video, "kbps" for audio. */
  function Suffix(k: Kind): string {
    match k
    case Video => "p"
    case Audio => "kbps"
  }

  /** The label with its unit cut off, as a Python slice does: empty when too short. */
  function Stem(e: Entry): string {
    var n := |Suffix(e.kind)|;
    if |e.quality| >= n then e.quality[..|e.quality| - n] else []
  }

  predicate IsDigit(c: char) {
    '0' <= c <= '9'
  }

  function DigitValue(c: char): (d: nat)
    ensures d < 10
  {
    if IsDigit(c) then (c as int - '0' as int) as nat else 0
  }

  /** The value of a string of decimal digits (what `int` gives for it). */
  function DecimalValue(s: string): nat {
    if s == [] then 0 else 10 * DecimalValue(s[..|s| - 1]) + DigitValue(s[|s| - 1])
  }

  /** The decimal notation of `n`, without leading zeros. */
  function DecimalString(n: nat): (s: string)
    ensures s != [] && forall i :: 0 <= i < |s| ==> IsDigit(s[i])
  {
    var last := ('0' as int + n % 10) as char;
    if n < 10 then [last] else DecimalString(n / 10) + [last]
  }

  /** Reading the decimal notation of `n` gives back `n`. */
  lemma {:induction false} DecimalRoundTrip(n: nat)
    ensures DecimalValue(DecimalString(n)) == n
  {
    var s := DecimalString(n);
    assert DigitValue(s[|s| - 1]) == n % 10;
    if n >= 10 {
      assert s[..|s| - 1] == DecimalString(n / 10);
      DecimalRoundTrip(n / 10);
    }
  }

  /**
   * The label can be parsed: what is left after cutting off the unit is a
   * non-empty run of decimal digits. Otherwise `int` raises a `ValueError` in ytget.py.
   */
  predicate LabelParses(e: Entry) {
    var st := Stem(e);
    st != [] && forall i :: 0 <= i < |st| ==> IsDigit(st[i])
  }

  /** The sort key of a descriptor: the number in its quality label. */
  function Rank(e: Entry): nat {
    DecimalValue(Stem(e))
  }

  /** A label written as a number followed by its kind's unit parses back to that number. */
  lemma LabelRoundTrip(e: Entry, n: nat)
    requires e.quality == DecimalString(n) + Suffix(e.kind)
    ensures LabelParses(e) && Rank(e) == n
  {
    assert Stem(e) == DecimalString(n);
    DecimalRoundTrip(n);
  }

  /** The descriptors of kind `k`, in input order. */
  function OfKind(s: seq<Entry>, k: Kind): seq<Entry> {
    if s == [] then []
    else
      var last := s[|s| - 1];
      OfKind(s[..|s| - 1], k) + (if last.kind == k then [last] else [])
  }

  /**
   * The partition of kind `k` holds each descriptor of that kind as often as
   * `s` does, and no other descriptor: nothing lost, nothing duplicated.
   */
  lemma {:induction false} OfKindCount(s: seq<Entry>, k: Kind, e: Entry)
    ensures multiset(OfKind(s, k))[e] == if e.kind == k then multiset(s)[e] else 0
  {
    if s != [] {
      var p, last := s[..|s| - 1], s[|s| - 1];
      OfKindCount(p, k, e);
      assert s == p + [last];
      assert multiset(s)[e] == multiset(p)[e] + multiset([last])[e];
    }
  }

  /** The video and the audio partition together hold exactly the descriptors. */
  lemma PartitionByKind(s: seq<Entry>)
    ensures multiset(OfKind(s, Video)) + multiset(OfKind(s, Audio)) == multiset(s)
  {
    forall e ensures (multiset(OfKind(s, Video)) + multiset(OfKind(s, Audio)))[e] == multiset(s)[e] {
      OfKindCount(s, Video, e);
      OfKindCount(s, Audio, e);
    }
  }

  /** The descriptors of kind `k`, best first: what `_only_video` / `_only_audio` return. */
  function Ranked(s: seq<Entry>, k: Kind): seq<Entry> {
    Sort(Rank, OfKind(s, k))
  }

  /** A descriptor is in the ranking of kind `k` exactly when it is in `s` and of kind `k`. */
  lemma RankedMembers(s: seq<Entry>, k: Kind)
    ensures forall e :: e in Ranked(s, k) <==> e in s && e.kind == k
  {
    forall e ensures e in Ranked(s, k) <==> e in s && e.kind == k {
      assert e in Ranked(s, k) <==> multiset(Ranked(s, k))[e] > 0;
      OfKindCount(s, k, e);
    }
  }

  /**
   * The ranking of kind `k` is exactly the descriptors of that kind (a
   * permutation of them), highest rank first, equal ranks in input order;
   * and it is the only sequence with these properties.
   */
  lemma RankedSpec(s: seq<Entry>, k: Kind, r: seq<Entry>)
    ensures forall e :: e in Ranked(s, k) ==> e.kind == k
    ensures multiset(Ranked(s, k)) == multiset(OfKind(s, k))
    ensures SortedDesc(Rank, Ranked(s, k))
    ensures StableOrder(Rank, Ranked(s, k), OfKind(s, k))
    ensures SortedDesc(Rank, r) && StableOrder(Rank, r, OfKind(s, k)) ==> r == Ranked(s, k)
  {
    var ranked := Ranked(s, k);
    RankedMembers(s, k);
    SortStable(Rank, OfKind(s, k));
    if SortedDesc(Rank, r) && StableOrder(Rank, r, OfKind(s, k)) {
      StableSortUnique(Rank, r, ranked);
    }
  }
}
