/** The log view's colours (`TextBufferHandler`): a record's numeric level
    picks a colour by threshold from `LOG_COLORS`, and the text tag made for
    a level is kept and reused. */
module LogColors {
  import opened Common

  /** `LOG_COLORS`: the standard logging levels DEBUG, INFO, WARNING,
      ERROR and CRITICAL, each with its foreground colour, in increasing
      order of level. */
  const LOG_COLORS: seq<(int, string)> := [
    (10, "#505050"),
    (20, "#101010"),
    (30, "#c06000"),
    (40, "#c00000"),
    (50, "#ff0000")
  ]

  function Threshold(i: nat): int
    requires i < |LOG_COLORS|
  {
    LOG_COLORS[i].0
  }

  lemma ThresholdsIncrease(i: nat, j: nat)
    requires i < j < |LOG_COLORS|
    ensures Threshold(i) < Threshold(j)
  {
  }

  /** Reference definition of a level's bucket, searching down from the
      top: the last entry whose threshold is at most the level, or the
      first entry when the level is below every threshold after it. */
  function BucketFrom(level: int, k: nat): (i: nat)
    requires k < |LOG_COLORS|
    ensures i <= k
    ensures i == 0 || Threshold(i) <= level
    ensures forall j :: i < j <= k ==> level < Threshold(j)
    decreases k
  {
    if k == 0 || Threshold(k) <= level then k else BucketFrom(level, k - 1)
  }

  /** The bucket of `level`: the entry whose interval
      [threshold, next threshold) holds it, the first entry also taking
      everything below, the last everything above. */
  function Bucket(level: int): (i: nat)
    ensures i < |LOG_COLORS|
    ensures i == 0 || Threshold(i) <= level
    ensures i == |LOG_COLORS| - 1 || level < Threshold(i + 1)
  {
    BucketFrom(level, |LOG_COLORS| - 1)
  }

  /** The colour of `level`. */
  function ColorOf(level: int): string
  {
    LOG_COLORS[Bucket(level)].1
  }

  /** The colour search of `_get_tag`: the first entry whose successor's
      threshold exceeds the level, else the last entry. */
  method ColorSearch(level: int) returns (color: string)
    ensures color == ColorOf(level)
  {
    var i := 0;
    while i < |LOG_COLORS| - 1
      invariant 0 <= i <= |LOG_COLORS| - 1
      invariant i == 0 || Threshold(i) <= level
    {
      if level < LOG_COLORS[i + 1].0 {
        BucketUnique(level, i);
        return LOG_COLORS[i].1;
      }
      i := i + 1;
    }
    BucketUnique(level, i);
    return LOG_COLORS[|LOG_COLORS| - 1].1;
  }

  /** At most one entry's interval holds a level. */
  lemma BucketUnique(level: int, i: nat)
    requires i < |LOG_COLORS|
    requires i == 0 || Threshold(i) <= level
    requires i == |LOG_COLORS| - 1 || level < Threshold(i + 1)
    ensures Bucket(level) == i
  {
  }

  /** Levels below INFO, including those below DEBUG, are grey. */
  lemma BelowInfoIsGrey(level: int)
    requires level < 20
    ensures ColorOf(level) == "#505050"
  {
    BucketUnique(level, 0);
  }

  /** Levels at or above CRITICAL are red. */
  lemma CriticalIsRed(level: int)
    requires level >= 50
    ensures ColorOf(level) == "#ff0000"
  {
    BucketUnique(level, 4);
  }

  /** From DEBUG up to CRITICAL, a level takes the colour of the greatest
      threshold not above it. */
  lemma GreatestThresholdBelow(level: int, i: nat)
    requires 10 <= level < 50 && i < |LOG_COLORS|
    requires Threshold(i) <= level
    requires forall j :: 0 <= j < |LOG_COLORS| && Threshold(j) <= level ==> j <= i
    ensures ColorOf(level) == LOG_COLORS[i].1
  {
    BucketUnique(level, i);
  }

  /** A higher level never falls in a lower bucket. */
  lemma BucketMonotone(a: int, b: int)
    requires a <= b
    ensures Bucket(a) <= Bucket(b)
  {
  }

  /** A text tag of the buffer: its name and foreground colour. */
  datatype Tag = Tag(name: string, color: string)

  /** The tag name for a level: "log_level_" and the level in decimal. */
  function TagName(level: int): (name: string)
    ensures StartsWith(name, "log_level_")
  {
    "log_level_" + IntToString(level)
  }

  /** A numeral starts with '-' exactly when its number is negative. */
  lemma NumeralSign(i: int)
    ensures |IntToString(i)| >= 1 && (IntToString(i)[0] == '-' <==> i < 0)
  {
    if i >= 0 {
      assert IsDigit(NatToString(i)[0]);
    }
  }

  /** Distinct levels get distinct tag names, so the buffer never sees a
      name twice. */
  lemma TagNamesDistinct(a: int, b: int)
    ensures TagName(a) == TagName(b) ==> a == b
  {
    if TagName(a) == TagName(b) {
      var sa, sb := IntToString(a), IntToString(b);
      NumeralSign(a);
      NumeralSign(b);
      assert sa == TagName(a)[10..] && sb == TagName(b)[10..];
      if a < 0 && b < 0 {
        assert NatToString(-a) == sa[1..] && NatToString(-b) == sb[1..];
        NatToStringInjective(-a, -b);
      } else if a >= 0 && b >= 0 {
        assert sa == NatToString(a) && sb == NatToString(b);
        NatToStringInjective(a, b);
      }
    }
  }

  class TextBufferHandler {
    /** `text_tags`: the tag made for each level so far. */
    var textTags: map<int, Tag>
    /** The tags created on the text buffer, in order. */
    var created: seq<Tag>

    /** Every cached tag was created on the buffer, named and coloured
        for its level, and every created tag is cached. */
    ghost predicate Valid()
      reads this
    {
      (forall level :: level in textTags ==> textTags[level] == Tag(TagName(level), ColorOf(level))) &&
      (forall k :: 0 <= k < |created| ==> exists level :: level in textTags && created[k] == textTags[level]) &&
      (forall level :: level in textTags ==> textTags[level] in created) &&
      |created| == |textTags.Keys|
    }

    constructor ()
      ensures Valid() && textTags == map[] && created == []
    {
      textTags := map[];
      created := [];
    }

    /** `_get_tag`: the cached tag for a known level; otherwise a new tag
        with the level's name and colour, created on the buffer and
        cached. */
    method GetTag(level: int) returns (tag: Tag)
      requires Valid()
      modifies this
      ensures Valid()
      ensures tag == Tag(TagName(level), ColorOf(level))
      ensures textTags == old(textTags)[level := tag]
      ensures level in old(textTags) ==> created == old(created)
      ensures level !in old(textTags) ==> created == old(created) + [tag]
    {
      if level in textTags {
        return textTags[level];
      }
      var color := ColorSearch(level);
      tag := Tag(TagName(level), color);
      ghost var oldTags := textTags;
      textTags := textTags[level := tag];
      created := created + [tag];
      assert textTags.Keys == oldTags.Keys + {level};
      forall k | 0 <= k < |created|
        ensures exists l :: l in textTags && created[k] == textTags[l]
      {
        if k == |created| - 1 {
          assert created[k] == textTags[level];
        } else {
          var l :| l in oldTags && created[k] == oldTags[l];
          assert created[k] == textTags[l];
        }
      }
    }
  }
}
