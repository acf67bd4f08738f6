/**
 * screens/SettingsScreen.tsx: the two option tables, the record updates it hands to
 * `onUpdateSettings`, and which options it marks as selected.
 */
module SettingsScreen {
  import opened Types
  import Lists

  /** One row of the quality table; `name` is the source's `label`, a reserved word in Dafny. */
  datatype QualityOption = QualityOption(value: RecordingQuality, name: string, description: string)

  const QUALITY_OPTIONS: seq<QualityOption> := [
    QualityOption(LOW, "Low Quality", "Smaller file size, lower quality"),
    QualityOption(MEDIUM, "Medium Quality", "Balanced size and quality"),
    QualityOption(HIGH, "High Quality", "Larger file size, best quality")
  ]

  /** 0.5x, 0.75x, 1.0x, 1.25x, 1.5x and 2.0x, in hundredths. */
  const SPEED_OPTIONS: seq<int> := [50, 75, 100, 125, 150, 200]

  /** `updateQuality`: the settings with only the recording quality replaced. */
  function UpdateQuality(settings: AppSettings, quality: RecordingQuality): (r: AppSettings)
    ensures r.recordingQuality == quality
    ensures r.defaultPlaybackSpeed == settings.defaultPlaybackSpeed
  {
    settings.(recordingQuality := quality)
  }

  /** `updateSpeed`: the settings with only the default playback speed replaced. */
  function UpdateSpeed(settings: AppSettings, speed: int): (r: AppSettings)
    ensures r.defaultPlaybackSpeed == speed
    ensures r.recordingQuality == settings.recordingQuality
  {
    settings.(defaultPlaybackSpeed := speed)
  }

  /** The test the screen highlights a quality option by. */
  function QualityIsSelected(current: RecordingQuality): (selected: QualityOption -> bool)
    ensures forall o :: selected(o) <==> o.value == current
  {
    (o: QualityOption) => current == o.value
  }

  /** The test the screen highlights a speed option by. */
  function SpeedIsSelected(current: int): (selected: int -> bool)
    ensures forall v :: selected(v) <==> v == current
  {
    (v: int) => current == v
  }

  /** The quality options shown as selected, in table order. */
  function SelectedQualities(settings: AppSettings): (r: seq<QualityOption>)
    ensures forall o :: o in r <==> o in QUALITY_OPTIONS && o.value == settings.recordingQuality
    ensures Lists.SubsequenceOf(r, QUALITY_OPTIONS)
  {
    Lists.Filter(QUALITY_OPTIONS, QualityIsSelected(settings.recordingQuality))
  }

  /** The speed options shown as selected, in table order. */
  function SelectedSpeeds(settings: AppSettings): (r: seq<int>)
    ensures forall v :: v in r <==> v in SPEED_OPTIONS && v == settings.defaultPlaybackSpeed
    ensures Lists.SubsequenceOf(r, SPEED_OPTIONS)
  {
    Lists.Filter(SPEED_OPTIONS, SpeedIsSelected(settings.defaultPlaybackSpeed))
  }

  /** Every element is smaller than every later one. */
  predicate StrictlyAscending(s: seq<int>)
  {
    forall i, j :: 0 <= i < j < |s| ==> s[i] < s[j]
  }

  /** The speed table is strictly ascending and every speed is positive. */
  lemma SpeedOptionsAscendingAndPositive()
    ensures StrictlyAscending(SPEED_OPTIONS)
    ensures forall v :: v in SPEED_OPTIONS ==> v > 0
    ensures 100 in SPEED_OPTIONS
  {
  }

  /** The quality table has three options and each recording quality is the value of exactly one. */
  lemma QualityOptionsEachOnce(q: RecordingQuality)
    ensures |QUALITY_OPTIONS| == 3
    ensures |Lists.Filter(QUALITY_OPTIONS, QualityIsSelected(q))| == 1
    ensures Lists.Filter(QUALITY_OPTIONS, QualityIsSelected(q))[0].value == q
  {
    var keep := QualityIsSelected(q);
    var o0, o1, o2 := QUALITY_OPTIONS[0], QUALITY_OPTIONS[1], QUALITY_OPTIONS[2];
    assert QUALITY_OPTIONS == [o0] + [o1, o2];
    assert [o1, o2] == [o1] + [o2];
    assert [o2] == [o2] + [];
    var f2 := Lists.Filter([o2], keep);
    Lists.FilterCons(o2, [], keep);
    assert f2 == (if keep(o2) then [o2] else []);
    Lists.FilterCons(o1, [o2], keep);
    Lists.FilterCons(o0, [o1, o2], keep);
  }

  /** Whatever the settings, exactly one quality option is highlighted: the one for the current quality. */
  lemma QualitySelectionExactlyOne(settings: AppSettings)
    ensures |SelectedQualities(settings)| == 1
    ensures SelectedQualities(settings)[0].value == settings.recordingQuality
  {
    QualityOptionsEachOnce(settings.recordingQuality);
  }

  /** A strictly ascending sequence holds no value twice. */
  lemma {:induction false} AscendingOnce(s: seq<int>, v: int)
    requires StrictlyAscending(s)
    ensures multiset(s)[v] == if v in s then 1 else 0
  {
    if s != [] {
      assert s == [s[0]] + s[1..];
      AscendingOnce(s[1..], v);
      assert s[0] !in s[1..];
    }
  }

  /** Filtering for one value keeps as many elements as there are copies of it. */
  lemma {:induction false} FilterEqualsCount(s: seq<int>, v: int)
    ensures |Lists.Filter(s, SpeedIsSelected(v))| == multiset(s)[v]
  {
    if s != [] {
      assert s == [s[0]] + s[1..];
      FilterEqualsCount(s[1..], v);
      Lists.FilterCons(s[0], s[1..], SpeedIsSelected(v));
    }
  }

  /** In a strictly ascending table a value highlights one entry if present and none otherwise. */
  lemma AscendingSelection(s: seq<int>, v: int)
    requires StrictlyAscending(s)
    ensures Lists.Filter(s, SpeedIsSelected(v)) == if v in s then [v] else []
  {
    var r := Lists.Filter(s, SpeedIsSelected(v));
    FilterEqualsCount(s, v);
    AscendingOnce(s, v);
    if v in s {
      assert r[0] in r;
    }
  }

  /** A speed in the table highlights exactly its own option; any other speed highlights none. */
  lemma SpeedSelectionAtMostOne(settings: AppSettings)
    ensures SelectedSpeeds(settings) ==
            if settings.defaultPlaybackSpeed in SPEED_OPTIONS then [settings.defaultPlaybackSpeed] else []
  {
    SpeedOptionsAscendingAndPositive();
    AscendingSelection(SPEED_OPTIONS, settings.defaultPlaybackSpeed);
  }

  /** Choosing the i-th speed highlights that speed alone, and keeps the quality highlight. */
  lemma SpeedChoiceHighlightsIt(settings: AppSettings, i: int)
    requires 0 <= i < |SPEED_OPTIONS|
    ensures SelectedSpeeds(UpdateSpeed(settings, SPEED_OPTIONS[i])) == [SPEED_OPTIONS[i]]
    ensures SelectedQualities(UpdateSpeed(settings, SPEED_OPTIONS[i])) == SelectedQualities(settings)
  {
    SpeedOptionsAscendingAndPositive();
    AscendingSelection(SPEED_OPTIONS, SPEED_OPTIONS[i]);
  }

  /** Choosing a quality highlights that quality alone, and keeps the speed highlight. */
  lemma QualityChoiceHighlightsIt(settings: AppSettings, q: RecordingQuality)
    ensures |SelectedQualities(UpdateQuality(settings, q))| == 1
    ensures SelectedQualities(UpdateQuality(settings, q))[0].value == q
    ensures SelectedSpeeds(UpdateQuality(settings, q)) == SelectedSpeeds(settings)
  {
    QualitySelectionExactlyOne(UpdateQuality(settings, q));
  }

  /** The later of two quality choices wins, and quality and speed choices do not interfere. */
  lemma UpdatesLastWinsAndCommute(settings: AppSettings, q1: RecordingQuality, q2: RecordingQuality, s1: int, s2: int)
    ensures UpdateQuality(UpdateQuality(settings, q1), q2) == UpdateQuality(settings, q2)
    ensures UpdateSpeed(UpdateSpeed(settings, s1), s2) == UpdateSpeed(settings, s2)
    ensures UpdateSpeed(UpdateQuality(settings, q1), s1) == UpdateQuality(UpdateSpeed(settings, s1), q1)
  {
  }
}
