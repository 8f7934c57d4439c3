/** What the calendar grid shows for each day of the displayed month. The
    dates themselves come from JavaScript's Date library, which is not part
    of this model: the caller supplies the date key of every day. */
module CalendarView {
  import opened PlannerModel

  /** The moods the mood buttons offer. */
  const KnownMoods: set<string> := {"happy", "neutral", "tired", "sad", "angry"}

  /** `getMoodEmoji(mood)`: the emoji of a known mood, `""` for any other. */
  function MoodEmoji(mood: string): (glyph: string)
    ensures glyph != "" <==> mood in KnownMoods
    ensures mood in KnownMoods ==> |glyph| == 1
  {
    match mood
    case "happy" => "\U{1F606}"
    case "neutral" => "\U{1F610}"
    case "tired" => "\U{1F634}"
    case "sad" => "\U{1F622}"
    case "angry" => "\U{1F621}"
    case _ => ""
  }

  /** Each known mood has its own glyph, so the grid tells moods apart. */
  lemma MoodEmojiInjective(a: string, b: string)
    requires a in KnownMoods && b in KnownMoods && a != b
    ensures MoodEmoji(a) != MoodEmoji(b)
  {
  }

  /** The decoration of one day cell. */
  datatype Marker = MoodDot(glyph: string) | HasTaskMark | Plain

  /** JavaScript truthiness of a stored mood: `null` and `""` are false. */
  predicate HasMood(day: DayRecord) {
    day.mood.Some? && day.mood.value != ""
  }

  /** The cell rule of `renderCalendar`: a truthy mood shows its glyph and
      suppresses the task mark; otherwise a day with tasks is marked; a day
      without a record is plain. */
  function CellMarker(day: Option<DayRecord>): (m: Marker)
    ensures m.MoodDot? <==> day.Some? && HasMood(day.value)
    ensures m.MoodDot? ==> m.glyph == MoodEmoji(day.value.mood.value)
    ensures m.HasTaskMark? <==> day.Some? && !HasMood(day.value) && |day.value.tasks| > 0
  {
    match day
    case None => Plain
    case Some(r) =>
      if r.mood.Some? && r.mood.value != "" then MoodDot(MoodEmoji(r.mood.value))
      else if |r.tasks| > 0 then HasTaskMark
      else Plain
  }

  /** A missing day and the empty record are drawn alike, so reading a
      missing key as `EmptyDay` is faithful to the grid as well. */
  lemma MissingDayLooksEmpty(d: Document, key: string)
    ensures CellMarker(DayAt(d, key)) == CellMarker(Some(DayOrEmpty(d, key)))
  {
  }

  /** One cell of the month grid: the day number, its marker, and whether
      it is today's and the selected date's cell. */
  datatype Cell = Cell(day: nat, marker: Marker, today: bool, selected: bool)

  /** The cell of the day numbered `i + 1`, whose date key is `key`. */
  function CellFor(d: Document, i: nat, key: string, todayKey: string, selectedKey: string): (c: Cell)
    ensures c.day == i + 1
    ensures c.today <==> key == todayKey
    ensures c.selected <==> key == selectedKey
    ensures c.marker.MoodDot? ==> key in Calendar(d) && HasMood(Calendar(d)[key])
    ensures c.marker.HasTaskMark? ==> key in Calendar(d) && !HasMood(Calendar(d)[key]) && |Calendar(d)[key].tasks| > 0
    ensures c.marker.Plain? <==> key !in Calendar(d) || (!HasMood(Calendar(d)[key]) && |Calendar(d)[key].tasks| == 0)
  {
    Cell(i + 1, CellMarker(DayAt(d, key)), key == todayKey, key == selectedKey)
  }

  /** The loop of `renderCalendar` over the days of the month, where
      `keys[i]` is the date key of day `i + 1`. */
  method RenderDays(d: Document, keys: seq<string>, todayKey: string, selectedKey: string)
    returns (cells: seq<Cell>)
    ensures |cells| == |keys|
    ensures forall i :: 0 <= i < |keys| ==>
      cells[i].day == i + 1 &&
      cells[i].marker == CellMarker(DayAt(d, keys[i])) &&
      (cells[i].today <==> keys[i] == todayKey) &&
      (cells[i].selected <==> keys[i] == selectedKey)
  {
    cells := [];
    for i := 0 to |keys|
      invariant |cells| == i
      invariant forall j :: 0 <= j < i ==> cells[j] == CellFor(d, j, keys[j], todayKey, selectedKey)
    {
      cells := cells + [CellFor(d, i, keys[i], todayKey, selectedKey)];
    }
  }

  /** When the month's date keys are distinct, at most one cell is today's
      and at most one is selected. */
  lemma AtMostOneTodayAndSelected(cells: seq<Cell>, keys: seq<string>, todayKey: string, selectedKey: string)
    requires |cells| == |keys|
    requires forall i, j :: 0 <= i < j < |keys| ==> keys[i] != keys[j]
    requires forall i :: 0 <= i < |keys| ==>
      (cells[i].today <==> keys[i] == todayKey) && (cells[i].selected <==> keys[i] == selectedKey)
    ensures forall i, j :: 0 <= i < |cells| && 0 <= j < |cells| && cells[i].today && cells[j].today ==> i == j
    ensures forall i, j :: 0 <= i < |cells| && 0 <= j < |cells| && cells[i].selected && cells[j].selected ==> i == j
  {
  }

  /** A room with no document draws every day plain. */
  lemma EmptyRoomIsPlain(key: string)
    ensures CellMarker(DayAt(EmptyDocument, key)) == Plain
  {
  }
}
