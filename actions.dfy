/** The user actions of the planner as transitions of the room document.
    Each function gives the document a handler in script.js leaves behind;
    the cache class in cache.dfy performs the same steps in place and is
    proved to reach exactly these documents. */
module PlannerActions {
  import opened PlannerModel
  import opened JsText

  /** `r` differs from `d` at most in the calendar entry for `key`. */
  ghost predicate OnlyDayChanged(d: Document, r: Document, key: string) {
    r.vision == d.vision &&
    forall k :: k != key ==> DayAt(r, k) == DayAt(d, k)
  }

  /** `r` differs from `d` at most in the vision list. */
  predicate OnlyVisionChanged(d: Document, r: Document) {
    r.calendar == d.calendar
  }

  /** `ensureDateStructure(key)`: create the calendar and the empty day
      record for `key` when either is missing; an existing record is kept. */
  function EnsureDay(d: Document, key: string): (r: Document)
    ensures key in Calendar(r) && Calendar(r)[key] == DayOrEmpty(d, key)
    ensures key in Calendar(d) ==> r == d
    ensures key !in Calendar(d) ==> Calendar(r)[key] == EmptyDay
    ensures Calendar(r).Keys == Calendar(d).Keys + {key}
    ensures OnlyDayChanged(d, r, key)
  {
    var cal := Calendar(d);
    Document(Some(if key in cal then cal else cal[key := EmptyDay]), d.vision)
  }

  /** The add-task button: blank text (after `trim`) changes nothing;
      otherwise the untrimmed text is appended, not completed, to the day. */
  function AddTask(d: Document, key: string, text: string): (r: Document)
    ensures IsBlank(text) ==> r == d
    ensures !IsBlank(text) ==>
      key in Calendar(r) &&
      Calendar(r)[key].tasks == DayOrEmpty(d, key).tasks + [Task(text, false)] &&
      Calendar(r)[key].mood == DayOrEmpty(d, key).mood &&
      Calendar(r)[key].diary == DayOrEmpty(d, key).diary &&
      OnlyDayChanged(d, r, key)
  {
    TrimEmptyIffBlank(text);
    if Trim(text) == [] then d
    else
      var e := EnsureDay(d, key);
      var day := Calendar(e)[key];
      Document(Some(Calendar(e)[key := day.(tasks := day.tasks + [Task(text, false)])]), e.vision)
  }

  /** What `toggleTask(idx)` may be called with: the rendered task list of
      an existing day, so the day exists and `idx` is one of its positions. */
  predicate HasTask(d: Document, key: string, idx: nat) {
    key in Calendar(d) && idx < |Calendar(d)[key].tasks|
  }

  /** `toggleTask(idx)`: flip the completion of task `idx` and of nothing else. */
  function ToggleTask(d: Document, key: string, idx: nat): (r: Document)
    requires HasTask(d, key, idx)
    ensures HasTask(r, key, idx)
    ensures var before, after := Calendar(d)[key], Calendar(r)[key];
      |after.tasks| == |before.tasks| &&
      after.tasks[idx].text == before.tasks[idx].text &&
      after.tasks[idx].completed == !before.tasks[idx].completed &&
      (forall j :: 0 <= j < |after.tasks| && j != idx ==> after.tasks[j] == before.tasks[j]) &&
      after.mood == before.mood && after.diary == before.diary
    ensures OnlyDayChanged(d, r, key)
  {
    var cal := Calendar(d);
    var day := cal[key];
    var t := day.tasks[idx];
    Document(Some(cal[key := day.(tasks := day.tasks[idx := t.(completed := !t.completed)])]), d.vision)
  }

  /** Toggling the same task twice gives back the document it started from. */
  lemma ToggleTwice(d: Document, key: string, idx: nat)
    requires HasTask(d, key, idx)
    ensures ToggleTask(ToggleTask(d, key, idx), key, idx) == d
  {
    var r := ToggleTask(ToggleTask(d, key, idx), key, idx);
    var before, after := Calendar(d)[key], Calendar(r)[key];
    assert after.tasks == before.tasks;
    assert after == before;
    assert Calendar(r) == Calendar(d);
  }

  /** `deleteTask(idx)`: `splice(idx, 1)` on an existing day's tasks. The
      task at `idx` goes and the others keep their order; an index past the
      end changes nothing. */
  function DeleteTask(d: Document, key: string, idx: nat): (r: Document)
    requires key in Calendar(d)
    ensures key in Calendar(r)
    ensures var before, after := Calendar(d)[key], Calendar(r)[key];
      after.mood == before.mood && after.diary == before.diary &&
      (idx < |before.tasks| ==>
        |after.tasks| == |before.tasks| - 1 &&
        after.tasks[..idx] == before.tasks[..idx] &&
        after.tasks[idx..] == before.tasks[idx + 1..]) &&
      (idx >= |before.tasks| ==> after.tasks == before.tasks)
    ensures OnlyDayChanged(d, r, key)
  {
    var cal := Calendar(d);
    var day := cal[key];
    var after := RemoveAt(day.tasks, idx);
    Document(Some(cal[key := day.(tasks := after)]), d.vision)
  }

  /** Deleting the task just added takes the day's list back to what it was. */
  lemma DeleteUndoesAdd(d: Document, key: string, text: string)
    requires !IsBlank(text)
    ensures key in Calendar(AddTask(d, key, text))
    ensures Calendar(DeleteTask(AddTask(d, key, text), key, |DayOrEmpty(d, key).tasks|))[key].tasks
            == DayOrEmpty(d, key).tasks
  {
  }

  /** `setMood(m)`: choosing the day's current mood clears it, any other
      choice replaces it; tasks and diary stay. */
  function SetMood(d: Document, key: string, m: string): (r: Document)
    ensures key in Calendar(r)
    ensures var before, after := DayOrEmpty(d, key), Calendar(r)[key];
      (before.mood == Some(m) ==> after.mood == None) &&
      (before.mood != Some(m) ==> after.mood == Some(m)) &&
      after.tasks == before.tasks && after.diary == before.diary
    ensures OnlyDayChanged(d, r, key)
  {
    var e := EnsureDay(d, key);
    var day := Calendar(e)[key];
    Document(Some(Calendar(e)[key := day.(mood := if day.mood == Some(m) then None else Some(m))]), e.vision)
  }

  /** Picking the same mood twice restores the day's mood when it was unset
      or set to that mood. */
  lemma SetMoodTwice(d: Document, key: string, m: string)
    requires DayOrEmpty(d, key).mood == None || DayOrEmpty(d, key).mood == Some(m)
    ensures DayOrEmpty(SetMood(SetMood(d, key, m), key, m), key) == DayOrEmpty(d, key)
  {
  }

  /** Picking mood `a` and then a different mood `b` leaves `b`. */
  lemma SetMoodReplaces(d: Document, key: string, a: string, b: string)
    requires a != b
    ensures DayOrEmpty(SetMood(SetMood(d, key, a), key, b), key).mood == Some(b)
  {
  }

  /** The diary field's blur handler: store the text as the day's diary. */
  function SetDiary(d: Document, key: string, text: string): (r: Document)
    ensures key in Calendar(r)
    ensures var before, after := DayOrEmpty(d, key), Calendar(r)[key];
      after.diary == text && after.tasks == before.tasks && after.mood == before.mood
    ensures OnlyDayChanged(d, r, key)
  {
    var e := EnsureDay(d, key);
    var day := Calendar(e)[key];
    Document(Some(Calendar(e)[key := day.(diary := text)]), e.vision)
  }

  /** `clearDayTasks()`: once confirmed, the day's key leaves the calendar
      (when there is a calendar at all); declined, nothing changes. */
  function ClearDay(d: Document, key: string, confirmed: bool): (r: Document)
    ensures !confirmed ==> r == d
    ensures confirmed ==>
      Calendar(r).Keys == Calendar(d).Keys - {key} &&
      DayOrEmpty(r, key) == EmptyDay &&
      OnlyDayChanged(d, r, key)
    ensures confirmed && d.calendar.Some? ==> r.calendar == Some(d.calendar.value - {key})
    ensures d.calendar.None? ==> r == d
  {
    if !confirmed then d
    else match d.calendar
      case None => d
      case Some(cal) => Document(Some(cal - {key}), d.vision)
  }

  /** The add-picture button: an empty URL changes nothing; otherwise the
      item goes to the end of the vision list, created when missing. */
  function AddVision(d: Document, url: string, caption: string): (r: Document)
    ensures url == "" ==> r == d
    ensures url != "" ==>
      r.vision.Some? &&
      VisionItems(r) == VisionItems(d) + [VisionItem(url, caption)] &&
      OnlyVisionChanged(d, r)
  {
    if url == "" then d
    else Document(d.calendar, Some(VisionItems(d) + [VisionItem(url, caption)]))
  }

  /** What `deleteVision(idx)` may be called with once confirmed: the board
      was rendered from a vision list, so the list exists. */
  predicate CanDeleteVision(d: Document, confirmed: bool) {
    confirmed ==> d.vision.Some?
  }

  /** `deleteVision(idx)`: once confirmed, `splice(idx, 1)` on the vision
      list; declined, nothing changes. */
  function DeleteVision(d: Document, idx: nat, confirmed: bool): (r: Document)
    requires CanDeleteVision(d, confirmed)
    ensures !confirmed ==> r == d
    ensures confirmed ==>
      OnlyVisionChanged(d, r) && r.vision.Some? &&
      var before, after := VisionItems(d), VisionItems(r);
      (idx < |before| ==>
        |after| == |before| - 1 &&
        after[..idx] == before[..idx] &&
        after[idx..] == before[idx + 1..]) &&
      (idx >= |before| ==> after == before)
  {
    if !confirmed then d
    else
      var before := d.vision.value;
      var after := RemoveAt(before, idx);
      Document(d.calendar, Some(after))
  }

  /** Deleting the picture just added takes the board back to what it was. */
  lemma DeleteVisionUndoesAdd(d: Document, url: string, caption: string)
    requires url != ""
    ensures VisionItems(DeleteVision(AddVision(d, url, caption), |VisionItems(d)|, true)) == VisionItems(d)
  {
  }

  /** `ensureDateStructure` is idempotent. */
  lemma EnsureDayIdempotent(d: Document, key: string)
    ensures EnsureDay(EnsureDay(d, key), key) == EnsureDay(d, key)
  {
  }

  /** Creating an empty record changes nothing any reader can see: every
      day reads the same and the vision list is untouched. */
  lemma EnsureDayInvisible(d: Document, key: string, k: string)
    ensures DayOrEmpty(EnsureDay(d, key), k) == DayOrEmpty(d, k)
    ensures VisionItems(EnsureDay(d, key)) == VisionItems(d)
  {
  }

  /** Clearing a day twice is the same as clearing it once. */
  lemma ClearDayIdempotent(d: Document, key: string)
    ensures ClearDay(ClearDay(d, key, true), key, true) == ClearDay(d, key, true)
  {
    var once := ClearDay(d, key, true);
    if d.calendar.Some? {
      assert once.calendar.value - {key} == once.calendar.value;
    }
  }
}
