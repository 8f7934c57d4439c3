/** The in-memory document cache `allData` of one connected room, with the
    snapshot handler that replaces it and the action handlers that change
    it in place and then ask for the whole document to be written back. */
module DocumentCache {
  import opened PlannerModel
  import opened JsText
  import A = PlannerActions

  class Planner {
    var calendar: Option<map<string, DayRecord>>
    var vision: Option<seq<VisionItem>>
    /** The documents handed to `saveToCloud`, oldest first: each write
        carries the whole cache as it was at that moment. */
    var writes: seq<Document>

    /** The cache as a document value. */
    function Doc(): Document
      reads this
    {
      Document(calendar, vision)
    }

    /** `allData = {}`: neither field is there before the first snapshot,
        and nothing has been written. */
    constructor ()
      ensures calendar == None && vision == None && writes == []
    {
      calendar, vision, writes := None, None, [];
    }

    /** `saveToCloud()`: request a write of the whole cache. Its guard on
        the room always passes here: the handlers are reachable only from the
        main app, and only `connectToRoom` shows it, after setting the room. */
    method SaveToCloud()
      modifies this`writes
      ensures writes == old(writes) + [Doc()]
    {
      writes := writes + [Document(calendar, vision)];
    }

    /** The `onSnapshot` callback: the cache becomes the remote document
        when there is one and the empty document otherwise; the old cache
        is discarded, not merged, and nothing is written. */
    method OnSnapshot(snapshot: Option<Document>)
      modifies this`calendar, this`vision
      ensures snapshot.Some? ==> Doc() == snapshot.value
      ensures snapshot.None? ==> Doc() == EmptyDocument
    {
      match snapshot
      case Some(data) =>
        calendar, vision := data.calendar, data.vision;
      case None =>
        calendar, vision := Some(map[]), Some([]);
    }

    /** `ensureDateStructure(key)`. */
    method EnsureDateStructure(key: string)
      modifies this`calendar
      ensures Doc() == A.EnsureDay(old(Doc()), key)
    {
      if calendar.None? {
        calendar := Some(map[]);
      }
      if key !in calendar.value {
        calendar := Some(calendar.value[key := EmptyDay]);
      }
    }

    /** The add-task button with the input's current text. */
    method AddTask(key: string, text: string)
      modifies this`calendar, this`writes
      ensures Doc() == A.AddTask(old(Doc()), key, text)
      ensures IsBlank(text) ==> writes == old(writes)
      ensures !IsBlank(text) ==> writes == old(writes) + [Doc()]
    {
      TrimEmptyIffBlank(text);
      if Trim(text) == [] {
        return;
      }
      EnsureDateStructure(key);
      var day := calendar.value[key];
      calendar := Some(calendar.value[key := day.(tasks := day.tasks + [Task(text, false)])]);
      SaveToCloud();
    }

    /** `toggleTask(idx)` on the selected day. */
    method ToggleTask(key: string, idx: nat)
      requires A.HasTask(Doc(), key, idx)
      modifies this`calendar, this`writes
      ensures Doc() == A.ToggleTask(old(Doc()), key, idx)
      ensures writes == old(writes) + [Doc()]
    {
      var day := calendar.value[key];
      var task := day.tasks[idx];
      calendar := Some(calendar.value[key := day.(tasks := day.tasks[idx := task.(completed := !task.completed)])]);
      SaveToCloud();
    }

    /** `deleteTask(idx)` on the selected day. */
    method DeleteTask(key: string, idx: nat)
      requires key in Calendar(Doc())
      modifies this`calendar, this`writes
      ensures Doc() == A.DeleteTask(old(Doc()), key, idx)
      ensures writes == old(writes) + [Doc()]
    {
      var day := calendar.value[key];
      calendar := Some(calendar.value[key := day.(tasks := RemoveAt(day.tasks, idx))]);
      SaveToCloud();
    }

    /** `setMood(mood)` on the selected day. */
    method SetMood(key: string, mood: string)
      modifies this`calendar, this`writes
      ensures Doc() == A.SetMood(old(Doc()), key, mood)
      ensures writes == old(writes) + [Doc()]
    {
      EnsureDateStructure(key);
      var day := calendar.value[key];
      calendar := Some(calendar.value[key := day.(mood := if day.mood == Some(mood) then None else Some(mood))]);
      SaveToCloud();
    }

    /** The diary field losing focus with `text` in it. */
    method SetDiary(key: string, text: string)
      modifies this`calendar, this`writes
      ensures Doc() == A.SetDiary(old(Doc()), key, text)
      ensures writes == old(writes) + [Doc()]
    {
      EnsureDateStructure(key);
      var day := calendar.value[key];
      calendar := Some(calendar.value[key := day.(diary := text)]);
      SaveToCloud();
    }

    /** `clearDayTasks()`, where `confirmed` is the answer to the dialog.
        A confirmed clear writes even when there was no calendar. */
    method ClearDayTasks(key: string, confirmed: bool)
      modifies this`calendar, this`writes
      ensures Doc() == A.ClearDay(old(Doc()), key, confirmed)
      ensures !confirmed ==> writes == old(writes)
      ensures confirmed ==> writes == old(writes) + [Doc()]
    {
      if confirmed {
        if calendar.Some? {
          calendar := Some(calendar.value - {key});
        }
        SaveToCloud();
      }
    }

    /** `addVisionItem()` with the two inputs' current values. */
    method AddVisionItem(url: string, caption: string)
      modifies this`vision, this`writes
      ensures Doc() == A.AddVision(old(Doc()), url, caption)
      ensures url == "" ==> writes == old(writes)
      ensures url != "" ==> writes == old(writes) + [Doc()]
    {
      if url == "" {
        return;
      }
      if vision.None? {
        vision := Some([]);
      }
      vision := Some(vision.value + [VisionItem(url, caption)]);
      SaveToCloud();
    }

    /** `deleteVision(idx)`, where `confirmed` is the answer to the dialog. */
    method DeleteVision(idx: nat, confirmed: bool)
      requires A.CanDeleteVision(Doc(), confirmed)
      modifies this`vision, this`writes
      ensures Doc() == A.DeleteVision(old(Doc()), idx, confirmed)
      ensures !confirmed ==> writes == old(writes)
      ensures confirmed ==> writes == old(writes) + [Doc()]
    {
      if confirmed {
        vision := Some(RemoveAt(vision.value, idx));
        SaveToCloud();
      }
    }
  }
}
