/** The planner's room document, as held in the in-memory cache `allData`,
    and the read-side rules every renderer applies to it. */
module PlannerModel {

  datatype Option<T> = None | Some(value: T) {
    function GetOr(default: T): T {
      match this
      case Some(v) => v
      case None => default
    }
  }

  /** One entry of a day's to-do list. */
  datatype Task = Task(text: string, completed: bool)

  /** A day record: its tasks in insertion order, the mood (`null` is
      `None`) and the diary text. */
  datatype DayRecord = DayRecord(tasks: seq<Task>, mood: Option<string>, diary: string)

  /** One picture of the vision board. */
  datatype VisionItem = VisionItem(url: string, caption: string)

  /** The room document. A remote document, and the initial cache `{}`,
      may lack either field, so both are optional. */
  datatype Document = Document(calendar: Option<map<string, DayRecord>>, vision: Option<seq<VisionItem>>)

  /** The record `{ tasks: [], mood: null, diary: "" }` that stands for a
      day without data. */
  const EmptyDay := DayRecord([], None, "")

  /** The document of a room that has never been written to. */
  const EmptyDocument := Document(Some(map[]), Some([]))

  /** `allData.calendar ?? {}`: the calendar as every reader sees it. */
  function Calendar(d: Document): (m: map<string, DayRecord>)
    ensures d.calendar.None? ==> m == map[]
    ensures d.calendar.Some? ==> m == d.calendar.value
  {
    d.calendar.GetOr(map[])
  }

  /** `allData.calendar?.[key]` */
  function DayAt(d: Document, key: string): (r: Option<DayRecord>)
    ensures r.Some? <==> key in Calendar(d)
    ensures r.Some? ==> r.value == Calendar(d)[key]
  {
    if key in Calendar(d) then Some(Calendar(d)[key]) else None
  }

  /** The record the day panel shows: `allData.calendar?.[key] || EmptyDay`. */
  function DayOrEmpty(d: Document, key: string): (r: DayRecord)
    ensures key in Calendar(d) ==> r == Calendar(d)[key]
    ensures key !in Calendar(d) ==> r == EmptyDay
  {
    DayAt(d, key).GetOr(EmptyDay)
  }

  /** `allData.vision || []`: the pictures the vision board shows. */
  function VisionItems(d: Document): (v: seq<VisionItem>)
    ensures d.vision.None? ==> v == []
    ensures d.vision.Some? ==> v == d.vision.value
  {
    d.vision.GetOr([])
  }

  /** `s.splice(i, 1)` on a list: the element at `i` goes, when there is one. */
  function RemoveAt<T>(s: seq<T>, i: nat): (r: seq<T>)
    ensures i < |s| ==> |r| == |s| - 1
    ensures i >= |s| ==> r == s
    ensures forall j :: 0 <= j < i && j < |r| ==> r[j] == s[j]
    ensures i < |s| ==> forall j :: i <= j < |r| ==> r[j] == s[j + 1]
    ensures i < |s| ==> multiset(r) + multiset{s[i]} == multiset(s)
  {
    if i < |s| then
      assert s == s[..i] + [s[i]] + s[i + 1..];
      s[..i] + s[i + 1..]
    else
      s
  }

  /** Putting the removed element back at position `i` gives the original
      list, so the remaining elements keep their relative order. */
  lemma RemoveAtKeepsOrder<T>(s: seq<T>, i: nat)
    requires i < |s|
    ensures s == RemoveAt(s, i)[..i] + [s[i]] + RemoveAt(s, i)[i..]
  {
  }
}
