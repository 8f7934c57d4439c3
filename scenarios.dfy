/** Concrete runs of the planner, stated against the model's contracts. */
module Scenarios {
  import opened PlannerModel
  import opened PlannerActions
  import opened DocumentCache

  /** Adding "Buy food" on 2024-06-01 in an empty room leaves exactly that
      one open task on that day. */
  lemma BuyFood()
    ensures "2024-06-01" in Calendar(AddTask(EmptyDocument, "2024-06-01", "Buy food"))
    ensures Calendar(AddTask(EmptyDocument, "2024-06-01", "Buy food"))["2024-06-01"].tasks
            == [Task("Buy food", false)]
  {
    assert !JsText.IsJsWhitespace("Buy food"[0]);
  }

  /** Deleting picture 1 of three keeps pictures 0 and 2, in that order. */
  lemma DeleteMiddlePicture(a: VisionItem, b: VisionItem, c: VisionItem)
    ensures VisionItems(DeleteVision(Document(None, Some([a, b, c])), 1, true)) == [a, c]
  {
  }

  /** Two actions without a snapshot in between (add a task, then set the
      mood) both reach the second write, and the echo of that write
      restores the cache as written. */
  method TwoActionsThenEcho() returns (writes: seq<Document>, echoed: Document)
    ensures |writes| == 2
    ensures "2024-06-01" in Calendar(writes[1])
    ensures Calendar(writes[1])["2024-06-01"] == DayRecord([Task("Buy food", false)], Some("happy"), "")
    ensures echoed == writes[1]
  {
    var p := new Planner();
    p.OnSnapshot(None);
    assert !JsText.IsJsWhitespace("Buy food"[0]);
    p.AddTask("2024-06-01", "Buy food");
    p.SetMood("2024-06-01", "happy");
    writes := p.writes;
    p.OnSnapshot(Some(writes[1]));
    echoed := p.Doc();
  }
}
