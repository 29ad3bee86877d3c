/** The document list screen: the status badge of each record, the filter
    tabs and their counts, and the text preview. */
module DocumentsScreen {
  import opened Outcomes
  import opened Records
  import opened Lists

  /** Badge text, colour and icon name for a status. */
  datatype StatusInfo = StatusInfo(caption: string, color: string, icon: string)

  /** `getStatusInfo`: the three known statuses have their own badge, every
      other string (and a missing status) shows as "Unknown". */
  function GetStatusInfo(status: string): (r: StatusInfo)
    ensures status == "processing" <==> r.caption == "Processing..."
    ensures status == "ocr_done" <==> r.caption == "Completed"
    ensures status == "failed" <==> r.caption == "Failed"
    ensures !IsKnownStatus(status) <==> r == StatusInfo("Unknown", "#6B7280", "help-circle")
  {
    match status
    case "processing" => StatusInfo("Processing...", "#F59E0B", "clock")
    case "ocr_done" => StatusInfo("Completed", "#10B981", "check-circle")
    case "failed" => StatusInfo("Failed", "#EF4444", "x-circle")
    case _ => StatusInfo("Unknown", "#6B7280", "help-circle")
  }

  predicate IsKnownStatus(status: string)
  {
    status == "processing" || status == "ocr_done" || status == "failed"
  }

  /** `doc.status`, with a missing or non-string status read as "", which
      compares unequal to every status literal just as `undefined` does. */
  function StatusOf(doc: Fields): string
  {
    StrField(doc, "status").GetOr("")
  }

  datatype Tab = AllTab | ProcessingTab | CompletedTab | FailedTab

  /** Whether `doc` is listed under `tab`. */
  predicate Shows(tab: Tab, doc: Fields)
  {
    match tab
    case AllTab => true
    case ProcessingTab => StatusOf(doc) == "processing"
    case CompletedTab => StatusOf(doc) == "ocr_done"
    case FailedTab => StatusOf(doc) == "failed"
  }

  /** The filter callback of a tab. */
  function ShownBy(tab: Tab): Fields -> bool
  {
    d => Shows(tab, d)
  }

  /** `filteredDocuments` for the active tab. */
  function FilteredDocuments(docs: seq<Fields>, tab: Tab): (r: seq<Fields>)
    ensures tab == AllTab ==> r == docs
    ensures forall i :: 0 <= i < |r| ==> Shows(tab, r[i])
    ensures forall d :: multiset(r)[d] == if Shows(tab, d) then multiset(docs)[d] else 0
    ensures IsSubsequence(r, docs)
  {
    var r := Filter(docs, ShownBy(tab));
    assert tab == AllTab ==> r == docs by {
      if tab == AllTab {
        FilterAllKept(docs, ShownBy(tab));
      }
    }
    r
  }

  /** The numbers on the four tabs. */
  datatype Counts = Counts(all: nat, processing: nat, completed: nat, failed: nat)

  /** `counts`: each status count is computed by its own filter over the
      whole list, and agrees with the length of that tab's list. */
  function CountsOf(docs: seq<Fields>): (c: Counts)
    ensures c.all == |docs| == |FilteredDocuments(docs, AllTab)|
    ensures c.processing == |FilteredDocuments(docs, ProcessingTab)|
    ensures c.completed == |FilteredDocuments(docs, CompletedTab)|
    ensures c.failed == |FilteredDocuments(docs, FailedTab)|
  {
    Counts(
      |docs|,
      |Filter(docs, ShownBy(ProcessingTab))|,
      |Filter(docs, ShownBy(CompletedTab))|,
      |Filter(docs, ShownBy(FailedTab))|)
  }

  /** The three status tabs never count more documents than "All", and
      count exactly as many when every document has a known status. */
  lemma StatusCountsCover(docs: seq<Fields>)
    ensures var c := CountsOf(docs);
            && c.processing + c.completed + c.failed <= c.all
            && (c.processing + c.completed + c.failed == c.all <==>
                  forall i :: 0 <= i < |docs| ==> IsKnownStatus(StatusOf(docs[i])))
  {
    KnownCount(docs);
  }

  /** How many documents the three status tabs list together. */
  function KnownTotal(docs: seq<Fields>): nat
  {
    |Filter(docs, ShownBy(ProcessingTab))| + |Filter(docs, ShownBy(CompletedTab))|
      + |Filter(docs, ShownBy(FailedTab))|
  }

  lemma FilterLengthStep<T(!new)>(s: seq<T>, keep: T -> bool)
    requires |s| > 0
    ensures |Filter(s, keep)| == |Filter(s[1..], keep)| + (if keep(s[0]) then 1 else 0)
  {
  }

  lemma KnownTotalStep(docs: seq<Fields>)
    requires |docs| > 0
    ensures KnownTotal(docs) == KnownTotal(docs[1..]) + (if IsKnownStatus(StatusOf(docs[0])) then 1 else 0)
  {
    FilterLengthStep(docs, ShownBy(ProcessingTab));
    FilterLengthStep(docs, ShownBy(CompletedTab));
    FilterLengthStep(docs, ShownBy(FailedTab));
    assert ShownBy(ProcessingTab)(docs[0]) == (StatusOf(docs[0]) == "processing");
    assert ShownBy(CompletedTab)(docs[0]) == (StatusOf(docs[0]) == "ocr_done");
    assert ShownBy(FailedTab)(docs[0]) == (StatusOf(docs[0]) == "failed");
  }

  predicate AllKnown(docs: seq<Fields>)
  {
    forall i :: 0 <= i < |docs| ==> IsKnownStatus(StatusOf(docs[i]))
  }

  lemma AllKnownStep(docs: seq<Fields>)
    requires |docs| > 0
    ensures AllKnown(docs) <==> IsKnownStatus(StatusOf(docs[0])) && AllKnown(docs[1..])
  {
    var rest := docs[1..];
    assert forall i :: 0 <= i < |rest| ==> rest[i] == docs[i + 1];
    if IsKnownStatus(StatusOf(docs[0])) && AllKnown(rest) {
      forall i | 0 < i < |docs|
        ensures IsKnownStatus(StatusOf(docs[i]))
      {
        assert docs[i] == rest[i - 1];
      }
    }
  }

  lemma {:induction false} KnownCount(docs: seq<Fields>)
    ensures KnownTotal(docs) <= |docs|
    ensures KnownTotal(docs) == |docs| <==> AllKnown(docs)
    decreases |docs|
  {
    if |docs| > 0 {
      KnownCount(docs[1..]);
      KnownTotalStep(docs);
      AllKnownStep(docs);
    }
  }

  /** The text preview under a card: shown only for a non-empty `rawText`,
      and then its first 50 characters followed by "...". */
  function Preview(doc: Fields): (r: Option<string>)
    ensures r.Some? <==> StrField(doc, "rawText").Some? && StrField(doc, "rawText").value != ""
    ensures r.Some? ==> |r.value| >= 3 && r.value[|r.value| - 3..] == "..."
    ensures r.Some? ==>
              var text := StrField(doc, "rawText").value;
              var shown := r.value[..|r.value| - 3];
              |shown| == (if |text| < 50 then |text| else 50) && shown <= text
  {
    match StrField(doc, "rawText")
    case Some(text) =>
      if text == "" then None
      else Some((if |text| < 50 then text else text[..50]) + "...")
    case None => None
  }
}
