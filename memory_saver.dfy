/**
 * The memory saver panel (ghost-ui/src/components/MemorySaver.tsx): the
 * page preview, the save button's lifecycle, the PDF upload that builds a
 * memory record from a file, and the list of saved memories, newest first,
 * in which no two entries share a url and a timestamp.
 *
 * The save collaborator, the PDF reader and the clock are inputs; the
 * 3-second status revert and the half-second automatic save of an uploaded
 * PDF are pending timers that fire as events.
 */
module MemorySaver {

  import opened Wrappers
  import opened Js
  import opened SaveTypes

  // ---------------------------------------------------------------- data

  datatype MemoryKind = Webpage | Pdf

  datatype Memory = Memory(
    title: string,
    bodyText: string,
    links: seq<string>,
    url: string,
    timestamp: int,
    kind: MemoryKind,
    pageCount: Option<nat>)

  /** The uploaded file as the handler sees it, when one was chosen. */
  datatype FileInfo = FileInfo(name: string, mimeType: string)

  /** What the PDF reader returned: the text and the number of pages, or a
      failure. */
  datatype Extraction = Extracted(text: string, pageCount: nat) | ExtractionFailed

  datatype SaverState = SaverState(
    preview: Option<Memory>,
    status: SaveStatus,
    message: string,
    saved: seq<Memory>,
    /** status reverts scheduled and not yet fired */
    pendingReverts: nat,
    /** records of uploaded PDFs waiting for their automatic save, oldest first */
    pendingAutoSaves: seq<Memory>)

  const PdfMimeType := "application/pdf"
  const PdfSuffix := ".pdf"
  const FileUrlScheme := "file://"
  const NoTextPlaceholder := "Could not extract readable text from this PDF"
  const ExtractionFailedMessage := "Failed to extract text from PDF"

  const UntitledPage := "Untitled Page"
  const MaxPreviewText := 1000

  /** The panel's own `scrapePage`, on what the document holds: its title,
      or a placeholder when the title is empty; the first 1000 characters
      of the body text; every link of the document, http or not; the page
      url and the current time. */
  function ScrapeCurrentPage(title: string, bodyText: string, links: seq<string>, url: string, now: int): (m: Memory)
    ensures m.title != "" && (title != "" ==> m.title == title)
    ensures m.bodyText <= bodyText
    ensures |m.bodyText| == if |bodyText| <= MaxPreviewText then |bodyText| else MaxPreviewText
    ensures m.links == links && m.url == url && m.timestamp == now
    ensures m.kind == Webpage && m.pageCount.None?
  {
    Memory(if title == "" then UntitledPage else title, Prefix(bodyText, MaxPreviewText),
           links, url, now, Webpage, None)
  }

  /** The panel right after its mount effect stored the scraped page. */
  function Mounted(page: Memory): (s: SaverState)
    ensures s.preview == Some(page) && s.status == Idle && s.saved == []
    ensures s.pendingReverts == 0 && s.pendingAutoSaves == []
  {
    SaverState(Some(page), Idle, "", [], 0, [])
  }

  // ---------------------------------------------------------------- the saved list

  /** The key under which the list considers two memories the same. */
  predicate SameEntry(a: Memory, b: Memory) {
    a.url == b.url && a.timestamp == b.timestamp
  }

  predicate AlreadySaved(saved: seq<Memory>, m: Memory) {
    exists i :: 0 <= i < |saved| && SameEntry(saved[i], m)
  }

  predicate UniqueEntries(saved: seq<Memory>) {
    forall i, j :: 0 <= i < j < |saved| ==> !SameEntry(saved[i], saved[j])
  }

  /** The updater passed to the list setter on a successful save: prepend
      unless an entry with the same url and timestamp is there. */
  function AddNewest(saved: seq<Memory>, m: Memory): seq<Memory> {
    if AlreadySaved(saved, m) then saved else [m] + saved
  }

  /** After adding, the memory is in the list, which changed only by
      getting the memory in front, and only if it was missing. */
  lemma AddNewestHolds(saved: seq<Memory>, m: Memory)
    ensures AlreadySaved(AddNewest(saved, m), m)
    ensures AddNewest(saved, m) == (if AlreadySaved(saved, m) then saved else [m] + saved)
  {
    if !AlreadySaved(saved, m) {
      assert SameEntry(AddNewest(saved, m)[0], m);
    }
  }

  /** Adding keeps the entries unique. */
  lemma AddNewestKeepsUnique(saved: seq<Memory>, m: Memory)
    requires UniqueEntries(saved)
    ensures UniqueEntries(AddNewest(saved, m))
  {
    var r := AddNewest(saved, m);
    if !AlreadySaved(saved, m) {
      forall i, j | 0 <= i < j < |r| ensures !SameEntry(r[i], r[j]) {
        if i == 0 {
          assert r[j] == saved[j - 1];
        } else {
          assert r[i] == saved[i - 1] && r[j] == saved[j - 1];
        }
      }
    }
  }

  /** Adding the same memory twice adds it once. */
  lemma AddNewestIdempotent(saved: seq<Memory>, m: Memory)
    ensures AddNewest(AddNewest(saved, m), m) == AddNewest(saved, m)
  {
    var r := AddNewest(saved, m);
    assert SameEntry(m, m);
    if !AlreadySaved(saved, m) {
      assert SameEntry(r[0], m);
    }
  }

  // ---------------------------------------------------------------- transitions

  /** `handleSave`, with `outcome` the collaborator's answer. Without a
      preview nothing happens; otherwise the status follows the answer, the
      message is the answer's message, a successful answer adds the preview,
      and a revert is scheduled whatever happened. */
  function Save(s: SaverState, outcome: SaveOutcome): SaverState {
    if s.preview.None? then s
    else
      var p := s.preview.value;
      match outcome
      case Responded(status, message) =>
        s.(status := if status == SuccessStatus then Success else Error,
           message := message,
           saved := if status == SuccessStatus then AddNewest(s.saved, p) else s.saved,
           pendingReverts := s.pendingReverts + 1)
      case Threw(message) =>
        s.(status := Error, message := message, pendingReverts := s.pendingReverts + 1)
  }

  /** A pending 3-second revert fires: the status returns to idle, the
      message stays. */
  function RevertFires(s: SaverState): SaverState {
    if s.pendingReverts == 0 then s
    else s.(status := Idle, pendingReverts := s.pendingReverts - 1)
  }

  /** The file is refused (and the user alerted): none was chosen, or it is
      not a PDF. */
  predicate UploadRejected(file: Option<FileInfo>) {
    file.None? || file.value.mimeType != PdfMimeType
  }

  /** The memory built from an uploaded PDF. */
  function PdfRecord(name: string, text: string, pageCount: nat, now: int): (m: Memory)
    ensures m.links == [] && m.kind == Pdf && m.pageCount == Some(pageCount) && m.timestamp == now
    ensures m.url == FileUrlScheme + name && m.url[|FileUrlScheme|..] == name
    ensures m.bodyText != "" && (text != "" ==> m.bodyText == text)
  {
    Memory(ReplaceFirst(name, PdfSuffix, ""),
           if text == "" then NoTextPlaceholder else text,
           [], FileUrlScheme + name, now, Pdf, Some(pageCount))
  }

  /** The title of a file named `<stem>.pdf` with no other ".pdf" in its
      name is the stem. */
  lemma PdfTitleDropsSuffix(name: string, text: string, pageCount: nat, now: int)
    requires |name| >= |PdfSuffix| && name[|name| - |PdfSuffix|..] == PdfSuffix
    requires forall j :: 0 <= j < |name| - |PdfSuffix| ==> !OccursAt(name, PdfSuffix, j)
    ensures PdfRecord(name, text, pageCount, now).title == name[..|name| - |PdfSuffix|]
  {
    ReplaceOnlySuffix(name, PdfSuffix);
  }

  /** `Extracted text from N page(s)` */
  function ExtractedMessage(pageCount: nat): string {
    "Extracted text from " + NatToString(pageCount) + " page(s)"
  }

  /** `handlePDFUpload` for the chosen `file`, what the reader returned, and
      the time `now`. */
  function PdfUpload(s: SaverState, file: Option<FileInfo>, extraction: Extraction, now: int): SaverState {
    if UploadRejected(file) then s
    else match extraction
      case Extracted(text, pageCount) =>
        var m := PdfRecord(file.value.name, text, pageCount, now);
        s.(preview := Some(m), status := Success, message := ExtractedMessage(pageCount),
           pendingAutoSaves := s.pendingAutoSaves + [m])
      case ExtractionFailed =>
        s.(status := Error, message := ExtractionFailedMessage)
  }

  /** The oldest pending automatic save fires, as written: a successful
      answer puts the record in front of the list, without the check that
      `handleSave` makes. */
  function AutoSaveFiresAsWritten(s: SaverState, outcome: SaveOutcome): SaverState {
    if s.pendingAutoSaves == [] then s
    else
      var m := s.pendingAutoSaves[0];
      s.(pendingAutoSaves := s.pendingAutoSaves[1..],
         saved := if outcome == Responded(SuccessStatus, outcome.message) then [m] + s.saved else s.saved)
  }

  /** The automatic save with the same check as `handleSave`. */
  function AutoSaveFires(s: SaverState, outcome: SaveOutcome): SaverState {
    if s.pendingAutoSaves == [] then s
    else
      var m := s.pendingAutoSaves[0];
      s.(pendingAutoSaves := s.pendingAutoSaves[1..],
         saved := if outcome == Responded(SuccessStatus, outcome.message) then AddNewest(s.saved, m) else s.saved)
  }

  /** What the panel's own `saveMemoryToAPI` answers, after a one-second
      delay, whatever it is given. */
  const ShippedAnswer := Responded(SuccessStatus, "Memory saved successfully!")

  // ---------------------------------------------------------------- properties

  /** With the collaborator the panel ships with, a save with a preview
      always succeeds, stores the preview and reports the fixed message. */
  lemma ShippedSaveSucceeds(s: SaverState)
    requires s.preview.Some?
    ensures Save(s, ShippedAnswer).status == Success
    ensures Save(s, ShippedAnswer).message == ShippedAnswer.message
    ensures AlreadySaved(Save(s, ShippedAnswer).saved, s.preview.value)
  {
    AddNewestHolds(s.saved, s.preview.value);
  }

  /** Without a preview the button does nothing: no status change and no
      revert. */
  lemma SaveWithoutPreview(s: SaverState, o: SaveOutcome)
    requires s.preview.None?
    ensures Save(s, o) == s
  {
  }

  /** What the button leads to: the status is success exactly when the
      collaborator answered "success", the message is the answer's or the
      error's, a revert is scheduled on every path, only a successful
      answer can change the list, and then it holds the preview. */
  lemma SaveOutcomes(s: SaverState, o: SaveOutcome)
    requires s.preview.Some?
    ensures Save(s, o).status == Success <==> o == Responded(SuccessStatus, o.message)
    ensures Save(s, o).status != Success ==> Save(s, o).status == Error && Save(s, o).saved == s.saved
    ensures Save(s, o).message == o.message
    ensures Save(s, o).pendingReverts == s.pendingReverts + 1
    ensures Save(s, o).status == Success ==> AlreadySaved(Save(s, o).saved, s.preview.value)
    ensures Save(s, o).preview == s.preview && Save(s, o).pendingAutoSaves == s.pendingAutoSaves
  {
    if o.Responded? && o.status == SuccessStatus {
      AddNewestHolds(s.saved, s.preview.value);
    }
  }

  /** Saving the same preview twice successfully stores it once. */
  lemma {:induction false} SaveTwiceOnce(s: SaverState, msg1: string, msg2: string)
    requires s.preview.Some?
    ensures Save(Save(s, Responded(SuccessStatus, msg1)), Responded(SuccessStatus, msg2)).saved
            == Save(s, Responded(SuccessStatus, msg1)).saved
  {
    AddNewestIdempotent(s.saved, s.preview.value);
  }

  /** A rejected file changes nothing; an accepted one either records the
      new PDF as preview and queues its automatic save, or reports the
      extraction failure. The saved list is untouched either way. */
  lemma PdfUploadOutcomes(s: SaverState, file: Option<FileInfo>, e: Extraction, now: int)
    ensures UploadRejected(file) ==> PdfUpload(s, file, e, now) == s
    ensures PdfUpload(s, file, e, now).saved == s.saved
    ensures !UploadRejected(file) && e.Extracted? ==>
              && PdfUpload(s, file, e, now).status == Success
              && PdfUpload(s, file, e, now).preview == Some(PdfRecord(file.value.name, e.text, e.pageCount, now))
              && PdfUpload(s, file, e, now).pendingAutoSaves == s.pendingAutoSaves + [PdfUpload(s, file, e, now).preview.value]
    ensures !UploadRejected(file) && e.ExtractionFailed? ==>
              PdfUpload(s, file, e, now) == s.(status := Error, message := ExtractionFailedMessage)
  {
  }

  /** The message reports the page count the reader gave. */
  lemma ExtractedMessageCount(pageCount: nat)
    ensures |ExtractedMessage(pageCount)| > 28
    ensures var d := ExtractedMessage(pageCount)[20..|ExtractedMessage(pageCount)| - 8];
            (forall i :: 0 <= i < |d| ==> IsDigit(d[i])) && DigitsValue(d) == pageCount
  {
    var d := NatToString(pageCount);
    assert ExtractedMessage(pageCount)[20..|ExtractedMessage(pageCount)| - 8] == d;
    NatToStringRoundTrip(pageCount);
  }

  /** Finding: the automatic save adds a PDF that the save button already
      stored. After an upload, a successful click on the save button (the
      uploaded record is the preview) and then the automatic save leave two
      entries with the same url and timestamp. */
  lemma AutoSaveAsWrittenDuplicates(s: SaverState, name: string, text: string, pageCount: nat, now: int, msg: string)
    requires s.pendingAutoSaves == []
    ensures var s1 := PdfUpload(s, Some(FileInfo(name, PdfMimeType)), Extracted(text, pageCount), now);
            var s2 := Save(s1, Responded(SuccessStatus, msg));
            var s3 := AutoSaveFiresAsWritten(s2, Responded(SuccessStatus, msg));
            (UniqueEntries(s.saved) ==> UniqueEntries(s2.saved)) && !UniqueEntries(s3.saved)
  {
    var m := PdfRecord(name, text, pageCount, now);
    var s1 := PdfUpload(s, Some(FileInfo(name, PdfMimeType)), Extracted(text, pageCount), now);
    var s2 := Save(s1, Responded(SuccessStatus, msg));
    var s3 := AutoSaveFiresAsWritten(s2, Responded(SuccessStatus, msg));
    assert s1.pendingAutoSaves == [m] && s1.preview == Some(m);
    if UniqueEntries(s.saved) {
      AddNewestKeepsUnique(s.saved, m);
    }
    assert AlreadySaved(s2.saved, m) by { AddNewestHolds(s.saved, m); }
    var i :| 0 <= i < |s2.saved| && SameEntry(s2.saved[i], m);
    assert s3.saved == [m] + s2.saved;
    assert SameEntry(s3.saved[0], s3.saved[i + 1]);
  }

  /** The automatic save, corrected, keeps the list free of duplicates and
      still adds the record on success. */
  lemma AutoSaveKeepsUnique(s: SaverState, o: SaveOutcome)
    requires UniqueEntries(s.saved) && s.pendingAutoSaves != []
    ensures UniqueEntries(AutoSaveFires(s, o).saved)
    ensures o == Responded(SuccessStatus, o.message) ==> AlreadySaved(AutoSaveFires(s, o).saved, s.pendingAutoSaves[0])
    ensures o != Responded(SuccessStatus, o.message) ==> AutoSaveFires(s, o).saved == s.saved
    ensures AutoSaveFires(s, o).pendingAutoSaves == s.pendingAutoSaves[1..]
  {
    AddNewestKeepsUnique(s.saved, s.pendingAutoSaves[0]);
    AddNewestHolds(s.saved, s.pendingAutoSaves[0]);
  }

  // ---------------------------------------------------------------- runs

  datatype Event =
    | SaveClick(outcome: SaveOutcome)
    | Upload(file: Option<FileInfo>, extraction: Extraction, now: int)
    | RevertTimer
    | AutoSaveTimer(outcome: SaveOutcome)

  function Step(s: SaverState, ev: Event): SaverState {
    match ev
    case SaveClick(o) => Save(s, o)
    case Upload(f, e, now) => PdfUpload(s, f, e, now)
    case RevertTimer => RevertFires(s)
    case AutoSaveTimer(o) => AutoSaveFires(s, o)
  }

  function Run(s: SaverState, evs: seq<Event>): SaverState
    decreases |evs|
  {
    if evs == [] then s else Run(Step(s, evs[0]), evs[1..])
  }

  /** Whatever the user does and whatever the collaborators answer, no two
      saved memories share a url and a timestamp. */
  lemma {:induction false} RunKeepsUnique(s: SaverState, evs: seq<Event>)
    requires UniqueEntries(s.saved)
    ensures UniqueEntries(Run(s, evs).saved)
    decreases |evs|
  {
    if evs != [] {
      var s' := Step(s, evs[0]);
      match evs[0] {
        case SaveClick(o) =>
          if s.preview.Some? { AddNewestKeepsUnique(s.saved, s.preview.value); }
        case Upload(f, e, now) =>
        case RevertTimer =>
        case AutoSaveTimer(o) =>
          if s.pendingAutoSaves != [] { AutoSaveKeepsUnique(s, o); }
      }
      RunKeepsUnique(s', evs[1..]);
    }
  }

  /** `b` ends with `a`: `b` is `a` with elements added at the front. */
  predicate EndsWith(b: seq<Memory>, a: seq<Memory>) {
    |a| <= |b| && a == b[|b| - |a|..]
  }

  lemma EndsWithTrans(c: seq<Memory>, b: seq<Memory>, a: seq<Memory>)
    requires EndsWith(c, b) && EndsWith(b, a)
    ensures EndsWith(c, a)
  {
    assert c[|c| - |a|..] == c[|c| - |b|..][|b| - |a|..];
  }

  lemma EndsWithSelfOrCons(b: seq<Memory>, a: seq<Memory>)
    requires b == a || (|b| > 0 && b == [b[0]] + a)
    ensures EndsWith(b, a)
  {
    if b != a {
      assert b[1..] == a;
    }
  }

  /** One event leaves the list alone or adds one memory at the front. */
  lemma StepPrepends(s: SaverState, ev: Event)
    ensures EndsWith(Step(s, ev).saved, s.saved)
  {
    var t := Step(s, ev).saved;
    assert t == s.saved || (|t| > 0 && t == [t[0]] + s.saved) by {
      match ev
      case SaveClick(o) =>
        if s.preview.Some? { AddNewestHolds(s.saved, s.preview.value); }
      case Upload(f, e, now) =>
      case RevertTimer =>
      case AutoSaveTimer(o) =>
        if s.pendingAutoSaves != [] { AddNewestHolds(s.saved, s.pendingAutoSaves[0]); }
    }
    EndsWithSelfOrCons(t, s.saved);
  }

  /** The list only grows, and only at the front. */
  lemma {:induction false} RunOnlyPrepends(s: SaverState, evs: seq<Event>)
    ensures |s.saved| <= |Run(s, evs).saved|
    ensures s.saved == Run(s, evs).saved[|Run(s, evs).saved| - |s.saved|..]
    decreases |evs|
  {
    if evs != [] {
      var s' := Step(s, evs[0]);
      StepPrepends(s, evs[0]);
      RunOnlyPrepends(s', evs[1..]);
      EndsWithTrans(Run(s', evs[1..]).saved, s'.saved, s.saved);
    }
  }

  /** The same events for the program as written, whose automatic save
      prepends without the check (line 163). */
  function StepAsWritten(s: SaverState, ev: Event): SaverState {
    match ev
    case SaveClick(o) => Save(s, o)
    case Upload(f, e, now) => PdfUpload(s, f, e, now)
    case RevertTimer => RevertFires(s)
    case AutoSaveTimer(o) => AutoSaveFiresAsWritten(s, o)
  }

  function RunAsWritten(s: SaverState, evs: seq<Event>): SaverState
    decreases |evs|
  {
    if evs == [] then s else RunAsWritten(StepAsWritten(s, evs[0]), evs[1..])
  }

  lemma StepAsWrittenPrepends(s: SaverState, ev: Event)
    ensures EndsWith(StepAsWritten(s, ev).saved, s.saved)
  {
    match ev
    case AutoSaveTimer(o) =>
      var t := StepAsWritten(s, ev).saved;
      if t != s.saved { assert t == [s.pendingAutoSaves[0]] + s.saved; }
      EndsWithSelfOrCons(t, s.saved);
    case _ => StepPrepends(s, ev);
  }

  /** As written too, the list only grows, and only at the front; only its
      uniqueness is lost. */
  lemma {:induction false} RunAsWrittenOnlyPrepends(s: SaverState, evs: seq<Event>)
    ensures |s.saved| <= |RunAsWritten(s, evs).saved|
    ensures s.saved == RunAsWritten(s, evs).saved[|RunAsWritten(s, evs).saved| - |s.saved|..]
    decreases |evs|
  {
    if evs != [] {
      var s' := StepAsWritten(s, evs[0]);
      StepAsWrittenPrepends(s, evs[0]);
      RunAsWrittenOnlyPrepends(s', evs[1..]);
      EndsWithTrans(RunAsWritten(s', evs[1..]).saved, s'.saved, s.saved);
    }
  }

  // ---------------------------------------------------------------- the component

  class Panel {
    var preview: Option<Memory>
    var status: SaveStatus
    var message: string
    var savedItems: seq<Memory>
    var pendingReverts: nat
    var pendingAutoSaves: seq<Memory>

    ghost function State(): SaverState
      reads this
    {
      SaverState(preview, status, message, savedItems, pendingReverts, pendingAutoSaves)
    }

    ghost predicate Valid()
      reads this
    {
      UniqueEntries(savedItems)
    }

    /** Mounting the panel; its effect scrapes the document and stores the
        result as the preview. */
    constructor (title: string, bodyText: string, links: seq<string>, url: string, now: int)
      ensures Valid() && State() == Mounted(ScrapeCurrentPage(title, bodyText, links, url, now))
    {
      preview := Some(ScrapeCurrentPage(title, bodyText, links, url, now));
      status := Idle;
      message := "";
      savedItems := [];
      pendingReverts := 0;
      pendingAutoSaves := [];
    }

    /** `handleSave`; `apiCalled` says whether the collaborator was called. */
    method HandleSave(outcome: SaveOutcome) returns (apiCalled: bool)
      requires Valid()
      modifies this
      ensures Valid() && State() == Save(old(State()), outcome)
      ensures apiCalled == old(preview).Some?
    {
      if preview.None? {
        return false;
      }
      var p := preview.value;
      status := Saving;
      apiCalled := true;
      match outcome {
        case Responded(st, msg) =>
          var success := st == SuccessStatus;
          status := if success then Success else Error;
          message := msg;
          if success {
            AddNewestKeepsUnique(savedItems, p);
            savedItems := AddNewest(savedItems, p);
          }
        case Threw(msg) =>
          status := Error;
          message := msg;
      }
      pendingReverts := pendingReverts + 1;
    }

    method RevertTimerFires()
      requires Valid()
      modifies this
      ensures Valid() && State() == RevertFires(old(State()))
    {
      if pendingReverts > 0 {
        pendingReverts := pendingReverts - 1;
        status := Idle;
      }
    }

    /** `handlePDFUpload`; `rejected` is the alert for a missing or non-PDF
        file. */
    method HandlePdfUpload(file: Option<FileInfo>, extraction: Extraction, now: int) returns (rejected: bool)
      requires Valid()
      modifies this
      ensures Valid() && State() == PdfUpload(old(State()), file, extraction, now)
      ensures rejected == UploadRejected(file)
    {
      if file.None? || file.value.mimeType != PdfMimeType {
        return true;
      }
      rejected := false;
      status := Saving;
      message := "Extracting text from PDF...";
      match extraction {
        case Extracted(text, pageCount) =>
          var record := PdfRecord(file.value.name, text, pageCount, now);
          preview := Some(record);
          status := Success;
          message := ExtractedMessage(pageCount);
          pendingAutoSaves := pendingAutoSaves + [record];
        case ExtractionFailed =>
          status := Error;
          message := ExtractionFailedMessage;
      }
    }

    /** The oldest automatic save fires and the collaborator answers. */
    method AutoSaveTimerFires(outcome: SaveOutcome)
      requires Valid()
      modifies this
      ensures Valid() && State() == AutoSaveFires(old(State()), outcome)
    {
      if pendingAutoSaves != [] {
        AutoSaveKeepsUnique(State(), outcome);
        var record := pendingAutoSaves[0];
        pendingAutoSaves := pendingAutoSaves[1..];
        if outcome == Responded(SuccessStatus, outcome.message) {
          savedItems := AddNewest(savedItems, record);
        }
      }
    }
  }
}
