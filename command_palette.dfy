/**
 * The command palette component (ghost-ui/src/components/CommandPalette.tsx)
 * and the chat panel embedded in it, as objects whose handlers update their
 * fields step by step, in the order the source's state setters run. Each
 * handler is proved to follow the matching transition of PaletteModel and
 * to keep the palette's invariant.
 */
module CommandPalette {

  import opened Wrappers
  import opened Js
  import opened SaveTypes
  import opened PaletteModel

  class Palette {
    var isOpen: bool
    var activeTab: int
    var highlightedIndex: int
    var query: string
    var scrapedPreview: Option<ScrapedMemory>
    var savedMemories: seq<ScrapedMemory>
    var saveStatus: SaveStatus
    var saveMessage: string
    var position: Point
    var isDragging: bool
    var dragStart: Point
    /** The 3-second revert timers not yet fired, oldest first. */
    var pendingReverts: seq<Revert>

    ghost function State(): PaletteState
      reads this
    {
      PaletteState(isOpen, activeTab, highlightedIndex, query, scrapedPreview, savedMemories,
                   saveStatus, saveMessage, position, isDragging, dragStart, pendingReverts)
    }

    ghost predicate Valid()
      reads this
    {
      Inv(State())
    }

    constructor ()
      ensures Valid() && State() == Initial()
    {
      isOpen := false;
      activeTab := ChatTab;
      highlightedIndex := 0;
      query := "";
      scrapedPreview := None;
      savedMemories := [];
      saveStatus := Idle;
      saveMessage := "";
      position := Point(0, 0);
      isDragging := false;
      dragStart := Point(0, 0);
      pendingReverts := [];
    }

    /** The window `keydown` listener. */
    method HandleKeyDown(e: KeyEvent)
      requires Valid()
      modifies this
      ensures Valid() && State() == KeyDown(old(State()), e)
    {
      // the listener's closure was created with these values
      var wasOpen, tab, count := isOpen, activeTab, ItemCount(activeTab, savedMemories);
      ApplyOpenCloseKeys(e);
      if wasOpen {
        ApplyDigitKeys(e.key);
        ApplyCtrlKeys(e);
        ApplyArrowKeys(e.key, tab, count);
      }
      KeyDownInv(old(State()), e);
    }

    method ApplyOpenCloseKeys(e: KeyEvent)
      modifies this
      ensures State() == OpenCloseKeys(old(State()), e)
    {
      if (e.metaKey || e.ctrlKey) && LowersToK(e.key) {
        isOpen := !isOpen;
      }
      if e.key == "Escape" {
        isOpen := false;
      }
    }

    method ApplyDigitKeys(key: string)
      modifies this
      ensures State() == DigitStage(old(State()), key)
    {
      if InDigitRange(key) {
        activeTab := ParseLeadingInt(key) - 1;
        highlightedIndex := 0;
      }
    }

    method ApplyCtrlKeys(e: KeyEvent)
      modifies this
      ensures State() == NudgeStage(old(State()), e)
    {
      if e.ctrlKey {
        if e.key == "ArrowLeft" {
          position := position.(x := position.x - NudgeStep);
        } else if e.key == "ArrowRight" {
          position := position.(x := position.x + NudgeStep);
        } else if e.key == "ArrowUp" {
          position := position.(y := position.y - NudgeStep);
        } else if e.key == "ArrowDown" {
          position := position.(y := position.y + NudgeStep);
        } else if e.key == "r" {
          position := Point(0, 0);
        }
      }
    }

    method ApplyArrowKeys(key: string, tab: int, count: nat)
      modifies this
      ensures State() == ArrowKeysStage(old(State()), key, tab, count)
    {
      if tab != ChatTab {
        if key == "ArrowDown" && count > 0 {
          highlightedIndex := JsRem(highlightedIndex + 1, count);
        }
        if key == "ArrowUp" && count > 0 {
          highlightedIndex := JsRem(highlightedIndex - 1 + count, count);
        }
      }
    }

    method HandleMouseDown(clientX: int, clientY: int, onHandle: bool)
      requires Valid()
      modifies this
      ensures Valid() && State() == MouseDown(old(State()), clientX, clientY, onHandle)
    {
      if onHandle {
        isDragging := true;
        dragStart := Point(clientX - position.x, clientY - position.y);
      }
    }

    method HandleMouseMove(clientX: int, clientY: int)
      requires Valid()
      modifies this
      ensures Valid() && State() == MouseMove(old(State()), clientX, clientY)
    {
      if isDragging {
        position := Point(clientX - dragStart.x, clientY - dragStart.y);
      }
    }

    method HandleMouseUp()
      requires Valid()
      modifies this
      ensures Valid() && State() == MouseUp(old(State()))
    {
      isDragging := false;
    }

    method HandleQueryChange(text: string)
      requires Valid()
      modifies this
      ensures Valid() && State() == QueryChanged(old(State()), text)
    {
      query := text;
    }

    method HandleTabClick(index: int)
      requires Valid()
      modifies this
      ensures Valid() && State() == TabClick(old(State()), index)
    {
      activeTab := index;
      highlightedIndex := 0;
      query := "";
    }

    method HandleBackdropClick(onBackdrop: bool)
      requires Valid()
      modifies this
      ensures Valid() && State() == BackdropClick(old(State()), onBackdrop)
    {
      if onBackdrop {
        isOpen := false;
      }
    }

    /** The header's close button. */
    method HandleCloseClick()
      requires Valid()
      modifies this
      ensures Valid() && State() == CloseClick(old(State()))
    {
      isOpen := false;
    }

    /** The effect run when `isOpen` or `activeTab` changes. */
    method RunScrapeEffect(page: ScrapedMemory)
      requires Valid()
      modifies this
      ensures Valid() && State() == ScrapeEffect(old(State()), page)
    {
      if isOpen && activeTab == MemoryTab {
        scrapedPreview := Some(page);
      }
    }

    /** `handleSaveMemory`; `outcome` is what the save collaborator does if
        it is called, and `apiCalled` says whether it was. */
    method HandleSaveMemory(outcome: SaveOutcome) returns (apiCalled: bool)
      requires Valid()
      modifies this
      ensures Valid() && State() == Save(old(State()), outcome)
      ensures apiCalled == SaveCallsApi(old(State()))
    {
      if scrapedPreview.None? {
        return false;
      }
      var preview := scrapedPreview.value;
      if UrlSaved(savedMemories, preview.url) {
        saveStatus := Error;
        saveMessage := DuplicateMessage;
        pendingReverts := pendingReverts + [StatusOnly];
        return false;
      }
      saveStatus := Saving;
      saveMessage := "";
      apiCalled := true;
      match outcome {
        case Responded(status, message) =>
          if status == SuccessStatus {
            savedMemories := savedMemories + [preview];
            saveStatus := Success;
            saveMessage := message;
          } else {
            saveStatus := Error;
            saveMessage := if message == "" then UnknownErrorMessage else message;
          }
        case Threw(message) =>
          saveStatus := Error;
          saveMessage := message;
      }
      pendingReverts := pendingReverts + [StatusAndMessage];
      SaveInv(old(State()), outcome);
    }

    /** The oldest pending 3-second timer fires. */
    method RevertTimerFires()
      requires Valid()
      modifies this
      ensures Valid() && State() == RevertFires(old(State()))
    {
      if pendingReverts != [] {
        var kind := pendingReverts[0];
        pendingReverts := pendingReverts[1..];
        saveStatus := Idle;
        if kind == StatusAndMessage {
          saveMessage := "";
        }
      }
    }
  }

  /** The chat panel shown on the palette's Chat tab. */
  class RagChat {
    var messages: seq<ChatMessage>
    var input: string
    var loading: bool

    ghost function State(): ChatState
      reads this
    {
      ChatState(messages, input, loading)
    }

    constructor ()
      ensures State() == InitialChat
    {
      messages, input, loading := [], "", false;
    }

    method SetInput(text: string)
      modifies this
      ensures State() == ChatTyped(old(State()), text)
    {
      input := text;
    }

    /** `sendMessage`; `outcome` is what the query collaborator does if it is
        called, and `question` is what it was asked, if anything. */
    method SendMessage(outcome: QueryOutcome) returns (question: Option<string>)
      modifies this
      ensures State() == ChatSend(old(State()), outcome)
      ensures question == if Trim(old(input)) == "" then None else Some(Trim(old(input)))
    {
      if Trim(input) == "" {
        return None;
      }
      ghost var start := State();
      var typed, before := Trim(input), messages;
      var userMessage := ChatMessage(User, typed, None, None, None);
      var reply := BotReply(outcome);
      messages := messages + [userMessage];
      loading := true;
      input := "";
      question := Some(typed);
      messages := messages + [reply];
      loading := false;
      assert messages == before + [userMessage, reply];
      assert ChatSend(start, outcome) == ChatState(before + [userMessage, reply], "", false);
    }

    method HandleKeyDown(key: string, shiftKey: bool, outcome: QueryOutcome) returns (question: Option<string>)
      modifies this
      ensures State() == ChatKeyDown(old(State()), key, shiftKey, outcome)
    {
      question := None;
      if key == "Enter" && !shiftKey {
        question := SendMessage(outcome);
      }
    }
  }
}
