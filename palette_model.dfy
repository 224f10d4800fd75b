/**
 * The command palette's control state (ghost-ui/src/components/CommandPalette.tsx)
 * as a value, with one transition function per event the component reacts
 * to. The component class in module CommandPalette keeps the same state in
 * fields and is proved to follow these functions; the lemmas here state
 * what the transitions guarantee.
 *
 * Timer expiries and the answers of the save collaborator are events and
 * inputs: a pending 3-second revert is an entry of `pendingReverts`, all such
 * timers have the same delay and so fire in the order they were set.
 */
module PaletteModel {

  import opened Wrappers
  import opened Js
  import opened SaveTypes

  // ---------------------------------------------------------------- data

  datatype Point = Point(x: int, y: int)

  /** A page snapshot as the palette holds it. */
  datatype ScrapedMemory = ScrapedMemory(
    title: string, bodyText: string, links: seq<string>, url: string, timestamp: int)

  /** The fields of a `keydown` event the handler looks at. */
  datatype KeyEvent = KeyEvent(key: string, metaKey: bool, ctrlKey: bool)

  /** What a pending revert timer resets: the duplicate path resets only the
      status, the path through the collaborator resets status and message. */
  datatype Revert = StatusOnly | StatusAndMessage

  datatype PaletteState = PaletteState(
    isOpen: bool,
    activeTab: int,
    highlightedIndex: int,
    query: string,
    scrapedPreview: Option<ScrapedMemory>,
    savedMemories: seq<ScrapedMemory>,
    saveStatus: SaveStatus,
    saveMessage: string,
    position: Point,
    isDragging: bool,
    dragStart: Point,
    pendingReverts: seq<Revert>)

  const MemoryTab := 0
  const AskTab := 1
  const ChatTab := 2
  /** The Ask tab lists a fixed set of five suggestions. */
  const AskItemCount := 5
  /** Pixels moved by one Ctrl+Arrow nudge. */
  const NudgeStep := 20
  const DuplicateMessage := "This page is already saved in memory"
  const UnknownErrorMessage := "Unknown error occurred"

  /** The state on first render: closed, on the Chat tab, nothing saved. */
  function Initial(): (s: PaletteState)
    ensures !s.isOpen && s.activeTab == ChatTab && s.highlightedIndex == 0
    ensures s.savedMemories == [] && s.saveStatus == Idle && s.position == Point(0, 0)
  {
    PaletteState(false, ChatTab, 0, "", None, [], Idle, "", Point(0, 0), false, Point(0, 0), [])
  }

  // ---------------------------------------------------------------- invariant

  predicate UrlSaved(saved: seq<ScrapedMemory>, url: string) {
    exists i :: 0 <= i < |saved| && saved[i].url == url
  }

  predicate UniqueUrls(saved: seq<ScrapedMemory>) {
    forall i, j :: 0 <= i < j < |saved| ==> saved[i].url != saved[j].url
  }

  /** Length of the list the active tab shows: the saved memories on the
      Memory tab, the five Ask suggestions on every other tab. */
  function ItemCount(activeTab: int, saved: seq<ScrapedMemory>): nat {
    if activeTab == MemoryTab then |saved| else AskItemCount
  }

  /** The highlight is an index into the visible list, or 0 when the list is
      empty; no two saved memories share a url. */
  predicate Inv(s: PaletteState) {
    && 0 <= s.highlightedIndex
    && (s.highlightedIndex < ItemCount(s.activeTab, s.savedMemories) || s.highlightedIndex == 0)
    && UniqueUrls(s.savedMemories)
  }

  lemma InitialInv()
    ensures Inv(Initial())
  {
  }

  // ---------------------------------------------------------------- keyboard

  /** Cmd/Ctrl + K */
  predicate IsToggleKey(e: KeyEvent) {
    (e.metaKey || e.ctrlKey) && LowersToK(e.key)
  }

  /** The position after a Ctrl+key press. */
  function Nudge(p: Point, key: string): Point {
    if key == "ArrowLeft" then p.(x := p.x - NudgeStep)
    else if key == "ArrowRight" then p.(x := p.x + NudgeStep)
    else if key == "ArrowUp" then p.(y := p.y - NudgeStep)
    else if key == "ArrowDown" then p.(y := p.y + NudgeStep)
    else if key == "r" then Point(0, 0)
    else p
  }

  /** The highlight after an arrow key on a list of `n` items. */
  function Navigate(i: int, key: string, n: nat): int {
    var down := if key == "ArrowDown" && n > 0 then JsRem(i + 1, n) else i;
    if key == "ArrowUp" && n > 0 then JsRem(down - 1 + n, n) else down
  }

  /** The window `keydown` handler. The closure sees the state of the last
      render: `isOpen`, `activeTab` and the item count are read from `s`. */
  function KeyDown(s: PaletteState, e: KeyEvent): PaletteState {
    var toggled := OpenCloseKeys(s, e);
    if !s.isOpen then toggled
    else ArrowKeysStage(NudgeStage(DigitStage(toggled, e.key), e), e.key, s.activeTab,
                        ItemCount(s.activeTab, s.savedMemories))
  }

  /** Cmd/Ctrl+K flips `isOpen`, then Escape clears it. */
  function OpenCloseKeys(s: PaletteState, e: KeyEvent): PaletteState {
    var toggled := if IsToggleKey(e) then s.(isOpen := !s.isOpen) else s;
    if e.key == "Escape" then toggled.(isOpen := false) else toggled
  }

  /** Keys `1`–`3` select a tab and reset the highlight. */
  function DigitStage(s: PaletteState, key: string): PaletteState {
    if InDigitRange(key) then s.(activeTab := ParseLeadingInt(key) - 1, highlightedIndex := 0) else s
  }

  /** Ctrl+key moves the palette. */
  function NudgeStage(s: PaletteState, e: KeyEvent): PaletteState {
    if e.ctrlKey then s.(position := Nudge(s.position, e.key)) else s
  }

  /** Arrow keys move the highlight, except on the Chat tab; `tab` and
      `count` are the values the listener's closure captured. */
  function ArrowKeysStage(s: PaletteState, key: string, tab: int, count: nat): PaletteState {
    if tab != ChatTab then s.(highlightedIndex := Navigate(s.highlightedIndex, key, count)) else s
  }

  // ---------------------------------------------------------------- mouse and clicks

  /** Mouse-down on the palette; `onHandle` says the target is the palette
      itself or lies inside the drag handle. */
  function MouseDown(s: PaletteState, clientX: int, clientY: int, onHandle: bool): PaletteState {
    if onHandle
    then s.(isDragging := true,
            dragStart := Point(clientX - s.position.x, clientY - s.position.y))
    else s
  }

  /** Document mouse-move; the listener is only attached while dragging. */
  function MouseMove(s: PaletteState, clientX: int, clientY: int): PaletteState {
    if s.isDragging
    then s.(position := Point(clientX - s.dragStart.x, clientY - s.dragStart.y))
    else s
  }

  function MouseUp(s: PaletteState): PaletteState {
    s.(isDragging := false)
  }

  /** Typing into the search field. */
  function QueryChanged(s: PaletteState, text: string): PaletteState {
    s.(query := text)
  }

  function TabClick(s: PaletteState, index: int): PaletteState {
    s.(activeTab := index, highlightedIndex := 0, query := "")
  }

  /** A click on the backdrop (`onBackdrop`: the target is the backdrop
      itself, not something inside the palette). */
  function BackdropClick(s: PaletteState, onBackdrop: bool): PaletteState {
    if onBackdrop then s.(isOpen := false) else s
  }

  function CloseClick(s: PaletteState): PaletteState {
    s.(isOpen := false)
  }

  /** The effect that scrapes the page whenever the palette is open on the
      Memory tab; `page` is what the scraper returned. */
  function ScrapeEffect(s: PaletteState, page: ScrapedMemory): PaletteState {
    if s.isOpen && s.activeTab == MemoryTab then s.(scrapedPreview := Some(page)) else s
  }

  // ---------------------------------------------------------------- saving

  /** Does a save of the current preview reach the collaborator? */
  predicate SaveCallsApi(s: PaletteState) {
    s.scrapedPreview.Some? && !UrlSaved(s.savedMemories, s.scrapedPreview.value.url)
  }

  /** `handleSaveMemory` run to completion with the collaborator's outcome.
      The intermediate `saving` status with an empty message is overwritten
      by every path that reaches the collaborator. */
  function Save(s: PaletteState, outcome: SaveOutcome): PaletteState {
    if s.scrapedPreview.None? then s
    else
      var p := s.scrapedPreview.value;
      if UrlSaved(s.savedMemories, p.url)
      then s.(saveStatus := Error, saveMessage := DuplicateMessage,
              pendingReverts := s.pendingReverts + [StatusOnly])
      else
        var finished :=
          match outcome
          case Responded(status, message) =>
            if status == SuccessStatus
            then s.(savedMemories := s.savedMemories + [p], saveStatus := Success, saveMessage := message)
            else s.(saveStatus := Error,
                    saveMessage := if message == "" then UnknownErrorMessage else message)
          case Threw(message) => s.(saveStatus := Error, saveMessage := message);
        finished.(pendingReverts := s.pendingReverts + [StatusAndMessage])
  }

  /** The earliest pending 3-second timer fires. */
  function RevertFires(s: PaletteState): PaletteState {
    if s.pendingReverts == [] then s
    else
      var reverted := s.(saveStatus := Idle, pendingReverts := s.pendingReverts[1..]);
      if s.pendingReverts[0] == StatusAndMessage then reverted.(saveMessage := "") else reverted
  }

  // ---------------------------------------------------------------- all events

  datatype Event =
    | Key(e: KeyEvent)
    | Down(downX: int, downY: int, onHandle: bool)
    | Move(moveX: int, moveY: int)
    | Up
    | TypeQuery(text: string)
    | ClickTab(index: int)
    | ClickBackdrop(onBackdrop: bool)
    | ClickClose
    | Scraped(page: ScrapedMemory)
    | SaveClicked(outcome: SaveOutcome)
    | TimerFires

  function Step(s: PaletteState, ev: Event): PaletteState {
    match ev
    case Key(e) => KeyDown(s, e)
    case Down(x, y, h) => MouseDown(s, x, y, h)
    case Move(x, y) => MouseMove(s, x, y)
    case Up => MouseUp(s)
    case TypeQuery(text) => QueryChanged(s, text)
    case ClickTab(i) => TabClick(s, i)
    case ClickBackdrop(b) => BackdropClick(s, b)
    case ClickClose => CloseClick(s)
    case Scraped(page) => ScrapeEffect(s, page)
    case SaveClicked(o) => Save(s, o)
    case TimerFires => RevertFires(s)
  }

  function Run(s: PaletteState, evs: seq<Event>): PaletteState
    decreases |evs|
  {
    if evs == [] then s else Run(Step(s, evs[0]), evs[1..])
  }

  // ================================================================ lemmas

  // ---------------------------------------------------------------- navigation

  /** Arrow navigation on a non-empty list stays inside it. */
  lemma NavigateInRange(i: int, key: string, n: nat)
    requires n > 0 && 0 <= i
    ensures 0 <= Navigate(i, key, n) < n || (Navigate(i, key, n) == i && key != "ArrowDown" && key != "ArrowUp")
  {
  }

  /** Down wraps from the last item to the first, Up from the first to the
      last, and Down then Up (or Up then Down) returns to where it started. */
  lemma NavigateCircular(i: int, n: nat)
    requires 0 <= i < n
    ensures Navigate(i, "ArrowDown", n) == (if i == n - 1 then 0 else i + 1)
    ensures Navigate(i, "ArrowUp", n) == (if i == 0 then n - 1 else i - 1)
    ensures Navigate(Navigate(i, "ArrowDown", n), "ArrowUp", n) == i
    ensures Navigate(Navigate(i, "ArrowUp", n), "ArrowDown", n) == i
  {
    StepRem(i, n);
    StepRem(if i == n - 1 then 0 else i + 1, n);
    StepRem(if i == 0 then n - 1 else i - 1, n);
  }

  /** The two remainders the arrow keys compute, for an index in range. */
  lemma StepRem(i: int, n: nat)
    requires 0 <= i < n
    ensures JsRem(i + 1, n) == (if i == n - 1 then 0 else i + 1)
    ensures JsRem(i - 1 + n, n) == (if i == 0 then n - 1 else i - 1)
  {
    SmallMod(i + 1, n);
    SmallMod(i - 1 + n, n);
  }

  /** Below twice the divisor, `%` subtracts it at most once. */
  lemma SmallMod(a: int, n: int)
    requires 0 <= a < 2 * n
    ensures a % n == if a < n then a else a - n
  {
  }

  /** On an empty list arrows change nothing. */
  lemma NavigateEmpty(i: int, key: string)
    ensures Navigate(i, key, 0) == i
  {
  }

  /** With the palette open on the Memory or Ask tab, ArrowDown and ArrowUp
      move the highlight circularly over that tab's items (nothing happens on
      an empty list); on the Chat tab the highlight stays put. */
  lemma {:induction false} ArrowKeys(s: PaletteState, e: KeyEvent)
    requires Inv(s) && s.isOpen
    requires e.key == "ArrowDown" || e.key == "ArrowUp"
    ensures var n := ItemCount(s.activeTab, s.savedMemories);
            var i := s.highlightedIndex;
            var t := KeyDown(s, e);
            && t.activeTab == s.activeTab && t.isOpen
            && (s.activeTab == ChatTab || n == 0 ==> t.highlightedIndex == i)
            && (s.activeTab != ChatTab && n > 0 && e.key == "ArrowDown" ==> t.highlightedIndex == (i + 1) % n)
            && (s.activeTab != ChatTab && n > 0 && e.key == "ArrowUp" ==> t.highlightedIndex == (i - 1 + n) % n)
  {
    assert !InDigitRange(e.key) by {
      InDigitRangeShape(e.key);
    }
  }

  // ---------------------------------------------------------------- tabs and toggling

  /** With the palette open, pressing `1`, `2` or `3` selects tab digit − 1
      and puts the highlight on the first item, whatever modifiers are held. */
  lemma {:induction false} DigitSelectsTab(s: PaletteState, d: char, meta: bool, ctrl: bool)
    requires s.isOpen && '1' <= d <= '3'
    ensures var t := KeyDown(s, KeyEvent([d], meta, ctrl));
            t.activeTab == (d as int) - ('1' as int) && t.highlightedIndex == 0 && t.isOpen
            && t.position == s.position && t.savedMemories == s.savedMemories
  {
    var key := [d];
    InDigitRangeShape(key);
    assert LeadingDigits(key) == key by {
      assert key[1..] == [];
    }
    assert key[..0] == [];
  }

  /** Clicking a tab and pressing its digit key (no modifier) select the
      same tab and reset the highlight the same way; only the click also
      clears the search text. */
  lemma {:induction false} TabClickMatchesDigit(s: PaletteState, d: char)
    requires s.isOpen && '1' <= d <= '3'
    ensures KeyDown(s, KeyEvent([d], false, false)) == TabClick(s, (d as int) - ('1' as int)).(query := s.query)
    ensures TabClick(s, (d as int) - ('1' as int)).query == ""
  {
    DigitSelectsTab(s, d, false, false);
  }

  /** While closed, the toggle shortcut opens the palette and every other key
      (Escape included) leaves the state exactly as it was. */
  lemma ClosedKeys(s: PaletteState, e: KeyEvent)
    requires !s.isOpen
    ensures KeyDown(s, e) == s.(isOpen := IsToggleKey(e))
  {
  }

  /** While open, Escape closes the palette and touches nothing else. */
  lemma EscapeCloses(s: PaletteState, meta: bool, ctrl: bool)
    requires s.isOpen
    ensures KeyDown(s, KeyEvent("Escape", meta, ctrl)) == s.(isOpen := false)
  {
    assert !InDigitRange("Escape") by {
      InDigitRangeShape("Escape");
    }
  }

  /** The toggle shortcut flips `isOpen` from either state. */
  lemma ToggleFlips(s: PaletteState, e: KeyEvent)
    requires IsToggleKey(e)
    ensures KeyDown(s, e).isOpen == !s.isOpen
  {
  }

  // ---------------------------------------------------------------- position

  /** Ctrl+Arrow moves exactly one coordinate by the step and leaves the other
      alone; Ctrl+r puts the palette back at the origin. On the Memory and Ask
      tabs Ctrl+ArrowUp/Down also move the highlight, as plain arrows do. */
  lemma {:induction false} CtrlKeys(s: PaletteState, key: string, meta: bool)
    requires s.isOpen
    requires key in {"ArrowLeft", "ArrowRight", "ArrowUp", "ArrowDown", "r"}
    ensures var t := KeyDown(s, KeyEvent(key, meta, true));
            var p := s.position;
            && (key == "r" ==> t.position == Point(0, 0))
            && (key == "ArrowLeft" ==> t.position == Point(p.x - NudgeStep, p.y))
            && (key == "ArrowRight" ==> t.position == Point(p.x + NudgeStep, p.y))
            && (key == "ArrowUp" ==> t.position == Point(p.x, p.y - NudgeStep))
            && (key == "ArrowDown" ==> t.position == Point(p.x, p.y + NudgeStep))
            && t.isOpen == s.isOpen && t.activeTab == s.activeTab
            && t.highlightedIndex ==
                 (if s.activeTab == ChatTab then s.highlightedIndex
                  else Navigate(s.highlightedIndex, key, ItemCount(s.activeTab, s.savedMemories)))
  {
    assert !InDigitRange(key) by {
      InDigitRangeShape(key);
    }
    assert !LowersToK(key);
  }

  /** After any sequence of events, a Ctrl+r keypress on the open palette puts
      it exactly at the origin. */
  lemma ResetAfterAnything(s: PaletteState, evs: seq<Event>, meta: bool)
    requires Run(s, evs).isOpen
    ensures KeyDown(Run(s, evs), KeyEvent("r", meta, true)).position == Point(0, 0)
  {
    CtrlKeys(Run(s, evs), "r", meta);
  }

  // ---------------------------------------------------------------- dragging

  /** While dragging, the palette keeps the offset it had from the cursor at
      mouse-down: moving the cursor by (dx, dy) moves the palette by (dx, dy);
      moving back to the mouse-down point leaves the position unchanged. */
  lemma DragFollowsCursor(s: PaletteState, x0: int, y0: int, x1: int, y1: int)
    ensures var t := MouseMove(MouseDown(s, x0, y0, true), x1, y1);
            t.isDragging && t.position == Point(s.position.x + (x1 - x0), s.position.y + (y1 - y0))
    ensures MouseMove(MouseDown(s, x0, y0, true), x0, y0).position == s.position
  {
  }

  /** After mouse-up, moving the mouse no longer moves the palette. */
  lemma NoDragAfterUp(s: PaletteState, x: int, y: int)
    ensures MouseMove(MouseUp(s), x, y) == MouseUp(s)
    ensures !MouseUp(s).isDragging
  {
  }

  // ---------------------------------------------------------------- saving

  /** No preview: saving does nothing and calls nobody. */
  lemma SaveWithoutPreview(s: PaletteState, o: SaveOutcome)
    requires s.scrapedPreview.None?
    ensures Save(s, o) == s && !SaveCallsApi(s)
  {
  }

  /** A preview whose url is already saved is rejected before the
      collaborator is called: the list stays, the status is `error`, and a
      status-only revert is scheduled. */
  lemma SaveDuplicate(s: PaletteState, o: SaveOutcome)
    requires s.scrapedPreview.Some? && UrlSaved(s.savedMemories, s.scrapedPreview.value.url)
    ensures var t := Save(s, o);
            && !SaveCallsApi(s)
            && t.savedMemories == s.savedMemories
            && t.saveStatus == Error && t.saveMessage == DuplicateMessage
            && t.pendingReverts == s.pendingReverts + [StatusOnly]
  {
  }

  /** Only a collaborator answer with status "success" adds the preview, at
      the end; every other outcome gives `error` with a message and leaves the
      list as it was. Either way a full revert is scheduled. */
  lemma SaveOutcomes(s: PaletteState, o: SaveOutcome)
    requires SaveCallsApi(s)
    ensures var t := Save(s, o);
            var p := s.scrapedPreview.value;
            && t.pendingReverts == s.pendingReverts + [StatusAndMessage]
            && (o.Responded? && o.status == SuccessStatus ==>
                  t.savedMemories == s.savedMemories + [p] && t.saveStatus == Success && t.saveMessage == o.message)
            && (o.Responded? && o.status != SuccessStatus ==>
                  && t.savedMemories == s.savedMemories && t.saveStatus == Error
                  && t.saveMessage == (if o.message == "" then UnknownErrorMessage else o.message))
            && (o.Threw? ==>
                  t.savedMemories == s.savedMemories && t.saveStatus == Error && t.saveMessage == o.message)
  {
  }

  /** Saving the same page twice leaves exactly one entry with its url, and
      the second attempt reaches `error` without calling the collaborator. */
  lemma {:induction false} SaveTwice(s: PaletteState, o1: SaveOutcome, o2: SaveOutcome)
    requires Inv(s) && SaveCallsApi(s)
    requires o1 == Responded(SuccessStatus, o1.message)
    ensures var t := Save(s, o1);
            var url := s.scrapedPreview.value.url;
            && !SaveCallsApi(t)
            && Save(t, o2).saveStatus == Error
            && Save(t, o2).savedMemories == t.savedMemories
            && |set i | 0 <= i < |t.savedMemories| && t.savedMemories[i].url == url| == 1
  {
    var t := Save(s, o1);
    var url := s.scrapedPreview.value.url;
    var m := t.savedMemories;
    var last := |m| - 1;
    assert m[last].url == url;
    assert UrlSaved(m, url);
    assert (set i | 0 <= i < |m| && m[i].url == url) == {last} by {
      forall i | 0 <= i < |m| && m[i].url == url ensures i == last {
      }
    }
  }

  /** After a save with no other timer pending, the next timer expiry brings
      the status back to `idle`. */
  lemma SaveThenRevert(s: PaletteState, o: SaveOutcome)
    requires s.scrapedPreview.Some? && s.pendingReverts == []
    ensures RevertFires(Save(s, o)).saveStatus == Idle
    ensures RevertFires(Save(s, o)).pendingReverts == []
  {
  }

  // ---------------------------------------------------------------- invariant preservation

  lemma {:induction false} KeyDownInv(s: PaletteState, e: KeyEvent)
    requires Inv(s)
    ensures Inv(KeyDown(s, e))
  {
    var a := OpenCloseKeys(s, e);
    assert a == s.(isOpen := a.isOpen);
    if s.isOpen {
      var n := ItemCount(s.activeTab, s.savedMemories);
      var c := NudgeStage(DigitStage(a, e.key), e);
      if InDigitRange(e.key) {
        assert c.highlightedIndex == 0 && c.savedMemories == s.savedMemories;
      } else {
        assert c == s.(isOpen := a.isOpen, position := c.position);
        if s.activeTab != ChatTab && n > 0 {
          NavigateInRange(s.highlightedIndex, e.key, n);
        }
      }
    }
  }

  lemma {:induction false} SaveInv(s: PaletteState, o: SaveOutcome)
    requires Inv(s)
    ensures Inv(Save(s, o))
  {
    if SaveCallsApi(s) && o.Responded? && o.status == SuccessStatus {
      var p := s.scrapedPreview.value;
      var m := s.savedMemories + [p];
      forall i, j | 0 <= i < j < |m| ensures m[i].url != m[j].url {
        if j == |m| - 1 {
          assert m[i] == s.savedMemories[i];
        }
      }
    }
  }

  /** Every event keeps the invariant. */
  lemma {:induction false} StepInv(s: PaletteState, ev: Event)
    requires Inv(s)
    ensures Inv(Step(s, ev))
  {
    match ev
    case Key(e) => KeyDownInv(s, e);
    case SaveClicked(o) => SaveInv(s, o);
    case _ =>
  }

  /** From any state that satisfies it, every sequence of events keeps the
      invariant: the highlight always points into the visible list (or is 0)
      and no url is saved twice. */
  lemma {:induction false} RunInv(s: PaletteState, evs: seq<Event>)
    requires Inv(s)
    ensures Inv(Run(s, evs))
    decreases |evs|
  {
    if evs != [] {
      StepInv(s, evs[0]);
      RunInv(Step(s, evs[0]), evs[1..]);
    }
  }

  // ================================================================ embedded chat

  datatype Sender = User | Bot

  /** A chat bubble; the optional fields are absent on user messages. */
  datatype ChatMessage = ChatMessage(
    sender: Sender, text: string,
    hallucinated: Option<bool>, source: Option<string>, error: Option<bool>)

  /** What the query collaborator did: answered, or threw with a message. */
  datatype QueryOutcome =
    | Answered(answer: string, source: string, hallucinated: bool)
    | QueryFailed(message: string)

  datatype ChatState = ChatState(messages: seq<ChatMessage>, input: string, loading: bool)

  const InitialChat := ChatState([], "", false)

  /** Typing into the text area. */
  function ChatTyped(c: ChatState, text: string): ChatState {
    c.(input := text)
  }

  /** The bot bubble for a collaborator outcome. */
  function BotReply(outcome: QueryOutcome): (m: ChatMessage)
    ensures m.sender == Bot
    ensures m.error == Some(outcome.QueryFailed?)
    ensures outcome.Answered? ==> m.text == outcome.answer && m.source == Some(outcome.source)
                                  && m.hallucinated == Some(outcome.hallucinated)
    ensures outcome.QueryFailed? ==> m.text == "Error: " + outcome.message && m.source.None?
  {
    match outcome
    case Answered(answer, source, hallucinated) =>
      ChatMessage(Bot, answer, Some(hallucinated), Some(source), Some(false))
    case QueryFailed(message) =>
      ChatMessage(Bot, "Error: " + message, None, None, Some(true))
  }

  /** `sendMessage` run to completion with the collaborator's outcome. */
  function ChatSend(c: ChatState, outcome: QueryOutcome): ChatState {
    var question := Trim(c.input);
    if question == "" then c
    else ChatState(c.messages + [ChatMessage(User, question, None, None, None), BotReply(outcome)], "", false)
  }

  /** The text area's key handler: Enter without Shift sends. */
  function ChatKeyDown(c: ChatState, key: string, shiftKey: bool, outcome: QueryOutcome): ChatState {
    if key == "Enter" && !shiftKey then ChatSend(c, outcome) else c
  }

  datatype ChatEvent = Type(text: string) | Send(outcome: QueryOutcome)

  function ChatRun(c: ChatState, evs: seq<ChatEvent>): ChatState
    decreases |evs|
  {
    if evs == [] then c
    else
      var next := match evs[0]
        case Type(text) => ChatTyped(c, text)
        case Send(o) => ChatSend(c, o);
      ChatRun(next, evs[1..])
  }

  /** Messages pair up: a user bubble, then the bot bubble answering it. */
  predicate Paired(msgs: seq<ChatMessage>) {
    && |msgs| % 2 == 0
    && forall k :: 0 <= k < |msgs| ==> msgs[k].sender == (if k % 2 == 0 then User else Bot)
  }

  /** A blank input sends nothing; otherwise exactly one user bubble with
      the trimmed input is appended, then exactly one bot bubble flagged as
      an error iff the query failed; earlier bubbles are untouched, the input
      is cleared and loading is over. */
  lemma ChatSendTurn(c: ChatState, o: QueryOutcome)
    ensures Trim(c.input) == "" ==> ChatSend(c, o) == c
    ensures Trim(c.input) != "" ==>
              var t := ChatSend(c, o);
              && |t.messages| == |c.messages| + 2
              && t.messages[..|c.messages|] == c.messages
              && t.messages[|c.messages|].sender == User
              && t.messages[|c.messages|].text == Trim(c.input)
              && t.messages[|c.messages| + 1].sender == Bot
              && t.messages[|c.messages| + 1].error == Some(o.QueryFailed?)
              && !t.loading && t.input == ""
  {
  }

  /** Over any sequence of typing and sending, earlier bubbles are never
      altered and bubbles keep alternating user, bot, user, bot. */
  lemma {:induction false} ChatRunPaired(c: ChatState, evs: seq<ChatEvent>)
    requires Paired(c.messages)
    ensures Paired(ChatRun(c, evs).messages)
    ensures c.messages <= ChatRun(c, evs).messages
    decreases |evs|
  {
    if evs != [] {
      var next := match evs[0]
        case Type(text) => ChatTyped(c, text)
        case Send(o) => ChatSend(c, o);
      if evs[0].Send? && Trim(c.input) != "" {
        var o := evs[0].outcome;
        PairedAppend(c.messages, ChatMessage(User, Trim(c.input), None, None, None), BotReply(o));
      }
      ChatRunPaired(next, evs[1..]);
    }
  }

  lemma PairedAppend(msgs: seq<ChatMessage>, u: ChatMessage, b: ChatMessage)
    requires Paired(msgs) && u.sender == User && b.sender == Bot
    ensures Paired(msgs + [u, b])
  {
    var m := msgs + [u, b];
    var n := |msgs|;
    assert (n + 2) % 2 == 0 && n % 2 == 0 && (n + 1) % 2 == 1;
    forall k | 0 <= k < |m| ensures m[k].sender == (if k % 2 == 0 then User else Bot) {
      if k < n {
        assert m[k] == msgs[k];
      }
    }
  }
}
