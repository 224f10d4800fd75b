# GhostUI overlay: control state, activation and data shaping, in Dafny

GhostUI is a browser extension that puts a command palette over any page.
The overlay is activated in three steps:
- the background worker reacts to the keyboard command and messages the active tab;
- the tab's content script injects a page-world script once, and on later activations calls the toggle that script defines;
- the page-world script mounts or unmounts the palette.

The palette itself has:
- a keyboard and mouse state machine: open/closed, tabs 1–3, a circular highlight, Ctrl+Arrow nudging and free dragging;
- a save lifecycle with duplicate rejection and timed status reverts;
- an embedded chat.

Beside it are a memory-saver panel with PDF upload and the string helpers it uses, a stand-alone chat panel, the page scraper and the document catalogue.

This project models each of these in Dafny and proves what the code promises. Where the source changes state step by step (React state setters, module-level flags, `window` globals), the model is a class. Its fields mirror that state and its methods are proved to follow a pure transition function, or to keep an invariant. The lemmas about the transition functions state the behaviour:
- circular navigation and Down-then-Up restoring the index;
- that while the palette is closed only the toggle key and Escape act;
- no duplicate urls among saved memories, over any sequence of events;
- exactly one bot message per user message;
- at most one root element however often the page script is evaluated;
- at most two messages and one injection per activation;
- the fragment filter and the length caps of the PDF helpers.

How the modules map to the code:
- `Js`: the JavaScript semantics the handlers depend on, written out: `trim` and its white-space set, string `<`, `parseInt` of a leading digit run, the truncating `%`, `slice(0, n)`, first-occurrence `replace`, `String(n)`.
- `SaveTypes`: the save status and the save collaborator's outcome. Both components use them.
- `PaletteModel` and `CommandPalette` (ghost-ui/src/components/CommandPalette.tsx): the state record, its transition functions and lemmas, and the component class with the embedded chat class.
- `Injected` (ghost-ui/extension/injected.js): the page's `window` globals.
- `ContentScript` (ghost-ui/extension/content.js): the shortcut predicate and the injection controller.
- `Background` (ghost-ui/extension/background.js): the activation dispatcher.
- `PdfText` and `MemorySaver` (ghost-ui/src/components/MemorySaver.tsx).
- `RagChat` (ghost-ui/src/components/RagChat.tsx).
- `ScrapePage` (ghost-ui/src/utils/scrapePage.ts).
- `Documents` (ghost-ui/src/data/documents.ts).

Asynchronous handlers are modelled as one atomic step per user action. The collaborator's answer is an input to that step. Timers are explicit events. Pending 3-second reverts are kept in the order they were set, and each one fires when its event occurs. Where the code and the written design differ, the model follows the code:
- The content script retries a missing injection point every 50 ms without bound (content.js:58-62). A load error is only logged (content.js:40-42); it is not retried.
- A new save does not cancel a pending status revert. Each revert fires on its own (CommandPalette.tsx:389, 413-417).
- The memory-saver panel treats two memories as the same only when both url and timestamp match (MemorySaver.tsx:115-117).
- The palette matches on url alone (CommandPalette.tsx:386).

## Model

| member | source | states |
|---|---|---|
| `Js.TrimIsInnerPiece` | ghost-ui/src/components/CommandPalette.tsx:104-106 | `trim` returns the contiguous piece of the input left after cutting white space from both ends; it neither starts nor ends with white space |
| `Js.TrimEmptyIff` | ghost-ui/src/components/RagChat.tsx:23 | `!input.trim()` holds exactly when every character of the input is white space |
| `Js.InDigitRangeShape` | ghost-ui/src/components/CommandPalette.tsx:281 | the string test `key >= "1" && key <= "3"` admits exactly the keys starting with `1` or `2`, and the key `3` |
| `Js.JsRem` | ghost-ui/src/components/CommandPalette.tsx:319-323 | `%` on a non-negative dividend is the mathematical remainder in [0, n); on any dividend its magnitude is below n |
| `Js.NatToStringRoundTrip` | ghost-ui/src/components/MemorySaver.tsx:157 | reading back the decimal rendering of a count gives the count |
| `Js.IndexOfFrom` | ghost-ui/src/components/MemorySaver.tsx:146 | the index found is an occurrence of the pattern, and no earlier index holds one; no result means there is no occurrence |
| `Js.ReplaceOnlySuffix` | ghost-ui/src/components/MemorySaver.tsx:146 | replacing a suffix that occurs nowhere earlier removes exactly that suffix |
| `Js.Prefix` | ghost-ui/src/utils/scrapePage.ts:10-11 | `slice(0, n)` gives a prefix of at most n elements: the whole input when it is short enough, exactly n elements otherwise |
| `PaletteModel.Initial` | ghost-ui/src/components/CommandPalette.tsx:232-242 | the palette starts closed on the Chat tab (index 2), with no saved memories, idle status and position (0, 0) |
| `PaletteModel.InitialInv` | ghost-ui/src/components/CommandPalette.tsx:232-242 | the initial state satisfies the invariant: the highlight is in the visible list and urls are unique |
| `PaletteModel.NavigateInRange` | ghost-ui/src/components/CommandPalette.tsx:316-325 | on a non-empty list the arrow keys keep the highlight in [0, n) |
| `PaletteModel.NavigateCircular` | ghost-ui/src/components/CommandPalette.tsx:319-323 | Down wraps from the last item to the first and Up from the first to the last; Down then Up, and Up then Down, restore the index |
| `PaletteModel.NavigateEmpty` | ghost-ui/src/components/CommandPalette.tsx:317-324 | on an empty list the arrows leave the highlight alone |
| `PaletteModel.ArrowKeys` | ghost-ui/src/components/CommandPalette.tsx:315-325 | open on the Memory or Ask tab: ArrowDown gives (i+1)%n and ArrowUp gives (i−1+n)%n; on the Chat tab, or when n = 0, the highlight is unchanged |
| `PaletteModel.DigitSelectsTab` | ghost-ui/src/components/CommandPalette.tsx:280-286 | while open, key "1"–"3" selects tab digit−1 and resets the highlight to 0 |
| `PaletteModel.TabClickMatchesDigit` | ghost-ui/src/components/CommandPalette.tsx:420-424 | a tab click and the tab's digit key select the same tab and highlight; only the click clears the search text |
| `PaletteModel.ClosedKeys` | ghost-ui/src/components/CommandPalette.tsx:264-278 | while closed, the toggle shortcut opens the palette and every other key, Escape included, leaves the state unchanged |
| `PaletteModel.EscapeCloses` | ghost-ui/src/components/CommandPalette.tsx:274-276 | while open, Escape closes the palette and changes nothing else |
| `PaletteModel.ToggleFlips` | ghost-ui/src/components/CommandPalette.tsx:265-272 | Cmd/Ctrl+K (any key lower-casing to "k") flips `isOpen` from either state |
| `PaletteModel.CtrlKeys` | ghost-ui/src/components/CommandPalette.tsx:288-325 | Ctrl+Arrow moves exactly one coordinate by 20; Ctrl+r puts the palette at (0, 0); Ctrl+ArrowUp/Down also move the highlight on non-Chat tabs |
| `PaletteModel.ResetAfterAnything` | ghost-ui/src/components/CommandPalette.tsx:308-311 | after any event sequence, Ctrl+r on the open palette puts it exactly at the origin |
| `PaletteModel.DragFollowsCursor` | ghost-ui/src/components/CommandPalette.tsx:333-350 | mousedown anchors cursor − position; moving by (dx, dy) moves the palette by (dx, dy), and moving back to the mousedown point restores the position |
| `PaletteModel.NoDragAfterUp` | ghost-ui/src/components/CommandPalette.tsx:343-354 | after mouseup dragging is off, and mouse moves change nothing |
| `PaletteModel.SaveWithoutPreview` | ghost-ui/src/components/CommandPalette.tsx:382-383 | without a preview, saving changes nothing and does not call the collaborator |
| `PaletteModel.SaveDuplicate` | ghost-ui/src/components/CommandPalette.tsx:385-391 | a preview whose url is already saved gives `error` with the duplicate message and a status-only revert; the list is unchanged and the collaborator is not called |
| `PaletteModel.SaveOutcomes` | ghost-ui/src/components/CommandPalette.tsx:393-417 | only an answer with status "success" appends the preview, at the end; any other answer or a throw gives `error` with the answer's message, or "Unknown error occurred" when it is empty; a full revert is scheduled on both paths |
| `PaletteModel.SaveTwice` | ghost-ui/src/components/CommandPalette.tsx:382-418 | saving the same page twice leaves exactly one entry with its url, and the second attempt gives `error` without calling the collaborator |
| `PaletteModel.SaveThenRevert` | ghost-ui/src/components/CommandPalette.tsx:413-417 | with no other timer pending, the timer a save schedules brings the status back to `idle` |
| `PaletteModel.KeyDownInv` | ghost-ui/src/components/CommandPalette.tsx:263-330 | every key event keeps the highlight inside the visible list (or 0) and the urls unique |
| `PaletteModel.SaveInv` | ghost-ui/src/components/CommandPalette.tsx:382-418 | every save keeps the invariant, in particular url uniqueness of the saved list |
| `PaletteModel.StepInv` | ghost-ui/src/components/CommandPalette.tsx:263-430 | every event the palette reacts to keeps the invariant |
| `PaletteModel.RunInv` | ghost-ui/src/components/CommandPalette.tsx:231-430 | every sequence of events keeps the invariant |
| `PaletteModel.BotReply` | ghost-ui/src/components/CommandPalette.tsx:114-132 | the bot message carries the answer, source and hallucination flag, or "Error: " + message; its error flag is true exactly when the query failed |
| `PaletteModel.ChatSendTurn` | ghost-ui/src/components/CommandPalette.tsx:103-136 | blank input changes nothing; otherwise one user message with the trimmed text, then one bot message; earlier messages untouched, input cleared, loading false |
| `PaletteModel.ChatRunPaired` | ghost-ui/src/components/CommandPalette.tsx:103-143 | over any typing and sending, earlier messages stay and messages alternate user, bot |
| `CommandPalette.Palette.constructor` | ghost-ui/src/components/CommandPalette.tsx:231-242 | a new palette holds the initial state and the invariant |
| `CommandPalette.Palette.HandleKeyDown` | ghost-ui/src/components/CommandPalette.tsx:263-330 | the window key listener follows `KeyDown` on the state its closure captured, and keeps the invariant |
| `CommandPalette.Palette.ApplyOpenCloseKeys` | ghost-ui/src/components/CommandPalette.tsx:265-276 | the toggle shortcut flips `isOpen`, then Escape clears it |
| `CommandPalette.Palette.ApplyDigitKeys` | ghost-ui/src/components/CommandPalette.tsx:281-286 | a key in the digit range sets the tab to parseInt(key) − 1 and the highlight to 0 |
| `CommandPalette.Palette.ApplyCtrlKeys` | ghost-ui/src/components/CommandPalette.tsx:289-313 | Ctrl+Arrow and Ctrl+r update the position as the nudge stage says |
| `CommandPalette.Palette.ApplyArrowKeys` | ghost-ui/src/components/CommandPalette.tsx:316-325 | on a non-Chat tab the arrows move the highlight over the captured item count |
| `CommandPalette.Palette.HandleMouseDown` | ghost-ui/src/components/CommandPalette.tsx:333-341 | a press on the handle starts dragging with anchor = cursor − position |
| `CommandPalette.Palette.HandleMouseMove` | ghost-ui/src/components/CommandPalette.tsx:343-350 | while dragging, position = cursor − anchor |
| `CommandPalette.Palette.HandleMouseUp` | ghost-ui/src/components/CommandPalette.tsx:352-354 | dragging stops |
| `CommandPalette.Palette.HandleQueryChange` | ghost-ui/src/components/CommandPalette.tsx:542 | the search text is replaced by what was typed |
| `CommandPalette.Palette.HandleTabClick` | ghost-ui/src/components/CommandPalette.tsx:420-424 | selects the tab, resets the highlight and clears the search text, keeping the invariant |
| `CommandPalette.Palette.HandleBackdropClick` | ghost-ui/src/components/CommandPalette.tsx:426-430 | a click on the backdrop itself closes the palette |
| `CommandPalette.Palette.HandleCloseClick` | ghost-ui/src/components/CommandPalette.tsx:516 | the close button closes the palette |
| `CommandPalette.Palette.RunScrapeEffect` | ghost-ui/src/components/CommandPalette.tsx:367-373 | open on the Memory tab, the scraped page becomes the preview |
| `CommandPalette.Palette.HandleSaveMemory` | ghost-ui/src/components/CommandPalette.tsx:382-418 | follows `Save` and keeps url uniqueness; the collaborator is called exactly when there is a preview whose url is not yet saved |
| `CommandPalette.Palette.RevertTimerFires` | ghost-ui/src/components/CommandPalette.tsx:413-417 | the oldest pending revert sets `idle`, and clears the message when it was scheduled after a collaborator call |
| `CommandPalette.RagChat.constructor` | ghost-ui/src/components/CommandPalette.tsx:89-92 | the chat starts with no messages, empty input, not loading |
| `CommandPalette.RagChat.SetInput` | ghost-ui/src/components/CommandPalette.tsx:206 | typing replaces the input |
| `CommandPalette.RagChat.SendMessage` | ghost-ui/src/components/CommandPalette.tsx:103-136 | follows `ChatSend`; the question asked is the trimmed input, and nothing is asked for blank input |
| `CommandPalette.RagChat.HandleKeyDown` | ghost-ui/src/components/CommandPalette.tsx:138-143 | Enter without Shift sends; other keys change nothing |
| `Injected.PageWindow.constructor` | ghost-ui/extension/injected.js:6 | before the script runs there is no root, no toggle and nothing mounted |
| `Injected.PageWindow.EvaluateScript` | ghost-ui/extension/injected.js:6-21 | the first evaluation creates the one root element and defines the toggle; every later evaluation changes nothing, so there is never a second root |
| `Injected.PageWindow.MountGhostUI` | ghost-ui/extension/injected.js:12-20 | the toggle flips `__ghostUI_mounted` and touches nothing else, so two calls restore it |
| `ContentScript.EditableFocusSuppresses` | ghost-ui/extension/content.js:86-103 | with focus in an INPUT, a TEXTAREA, an editable element or a search box, no key combination is the shortcut |
| `ContentScript.ShortcutModifiers` | ghost-ui/extension/content.js:100-103 | with nothing editable focused, Shift+K fires with Command on Mac-like platforms and with Control elsewhere, not with the other modifier, and never without Shift |
| `ContentScript.MacAnyCase` | ghost-ui/extension/content.js:100 | the platform test ignores case: a platform string containing "MAC" or "mac" anywhere is Mac-like |
| `ContentScript.InjectionTarget` | ghost-ui/extension/content.js:44-52 | the target is head if present, else documentElement, else body, else none |
| `ContentScript.ContentScript.constructor` | ghost-ui/extension/content.js:2-3 | the script starts neither injected nor ready, with nothing pending |
| `ContentScript.ContentScript.InitializeContentScript` | ghost-ui/extension/content.js:5-8 | sets `isReady`, and nothing else |
| `ContentScript.ContentScript.TogglePalette` | ghost-ui/extension/content.js:10-80 | the whole new state, per branch: not ready, one more 100 ms retry and nothing else changes; ready and not injected, exactly what `injectScript` does (script appended at the injection target and `injected` set, or one more 50 ms retry); injected, the page toggle is called if defined, flipping `mounted`, and no script is appended; `isReady` never changes and `injected` is never reset |
| `ContentScript.ContentScript.InjectScript` | ghost-ui/extension/content.js:23-62 | with a target, the script is appended there, one more load is pending and `injected` is set; without one, one more 50 ms retry is pending and no flag changes; nothing else changes |
| `ContentScript.ContentScript.CallMount` | ghost-ui/extension/content.js:71-79 | calls the page toggle when it is defined, flipping `mounted` and keeping the root; otherwise the page is untouched and the toggle is reported missing |
| `ContentScript.ContentScript.ToggleRetryFires` | ghost-ui/extension/content.js:13-17 | with a 100 ms retry pending, one fewer is pending and the state is what `togglePalette` makes of it; with none pending nothing changes |
| `ContentScript.ContentScript.InjectRetryFires` | ghost-ui/extension/content.js:58-62 | with a 50 ms retry pending, one fewer is pending and `injectScript` runs again without looking at `injected`, so it may append a second script; with none pending nothing changes |
| `ContentScript.ContentScript.ScriptLoaded` | ghost-ui/extension/content.js:28-39 | the page evaluates the script (one root, however many scripts were appended) and one more mount call is pending; the flags and the retry counts are unchanged |
| `ContentScript.ContentScript.ScriptFailed` | ghost-ui/extension/content.js:40-42 | a load error only ends that load: `injected`, `isReady`, the scripts and all pending retries and mount calls are unchanged |
| `ContentScript.ContentScript.MountCheckFires` | ghost-ui/extension/content.js:31-38 | with a mount call pending, one fewer is pending and the page toggle is called when defined; the flags, scripts and retries are unchanged |
| `ContentScript.ContentScript.HandleKeydown` | ghost-ui/extension/content.js:83-111 | on the shortcut the state is what `togglePalette` makes of it; any other key event changes nothing |
| `ContentScript.ContentScript.OnMessage` | ghost-ui/extension/content.js:128-136 | only the 'toggle-ghost-ui' action gets `{success: true}`, and then the state is what `togglePalette` makes of it; other messages change nothing |
| `Background.CountsAppend` | ghost-ui/extension/background.js:14-29 | appending a call adds one to the count of its own kind only |
| `Background.OnCommand` | ghost-ui/extension/background.js:2-43 | other commands, and no active tab, do nothing; otherwise it sends first; a failed send is followed by exactly one injection; only a successful injection leads to a 500 ms wait and one last send; at most two sends and one injection, all to the active tab with the toggle action |
| `Js.SkipWhiteSpace` | ghost-ui/src/components/MemorySaver.tsx:63 | `\s*` consumes the maximal run of white space after a position; the same scan gives the front that `trim` cuts off |
| `PdfText.PageMatchEnd` | ghost-ui/src/components/MemorySaver.tsx:63 | a page match is "/Type", white space, "/Page" and one character other than `s`, at least 11 characters long |
| `PdfText.CountPdfPages` | ghost-ui/src/components/MemorySaver.tsx:60-66 | the page count is the number of matches, or 1 when there are none, so it is always at least 1 |
| `PdfText.PageMatchesBound` | ghost-ui/src/components/MemorySaver.tsx:63-65 | a text of length L holds at most L / 11 page matches |
| `PdfText.NoTypeOnePage` | ghost-ui/src/components/MemorySaver.tsx:63-65 | a text without "/Type" has no page matches, so the count is 1 |
| `PdfText.FindChar` | ghost-ui/src/components/MemorySaver.tsx:36 | finds the first occurrence of a character at or after a position |
| `PdfText.ParenMatchesFrom` | ghost-ui/src/components/MemorySaver.tsx:36 | every global match of `\(([^)]+)\)` is an opening parenthesis, at least one non-`)` character and a closing parenthesis |
| `PdfText.Inner` | ghost-ui/src/components/MemorySaver.tsx:44 | the text between the parentheses is non-empty and contains no `)` |
| `PdfText.Kept` | ghost-ui/src/components/MemorySaver.tsx:43-48 | a fragment is kept exactly when it is longer than 2 characters and contains an ASCII letter |
| `PdfText.CollectedIsKept` | ghost-ui/src/components/MemorySaver.tsx:41-48 | what the loop accumulates is exactly the kept fragments, in order, each followed by a space |
| `PdfText.ExtractTextFromPdf` | ghost-ui/src/components/MemorySaver.tsx:32-58 | the result is the first 2000 characters of the trimmed kept fragments followed by the stream text, so it never exceeds 2000 |
| `MemorySaver.ScrapeCurrentPage` | ghost-ui/src/components/MemorySaver.tsx:68-75 | the title is the document title, or "Untitled Page" when it is empty; the body text is a prefix of the page text of at most 1000 characters; every link is kept; url and time are copied and the kind is webpage |
| `MemorySaver.ShippedSaveSucceeds` | ghost-ui/src/components/MemorySaver.tsx:77-83 | with the fixed answer the panel's own save helper gives, a save with a preview always succeeds, stores the preview and reports "Memory saved successfully!" |
| `MemorySaver.Mounted` | ghost-ui/src/components/MemorySaver.tsx:86-97 | after mounting, the scraped page is the preview, the status is idle and nothing is saved |
| `MemorySaver.AddNewestHolds` | ghost-ui/src/components/MemorySaver.tsx:114-120 | after a successful save the memory is in the list; the list is unchanged if an entry with the same url and timestamp existed, else the memory is prepended |
| `MemorySaver.AddNewestKeepsUnique` | ghost-ui/src/components/MemorySaver.tsx:114-120 | the list updater keeps (url, timestamp) pairs unique |
| `MemorySaver.AddNewestIdempotent` | ghost-ui/src/components/MemorySaver.tsx:114-120 | adding the same memory twice is the same as adding it once |
| `MemorySaver.SaveWithoutPreview` | ghost-ui/src/components/MemorySaver.tsx:100-101 | without a preview the button does nothing, not even schedule a revert |
| `MemorySaver.SaveOutcomes` | ghost-ui/src/components/MemorySaver.tsx:100-129 | status is success exactly for a "success" answer, else error with the list unchanged; the message is the answer's or the error's; a revert is scheduled on every path; after success the preview is in the list |
| `MemorySaver.SaveTwiceOnce` | ghost-ui/src/components/MemorySaver.tsx:113-120 | two successful saves of the same preview store it once |
| `MemorySaver.PdfRecord` | ghost-ui/src/components/MemorySaver.tsx:145-153 | the PDF record has no links, url "file://" + name, kind pdf, the page count and the current time; its body is the text, or a placeholder when the text is empty |
| `MemorySaver.PdfTitleDropsSuffix` | ghost-ui/src/components/MemorySaver.tsx:146 | for a name `<stem>.pdf` with no other ".pdf", the title is the stem |
| `MemorySaver.PdfUploadOutcomes` | ghost-ui/src/components/MemorySaver.tsx:131-171 | a missing or non-PDF file changes nothing; a read PDF becomes the preview with status success and its automatic save queued; a failed read gives error with the failure message; the saved list is untouched |
| `MemorySaver.ExtractedMessageCount` | ghost-ui/src/components/MemorySaver.tsx:157 | the upload message carries the page count in decimal |
| `MemorySaver.AutoSaveAsWrittenDuplicates` | ghost-ui/src/components/MemorySaver.tsx:159-165 | as written, upload, then a successful click on save, then the automatic save leave two entries with the same url and timestamp |
| `MemorySaver.AutoSaveKeepsUnique` | ghost-ui/src/components/MemorySaver.tsx:159-165 | the automatic save with the check of lines 115-119 keeps entries unique and still stores the record on success; a failed answer leaves the list alone |
| `MemorySaver.RunKeepsUnique` | ghost-ui/src/components/MemorySaver.tsx:100-171 | with the corrected automatic save, no two saved memories share url and timestamp over any sequence of saves, uploads and timers |
| `MemorySaver.RunOnlyPrepends` | ghost-ui/src/components/MemorySaver.tsx:113-120 | with the corrected automatic save, the saved list only grows, at the front: the old list is always its tail |
| `MemorySaver.RunAsWrittenOnlyPrepends` | ghost-ui/src/components/MemorySaver.tsx:100-171 | with the automatic save as written, the saved list still only grows at the front: the old list is always its tail |
| `MemorySaver.Panel.constructor` | ghost-ui/src/components/MemorySaver.tsx:85-97 | the panel starts in the mounted state with the panel's own scrape of the document as preview |
| `MemorySaver.Panel.HandleSave` | ghost-ui/src/components/MemorySaver.tsx:100-129 | follows `Save` and keeps entries unique; the collaborator is called exactly when there is a preview |
| `MemorySaver.Panel.RevertTimerFires` | ghost-ui/src/components/MemorySaver.tsx:127 | a pending revert sets the status to idle and keeps the message |
| `MemorySaver.Panel.HandlePdfUpload` | ghost-ui/src/components/MemorySaver.tsx:131-176 | follows `PdfUpload`; the user is alerted exactly when the file is missing or not a PDF |
| `MemorySaver.Panel.AutoSaveTimerFires` | ghost-ui/src/components/MemorySaver.tsx:159-165 | follows the corrected automatic save, not line 163 as written, and keeps entries unique |
| `RagChat.RagReply` | ghost-ui/src/components/RagChat.tsx:38-71 | non-ok: "Sorry, something went wrong.", hallucinated, source "llm_fallback"; ok: answer, hallucinated and source from the response; failure: "Network error: " + message |
| `RagChat.RagSendTurn` | ghost-ui/src/components/RagChat.tsx:22-76 | whitespace-only input changes nothing; otherwise the untrimmed input becomes one user message, then one bot message; earlier messages untouched, loading false, input cleared |
| `RagChat.RagRunPaired` | ghost-ui/src/components/RagChat.tsx:22-83 | over any typing, clicks and key presses, earlier messages stay and messages alternate user, bot |
| `RagChat.ChatPanel.constructor` | ghost-ui/src/components/RagChat.tsx:18-20 | the panel starts with no messages, empty input, not loading |
| `RagChat.ChatPanel.SetInput` | ghost-ui/src/components/RagChat.tsx:127 | typing replaces the input |
| `RagChat.ChatPanel.SendMessage` | ghost-ui/src/components/RagChat.tsx:22-76 | follows `RagSend`; the question posted is the untrimmed input, and nothing is posted for blank input |
| `RagChat.ChatPanel.HandleKeyDown` | ghost-ui/src/components/RagChat.tsx:78-83 | Enter without Shift sends; other keys change nothing |
| `ScrapePage.HttpLinks` | ghost-ui/src/utils/scrapePage.ts:4-6 | the kept hrefs are exactly those starting with "http", each of them an href of the page |
| `ScrapePage.HttpLinksAppend` | ghost-ui/src/utils/scrapePage.ts:4-6 | the filter keeps document order |
| `ScrapePage.ScrapeShape` | ghost-ui/src/utils/scrapePage.ts:1-14 | title, url and time are copied; the body text is a prefix of the page text of at most 2000 characters, "" without a body; the links are the first min(10, k) of the k http links |
| `ScrapePage.LaterLinksIgnored` | ghost-ui/src/utils/scrapePage.ts:4-11 | once ten http links have appeared, later anchors do not change the links |
| `Documents.ToDocument` | ghost-ui/src/data/documents.ts:9-20 | id, title and filename are copied from the row; the description and path start with "PDF Document: " and "/data/" |
| `Documents.ToDocuments` | ghost-ui/src/data/documents.ts:9 | one record per table row, in the same order |
| `Documents.DocumentFields` | ghost-ui/src/data/documents.ts:12-19 | the filename is recoverable from both path and description; type, size, category, tags and date are the same constants for every record |
| `Documents.CatalogueShape` | ghost-ui/src/data/documents.ts:3-20 | the catalogue has three documents in table order, with distinct ids and distinct paths |

## Left out

- Rendering: the JSX, styling, focus handling and scrolling of all components, including the 100 ms input-focus delays.
- Collaborators whose results are inputs:
  - the HTTP calls `saveMemoryToAPI` and `queryRAG` of CommandPalette.tsx (36-87) and the `fetch` of RagChat.tsx;
  - `api.ts`;
  - the PDF library that reads uploaded files;
  - CommandPalette.tsx's demo `scrapePage` (27-33), a fixed record apart from url and time.
- MemorySaver.tsx's own `scrapePage` (68-75) reads the real document and is modelled by `MemorySaver.ScrapeCurrentPage`. The document's title, body text and links are inputs. A missing `document.body`, which would throw, is not modelled.
- MemorySaver.tsx's `saveMemoryToAPI` (77-83) makes no request: after one second it always answers success (`MemorySaver.ShippedAnswer`).
- MemorySaver.Save: takes any collaborator outcome, as does the automatic save. Its error paths, and those stated by `MemorySaver.SaveOutcomes`, are therefore answers the panel's own save helper never gives. `MemorySaver.ShippedSaveSucceeds` states what that helper does.
- MemorySaver.RunKeepsUnique: is stated over the corrected automatic save. With line 163 as written, uniqueness fails (see Findings, `MemorySaver.AutoSaveAsWrittenDuplicates`).
- MemorySaver.RunOnlyPrepends: is stated over the corrected automatic save. The same property of the program as written is `MemorySaver.RunAsWrittenOnlyPrepends`.
- MemorySaver.Panel.AutoSaveTimerFires: the panel class runs the corrected automatic save, not line 163 as written. Its invariant (unique entries) is one the program as written does not keep.
- Unmounting: the model keeps the component objects alive where React would discard them.
  - The embedded chat exists only while the palette is open on tab 2 (CommandPalette.tsx:433, 526-527). Closing the palette or switching to Memory/Ask discards its messages. `CommandPalette.RagChat` and `PaletteModel.ChatRun` keep them instead.
  - Each mount by the page toggle (injected.js:18) renders a fresh palette in its initial state. `CommandPalette.Palette` keeps its state across `Injected.PageWindow.MountGhostUI` calls.
- `PdfText.ExtractTextFromPdf`: the stream-block part (`stream … endstream` matches and their letter runs) is an input string, not a regular-expression model.
- Interleaving: each asynchronous handler is one atomic step. In the code, two overlapping saves can both pass the duplicate check, and a chat send can finish after a later one; those races are not modelled.
- Because saves are atomic, the `saving` status is never visible between events. The save button's disabled-while-saving guard therefore has no effect in the model.
- Real time: timers are events fired in the order they were set. The 3 s reverts, the 50/100/500 ms retries and delays have no durations.
- The content script's exception retry (content.js:63-67) is not modelled: appending a script never throws here.
- Browser plumbing: Chrome's tab query, messaging and scripting APIs are reduced to their outcomes. The log-only tab-update listener is left out. How the keydown listener is registered several times, and its propagation order, are left out; one shortcut press is one call of `HandleKeydown`.
- Module scripts are evaluated once per URL in a real browser. The model instead evaluates every appended script; the root guard makes the result the same.
- The content script and the page script share one `window` in the model. In a browser they run in separate worlds, and the legacy unmount call at injected.js:15 is not checked against the root created at line 18.
- `new URL(...).hostname` in the memory list labels, and the label text itself: only the number of items is modelled.
- Strings are sequences of Unicode scalar values, not UTF-16 code units. `toLowerCase() === "k"` is modelled as the three characters k, K and U+212A KELVIN SIGN. `parseInt` is modelled only on keys starting with a digit, which is all the digit-range test admits.
- The malformed-response cases of the chat panels are not modelled, for example an answer without a text field. A non-ok response whose body is not JSON takes the network-error path, which the `NetworkError` outcome covers.

## Findings

| source | as written | input that shows it | evidently intended | confidence | as-written member | corrected member |
|---|---|---|---|---|---|---|
| ghost-ui/src/components/MemorySaver.tsx:163 | the automatic save of an uploaded PDF prepends the record to the saved list unconditionally | upload `a.pdf` (read succeeds), click Save before the automatic save fires, and let both saves answer "success": the list holds the record twice, with the same url and timestamp | the same (url, timestamp) check that `handleSave` applies at lines 115-119 | not executed; medium | `MemorySaver.AutoSaveAsWrittenDuplicates` | `MemorySaver.AutoSaveKeepsUnique` |
