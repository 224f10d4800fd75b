/**
 * The content script (ghost-ui/extension/content.js): the shortcut
 * predicate applied to key events, and the injection controller that puts
 * the page-world script into the document once and afterwards calls the
 * mount toggle it defines.
 *
 * Timers are events: a pending retry is counted in a field and fires when
 * the caller invokes the matching method. The page's DOM is reduced to
 * which of `head`, `documentElement` and `body` exist when a call runs.
 */
module ContentScript {

  import opened Wrappers
  import opened Js
  import opened Injected

  // ---------------------------------------------------------------- shortcut predicate

  /** The focused element, as far as the handler inspects it. */
  datatype Element = Element(
    tagName: string,
    /** the `contentEditable` property: "true", "false", "inherit" or "plaintext-only" */
    contentEditable: string,
    /** attribute values by lower-case name; `getAttribute` gives null for a missing one */
    attributes: map<string, string>,
    classList: seq<string>)

  datatype KeyInfo = KeyInfo(key: string, metaKey: bool, ctrlKey: bool, shiftKey: bool)

  function GetAttribute(el: Element, name: string): Option<string> {
    if name in el.attributes then Some(el.attributes[name]) else None
  }

  /** Focus is in a text field: an INPUT, a TEXTAREA or an editable element. */
  predicate IsInputField(active: Option<Element>) {
    && active.Some?
    && var el := active.value;
       || el.tagName == "INPUT"
       || el.tagName == "TEXTAREA"
       || el.contentEditable == "true"
       || GetAttribute(el, "contenteditable") == Some("true")
  }

  /** Focus is in a search box, by the search-page heuristics. */
  predicate IsSearchBox(active: Option<Element>) {
    && active.Some?
    && var el := active.value;
       || GetAttribute(el, "name") == Some("q")
       || "gLFyf" in el.classList
       || GetAttribute(el, "role") == Some("combobox")
  }

  function AsciiLower(c: char): char {
    if 'A' <= c <= 'Z' then (c as int + 32) as char else c
  }

  predicate SameIgnoringAsciiCase(a: string, b: string) {
    |a| == |b| && forall i :: 0 <= i < |a| ==> AsciiLower(a[i]) == AsciiLower(b[i])
  }

  /** Does `word` occur in `s`, ignoring ASCII case? */
  predicate ContainsIgnoringCase(s: string, word: string)
    decreases |s|
  {
    |word| <= |s| && (SameIgnoringAsciiCase(s[..|word|], word) || ContainsIgnoringCase(s[1..], word))
  }

  /** `/(Mac|iPhone|iPod|iPad)/i.test(navigator.platform)` */
  predicate IsMacLike(platform: string) {
    || ContainsIgnoringCase(platform, "Mac")
    || ContainsIgnoringCase(platform, "iPhone")
    || ContainsIgnoringCase(platform, "iPod")
    || ContainsIgnoringCase(platform, "iPad")
  }

  /** The platform's primary modifier: Command on Mac-like platforms, Control
      elsewhere. */
  predicate PlatformModifier(e: KeyInfo, platform: string) {
    if IsMacLike(platform) then e.metaKey else e.ctrlKey
  }

  /** `handleKeydown`'s test: modifier + Shift + K, not typed into a text
      field or a search box. */
  predicate IsShortcut(e: KeyInfo, platform: string, active: Option<Element>) {
    && PlatformModifier(e, platform)
    && e.shiftKey
    && LowersToK(e.key)
    && !IsInputField(active)
    && !IsSearchBox(active)
  }

  /** The shortcut never fires while the focus is in a text field or a
      search box, whatever keys are held. */
  lemma EditableFocusSuppresses(e: KeyInfo, platform: string, active: Option<Element>)
    requires IsInputField(active) || IsSearchBox(active)
    ensures !IsShortcut(e, platform, active)
  {
  }

  /** With nothing editable focused, Shift+K with the platform's modifier
      fires; on a Mac-like platform Control is not that modifier, elsewhere
      Command is not. */
  lemma ShortcutModifiers(platform: string, active: Option<Element>, k: string)
    requires !IsInputField(active) && !IsSearchBox(active) && LowersToK(k)
    ensures IsMacLike(platform) ==>
              IsShortcut(KeyInfo(k, true, false, true), platform, active)
              && !IsShortcut(KeyInfo(k, false, true, true), platform, active)
    ensures !IsMacLike(platform) ==>
              IsShortcut(KeyInfo(k, false, true, true), platform, active)
              && !IsShortcut(KeyInfo(k, true, false, true), platform, active)
    ensures !IsShortcut(KeyInfo(k, true, true, false), platform, active)
  {
  }

  /** A platform string that carries "mac" in any case is Mac-like. */
  lemma {:induction false} MacAnyCase(prefix: string, rest: string)
    ensures IsMacLike(prefix + "MAC" + rest) && IsMacLike(prefix + "mac" + rest)
    decreases |prefix|
  {
    var word := "Mac";
    if prefix == [] {
      assert ("MAC" + rest)[..3] == "MAC";
      assert ("mac" + rest)[..3] == "mac";
    } else {
      MacAnyCase(prefix[1..], rest);
      assert (prefix + "MAC" + rest)[1..] == prefix[1..] + "MAC" + rest;
      assert (prefix + "mac" + rest)[1..] == prefix[1..] + "mac" + rest;
    }
  }

  // ---------------------------------------------------------------- injection controller

  /** Which of the candidate injection points exist when the code runs. */
  datatype DocumentNodes = DocumentNodes(head: bool, documentElement: bool, body: bool)

  datatype Target = Head | DocumentElement | Body

  /** The first present of head, documentElement, body. */
  function InjectionTarget(doc: DocumentNodes): (t: Option<Target>)
    ensures t == Some(Head) <==> doc.head
    ensures t == Some(DocumentElement) <==> !doc.head && doc.documentElement
    ensures t == Some(Body) <==> !doc.head && !doc.documentElement && doc.body
    ensures t.None? <==> !doc.head && !doc.documentElement && !doc.body
  {
    if doc.head then Some(Head)
    else if doc.documentElement then Some(DocumentElement)
    else if doc.body then Some(Body)
    else None
  }

  /** What one call of `togglePalette` (or of `injectScript`) did. */
  datatype ToggleResult =
    | NotReadyRetry          // not ready: itself again in 100 ms
    | NoTargetRetry          // no injection point: injectScript again in 50 ms
    | ScriptInserted(target: Target)
    | MountCalled            // called window.mountGhostUI
    | MountUnavailable       // window.mountGhostUI undefined: logged

  /** An extension message; `action` is absent when the sender gave none. */
  datatype Message = Message(action: Option<string>)

  const ToggleAction := "toggle-ghost-ui"

  class ContentScript {
    var injected: bool
    var isReady: bool
    /** Where each `<script src="injected.js">` was appended, in order. */
    var scripts: seq<Target>
    /** Scripts appended whose load has not been reported yet. */
    var loadsPending: nat
    /** Pending 100 ms `togglePalette` retries. */
    var toggleRetries: nat
    /** Pending 50 ms `injectScript` retries. */
    var injectRetries: nat
    /** Pending 100 ms post-load mount calls. */
    var mountChecks: nat
    /** The page this script runs in. */
    const page: PageWindow

    /** `injected` is set exactly when a script has been appended; the page's
        own invariant holds, so it has at most one root. */
    ghost predicate Valid()
      reads this, page
    {
      && (injected <==> |scripts| > 0)
      && loadsPending <= |scripts|
      && page.Valid()
    }

    constructor (page: PageWindow)
      requires page.Valid()
      ensures Valid() && this.page == page
      ensures !injected && !isReady && scripts == [] && loadsPending == 0
      ensures toggleRetries == 0 && injectRetries == 0 && mountChecks == 0
    {
      this.page := page;
      injected, isReady, scripts := false, false, [];
      loadsPending, toggleRetries, injectRetries, mountChecks := 0, 0, 0, 0;
    }

    /** `initializeContentScript`, whichever start-up path runs it. */
    method InitializeContentScript()
      requires Valid()
      modifies this
      ensures Valid() && isReady
      ensures injected == old(injected) && scripts == old(scripts) && loadsPending == old(loadsPending)
      ensures toggleRetries == old(toggleRetries) && injectRetries == old(injectRetries)
      ensures mountChecks == old(mountChecks)
    {
      isReady := true;
    }

    /** What one run of `injectScript` did, given the retry counts it
        started from: with an injection point the script is appended there
        and `injected` is set; without one a 50 ms retry is pending. Nothing
        else changes. */
    twostate predicate InjectedBy(doc: DocumentNodes, r: ToggleResult, toggles: nat, injects: nat)
      reads this
    {
      && isReady == old(isReady) && mountChecks == old(mountChecks) && toggleRetries == toggles
      && match InjectionTarget(doc)
         case Some(t) =>
           && r == ScriptInserted(t) && injected
           && scripts == old(scripts) + [t] && loadsPending == old(loadsPending) + 1
           && injectRetries == injects
         case None =>
           && r == NoTargetRetry && injected == old(injected)
           && scripts == old(scripts) && loadsPending == old(loadsPending)
           && injectRetries == injects + 1
    }

    /** What `if (window.mountGhostUI) window.mountGhostUI()` did: with the
        toggle defined it flipped `mounted` and nothing else on the page;
        without it the page is untouched. */
    twostate predicate MountedBy(r: ToggleResult)
      reads this, page
    {
      && r == (if old(page.mountDefined) then MountCalled else MountUnavailable)
      && (old(page.mountDefined) ==>
            && page.mounted == !old(page.mounted) && page.mountDefined
            && page.hasRoot == old(page.hasRoot) && page.rootElements == old(page.rootElements))
      && (!old(page.mountDefined) ==> unchanged(page))
    }

    /** What one run of `togglePalette` did, given the retry counts it
        started from: not ready, a 100 ms retry is pending and nothing else
        changes; ready and not injected, it ran `injectScript`; injected, it
        called the page's toggle and appended nothing. */
    twostate predicate Toggled(doc: DocumentNodes, r: ToggleResult, toggles: nat, injects: nat)
      reads this, page
    {
      && isReady == old(isReady) && (old(injected) ==> injected) && mountChecks == old(mountChecks)
      && (!old(isReady) ==>
            && r == NotReadyRetry && toggleRetries == toggles + 1 && injectRetries == injects
            && injected == old(injected) && scripts == old(scripts) && loadsPending == old(loadsPending)
            && unchanged(page))
      && (old(isReady) && !old(injected) ==> InjectedBy(doc, r, toggles, injects) && unchanged(page))
      && (old(isReady) && old(injected) ==>
            && toggleRetries == toggles && injectRetries == injects
            && injected && scripts == old(scripts) && loadsPending == old(loadsPending)
            && MountedBy(r))
    }

    /** `togglePalette`. */
    method TogglePalette(doc: DocumentNodes) returns (r: ToggleResult)
      requires Valid()
      modifies this, page
      ensures Valid()
      ensures Toggled(doc, r, old(toggleRetries), old(injectRetries))
    {
      if !isReady {
        toggleRetries := toggleRetries + 1;
        return NotReadyRetry;
      }
      if !injected {
        r := InjectScript(doc);
      } else {
        r := CallMount();
      }
    }

    /** `injectScript`: append the script to the first available injection
        point and set `injected`, or try again in 50 ms. */
    method InjectScript(doc: DocumentNodes) returns (r: ToggleResult)
      requires Valid()
      modifies this
      ensures Valid()
      ensures InjectedBy(doc, r, old(toggleRetries), old(injectRetries))
    {
      var target := InjectionTarget(doc);
      if target.Some? {
        scripts := scripts + [target.value];
        loadsPending := loadsPending + 1;
        injected := true;
        r := ScriptInserted(target.value);
      } else {
        injectRetries := injectRetries + 1;
        r := NoTargetRetry;
      }
    }

    /** `if (window.mountGhostUI) window.mountGhostUI()`. */
    method CallMount() returns (r: ToggleResult)
      requires Valid()
      modifies page
      ensures Valid()
      ensures MountedBy(r)
    {
      if page.mountDefined {
        page.MountGhostUI();
        r := MountCalled;
      } else {
        r := MountUnavailable;
      }
    }

    /** A pending `togglePalette` retry fires: one fewer is pending, and
        `togglePalette` runs again. */
    method ToggleRetryFires(doc: DocumentNodes) returns (r: Option<ToggleResult>)
      requires Valid()
      modifies this, page
      ensures Valid()
      ensures isReady == old(isReady) && (old(injected) ==> injected)
      ensures old(toggleRetries) == 0 ==> r.None? && unchanged(this) && unchanged(page)
      ensures old(toggleRetries) > 0 ==>
                r.Some? && Toggled(doc, r.value, old(toggleRetries) - 1, old(injectRetries))
    {
      if toggleRetries == 0 {
        return None;
      }
      toggleRetries := toggleRetries - 1;
      var t := TogglePalette(doc);
      r := Some(t);
    }

    /** A pending `injectScript` retry fires: one fewer is pending, and
        `injectScript` runs again. It does not look at `injected`, so a
        second pending retry appends a second script. */
    method InjectRetryFires(doc: DocumentNodes) returns (r: Option<ToggleResult>)
      requires Valid()
      modifies this
      ensures Valid()
      ensures isReady == old(isReady) && (old(injected) ==> injected)
      ensures old(injectRetries) == 0 ==> r.None? && unchanged(this)
      ensures old(injectRetries) > 0 ==>
                r.Some? && InjectedBy(doc, r.value, old(toggleRetries), old(injectRetries) - 1)
    {
      if injectRetries == 0 {
        return None;
      }
      injectRetries := injectRetries - 1;
      var t := InjectScript(doc);
      r := Some(t);
    }

    /** An appended script has loaded: the page evaluated it, and its
        `onload` handler schedules the mount call 100 ms later. */
    method ScriptLoaded()
      requires Valid() && loadsPending > 0
      modifies this, page
      ensures Valid() && page.hasRoot && page.rootElements == 1
      ensures loadsPending == old(loadsPending) - 1 && mountChecks == old(mountChecks) + 1
      ensures injected == old(injected) && scripts == old(scripts) && page.mounted == old(page.mounted)
      ensures isReady == old(isReady) && toggleRetries == old(toggleRetries)
      ensures injectRetries == old(injectRetries)
    {
      loadsPending := loadsPending - 1;
      page.EvaluateScript();
      mountChecks := mountChecks + 1;
    }

    /** An appended script failed to load: only logged. */
    method ScriptFailed()
      requires Valid() && loadsPending > 0
      modifies this
      ensures Valid() && loadsPending == old(loadsPending) - 1
      ensures injected == old(injected) && scripts == old(scripts) && isReady == old(isReady)
      ensures toggleRetries == old(toggleRetries) && injectRetries == old(injectRetries)
      ensures mountChecks == old(mountChecks)
    {
      loadsPending := loadsPending - 1;
    }

    /** The 100 ms post-load timer fires. */
    method MountCheckFires() returns (r: Option<ToggleResult>)
      requires Valid()
      modifies this, page
      ensures Valid()
      ensures isReady == old(isReady) && (old(injected) ==> injected)
      ensures old(mountChecks) == 0 ==> r.None? && unchanged(this) && unchanged(page)
      ensures old(mountChecks) > 0 ==>
                && mountChecks == old(mountChecks) - 1
                && injected == old(injected) && isReady == old(isReady) && scripts == old(scripts)
                && loadsPending == old(loadsPending)
                && toggleRetries == old(toggleRetries) && injectRetries == old(injectRetries)
                && r.Some? && MountedBy(r.value)
    {
      if mountChecks == 0 {
        return None;
      }
      mountChecks := mountChecks - 1;
      var t := CallMount();
      r := Some(t);
    }

    /** The `keydown` listener. */
    method HandleKeydown(e: KeyInfo, platform: string, active: Option<Element>, doc: DocumentNodes)
      returns (r: Option<ToggleResult>)
      requires Valid()
      modifies this, page
      ensures Valid()
      ensures isReady == old(isReady) && (old(injected) ==> injected)
      ensures r.Some? <==> IsShortcut(e, platform, active)
      ensures !IsShortcut(e, platform, active) ==> unchanged(this) && unchanged(page)
      ensures IsShortcut(e, platform, active) ==>
                r.Some? && Toggled(doc, r.value, old(toggleRetries), old(injectRetries))
    {
      if IsShortcut(e, platform, active) {
        var t := TogglePalette(doc);
        r := Some(t);
      } else {
        r := None;
      }
    }

    /** The extension-message listener; `responded` is the `{success: true}`
        reply. */
    method OnMessage(msg: Message, doc: DocumentNodes) returns (responded: bool, r: Option<ToggleResult>)
      requires Valid()
      modifies this, page
      ensures Valid()
      ensures responded <==> msg.action == Some(ToggleAction)
      ensures isReady == old(isReady) && (old(injected) ==> injected)
      ensures responded <==> r.Some?
      ensures !responded ==> unchanged(this) && unchanged(page)
      ensures responded ==> r.Some? && Toggled(doc, r.value, old(toggleRetries), old(injectRetries))
    {
      if msg.action == Some(ToggleAction) {
        var t := TogglePalette(doc);
        r := Some(t);
        responded := true;
      } else {
        r := None;
        responded := false;
      }
    }
  }
}
