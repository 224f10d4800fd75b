/**
 * The extension's background worker (ghost-ui/extension/background.js): on
 * the toggle command it messages the active tab, and when no content script
 * answers it injects one and, after half a second, messages the tab once
 * more. The Chrome calls are modelled by their outcomes, which are inputs;
 * the method returns the calls it made, in order.
 */
module Background {

  import opened Wrappers

  const ToggleCommand := "toggle-ghost-ui"
  const ToggleAction := "toggle-ghost-ui"
  const ContentScriptFile := "content.js"
  const RetryDelayMs := 500

  datatype Tab = Tab(id: int, url: string)

  /** One Chrome call and whether it succeeded, or the delay before the
      retry. */
  datatype ChromeCall =
    | SendMessage(tabId: int, action: string, ok: bool)
    | ExecuteScript(tabId: int, file: string, ok: bool)
    | Wait(ms: int)

  function Sends(calls: seq<ChromeCall>): nat {
    if calls == [] then 0
    else Sends(calls[..|calls| - 1]) + (if calls[|calls| - 1].SendMessage? then 1 else 0)
  }

  function Injections(calls: seq<ChromeCall>): nat {
    if calls == [] then 0
    else Injections(calls[..|calls| - 1]) + (if calls[|calls| - 1].ExecuteScript? then 1 else 0)
  }

  /** Appending a call adds it to the right count and to no other. */
  lemma CountsAppend(calls: seq<ChromeCall>, c: ChromeCall)
    ensures Sends(calls + [c]) == Sends(calls) + (if c.SendMessage? then 1 else 0)
    ensures Injections(calls + [c]) == Injections(calls) + (if c.ExecuteScript? then 1 else 0)
  {
    assert (calls + [c])[..|calls|] == calls;
  }

  /** The `onCommand` listener. `tabs` is what the active-tab query returns;
      `firstSendOk`, `injectionOk` and `retrySendOk` are the outcomes the
      first message, the injection and the retried message would have. */
  method OnCommand(command: string, tabs: seq<Tab>, firstSendOk: bool, injectionOk: bool, retrySendOk: bool)
    returns (calls: seq<ChromeCall>)
    // nothing happens for another command or when there is no active tab
    ensures command != ToggleCommand || tabs == [] ==> calls == []
    // otherwise the toggle action goes to the active tab first
    ensures command == ToggleCommand && tabs != [] ==>
              |calls| > 0 && calls[0] == SendMessage(tabs[0].id, ToggleAction, firstSendOk)
    // an injection follows exactly when that message was not delivered
    ensures |calls| > 1 <==> command == ToggleCommand && tabs != [] && !firstSendOk
    ensures |calls| > 1 ==> calls[1] == ExecuteScript(tabs[0].id, ContentScriptFile, injectionOk)
    // the retry comes only after a successful injection, half a second later,
    // and is the last call whatever its outcome
    ensures |calls| > 2 <==> command == ToggleCommand && tabs != [] && !firstSendOk && injectionOk
    ensures |calls| > 2 ==>
              |calls| == 4 && calls[2] == Wait(RetryDelayMs)
              && calls[3] == SendMessage(tabs[0].id, ToggleAction, retrySendOk)
    // at most two messages and one injection in all
    ensures Sends(calls) <= 2 && Injections(calls) <= 1
  {
    calls := [];
    if command != ToggleCommand || tabs == [] {
      return;
    }
    var tabId := tabs[0].id;
    CountsAppend([], SendMessage(tabId, ToggleAction, firstSendOk));
    calls := calls + [SendMessage(tabId, ToggleAction, firstSendOk)];
    if firstSendOk {
      return;
    }
    CountsAppend(calls, ExecuteScript(tabId, ContentScriptFile, injectionOk));
    calls := calls + [ExecuteScript(tabId, ContentScriptFile, injectionOk)];
    if !injectionOk {
      return;
    }
    CountsAppend(calls, Wait(RetryDelayMs));
    calls := calls + [Wait(RetryDelayMs)];
    CountsAppend(calls, SendMessage(tabId, ToggleAction, retrySendOk));
    calls := calls + [SendMessage(tabId, ToggleAction, retrySendOk)];
  }
}
