/**
 * The chat client's turn state (components/chat-interface.tsx): the code of
 * the last artifact, whether a generation is running, which tab is shown,
 * and what the component hands to the outside world — notifications, save
 * requests to the history endpoint, the preview document and exported code.
 *
 * The message list, the input box and the loading flag belong to the chat
 * hook the component uses; they come in as parameters. The delays the
 * component puts before switching tabs and refreshing the preview are
 * collapsed: each handler leaves the state those timers settle on.
 */
module ChatInterface {
  import opened Wrappers
  import opened JsStrings
  import opened Artifact
  import opened ChatErrors

  datatype Tab = ChatTab | PreviewTab | CodeTab

  datatype Role = User | Assistant

  datatype Message = Message(id: string, role: Role, content: string)

  /** A request posted to the history endpoint: the user and the transcript to store. */
  datatype SaveRequest = SaveRequest(userId: string, messages: seq<Message>)

  /** Code leaving the page: as a downloaded file, on the clipboard, or opened in a new window. */
  datatype Export =
    | Download(fileName: string, mimeType: string, content: string)
    | Clipboard(content: string)
    | NewWindow(mimeType: string, content: string)

  const DownloadName: string := "landing-page.html"
  const HtmlType: string := "text/html"

  const DownloadedToast: Toast := Toast("Downloaded!", "Your HTML file has been downloaded.")
  const CopiedToast: Toast := Toast("Copied!", "Code copied to clipboard.")
  const OpenedToast: Toast := Toast("Opened in new tab!", "Your landing page is now open in a new tab.")
  const PopupBlockedToast: Toast := Toast("Popup blocked", "Please allow popups for this site to open in new tab.")

  /** The send button is enabled: nothing is loading and the input has a non-blank character. */
  function SubmitEnabled(isLoading: bool, input: string): (enabled: bool)
    ensures enabled <==> !isLoading && exists i :: 0 <= i < |input| && !IsSpace(input[i])
  {
    !isLoading && Trim(input) != ""
  }

  class Session {
    const userId: string
    /** `activeTab`: the tab shown on the right-hand side. */
    var activeTab: Tab
    /** `generatedCode`: the last artifact, or "" before the first one. */
    var generatedCode: string
    /** `isGenerating`: the loading indicator is shown. */
    var isGenerating: bool
    /** The document in the preview frame; None while the frame is not on screen. */
    var preview: Option<string>
    /** Notifications shown so far, oldest first. */
    var toasts: seq<Toast>
    /** Save requests sent so far, oldest first. */
    var saves: seq<SaveRequest>
    /** Code exported so far, oldest first. */
    var exports: seq<Export>

    /** The preview frame is on screen: the preview tab is shown and there is code to show. */
    predicate FrameMounted()
      reads this
    {
      activeTab == PreviewTab && generatedCode != ""
    }

    /** The preview shows the current code whenever the frame is on screen. */
    ghost predicate Valid()
      reads this
    {
      preview == if FrameMounted() then Some(generatedCode) else None
    }

    constructor (userId: string)
      ensures Valid()
      ensures this.userId == userId && activeTab == ChatTab && generatedCode == ""
      ensures !isGenerating && preview == None && toasts == [] && saves == [] && exports == []
    {
      this.userId := userId;
      activeTab := ChatTab;
      generatedCode := "";
      isGenerating := false;
      preview := None;
      toasts := [];
      saves := [];
      exports := [];
    }

    /**
     * `updatePreview`: writes `code` into the preview frame, and does nothing
     * when `code` is empty or the frame is not on screen.
     */
    method UpdatePreview(code: string)
      modifies this`preview
      ensures preview == if code != "" && FrameMounted() then Some(code) else old(preview)
    {
      if code == "" {
        return;
      }
      if FrameMounted() {
        preview := Some(code);
      }
    }

    /** The frame appears or disappears with the tab and the code; once shown it is filled with the code. */
    method RefreshFrame()
      modifies this`preview
      ensures preview == if FrameMounted() then Some(generatedCode) else None
    {
      if !FrameMounted() {
        preview := None;
      } else if preview.None? {
        preview := Some("");
      }
      UpdatePreview(generatedCode);
    }

    /** The user picks a tab. */
    method SelectTab(tab: Tab)
      requires Valid()
      modifies this
      ensures Valid()
      ensures activeTab == tab
      ensures generatedCode == old(generatedCode) && isGenerating == old(isGenerating)
      ensures toasts == old(toasts) && saves == old(saves) && exports == old(exports)
    {
      activeTab := tab;
      RefreshFrame();
    }

    /**
     * `handleCustomSubmit`, reached through the form: the form can be sent
     * only while the send button is enabled, and sending it turns the
     * loading indicator on. Appending the message and calling the
     * generation endpoint are the chat hook's.
     */
    method Submit(input: string, isLoading: bool) returns (sent: bool)
      requires Valid()
      modifies this
      ensures Valid()
      ensures sent == SubmitEnabled(isLoading, input)
      ensures isGenerating == (sent || old(isGenerating))
      ensures activeTab == old(activeTab) && generatedCode == old(generatedCode) && preview == old(preview)
      ensures toasts == old(toasts) && saves == old(saves) && exports == old(exports)
    {
      sent := SubmitEnabled(isLoading, input);
      if sent {
        isGenerating := true;
      }
    }

    /**
     * `onError`: the loading indicator goes off and a notification classifies
     * the error; the artifact, the tab and the preview stay as they were.
     */
    method OnError(message: string)
      requires Valid()
      modifies this
      ensures Valid()
      ensures !isGenerating
      ensures toasts == old(toasts) + [Classify(message)]
      ensures activeTab == old(activeTab) && generatedCode == old(generatedCode) && preview == old(preview)
      ensures saves == old(saves) && exports == old(exports)
    {
      isGenerating := false;
      toasts := toasts + [Classify(message)];
    }

    /**
     * `onFinish`: the loading indicator goes off. When the finished message
     * holds an artifact, it becomes the code, the preview tab is shown with
     * it, and a save request carries the messages the component had followed
     * by the finished one. Without an artifact nothing else changes and
     * nothing is saved.
     */
    method OnFinish(messages: seq<Message>, message: Message)
      requires Valid()
      modifies this
      ensures Valid()
      ensures !isGenerating
      ensures toasts == old(toasts) && exports == old(exports)
      ensures Extract(message.content).None? ==>
        activeTab == old(activeTab) && generatedCode == old(generatedCode)
        && preview == old(preview) && saves == old(saves)
      ensures Extract(message.content).Some? ==>
        generatedCode == Extract(message.content).value && activeTab == PreviewTab
        && preview == Some(generatedCode)
        && saves == old(saves) + [SaveRequest(userId, messages + [message])]
    {
      isGenerating := false;
      var code := Extract(message.content);
      if code.Some? {
        generatedCode := code.value;
        activeTab := PreviewTab;
        RefreshFrame();
        saves := saves + [SaveRequest(userId, messages + [message])];
      }
    }

    /** `downloadCode`: the code leaves as landing-page.html; nothing happens without code. */
    method DownloadCode()
      requires Valid()
      modifies this
      ensures Valid()
      ensures generatedCode == "" ==> exports == old(exports) && toasts == old(toasts)
      ensures generatedCode != "" ==>
        exports == old(exports) + [Download(DownloadName, HtmlType, generatedCode)]
        && toasts == old(toasts) + [DownloadedToast]
      ensures activeTab == old(activeTab) && generatedCode == old(generatedCode) && preview == old(preview)
      ensures isGenerating == old(isGenerating) && saves == old(saves)
    {
      if generatedCode == "" {
        return;
      }
      exports := exports + [Download(DownloadName, HtmlType, generatedCode)];
      toasts := toasts + [DownloadedToast];
    }

    /** `copyCode`: the code goes to the clipboard; nothing happens without code. */
    method CopyCode()
      requires Valid()
      modifies this
      ensures Valid()
      ensures generatedCode == "" ==> exports == old(exports) && toasts == old(toasts)
      ensures generatedCode != "" ==>
        exports == old(exports) + [Clipboard(generatedCode)] && toasts == old(toasts) + [CopiedToast]
      ensures activeTab == old(activeTab) && generatedCode == old(generatedCode) && preview == old(preview)
      ensures isGenerating == old(isGenerating) && saves == old(saves)
    {
      if generatedCode == "" {
        return;
      }
      exports := exports + [Clipboard(generatedCode)];
      toasts := toasts + [CopiedToast];
    }

    /**
     * `openInNewTab`: the code opens in a new window, unless the browser
     * blocks the pop-up; nothing happens without code.
     */
    method OpenInNewTab(popupAllowed: bool)
      requires Valid()
      modifies this
      ensures Valid()
      ensures generatedCode == "" ==> exports == old(exports) && toasts == old(toasts)
      ensures generatedCode != "" && popupAllowed ==>
        exports == old(exports) + [NewWindow(HtmlType, generatedCode)] && toasts == old(toasts) + [OpenedToast]
      ensures generatedCode != "" && !popupAllowed ==>
        exports == old(exports) && toasts == old(toasts) + [PopupBlockedToast]
      ensures activeTab == old(activeTab) && generatedCode == old(generatedCode) && preview == old(preview)
      ensures isGenerating == old(isGenerating) && saves == old(saves)
    {
      if generatedCode == "" {
        return;
      }
      if popupAllowed {
        exports := exports + [NewWindow(HtmlType, generatedCode)];
        toasts := toasts + [OpenedToast];
      } else {
        toasts := toasts + [PopupBlockedToast];
      }
    }
  }
}
