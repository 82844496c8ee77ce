/** The preview panel's status overlay: `previewStatus`, `previewMessage`
    and the `refreshKey` that re-mounts the iframe, driven by the effects,
    the 8000 ms timeout, the iframe's `onLoad`, the messages the iframe
    posts, and the Refresh and Retry buttons. Events are applied in
    whatever order they arrive; nothing ties a message to the document that
    sent it. */
module PreviewStatus {
  import opened Wrappers

  datatype Status = Loading | Ready | Failed

  /** The part of a posted message that `handleMessage` reads: its `type`
      and its `error`, each absent or a string. */
  datatype PostedMessage = PostedMessage(kind: Option<string>, error: Option<string>)

  datatype Event =
    | ProjectChanged     // the `[currentProject]` effect bumps `refreshKey`
    | RefreshClicked     // the Refresh button, always shown
    | RetryClicked       // the Retry button, rendered only while not ready
    | TimeoutFired       // the pending 8000 ms timer callback runs
    | FrameLoaded        // the iframe's `onLoad`
    | Message(m: PostedMessage)

  /** The panel's state; `timerPending` says whether the timeout armed by the
      last `refreshKey` effect is still to fire (the effect's cleanup
      cancels the previous one). */
  datatype PanelState = PanelState(refreshKey: nat, status: Status, message: string, timerPending: bool)

  const LoadingMessage := "Loading preview..."
  const SlowMessage := "Preview is taking longer than expected. Tap Retry or open DevTools console for details."
  const ErrorPrefix := "Preview error: "

  /** `'Preview error: ' + (data.error || 'unknown')`. */
  function ErrorMessage(error: Option<string>): (r: string)
    ensures |r| > |ErrorPrefix| && r[..|ErrorPrefix|] == ErrorPrefix
    ensures error.Some? && error.value != [] ==> r[|ErrorPrefix|..] == error.value
    ensures !(error.Some? && error.value != []) ==> r[|ErrorPrefix|..] == "unknown"
  {
    ErrorPrefix + (if error.Some? && error.value != [] then error.value else "unknown")
  }

  /** Distinct non-empty posted errors give distinct messages, and the
      message tells a missing or empty error apart from any error other
      than the literal "unknown". */
  lemma {:induction false} ErrorMessageInjective(a: Option<string>, b: Option<string>)
    ensures a.Some? && a.value != [] && b.Some? && b.value != [] ==>
              (ErrorMessage(a) == ErrorMessage(b) <==> a == b)
    ensures a.Some? && a.value != [] && a.value != "unknown" ==> ErrorMessage(a) != ErrorMessage(None)
  {
  }

  /** The state after the first render's `[refreshKey]` effect. */
  const Initial := PanelState(0, Loading, LoadingMessage, true)

  /** A bump of `refreshKey` by one and the `[refreshKey]` effect that
      follows: loading, with a fresh timer. */
  function Reload(s: PanelState): PanelState {
    PanelState(s.refreshKey + 1, Loading, LoadingMessage, true)
  }

  /** `handleMessage`: only the two known types change anything. */
  function OnMessage(s: PanelState, m: PostedMessage): PanelState {
    if m.kind == Some("preview-ready") then s.(status := Ready, message := [])
    else if m.kind == Some("preview-error") then s.(status := Failed, message := ErrorMessage(m.error))
    else s
  }

  /** One event, as the component handles it. The timer callback sets the
      advisory whenever it runs, whatever the status by then. */
  function Next(s: PanelState, e: Event): PanelState {
    match e
    case ProjectChanged => Reload(s)
    case RefreshClicked => Reload(s)
    case RetryClicked => if s.status != Ready then Reload(s) else s
    case TimeoutFired =>
      if s.timerPending then s.(status := Failed, message := SlowMessage, timerPending := false) else s
    case FrameLoaded => s.(status := Ready, message := [])
    case Message(m) => OnMessage(s, m)
  }

  /** The timer callback as evidently intended: the advisory replaces only a
      status that is still loading. */
  function NextFixed(s: PanelState, e: Event): PanelState {
    match e
    case TimeoutFired =>
      if s.timerPending && s.status == Loading then s.(status := Failed, message := SlowMessage, timerPending := false)
      else s.(timerPending := false)
    case _ => Next(s, e)
  }

  function Run(s: PanelState, events: seq<Event>): PanelState
    decreases |events|
  {
    if events == [] then s else Run(Next(s, events[0]), events[1..])
  }

  function RunFixed(s: PanelState, events: seq<Event>): PanelState
    decreases |events|
  {
    if events == [] then s else RunFixed(NextFixed(s, events[0]), events[1..])
  }

  /** The overlay is hidden exactly when the message is empty, a loading
      panel shows the loading text and always has its timer pending. */
  predicate Consistent(s: PanelState) {
    && (s.status == Ready <==> s.message == [])
    && (s.status == Loading ==> s.message == LoadingMessage && s.timerPending)
  }

  lemma {:induction false} InitialConsistent()
    ensures Consistent(Initial)
  {
  }

  lemma {:induction false} NextConsistent(s: PanelState, e: Event)
    requires Consistent(s)
    ensures Consistent(Next(s, e))
    ensures Consistent(NextFixed(s, e))
  {
    if e.Message? && e.m.kind == Some("preview-error") {
      assert |ErrorMessage(e.m.error)| > 0;
    }
  }

  lemma {:induction false} RunConsistent(s: PanelState, events: seq<Event>)
    requires Consistent(s)
    ensures Consistent(Run(s, events))
    ensures Consistent(RunFixed(s, events))
    decreases |events|
  {
    if events != [] {
      NextConsistent(s, events[0]);
      RunConsistent(Next(s, events[0]), events[1..]);
      RunConsistent(NextFixed(s, events[0]), events[1..]);
    }
  }

  /** Each project change, Refresh, and Retry while not ready increments
      `refreshKey` by exactly one and starts loading; no other event
      touches `refreshKey`. */
  lemma {:induction false} RefreshKeyStep(s: PanelState, e: Event)
    ensures var bumps := e.ProjectChanged? || e.RefreshClicked? || (e.RetryClicked? && s.status != Ready);
            && Next(s, e).refreshKey == s.refreshKey + (if bumps then 1 else 0)
            && (bumps ==> Next(s, e).status == Loading && Next(s, e).message == LoadingMessage)
  {
  }

  function CountRefreshes(events: seq<Event>): nat {
    if events == [] then 0
    else (if events[0].ProjectChanged? || events[0].RefreshClicked? then 1 else 0) + CountRefreshes(events[1..])
  }

  function CountRetries(events: seq<Event>): nat {
    if events == [] then 0 else (if events[0].RetryClicked? then 1 else 0) + CountRetries(events[1..])
  }

  /** Over any run, `refreshKey` grows by one per project change or Refresh,
      plus at most one per Retry. */
  lemma {:induction false} RefreshKeyCounts(s: PanelState, events: seq<Event>)
    ensures s.refreshKey + CountRefreshes(events) <= Run(s, events).refreshKey
    ensures Run(s, events).refreshKey <= s.refreshKey + CountRefreshes(events) + CountRetries(events)
    decreases |events|
  {
    if events != [] {
      RefreshKeyStep(s, events[0]);
      RefreshKeyCounts(Next(s, events[0]), events[1..]);
    }
  }

  /** Messages of any other type change nothing. */
  lemma {:induction false} OtherMessagesIgnored(s: PanelState, m: PostedMessage)
    requires m.kind != Some("preview-ready") && m.kind != Some("preview-error")
    ensures Next(s, Message(m)) == s
  {
  }

  /** A ready signal wins over any earlier error: a late `preview-ready` or
      `onLoad` after the timeout or a `preview-error` still shows ready. */
  lemma {:induction false} LateReadyOverwritesError(s: PanelState, m: PostedMessage)
    requires m.kind == Some("preview-ready")
    ensures Run(s, [TimeoutFired, Message(m)]).status == Ready
    ensures Run(s, [Message(PostedMessage(Some("preview-error"), None)), FrameLoaded]).status == Ready
  {
    var s1 := Next(s, TimeoutFired);
    assert [TimeoutFired, Message(m)][1..] == [Message(m)];
    assert Run(s1, [Message(m)]) == Run(Next(s1, Message(m)), []);
    var err := Message(PostedMessage(Some("preview-error"), None));
    assert [err, FrameLoaded][1..] == [FrameLoaded];
  }

  /** A successful load is followed, when the timer fires, by the
      "taking longer than expected" advisory: the timer is cancelled only by
      the next `refreshKey` change, never by `onLoad` or `preview-ready`. */
  lemma {:induction false} ReadyThenTimeoutShowsAdvisory(s: PanelState)
    ensures Run(s, [RefreshClicked, FrameLoaded, TimeoutFired]).status == Failed
    ensures Run(s, [RefreshClicked, FrameLoaded, TimeoutFired]).message == SlowMessage
  {
    var evs := [RefreshClicked, FrameLoaded, TimeoutFired];
    assert evs[1..] == [FrameLoaded, TimeoutFired];
    assert evs[1..][1..] == [TimeoutFired];
  }

  /** Events that neither reload the panel nor report an error. */
  predicate Quiet(e: Event) {
    e.TimeoutFired? || e.FrameLoaded? || (e.Message? && e.m.kind != Some("preview-error"))
  }

  /** With the timer callback corrected, a ready panel stays ready until
      the next reload or reported error; the advisory only ever replaces
      the loading status. */
  lemma {:induction false} FixedReadyStaysReady(s: PanelState, events: seq<Event>)
    requires s.status == Ready
    requires forall i :: 0 <= i < |events| ==> Quiet(events[i])
    ensures RunFixed(s, events).status == Ready
    decreases |events|
  {
    if events != [] {
      FixedReadyStaysReady(NextFixed(s, events[0]), events[1..]);
    }
  }

  lemma {:induction false} FixedAdvisoryOnlyWhileLoading(s: PanelState)
    ensures NextFixed(s, TimeoutFired).status == Failed ==> s.status == Loading || s.status == Failed
    ensures NextFixed(s, TimeoutFired).message == SlowMessage && s.message != SlowMessage ==> s.status == Loading
  {
  }

  /** The panel as a component: its state hooks are fields, each handler a
      method, each the as-written step of `Next`. */
  class PreviewPanel {
    var refreshKey: nat
    var status: Status
    var message: string
    var timerPending: bool

    function State(): PanelState
      reads this
    {
      PanelState(refreshKey, status, message, timerPending)
    }

    constructor ()
      ensures State() == Initial
    {
      refreshKey := 0;
      status := Loading;
      message := LoadingMessage;
      timerPending := true;
    }

    /** `setRefreshKey(k => k + 1)` and the `[refreshKey]` effect. */
    method Bump()
      modifies this
      ensures State() == Reload(old(State()))
    {
      refreshKey := refreshKey + 1;
      status := Loading;
      message := LoadingMessage;
      timerPending := true;
    }

    method OnProjectChange()
      modifies this
      ensures State() == Next(old(State()), ProjectChanged)
    {
      Bump();
    }

    method OnRefresh()
      modifies this
      ensures State() == Next(old(State()), RefreshClicked)
    {
      Bump();
    }

    method OnRetry()
      modifies this
      ensures State() == Next(old(State()), RetryClicked)
    {
      if status != Ready {
        Bump();
      }
    }

    method OnTimeout()
      modifies this
      ensures State() == Next(old(State()), TimeoutFired)
      ensures old(timerPending) ==> status == Failed && message == SlowMessage
      ensures !old(timerPending) ==> State() == old(State())
    {
      if timerPending {
        status := Failed;
        message := SlowMessage;
        timerPending := false;
      }
    }

    method OnFrameLoad()
      modifies this
      ensures State() == Next(old(State()), FrameLoaded)
      ensures status == Ready && message == []
    {
      status := Ready;
      message := [];
    }

    method HandleMessage(m: PostedMessage)
      modifies this
      ensures State() == Next(old(State()), Message(m))
      ensures Consistent(old(State())) ==> Consistent(State())
    {
      if m.kind == Some("preview-ready") {
        status := Ready;
        message := [];
      }
      if m.kind == Some("preview-error") {
        status := Failed;
        message := ErrorMessage(m.error);
      }
      if Consistent(old(State())) {
        NextConsistent(old(State()), Message(m));
      }
    }
  }
}
