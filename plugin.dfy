/**
 * The plugin's event handler (src/index.ts:120-198): it remembers the
 * provider of the latest assistant message and whether the missing-
 * credentials warning was shown, and on `session.idle` after a Copilot-backed
 * reply decides which notification to show. Showing the notification is
 * left to the caller: the handler returns the toast. The usage fetch is
 * likewise done by the caller and its outcome passed in.
 */
module Plugin {
  import opened Wrappers
  import opened Usage
  import opened Presentation

  const CopilotPrefix: string := "github-copilot"
  const UsageTitle: string := "Copilot Usage"
  const SummaryTitle: string := "Copilot Premium Requests"
  const MissingCredentialsText: string := "Missing GITHUB_USERNAME or GITHUB_PAT"
  const FetchFailedText: string := "Failed to fetch quota"
  const WarningDuration: nat := 5000
  const SummaryDuration: nat := 8000

  datatype MessageInfo = Assistant(providerID: string, modelID: string) | User

  /** The `type` of any event other than the two the handler reacts to. */
  type OtherEventType = t: string | t != "message.updated" && t != "session.idle" witness ""

  datatype Event =
    | MessageUpdated(info: MessageInfo)
    | SessionIdle(sessionID: string)
    | Other(eventType: OtherEventType)

  /** The body passed to `client.tui.showToast`. */
  datatype Toast = Toast(title: string, message: string, variant: ToastVariant, duration: nat)

  const MissingCredentialsToast: Toast := Toast(UsageTitle, MissingCredentialsText, Warning, WarningDuration)
  const FetchFailedToast: Toast := Toast(UsageTitle, FetchFailedText, Warning, WarningDuration)

  /** The usage notification for a fetched count and quota. */
  function SummaryToast(u: Usage): (t: Toast)
    requires u.Sane()
    ensures t != MissingCredentialsToast && t != FetchFailedToast
  {
    Toast(SummaryTitle, UsageMessage(u.used, u.quota), Severity(UsagePercent(u.used, u.quota)), SummaryDuration)
  }

  predicate IsSummary(t: Toast) {
    t.title == SummaryTitle
  }

  /** An environment value JavaScript treats as truthy: set and not empty. */
  predicate IsSet(v: Option<string>): (b: bool)
    ensures b <==> v !in {None, Some("")}
  {
    v.Some? && v.value != ""
  }

  /** `GITHUB_USERNAME` and `GITHUB_PAT`, read once when the plugin loads. */
  datatype Credentials = Credentials(username: Option<string>, token: Option<string>) {
    predicate Complete(): (b: bool)
      ensures b <==> username !in {None, Some("")} && token !in {None, Some("")}
    {
      IsSet(username) && IsSet(token)
    }
  }

  /** `lastProviderID?.startsWith("github-copilot")`. */
  predicate IsCopilotProvider(id: Option<string>): (b: bool)
    ensures b <==> exists rest :: id == Some(CopilotPrefix + rest)
  {
    if id.Some? && StartsWith(id.value, CopilotPrefix) then
      assert id.value == id.value[..|CopilotPrefix|] + id.value[|CopilotPrefix|..];
      true
    else
      assert forall rest :: id != Some(CopilotPrefix + rest) by {
        forall rest ensures id != Some(CopilotPrefix + rest) {
          assert (CopilotPrefix + rest)[..|CopilotPrefix|] == CopilotPrefix;
        }
      }
      false
  }

  /** The two variables the handler closes over. */
  datatype HandlerState = HandlerState(lastProviderID: Option<string>, credentialsWarningShown: bool)

  const Initial: HandlerState := HandlerState(None, false)

  /**
   * One event: the state afterwards and the notification shown, if any.
   * `usage` is what `fetchCopilotUsage` would return at this point; it only
   * matters when the handler gets that far.
   */
  function Step(creds: Credentials, s: HandlerState, e: Event, usage: Option<Usage>): (r: (HandlerState, Option<Toast>))
    requires usage.Some? ==> usage.value.Sane()
    // Only an assistant message moves the provider, and it always does.
    ensures r.0.lastProviderID
         == if e.MessageUpdated? && e.info.Assistant? then Some(e.info.providerID) else s.lastProviderID
    // The warning flag is raised by a Copilot idle without credentials, and never lowered.
    ensures r.0.credentialsWarningShown
         == (s.credentialsWarningShown || (e.SessionIdle? && IsCopilotProvider(s.lastProviderID) && !creds.Complete()))
    // Every notification answers an idle that follows a Copilot-backed reply.
    ensures r.1.Some? ==> e.SessionIdle? && IsCopilotProvider(s.lastProviderID)
    ensures r.1 == Some(MissingCredentialsToast)
        <==> e.SessionIdle? && IsCopilotProvider(s.lastProviderID) && !creds.Complete() && !s.credentialsWarningShown
    ensures r.1 == Some(FetchFailedToast)
        <==> e.SessionIdle? && IsCopilotProvider(s.lastProviderID) && creds.Complete() && usage.None?
    ensures r.1.Some? && IsSummary(r.1.value)
        <==> e.SessionIdle? && IsCopilotProvider(s.lastProviderID) && creds.Complete() && usage.Some?
    ensures r.1.Some? && IsSummary(r.1.value) ==> usage.Some? && r.1 == Some(SummaryToast(usage.value))
    // There are exactly three notifications.
    ensures r.1.Some? ==>
              r.1 == Some(MissingCredentialsToast) || r.1 == Some(FetchFailedToast) ||
              (usage.Some? && r.1 == Some(SummaryToast(usage.value)))
  {
    match e
    case MessageUpdated(info) =>
      (if info.Assistant? then s.(lastProviderID := Some(info.providerID)) else s, None)
    case Other(_) => (s, None)
    case SessionIdle(_) =>
      if !IsCopilotProvider(s.lastProviderID) then (s, None)
      else if !creds.Complete() then
        (s.(credentialsWarningShown := true), if s.credentialsWarningShown then None else Some(MissingCredentialsToast))
      else if usage.None? then (s, Some(FetchFailedToast))
      else (s, Some(SummaryToast(usage.value)))
  }

  /** The closure returned by `CopilotUsagePlugin`, with its captured state. */
  class CopilotUsagePlugin {
    const username: Option<string>
    const token: Option<string>
    var lastProviderID: Option<string>
    var credentialsWarningShown: bool

    constructor (username: Option<string>, token: Option<string>)
      ensures this.username == username && this.token == token
      ensures State() == Initial
    {
      this.username := username;
      this.token := token;
      lastProviderID := None;
      credentialsWarningShown := false;
    }

    function Creds(): Credentials {
      Credentials(username, token)
    }

    function State(): HandlerState
      reads this
    {
      HandlerState(lastProviderID, credentialsWarningShown)
    }

    /** The `event` hook: handle one event, returning the toast to show. */
    method OnEvent(event: Event, usage: Option<Usage>) returns (toast: Option<Toast>)
      requires usage.Some? ==> usage.value.Sane()
      modifies this
      ensures (State(), toast) == Step(Creds(), old(State()), event, usage)
    {
      toast := None;
      if event.MessageUpdated? {
        if event.info.Assistant? {
          lastProviderID := Some(event.info.providerID);
        }
        return;
      }
      if !event.SessionIdle? {
        return;
      }
      if !IsCopilotProvider(lastProviderID) {
        return;
      }
      if !IsSet(username) || !IsSet(token) {
        if !credentialsWarningShown {
          toast := Some(MissingCredentialsToast);
          credentialsWarningShown := true;
        }
        return;
      }
      if usage.None? {
        toast := Some(FetchFailedToast);
        return;
      }
      var used, quota := usage.value.used, usage.value.quota;
      var percentage := used / quota as real * 100.0;
      var variant := Info;
      if percentage >= 90.0 {
        variant := Error;
      } else if percentage >= 75.0 {
        variant := Warning;
      }
      toast := Some(Toast(SummaryTitle, UsageMessage(used, quota), variant, SummaryDuration));
    }
  }

  // ------------------------------------------------------ event sequences

  /** One delivered event, with the fetch outcome it would meet. */
  datatype Input = Input(event: Event, usage: Option<Usage>) {
    predicate Sane() {
      usage.Some? ==> usage.value.Sane()
    }
  }

  predicate AllSane(ins: seq<Input>) {
    forall i | 0 <= i < |ins| :: ins[i].Sane()
  }

  /** The handler's state after a sequence of events, delivered in order. */
  function StateAfter(creds: Credentials, s: HandlerState, ins: seq<Input>): (r: HandlerState)
    requires AllSane(ins)
    // The warning flag is never lowered, and complete credentials never raise it.
    ensures s.credentialsWarningShown ==> r.credentialsWarningShown
    ensures creds.Complete() ==> r.credentialsWarningShown == s.credentialsWarningShown
  {
    if ins == [] then s
    else
      var last := ins[|ins| - 1];
      Step(creds, StateAfter(creds, s, ins[..|ins| - 1]), last.event, last.usage).0
  }

  /** The notifications shown for a sequence of events, one slot per event. */
  function Toasts(creds: Credentials, s: HandlerState, ins: seq<Input>): (ts: seq<Option<Toast>>)
    requires AllSane(ins)
    ensures |ts| == |ins|
    // Only idle events are answered.
    ensures forall i | 0 <= i < |ts| :: ts[i].Some? ==> ins[i].event.SessionIdle?
  {
    if ins == [] then []
    else
      var last := ins[|ins| - 1];
      Toasts(creds, s, ins[..|ins| - 1]) + [Step(creds, StateAfter(creds, s, ins[..|ins| - 1]), last.event, last.usage).1]
  }

  /**
   * Reference definition: the provider of the latest assistant message in
   * the sequence, or `init` when there is none.
   */
  function LatestProvider(init: Option<string>, ins: seq<Input>): (r: Option<string>)
    ensures r == init || exists i | 0 <= i < |ins| :: IsAssistantFrom(ins[i].event, r)
    ensures (forall i | 0 <= i < |ins| :: !IsAssistant(ins[i].event)) ==> r == init
    // An assistant message with none after it fixes the result.
    ensures forall j | 0 <= j < |ins| && IsAssistant(ins[j].event) &&
                       (forall k | j < k < |ins| :: !IsAssistant(ins[k].event)) ::
              r == Some(ins[j].event.info.providerID)
  {
    if ins == [] then init
    else
      var e := ins[|ins| - 1].event;
      if e.MessageUpdated? && e.info.Assistant? then Some(e.info.providerID)
      else LatestProvider(init, ins[..|ins| - 1])
  }

  /** `e` is a message from the assistant. */
  predicate IsAssistant(e: Event) {
    e.MessageUpdated? && e.info.Assistant?
  }

  /** `e` is an assistant message whose provider is `id`. */
  predicate IsAssistantFrom(e: Event, id: Option<string>) {
    e.MessageUpdated? && e.info.Assistant? && id == Some(e.info.providerID)
  }

  /** The notification for event `i` is what `Step` gives in the state reached before it. */
  lemma {:induction false} ToastAt(creds: Credentials, s: HandlerState, ins: seq<Input>, i: nat)
    requires AllSane(ins) && i < |ins|
    ensures Toasts(creds, s, ins)[i] == Step(creds, StateAfter(creds, s, ins[..i]), ins[i].event, ins[i].usage).1
    decreases |ins|
  {
    var prefix := ins[..|ins| - 1];
    assert AllSane(prefix) by {
      forall k | 0 <= k < |prefix| ensures prefix[k].Sane() {
        assert prefix[k] == ins[k];
      }
    }
    var last := ins[|ins| - 1];
    var step := Step(creds, StateAfter(creds, s, prefix), last.event, last.usage).1;
    assert Toasts(creds, s, ins) == Toasts(creds, s, prefix) + [step];
    if i == |ins| - 1 {
      assert ins[..i] == prefix;
    } else {
      ToastAt(creds, s, prefix, i);
      assert prefix[..i] == ins[..i];
      assert prefix[i] == ins[i];
    }
  }

  /** The handler's provider is always that of the latest assistant message. */
  lemma {:induction false} ProviderTracking(creds: Credentials, s: HandlerState, ins: seq<Input>)
    requires AllSane(ins)
    ensures StateAfter(creds, s, ins).lastProviderID == LatestProvider(s.lastProviderID, ins)
  {
    if ins != [] {
      ProviderTracking(creds, s, ins[..|ins| - 1]);
    }
  }

  /**
   * The missing-credentials warning is shown at most once over any sequence
   * of events, and never once it has been shown: the count of warnings, plus
   * one if the flag was already up, is at most one if the flag ends up, and
   * zero otherwise.
   */
  lemma {:induction false} MissingCredentialsAtMostOnce(creds: Credentials, s: HandlerState, ins: seq<Input>)
    requires AllSane(ins)
    ensures multiset(Toasts(creds, s, ins))[Some(MissingCredentialsToast)]
            + (if s.credentialsWarningShown then 1 else 0)
         <= (if StateAfter(creds, s, ins).credentialsWarningShown then 1 else 0)
  {
    if ins != [] {
      var prefix := ins[..|ins| - 1];
      MissingCredentialsAtMostOnce(creds, s, prefix);
    }
  }

  /** From the plugin's initial state, the warning appears at most once. */
  lemma {:induction false} WarningShownAtMostOnce(creds: Credentials, ins: seq<Input>)
    requires AllSane(ins)
    ensures multiset(Toasts(creds, Initial, ins))[Some(MissingCredentialsToast)] <= 1
  {
    MissingCredentialsAtMostOnce(creds, Initial, ins);
  }

  /**
   * A usage notification answers event `i` exactly when it is an idle, the
   * latest assistant message before it came from a Copilot provider, the
   * credentials are set and the fetch succeeded.
   */
  lemma {:induction false} SummaryIff(creds: Credentials, s: HandlerState, ins: seq<Input>, i: nat)
    requires AllSane(ins) && i < |ins|
    ensures var t := Toasts(creds, s, ins)[i];
      t.Some? && IsSummary(t.value)
      <==> ins[i].event.SessionIdle? && IsCopilotProvider(LatestProvider(s.lastProviderID, ins[..i]))
           && creds.Complete() && ins[i].usage.Some?
  {
    ToastAt(creds, s, ins, i);
    ProviderTracking(creds, s, ins[..i]);
  }

  /** A failed fetch is reported on every qualifying idle, not only the first. */
  lemma {:induction false} FetchFailureIff(creds: Credentials, s: HandlerState, ins: seq<Input>, i: nat)
    requires AllSane(ins) && i < |ins|
    ensures Toasts(creds, s, ins)[i] == Some(FetchFailedToast)
      <==> ins[i].event.SessionIdle? && IsCopilotProvider(LatestProvider(s.lastProviderID, ins[..i]))
           && creds.Complete() && ins[i].usage.None?
  {
    ToastAt(creds, s, ins, i);
    ProviderTracking(creds, s, ins[..i]);
  }

  /**
   * Idle events never forget the provider: after a Copilot-backed reply and
   * with credentials set, every idle with a successful fetch notifies.
   */
  lemma {:induction false} RepeatedIdlesEachNotify(creds: Credentials, s: HandlerState, ins: seq<Input>, i: nat)
    requires AllSane(ins) && i < |ins|
    requires IsCopilotProvider(s.lastProviderID) && creds.Complete()
    requires forall k | 0 <= k < |ins| :: ins[k].event.SessionIdle? && ins[k].usage.Some?
    ensures Toasts(creds, s, ins)[i] == Some(SummaryToast(ins[i].usage.value))
  {
    var before := ins[..i];
    assert AllSane(before) by {
      forall k | 0 <= k < |before| ensures before[k].Sane() {
        assert before[k] == ins[k];
      }
    }
    ToastAt(creds, s, ins, i);
    ProviderTracking(creds, s, before);
    IdlesKeepProvider(s.lastProviderID, before);
    var state := StateAfter(creds, s, before);
    assert IsCopilotProvider(state.lastProviderID);
    assert Step(creds, state, ins[i].event, ins[i].usage).1 == Some(SummaryToast(ins[i].usage.value));
  }

  lemma {:induction false} IdlesKeepProvider(init: Option<string>, ins: seq<Input>)
    requires forall k | 0 <= k < |ins| :: ins[k].event.SessionIdle?
    ensures LatestProvider(init, ins) == init
  {
    if ins != [] {
      IdlesKeepProvider(init, ins[..|ins| - 1]);
    }
  }
}
