/**
 * The chat controller: a single-threaded state machine between the native
 * chat library and a host that polls `Update`. Every public call and every
 * transport callback is a pure function from the controller record (and the
 * outcomes of the transport calls it makes) to a `Step`: the new record,
 * the call's boolean result, and the listener notifications, transport
 * commands and error reports it produced, in order.
 */
module ChatController {
  import opened ChatTypes
  import History
  import Roster

  /** Everything the controller keeps between calls. */
  datatype Controller = Controller(
    listener: bool,              // a listener is registered
    userName: string,
    channelName: string,
    clientId: string,
    authToken: string,
    initialized: bool,           // the chat library has been initialized
    anonymous: bool,
    state: ChatState,
    roster: seq<ChatUserInfo>,
    raw: seq<ChatMessage>,
    tokenized: seq<ChatTokenizedMessage>,
    historySize: nat,
    requestedMode: EmoticonMode, // the parsing mode the host asks for
    activeMode: EmoticonMode,    // the mode captured at initialization
    emoticonPresent: bool)       // an emoticon data object is held

  /** A freshly constructed controller. */
  const Fresh := Controller(false, "", "", "", "", false, false, Uninitialized,
                            [], [], [], 128, None, None, false)

  /** The outcome of one call. `result` is meaningful for calls returning a boolean. */
  datatype Step = Step(c: Controller, result: bool, events: seq<Event>, cmds: seq<Cmd>, errors: seq<Report>)

  function Quiet(c: Controller): Step
  {
    Step(c, true, [], [], [])
  }

  /** A notification reaches the listener only when one is registered. */
  function Notice(c: Controller, e: Event): seq<Event>
  {
    if c.listener then [e] else []
  }

  /** `a` followed by `b`, where `b` was computed from `a.c`. */
  function Then(a: Step, b: Step): Step
  {
    Step(b.c, b.result, a.events + b.events, a.cmds + b.cmds, a.errors + b.errors)
  }

  /** The roster, both histories and the history size are unchanged. */
  predicate KeepsData(a: Controller, b: Controller)
  {
    a.roster == b.roster && a.raw == b.raw && a.tokenized == b.tokenized && a.historySize == b.historySize
  }

  predicate IsConnectCmd(m: Cmd)
  {
    m.ChatConnect? || m.ChatConnectAnonymous?
  }

  /** The log holds no connect command. */
  predicate NoConnects(cmds: seq<Cmd>)
  {
    forall i :: 0 <= i < |cmds| ==> !IsConnectCmd(cmds[i])
  }

  /** How many connect commands a command log holds. */
  function Connects(cmds: seq<Cmd>): nat
  {
    if |cmds| == 0 then 0 else (if IsConnectCmd(cmds[0]) then 1 else 0) + Connects(cmds[1..])
  }

  /** How many times `e` occurs in an event log. */
  function Occurrences(events: seq<Event>, e: Event): nat
  {
    if |events| == 0 then 0 else (if events[0] == e then 1 else 0) + Occurrences(events[1..], e)
  }

  lemma {:induction false} ConnectsAppend(a: seq<Cmd>, b: seq<Cmd>)
    ensures Connects(a + b) == Connects(a) + Connects(b)
    decreases |a|
  {
    if |a| > 0 {
      assert (a + b)[1..] == a[1..] + b;
      ConnectsAppend(a[1..], b);
    } else {
      assert a + b == b;
    }
  }

  lemma {:induction false} NoConnectsCount(cmds: seq<Cmd>)
    requires NoConnects(cmds)
    ensures Connects(cmds) == 0
    decreases |cmds|
  {
    if |cmds| > 0 {
      NoConnectsCount(cmds[1..]);
    }
  }

  lemma {:induction false} OccurrencesAppend(a: seq<Event>, b: seq<Event>, e: Event)
    ensures Occurrences(a + b, e) == Occurrences(a, e) + Occurrences(b, e)
    decreases |a|
  {
    if |a| > 0 {
      assert (a + b)[1..] == a[1..] + b;
      OccurrencesAppend(a[1..], b, e);
    } else {
      assert a + b == b;
    }
  }

  // =====================================================================
  // Emoticon data

  /**
   * Asks the transport to download emoticon data, unless the REQUESTED mode
   * is None, data is already held, or the library is not initialized.
   */
  function DownloadEmoticonData(c: Controller, downloadOk: bool): (r: Step)
    ensures r.c == c && r.events == []
    ensures r.cmds != [] <==> c.requestedMode != None && !c.emoticonPresent && c.initialized
    ensures r.cmds != [] ==> r.cmds == [ChatDownloadEmoticonData(c.requestedMode == TextureAtlas)]
    ensures r.errors != [] <==> r.cmds != [] && !downloadOk
  {
    if c.requestedMode == None then Quiet(c)
    else if !c.emoticonPresent && c.initialized then
      Step(c, true, [], [ChatDownloadEmoticonData(c.requestedMode == TextureAtlas)],
           if downloadOk then [] else [ErrorDownloadingEmoticons])
    else Quiet(c)
  }

  /**
   * Fetches the downloaded data unless some is already held. The data
   * object is kept even when the fetch fails; only success is announced.
   */
  function SetupEmoticonData(c: Controller, fetchOk: bool): (r: Step)
    ensures c.emoticonPresent ==> r == Quiet(c)
    ensures r.c == c.(emoticonPresent := true)
    ensures !c.emoticonPresent ==> r.cmds == [ChatGetEmoticonData]
    ensures r.events == (if !c.emoticonPresent && fetchOk then Notice(c, OnEmoticonDataAvailable) else [])
    ensures r.errors != [] <==> !c.emoticonPresent && !fetchOk
  {
    if c.emoticonPresent then Quiet(c)
    else
      var c' := c.(emoticonPresent := true);
      if fetchOk then Step(c', true, Notice(c, OnEmoticonDataAvailable), [ChatGetEmoticonData], [])
      else Step(c', true, [], [ChatGetEmoticonData], [ErrorPreparingEmoticons])
  }

  /** Drops the held data; the listener hears of it only if there was some. */
  function CleanupEmoticonData(c: Controller): (r: Step)
    ensures r.c == c.(emoticonPresent := false)
    ensures r.events == (if c.emoticonPresent then Notice(c, OnEmoticonDataExpired) else [])
    ensures r.cmds == [] && r.errors == []
  {
    if !c.emoticonPresent then Quiet(c)
    else Step(c.(emoticonPresent := false), true, Notice(c, OnEmoticonDataExpired), [], [])
  }

  // =====================================================================
  // Transport callbacks (delivered while events are flushed)

  /** A failed status drops the controller to Disconnected; success is ignored. */
  function OnStatus(c: Controller, succeeded: bool): (r: Step)
    ensures r.c == (if succeeded then c else c.(state := Disconnected))
    ensures r.events == [] && r.cmds == [] && r.errors == []
  {
    if succeeded then Quiet(c) else Quiet(c.(state := Disconnected))
  }

  /** Joining the channel means Connected (announced); leaving means Disconnected. */
  function OnMembership(c: Controller, evt: ChatEvent): (r: Step)
    ensures r.c == c.(state := if evt == JoinedChannel then Connected else Disconnected)
    ensures r.events == (if evt == JoinedChannel then Notice(c, OnConnected) else [])
    ensures r.cmds == [] && r.errors == []
  {
    match evt
    case JoinedChannel => Step(c.(state := Connected), true, Notice(c, OnConnected), [], [])
    case LeftChannel => Quiet(c.(state := Disconnected))
  }

  /**
   * Applies a roster delta and forwards the three original lists. The roster
   * becomes the leave, update, join delta of `Roster.ApplyDelta`, each leave
   * and update taking the first entry of its identity. Users not named in
   * the delta keep their relative order; on a duplicate-free roster and
   * update list the result has the closed form of `Roster.DeltaClosedForm`.
   */
  function OnUserChange(c: Controller, join: seq<ChatUserInfo>, leave: seq<ChatUserInfo>,
                        upd: seq<ChatUserInfo>): (r: Step)
    ensures r.c == c.(roster := Roster.ApplyDelta(c.roster, join, leave, upd))
    ensures r.events == Notice(c, OnUsersChanged(join, leave, upd))
    ensures r.cmds == [] && r.errors == []
    ensures var ks := Roster.Keys(join) + Roster.Keys(leave) + Roster.Keys(upd);
      Roster.Without(r.c.roster, ks) == Roster.Without(c.roster, ks)
    ensures Roster.UniqueKeys(c.roster) && Roster.UniqueKeys(upd) ==>
      r.c.roster == Roster.Without(c.roster, Roster.Keys(leave) + Roster.Keys(upd)) + upd + join
  {
    Roster.DeltaKeepsUnmentioned(c.roster, join, leave, upd,
                                 Roster.Keys(join) + Roster.Keys(leave) + Roster.Keys(upd));
    Roster.DeltaClosedFormWhenUnique(c.roster, join, leave, upd);
    Step(c.(roster := Roster.ApplyDelta(c.roster, join, leave, upd)), true,
         Notice(c, OnUsersChanged(join, leave, upd)), [], [])
  }

  /** A raw batch joins the raw history, which is then trimmed; the batch is forwarded. */
  function OnMessages(c: Controller, batch: seq<ChatMessage>): (r: Step)
    ensures r.c == c.(raw := r.c.raw)
    ensures |r.c.raw| <= c.historySize
    ensures r.c.raw == History.Newest(c.raw + batch, c.historySize)
    ensures r.events == Notice(c, OnRawMessagesReceived(batch))
    ensures r.cmds == [] && r.errors == []
  {
    History.ReceiveIsNewest(c.raw, batch, c.historySize);
    Step(c.(raw := History.Receive(c.raw, batch, c.historySize)), true,
         Notice(c, OnRawMessagesReceived(batch)), [], [])
  }

  /** The same law for the tokenized history; the raw history is not touched. */
  function OnTokenizedMessages(c: Controller, batch: seq<ChatTokenizedMessage>): (r: Step)
    ensures r.c == c.(tokenized := r.c.tokenized)
    ensures |r.c.tokenized| <= c.historySize
    ensures r.c.tokenized == History.Newest(c.tokenized + batch, c.historySize)
    ensures r.events == Notice(c, OnTokenizedMessagesReceived(batch))
    ensures r.cmds == [] && r.errors == []
  {
    History.ReceiveIsNewest(c.tokenized, batch, c.historySize);
    Step(c.(tokenized := History.Receive(c.tokenized, batch, c.historySize)), true,
         Notice(c, OnTokenizedMessagesReceived(batch)), [], [])
  }

  /** A successful download is followed by fetching the data. */
  function OnEmoticonDownload(c: Controller, downloaded: bool, fetchOk: bool): (r: Step)
    ensures !downloaded ==> r == Quiet(c)
    ensures downloaded ==> r == SetupEmoticonData(c, fetchOk)
  {
    if downloaded then SetupEmoticonData(c, fetchOk) else Quiet(c)
  }

  /** Empties the raw history only and announces it. */
  function ClearMessages(c: Controller): (r: Step)
    ensures r.c.raw == []
    ensures r.c == c.(raw := [])
    ensures r.c.tokenized == c.tokenized
    ensures r.events == Notice(c, OnMessagesCleared)
    ensures r.cmds == [] && r.errors == []
  {
    Step(c.(raw := []), true, Notice(c, OnMessagesCleared), [], [])
  }

  /** Routes one delivered callback to its handler. */
  function Dispatch(c: Controller, cb: Callback, fetchOk: bool): (r: Step)
    ensures r.c == c.(state := r.c.state, roster := r.c.roster, raw := r.c.raw,
                      tokenized := r.c.tokenized, emoticonPresent := r.c.emoticonPresent)
    ensures c.state != Uninitialized ==> r.c.state != Uninitialized
    ensures c.emoticonPresent ==> r.c.emoticonPresent
    ensures forall i :: 0 <= i < |r.cmds| ==> r.cmds[i] == ChatGetEmoticonData
    ensures |r.cmds| <= 1 && (r.cmds != [] ==> !c.emoticonPresent && r.c.emoticonPresent)
    ensures |c.raw| <= c.historySize ==> |r.c.raw| <= c.historySize
    ensures |c.tokenized| <= c.historySize ==> |r.c.tokenized| <= c.historySize
  {
    match cb
    case StatusCallback(ok) => OnStatus(c, ok)
    case MembershipCallback(evt, _) => OnMembership(c, evt)
    case UserChangeCallback(join, leave, upd) => OnUserChange(c, join, leave, upd)
    case QueryChannelUsersCallback(_) => Quiet(c)
    case MessageCallback(batch) => OnMessages(c, batch)
    case TokenizedMessageCallback(batch) => OnTokenizedMessages(c, batch)
    case ClearCallback(_) => ClearMessages(c)
    case EmoticonDownloadCallback(ok) => OnEmoticonDownload(c, ok, fetchOk)
  }

  /**
   * Delivers the callbacks a flush hands over, in arrival order. Callbacks
   * touch only the state, the roster, the histories and the emoticon flag,
   * and together fetch emoticon data at most once.
   */
  function Flush(c: Controller, delivered: seq<Callback>, fetchOk: bool): (r: Step)
    ensures r.c == c.(state := r.c.state, roster := r.c.roster, raw := r.c.raw,
                      tokenized := r.c.tokenized, emoticonPresent := r.c.emoticonPresent)
    ensures c.state != Uninitialized ==> r.c.state != Uninitialized
    ensures c.emoticonPresent ==> r.c.emoticonPresent
    ensures forall i :: 0 <= i < |r.cmds| ==> r.cmds[i] == ChatGetEmoticonData
    ensures |r.cmds| <= 1 && (r.cmds != [] ==> !c.emoticonPresent && r.c.emoticonPresent)
    ensures |c.raw| <= c.historySize ==> |r.c.raw| <= c.historySize
    ensures |c.tokenized| <= c.historySize ==> |r.c.tokenized| <= c.historySize
    decreases |delivered|
  {
    if |delivered| == 0 then Quiet(c)
    else
      var first := Dispatch(c, delivered[0], fetchOk);
      Then(first, Flush(first.c, delivered[1..], fetchOk))
  }

  // =====================================================================
  // Lifecycle

  /**
   * Tears down the chat library and then the core (when initialized); a
   * failed teardown step aborts with nothing changed. On success the
   * controller is Uninitialized and the emoticon data is dropped; the
   * roster and both histories are kept.
   */
  function Shutdown(c: Controller, t: Replies): (r: Step)
    ensures r.result <==> !c.initialized || (t.chatShutdown && t.coreShutdown)
    ensures r.result ==> r.c == c.(state := Uninitialized, initialized := false, emoticonPresent := false)
    ensures r.result ==> r.events == (if c.emoticonPresent then Notice(c, OnEmoticonDataExpired) else [])
    ensures !r.result ==> r.c == c && r.events == [] && |r.errors| == 1
    ensures (ChatShutdown in r.cmds) <==> c.initialized
    ensures (CoreShutdown in r.cmds) <==> c.initialized && t.chatShutdown
    ensures NoConnects(r.cmds) && OnDisconnected !in r.events
  {
    if c.initialized && !t.chatShutdown then
      Step(c, false, [], [ChatShutdown], [ErrorShuttingDownChat])
    else if c.initialized && !t.coreShutdown then
      Step(c, false, [], [ChatShutdown, CoreShutdown], [ErrorShuttingDownSdk])
    else
      var teardown := if c.initialized then [ChatShutdown, CoreShutdown] else [];
      var cleanup := CleanupEmoticonData(c.(state := Uninitialized, initialized := false));
      Step(cleanup.c, true, cleanup.events, teardown + [SetChatCallbacks(false)], [])
  }

  /**
   * Two-phase initialization: the core, then the chat library for the
   * channel. The requested emoticon mode is captured as the active mode
   * between the phases, so it is captured even when phase two fails; a
   * failed phase two does not undo phase one.
   */
  function Initialize(c: Controller, channel: string, t: Replies): (r: Step)
    ensures c.initialized ==> r == Step(c, false, [], [], [])
    ensures r.result <==> !c.initialized && t.coreInitialize && t.chatInitialize
    ensures r.result ==> r.c == c.(state := Initialized, initialized := true, activeMode := c.requestedMode)
    ensures !c.initialized && !r.result ==>
      && r.events == Notice(c, OnDisconnected)
      && |r.errors| == 1
      && r.c == (if t.coreInitialize then c.(activeMode := c.requestedMode) else c)
    ensures !c.initialized ==> |r.cmds| >= 1 && r.cmds[0] == CoreInitialize(c.clientId)
    ensures !c.initialized && t.coreInitialize ==> |r.cmds| >= 2 && r.cmds[1] == ChatInitialize(channel, c.requestedMode != None)
    ensures CoreShutdown !in r.cmds && ChatShutdown !in r.cmds && NoConnects(r.cmds)
  {
    if c.initialized then Step(c, false, [], [], [])
    else if !t.coreInitialize then
      Step(c, false, Notice(c, OnDisconnected), [CoreInitialize(c.clientId)], [ErrorInitializingSdk])
    else
      var c1 := c.(activeMode := c.requestedMode);
      var cmds := [CoreInitialize(c.clientId), ChatInitialize(channel, c1.activeMode != None)];
      if !t.chatInitialize then
        Step(c1, false, Notice(c, OnDisconnected), cmds, [ErrorInitializingChat])
      else
        Step(c1.(state := Initialized, initialized := true), true, [],
             cmds + [SetChatCallbacks(true)], [])
  }

  /**
   * Leaves the channel and shuts down. From Connected or Connecting the
   * transport disconnect comes first, and its failure aborts everything;
   * the listener hears Disconnected from those states and from
   * Disconnected, never from Uninitialized or Initialized.
   */
  function Disconnect(c: Controller, t: Replies): (r: Step)
    ensures (ChatDisconnect in r.cmds) <==> c.state == Connected || c.state == Connecting
    ensures (c.state == Connected || c.state == Connecting) && !t.disconnect ==>
      && !r.result && r.c == c && r.events == [] && r.errors == [ErrorDisconnecting]
      && ChatShutdown !in r.cmds && CoreShutdown !in r.cmds
    ensures !((c.state == Connected || c.state == Connecting) && !t.disconnect) ==>
      && r.result == Shutdown(c, t).result
      && r.c == Shutdown(c, t).c
      && r.events == (if c.state in {Connected, Connecting, Disconnected} then Notice(c, OnDisconnected) else [])
                     + Shutdown(c, t).events
    ensures KeepsData(c, r.c)
    ensures NoConnects(r.cmds)
  {
    if c.state == Connected || c.state == Connecting then
      if !t.disconnect then
        Step(c, false, [], [ChatDisconnect], [ErrorDisconnecting])
      else
        Then(Step(c, true, Notice(c, OnDisconnected), [ChatDisconnect], []), Shutdown(c, t))
    else if c.state == Disconnected then
      Then(Step(c, true, Notice(c, OnDisconnected), [], []), Shutdown(c, t))
    else
      Shutdown(c, t)
  }

  /**
   * `connect` and `connectAnonymous`: disconnect (ignoring its result),
   * record the mode and channel, then initialize. The result is the
   * initialization's.
   */
  function ConnectAs(c: Controller, channel: string, anonymous: bool, t: Replies): (r: Step)
    ensures var d := Disconnect(c, t);
      && r.result == (!d.c.initialized && t.coreInitialize && t.chatInitialize)
      && r.c.anonymous == anonymous && r.c.channelName == channel
    ensures r.result ==> r.c.state == Initialized && r.c.initialized && r.c.activeMode == c.requestedMode
    ensures KeepsData(c, r.c)
    ensures NoConnects(r.cmds)
  {
    var d := Disconnect(c, t);
    var c1 := d.c.(anonymous := anonymous, channelName := channel);
    Then(d, Initialize(c1, channel, t))
  }

  function Connect(c: Controller, channel: string, t: Replies): (r: Step)
    ensures r == ConnectAs(c, channel, false, t)
    ensures r.result ==> r.c.state == Initialized && !r.c.anonymous
  {
    ConnectAs(c, channel, false, t)
  }

  function ConnectAnonymous(c: Controller, channel: string, t: Replies): (r: Step)
    ensures r == ConnectAs(c, channel, true, t)
    ensures r.result ==> r.c.state == Initialized && r.c.anonymous
  {
    ConnectAs(c, channel, true, t)
  }

  /**
   * The Initialized branch of an update: exactly one connect command,
   * anonymous iff the controller is anonymous. On success the controller is
   * Connecting and tries an emoticon download; on failure it shuts down and
   * then announces Disconnected.
   */
  function ConnectToChannel(c: Controller, t: Replies): (r: Step)
    ensures |r.cmds| >= 1 && NoConnects(r.cmds[1..])
    ensures r.cmds[0] == (if c.anonymous then ChatConnectAnonymous else ChatConnect(c.userName, c.authToken))
    ensures t.connect ==>
      && r.c == c.(state := Connecting) && r.events == []
      && r.cmds[1..] == DownloadEmoticonData(r.c, t.downloadEmoticons).cmds
    ensures !t.connect ==>
      && r.c == Shutdown(c, t).c
      && r.events == Shutdown(c, t).events + Notice(c, OnDisconnected)
    ensures KeepsData(c, r.c)
  {
    var connect := if c.anonymous then ChatConnectAnonymous else ChatConnect(c.userName, c.authToken);
    if !t.connect then
      var s := Shutdown(c, t);
      Step(s.c, true, s.events + Notice(c, OnDisconnected), [connect] + s.cmds, [ErrorConnecting] + s.errors)
    else
      var c1 := c.(state := Connecting);
      var dl := DownloadEmoticonData(c1, t.downloadEmoticons);
      Step(c1, true, [], [connect] + dl.cmds, dl.errors)
  }

  /**
   * The state-dependent action of one update, taken on the state left by
   * the flush: only Initialized and Disconnected act.
   */
  function Tick(c: Controller, t: Replies): (r: Step)
    ensures c.state in {Uninitialized, Connecting, Connected} ==> r == Quiet(c)
    ensures c.state == Initialized ==> r == ConnectToChannel(c, t)
    ensures c.state == Disconnected ==> r == Disconnect(c, t).(result := true)
    ensures KeepsData(c, r.c)
  {
    match c.state
    case Initialized => ConnectToChannel(c, t)
    case Disconnected => Disconnect(c, t).(result := true)
    case _ => Quiet(c)
  }

  /** The state switch issues one connect command from Initialized and none otherwise. */
  lemma TickConnects(c: Controller, t: Replies)
    ensures Connects(Tick(c, t).cmds) == (if c.state == Initialized then 1 else 0)
  {
    var k := Tick(c, t);
    if c.state == Initialized {
      ConnectsAppend(k.cmds[..1], k.cmds[1..]);
      assert k.cmds[..1] + k.cmds[1..] == k.cmds;
      NoConnectsCount(k.cmds[1..]);
      assert Connects(k.cmds[..1]) == 1 by {
        assert k.cmds[..1][1..] == [];
      }
    } else {
      NoConnectsCount(k.cmds);
    }
  }

  /**
   * From Disconnected the switch issues no transport disconnect, and it ends
   * Uninitialized exactly when both teardown steps succeed.
   */
  lemma TickFromDisconnected(c: Controller, t: Replies)
    ensures c.state == Disconnected && c.initialized ==>
      && ChatDisconnect !in Tick(c, t).cmds
      && (Tick(c, t).c.state == Uninitialized <==> t.chatShutdown && t.coreShutdown)
  {
  }

  /**
   * One poll of the host: nothing at all unless initialized; otherwise flush
   * the transport's events, which delivers the callbacks it hands over, then
   * take the state-dependent action on the state the callbacks left. A
   * failed flush is only reported, after whatever the callbacks reported.
   */
  function Update(c: Controller, delivered: seq<Callback>, t: Replies): (r: Step)
    ensures !c.initialized ==> r == Quiet(c)
    ensures c.initialized ==> |r.cmds| >= 1 && r.cmds[0] == ChatFlushEvents
    ensures c.initialized && delivered == [] && c.state in {Connecting, Connected} ==>
      r.c == c && r.cmds == [ChatFlushEvents] && r.events == []
    ensures c.initialized ==>
      var f := Flush(c, delivered, t.getEmoticons);
      f.c.state in {Connecting, Connected} ==> r.c == f.c
  {
    if !c.initialized then Quiet(c)
    else
      var f := Flush(c, delivered, t.getEmoticons);
      var k := Tick(f.c, t);
      Step(k.c, k.result, f.events + k.events, [ChatFlushEvents] + f.cmds + k.cmds,
           f.errors + (if t.flushEvents then [] else [ErrorFlushingEvents]) + k.errors)
  }

  /** Sends only while Connected; the result is then the transport's. */
  function SendChatMessage(c: Controller, text: string, sendOk: bool): (r: Step)
    ensures r.c == c && r.events == []
    ensures r.result <==> c.state == Connected && sendOk
    ensures r.cmds == (if c.state == Connected then [ChatSendMessage(text)] else [])
    ensures |r.errors| == (if c.state == Connected && !sendOk then 1 else 0)
  {
    if c.state != Connected then Step(c, false, [], [], [])
    else if !sendOk then Step(c, false, [], [ChatSendMessage(text)], [ErrorSendingMessage])
    else Step(c, true, [], [ChatSendMessage(text)], [])
  }

  // =====================================================================
  // Properties the host may set at any time

  function SetListener(c: Controller, registered: bool): Controller
  {
    c.(listener := registered)
  }

  function SetUserName(c: Controller, name: string): Controller
  {
    c.(userName := name)
  }

  function SetClientId(c: Controller, id: string): Controller
  {
    c.(clientId := id)
  }

  function SetAuthToken(c: Controller, token: string): Controller
  {
    c.(authToken := token)
  }

  /** Changes the requested mode only; the active mode waits for the next initialization. */
  function SetEmoticonParsingMode(c: Controller, mode: EmoticonMode): Controller
  {
    c.(requestedMode := mode)
  }

  /** Changes the history size only; neither history is trimmed until its next batch. */
  function SetMessageHistorySize(c: Controller, size: nat): Controller
  {
    c.(historySize := size)
  }
}
