/**
 * Properties of the chat controller that relate several calls: the state
 * invariant every host-driven run keeps, the disconnect and connect laws
 * that rest on it, the connect-once behaviour of `Update`, and the
 * emoticon and history behaviours that follow from the code as written.
 */
module ControllerProperties {
  import opened ChatTypes
  import History
  import CC = ChatController

  /**
   * The controller's own consistency: it is initialized exactly when it is
   * not Uninitialized, and emoticon data is only held while initialized.
   */
  predicate Inv(c: CC.Controller)
  {
    && (c.initialized <==> c.state != Uninitialized)
    && (c.emoticonPresent ==> c.initialized)
  }

  /** Both histories are within the history size. */
  predicate Bounded(c: CC.Controller)
  {
    |c.raw| <= c.historySize && |c.tokenized| <= c.historySize
  }

  /** One call the host can make on the controller. */
  datatype HostCall =
    | CallConnect(channel: string)
    | CallConnectAnonymous(channel: string)
    | CallDisconnect
    | CallUpdate(delivered: seq<Callback>)
    | CallSendChatMessage(text: string, sendOk: bool)
    | CallClearMessages
    | CallSetListener(registered: bool)
    | CallSetUserName(name: string)
    | CallSetClientId(id: string)
    | CallSetAuthToken(token: string)
    | CallSetEmoticonParsingMode(mode: EmoticonMode)
    | CallSetMessageHistorySize(size: nat)

  function Apply(c: CC.Controller, call: HostCall, t: Replies): CC.Step
  {
    match call
    case CallConnect(channel) => CC.Connect(c, channel, t)
    case CallConnectAnonymous(channel) => CC.ConnectAnonymous(c, channel, t)
    case CallDisconnect => CC.Disconnect(c, t)
    case CallUpdate(delivered) => CC.Update(c, delivered, t)
    case CallSendChatMessage(text, ok) => CC.SendChatMessage(c, text, ok)
    case CallClearMessages => CC.ClearMessages(c)
    case CallSetListener(b) => CC.Quiet(CC.SetListener(c, b))
    case CallSetUserName(name) => CC.Quiet(CC.SetUserName(c, name))
    case CallSetClientId(id) => CC.Quiet(CC.SetClientId(c, id))
    case CallSetAuthToken(token) => CC.Quiet(CC.SetAuthToken(c, token))
    case CallSetEmoticonParsingMode(mode) => CC.Quiet(CC.SetEmoticonParsingMode(c, mode))
    case CallSetMessageHistorySize(size) => CC.Quiet(CC.SetMessageHistorySize(c, size))
  }

  /** The controller after a run of host calls, each with its transport outcomes. */
  function Run(c: CC.Controller, calls: seq<(HostCall, Replies)>): CC.Controller
    decreases |calls|
  {
    if |calls| == 0 then c else Run(Apply(c, calls[0].0, calls[0].1).c, calls[1..])
  }

  // ---------------------------------------------------------------------
  // The invariant

  lemma FlushPreservesInv(c: CC.Controller, delivered: seq<Callback>, fetchOk: bool)
    requires Inv(c) && c.initialized
    ensures Inv(CC.Flush(c, delivered, fetchOk).c)
  {
  }

  lemma TickPreservesInv(c: CC.Controller, t: Replies)
    requires Inv(c)
    ensures Inv(CC.Tick(c, t).c)
  {
    if c.state == Initialized {
      assert CC.Tick(c, t).c == CC.ConnectToChannel(c, t).c;
    }
  }

  lemma UpdatePreservesInv(c: CC.Controller, delivered: seq<Callback>, t: Replies)
    requires Inv(c)
    ensures Inv(CC.Update(c, delivered, t).c)
  {
    if c.initialized {
      var f := CC.Flush(c, delivered, t.getEmoticons);
      FlushPreservesInv(c, delivered, t.getEmoticons);
      TickPreservesInv(f.c, t);
      assert CC.Update(c, delivered, t).c == CC.Tick(f.c, t).c;
    }
  }

  lemma ConnectPreservesInv(c: CC.Controller, channel: string, anonymous: bool, t: Replies)
    requires Inv(c)
    ensures Inv(CC.ConnectAs(c, channel, anonymous, t).c)
  {
    var d := CC.Disconnect(c, t);
    assert Inv(d.c);
    var c1 := d.c.(anonymous := anonymous, channelName := channel);
    assert CC.ConnectAs(c, channel, anonymous, t).c == CC.Initialize(c1, channel, t).c;
  }

  lemma ApplyPreservesInv(c: CC.Controller, call: HostCall, t: Replies)
    requires Inv(c)
    ensures Inv(Apply(c, call, t).c)
  {
    match call
    case CallConnect(channel) => ConnectPreservesInv(c, channel, false, t);
    case CallConnectAnonymous(channel) => ConnectPreservesInv(c, channel, true, t);
    case CallUpdate(delivered) => UpdatePreservesInv(c, delivered, t);
    case _ =>
  }

  /** Every run of host calls from a freshly constructed controller keeps `Inv`. */
  lemma {:induction false} RunPreservesInv(c: CC.Controller, calls: seq<(HostCall, Replies)>)
    requires Inv(c)
    ensures Inv(Run(c, calls))
    decreases |calls|
  {
    if |calls| > 0 {
      ApplyPreservesInv(c, calls[0].0, calls[0].1);
      RunPreservesInv(Apply(c, calls[0].0, calls[0].1).c, calls[1..]);
    }
  }

  lemma ReachableInv(calls: seq<(HostCall, Replies)>)
    ensures Inv(Run(CC.Fresh, calls))
  {
    RunPreservesInv(CC.Fresh, calls);
  }

  // ---------------------------------------------------------------------
  // Disconnect and connect

  /**
   * On a consistent controller, disconnect returns true exactly when the
   * controller ends Uninitialized; when it returns false nothing changed.
   */
  lemma DisconnectAllOrNothing(c: CC.Controller, t: Replies)
    requires Inv(c)
    ensures var r := CC.Disconnect(c, t);
      && (r.result <==> r.c.state == Uninitialized)
      && (r.result ==> !r.c.initialized && !r.c.emoticonPresent)
      && (!r.result ==> r.c == c)
  {
  }

  lemma {:induction false} AbsentNoOccurrences(events: seq<Event>, e: Event)
    requires e !in events
    ensures CC.Occurrences(events, e) == 0
    decreases |events|
  {
    if |events| > 0 {
      AbsentNoOccurrences(events[1..], e);
    }
  }

  /**
   * The listener hears Disconnected at most once per disconnect: once from
   * Disconnected, once from Connected or Connecting when the transport
   * disconnect succeeds, and never otherwise.
   */
  lemma DisconnectNoticeCount(c: CC.Controller, t: Replies)
    ensures CC.Occurrences(CC.Disconnect(c, t).events, OnDisconnected)
         == (if c.listener && (c.state == Disconnected
                               || ((c.state == Connected || c.state == Connecting) && t.disconnect))
             then 1 else 0)
  {
    var r := CC.Disconnect(c, t);
    var s := CC.Shutdown(c, t);
    AbsentNoOccurrences(s.events, OnDisconnected);
    if !((c.state == Connected || c.state == Connecting) && !t.disconnect) {
      var pre := if c.state in {Connected, Connecting, Disconnected} then CC.Notice(c, OnDisconnected) else [];
      CC.OccurrencesAppend(pre, s.events, OnDisconnected);
      if pre != [] {
        assert CC.Occurrences(pre, OnDisconnected) == 1 by {
          assert pre[1..] == [];
        }
      }
    }
  }

  /**
   * Connect succeeds exactly when the preceding disconnect did and both
   * initialization phases do.
   */
  lemma ConnectResult(c: CC.Controller, channel: string, anonymous: bool, t: Replies)
    requires Inv(c)
    ensures CC.ConnectAs(c, channel, anonymous, t).result
        <==> CC.Disconnect(c, t).result && t.coreInitialize && t.chatInitialize
  {
    DisconnectAllOrNothing(c, t);
  }

  /**
   * When the transport disconnect fails, connect returns false and stays
   * connected, yet has already overwritten the anonymous flag and channel.
   */
  lemma ConnectAfterFailedDisconnect(c: CC.Controller, channel: string, t: Replies)
    requires Inv(c) && (c.state == Connected || c.state == Connecting) && !t.disconnect
    ensures var r := CC.Connect(c, channel, t);
      && !r.result
      && r.c == c.(anonymous := false, channelName := channel)
      && r.events == [] && r.cmds == [ChatDisconnect]
  {
  }

  // ---------------------------------------------------------------------
  // Update

  lemma ConnectsOfUpdate(c: CC.Controller, t: Replies)
    requires c.initialized && c.state == Initialized
    ensures CC.Connects(CC.Update(c, [], t).cmds) == 1
  {
    var k := CC.ConnectToChannel(c, t);
    var r := CC.Update(c, [], t);
    assert r.cmds == [ChatFlushEvents] + [] + k.cmds;
    assert k.cmds == [k.cmds[0]] + k.cmds[1..];
    CC.NoConnectsCount(k.cmds[1..]);
    CC.ConnectsAppend([k.cmds[0]], k.cmds[1..]);
    CC.ConnectsAppend([ChatFlushEvents], k.cmds);
    assert [ChatFlushEvents] + [] + k.cmds == [ChatFlushEvents] + k.cmds;
  }

  /**
   * From Initialized, one update issues exactly one connect command and
   * (when the transport accepts it) moves to Connecting; a second update
   * while still Connecting issues no further connect command.
   */
  lemma UpdateConnectsOnce(c: CC.Controller, t: Replies, t2: Replies)
    requires c.initialized && c.state == Initialized && t.connect
    ensures var u1 := CC.Update(c, [], t);
      var u2 := CC.Update(u1.c, [], t2);
      && u1.c.state == Connecting
      && u2.c == u1.c
      && CC.Connects(u1.cmds + u2.cmds) == 1
  {
    var u1 := CC.Update(c, [], t);
    ConnectsOfUpdate(c, t);
    var u2 := CC.Update(u1.c, [], t2);
    assert u2.cmds == [ChatFlushEvents];
    CC.ConnectsAppend(u1.cmds, u2.cmds);
    assert CC.Connects(u2.cmds) == 0 by {
      assert u2.cmds[1..] == [];
    }
  }

  /**
   * A failed connect command during an update shuts the controller down and
   * announces Disconnected after anything the shutdown announced.
   */
  lemma UpdateConnectFailure(c: CC.Controller, t: Replies)
    requires Inv(c) && c.state == Initialized && !t.connect && t.chatShutdown && t.coreShutdown
    ensures var r := CC.Update(c, [], t);
      && r.c.state == Uninitialized && !r.c.initialized
      && r.events == (if c.emoticonPresent then CC.Notice(c, OnEmoticonDataExpired) else [])
                     + CC.Notice(c, OnDisconnected)
  {
    var k := CC.ConnectToChannel(c, t);
    assert CC.Update(c, [], t).events == [] + [] + k.events;
  }

  /** The parts of an initialized update: the flush command, the delivered callbacks, the switch. */
  lemma UpdateParts(c: CC.Controller, delivered: seq<Callback>, t: Replies)
    requires c.initialized
    ensures var f := CC.Flush(c, delivered, t.getEmoticons);
      var k := CC.Tick(f.c, t);
      var r := CC.Update(c, delivered, t);
      && r.c == k.c
      && r.cmds == [ChatFlushEvents] + f.cmds + k.cmds
      && r.errors == f.errors + (if t.flushEvents then [] else [ErrorFlushingEvents]) + k.errors
  {
  }

  /**
   * Whatever callbacks the flush delivers, an update issues one connect
   * command when they leave the controller Initialized, and none otherwise.
   */
  lemma UpdateConnectsAfterFlush(c: CC.Controller, delivered: seq<Callback>, t: Replies)
    ensures CC.Connects(CC.Update(c, delivered, t).cmds)
         == (if c.initialized && CC.Flush(c, delivered, t.getEmoticons).c.state == Initialized then 1 else 0)
  {
    if c.initialized {
      var f := CC.Flush(c, delivered, t.getEmoticons);
      var k := CC.Tick(f.c, t);
      UpdateParts(c, delivered, t);
      CC.NoConnectsCount([ChatFlushEvents] + f.cmds);
      CC.ConnectsAppend([ChatFlushEvents] + f.cmds, k.cmds);
      CC.TickConnects(f.c, t);
    }
  }

  /**
   * When the callbacks leave the controller Disconnected, the update tears
   * it down without a transport disconnect, and it ends Uninitialized exactly
   * when both teardown steps succeed.
   */
  lemma UpdateFromDisconnected(c: CC.Controller, delivered: seq<Callback>, t: Replies)
    requires c.initialized && CC.Flush(c, delivered, t.getEmoticons).c.state == Disconnected
    ensures var r := CC.Update(c, delivered, t);
      && ChatDisconnect !in r.cmds
      && (r.c.state == Uninitialized <==> t.chatShutdown && t.coreShutdown)
  {
    var f := CC.Flush(c, delivered, t.getEmoticons);
    UpdateParts(c, delivered, t);
    CC.TickFromDisconnected(f.c, t);
    assert ChatDisconnect !in [ChatFlushEvents] + f.cmds;
  }

  /**
   * The callbacks run inside the flush, so whatever they report comes first;
   * a failed flush is reported right after them.
   */
  lemma UpdateErrorOrder(c: CC.Controller, delivered: seq<Callback>, t: Replies)
    requires c.initialized && !t.flushEvents
    ensures var f := CC.Flush(c, delivered, t.getEmoticons);
      var r := CC.Update(c, delivered, t);
      && |r.errors| > |f.errors|
      && r.errors[..|f.errors|] == f.errors
      && r.errors[|f.errors|] == ErrorFlushingEvents
  {
    UpdateParts(c, delivered, t);
  }

  /** A fetch that fails inside a failed flush is reported before the flush failure. */
  lemma FailedFetchReportedFirst(c: CC.Controller, t: Replies)
    requires c.initialized && c.state == Connected && !c.emoticonPresent
    requires !t.flushEvents && !t.getEmoticons
    ensures CC.Update(c, [EmoticonDownloadCallback(true)], t).errors
         == [ErrorPreparingEmoticons, ErrorFlushingEvents]
  {
    var f := CC.Flush(c, [EmoticonDownloadCallback(true)], t.getEmoticons);
    assert [EmoticonDownloadCallback(true)][1..] == [];
    assert f.errors == [ErrorPreparingEmoticons];
    UpdateParts(c, [EmoticonDownloadCallback(true)], t);
  }

  // ---------------------------------------------------------------------
  // Emoticon data as written

  /**
   * A failed fetch still leaves a data object behind: the listener never
   * hears it was available, yet hears it expire at the next shutdown, and
   * no further download or fetch is attempted in between.
   */
  lemma FailedFetchStillExpires(c: CC.Controller, t: Replies)
    requires c.initialized && !c.emoticonPresent && c.listener && t.chatShutdown && t.coreShutdown
    ensures var s1 := CC.SetupEmoticonData(c, false);
      && CC.DownloadEmoticonData(s1.c, true).cmds == []
      && CC.OnEmoticonDownload(s1.c, true, true).cmds == []
      && s1.events + CC.Shutdown(s1.c, t).events == [OnEmoticonDataExpired]
  {
  }

  /**
   * The download decision follows the REQUESTED mode, not the mode captured
   * at initialization: after initializing with one mode and then requesting
   * another, the next connecting update downloads iff the new request is
   * not None, and asks for a texture atlas iff the new request is one.
   */
  lemma DownloadFollowsRequestedMode(c: CC.Controller, mode: EmoticonMode, t: Replies)
    requires Inv(c) && c.state == Initialized && !c.emoticonPresent && t.connect
    ensures var c' := CC.SetEmoticonParsingMode(c, mode);
      var r := CC.Update(c', [], t);
      && r.c.activeMode == c.activeMode
      && (|r.cmds| > 2 <==> mode != None)
      && (mode != None ==> r.cmds[2] == ChatDownloadEmoticonData(mode == TextureAtlas))
  {
    var c' := CC.SetEmoticonParsingMode(c, mode);
    var k := CC.ConnectToChannel(c', t);
    assert CC.Update(c', [], t).cmds == [ChatFlushEvents] + [] + k.cmds;
    assert k.cmds == [k.cmds[0]] + k.cmds[1..];
  }

  // ---------------------------------------------------------------------
  // History bound

  lemma UpdatePreservesBounded(c: CC.Controller, delivered: seq<Callback>, t: Replies)
    requires Bounded(c)
    ensures Bounded(CC.Update(c, delivered, t).c)
  {
    if c.initialized {
      var f := CC.Flush(c, delivered, t.getEmoticons);
      assert Bounded(f.c);
      assert CC.Update(c, delivered, t).c == CC.Tick(f.c, t).c;
    }
  }

  /** Every host call except changing the history size keeps both histories bounded. */
  lemma ApplyPreservesBounded(c: CC.Controller, call: HostCall, t: Replies)
    requires Bounded(c) && !call.CallSetMessageHistorySize?
    ensures Bounded(Apply(c, call, t).c)
  {
    match call
    case CallUpdate(delivered) => UpdatePreservesBounded(c, delivered, t);
    case _ =>
  }

  /**
   * Shrinking the history size does not trim: the histories stay over the
   * new size until their next batch, even an empty one, trims them.
   */
  lemma ShrinkingDefersTrim(c: CC.Controller, size: nat)
    requires size < |c.raw|
    ensures !Bounded(CC.SetMessageHistorySize(c, size))
    ensures |CC.OnMessages(CC.SetMessageHistorySize(c, size), []).c.raw| == size
  {
  }
}
