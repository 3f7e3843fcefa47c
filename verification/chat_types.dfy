/**
 * The vocabulary shared by the chat controller model: the controller's two
 * enums, the payload records the transport hands over, the notifications the
 * controller raises on its listener, the commands it issues to the transport,
 * the error reports it prints, and the callbacks the transport delivers.
 */
module ChatTypes {

  /** The five states of the chat controller. */
  datatype ChatState = Uninitialized | Initialized | Connecting | Connected | Disconnected

  /** The emoticon parsing mode requested for chat messages. */
  datatype EmoticonMode = None | Url | TextureAtlas

  /** The membership events the transport reports for the channel. */
  datatype ChatEvent = JoinedChannel | LeftChannel

  /**
   * A channel participant. Only the display name takes part in roster
   * matching; `status` stands for every other (mutable) field of the record.
   */
  datatype ChatUserInfo = ChatUserInfo(displayName: string, status: nat)

  /** The identity used to find "the existing user with the same name". */
  function Key(u: ChatUserInfo): string
  {
    u.displayName
  }

  /** A plain chat line; its content is immaterial to the controller. */
  datatype ChatMessage = ChatMessage(userName: string, text: string)

  /** A chat line already split into tokens; content is immaterial too. */
  datatype ChatTokenizedMessage = ChatTokenizedMessage(userName: string, tokens: seq<string>)

  /** One notification delivered to the registered listener. */
  datatype Event =
    | OnTokenizedMessagesReceived(tokenized: seq<ChatTokenizedMessage>)
    | OnRawMessagesReceived(messages: seq<ChatMessage>)
    | OnUsersChanged(joinList: seq<ChatUserInfo>, leaveList: seq<ChatUserInfo>, userInfoList: seq<ChatUserInfo>)
    | OnConnected
    | OnDisconnected
    | OnMessagesCleared
    | OnEmoticonDataAvailable
    | OnEmoticonDataExpired

  /** One call the controller makes into the native core or chat library. */
  datatype Cmd =
    | CoreInitialize(clientId: string)
    | ChatInitialize(channel: string, wantsEmoticons: bool)
    | SetChatCallbacks(registered: bool)
    | ChatConnect(userName: string, authToken: string)
    | ChatConnectAnonymous
    | ChatDisconnect
    | ChatSendMessage(text: string)
    | ChatFlushEvents
    | ChatDownloadEmoticonData(textureAtlas: bool)
    | ChatGetEmoticonData
    | ChatShutdown
    | CoreShutdown

  /** One line the controller prints through its error-reporting sink. */
  datatype Report =
    | ErrorDisconnecting
    | ErrorInitializingSdk
    | ErrorInitializingChat
    | ErrorShuttingDownChat
    | ErrorShuttingDownSdk
    | ErrorFlushingEvents
    | ErrorConnecting
    | ErrorSendingMessage
    | ErrorDownloadingEmoticons
    | ErrorPreparingEmoticons

  /**
   * The success (true) or failure (false) of each transport call an
   * operation may make. No operation makes the same call twice, so one
   * outcome per call suffices.
   */
  datatype Replies = Replies(
    coreInitialize: bool,
    chatInitialize: bool,
    chatShutdown: bool,
    coreShutdown: bool,
    disconnect: bool,
    connect: bool,
    flushEvents: bool,
    downloadEmoticons: bool,
    getEmoticons: bool)

  /** A callback the transport delivers while its events are being flushed. */
  datatype Callback =
    | StatusCallback(succeeded: bool)
    | MembershipCallback(evt: ChatEvent, channel: string)
    | UserChangeCallback(joinList: seq<ChatUserInfo>, leaveList: seq<ChatUserInfo>, userInfoList: seq<ChatUserInfo>)
    | QueryChannelUsersCallback(userList: seq<ChatUserInfo>)
    | MessageCallback(messageList: seq<ChatMessage>)
    | TokenizedMessageCallback(tokenizedList: seq<ChatTokenizedMessage>)
    | ClearCallback(channelName: string)
    | EmoticonDownloadCallback(downloaded: bool)
}
