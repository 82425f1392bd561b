/** The robot module: topic messages, their log and topic streams, per tenant and topic. */
module Ros2 {
  import opened Wrappers
  import opened Text
  import opened FanOut
  import opened StreamPath
  import Json
  import AuthStore

  type User = AuthStore.User

  datatype Robot = Robot(id: string, tenantId: string, ownerUid: string)

  datatype Message = Message(
    id: string, tenantId: string, robotId: string, topicName: string, fullTopic: string, messageType: string,
    payload: Json.Value, issuedBy: string, createdAt: nat)

  datatype Feed = Feed(tenantId: string, topicName: string)

  datatype Ros2Error = TopicMissing | TopicNotAllowed | NoIdentity | MissingToken | WrongSession | RobotNotFound | NoSnapshot

  const MESSAGES := "/apps/ros2-bridge/messages/"

  /** A stream of the module's own channel, or one fetched from the backend. */
  datatype Subscription = Local(channel: nat) | Proxy(url: string)

  /** `backend_url`: exactly one slash between the two. */
  function BackendUrl(base: string, path: string): string {
    TrimEndMatches(base, "/") + "/" + TrimStartMatches(path, "/")
  }

  predicate Wants(f: Feed, m: Message) {
    f.tenantId == m.tenantId && f.topicName == m.topicName
  }

  class Ros2Module {
    const robots: seq<Robot>
    const allowedTopics: seq<string>
    const allowAnonymous: bool
    const backend: Option<string>
    var messages: seq<Message>
    var subscribers: seq<Subscriber<Feed>>
    var channels: seq<Channel<Feed, Message>>
    var nextMessageId: nat

    function State(): Hub<Feed, Message>
      reads this
    {
      Hub(messages, subscribers, channels)
    }

    constructor FromConfig(robots: seq<Robot>, allowedTopics: seq<string>, messages: seq<Message>, allowAnonymous: bool,
                           backend: Option<string>)
      ensures State() == Hub(messages, [], []) && nextMessageId == |messages| + 1
      ensures this.robots == robots && this.allowedTopics == allowedTopics && this.allowAnonymous == allowAnonymous
      ensures this.backend == backend
    {
      this.robots, this.allowedTopics, this.allowAnonymous := robots, allowedTopics, allowAnonymous;
      this.messages, this.nextMessageId := messages, |messages| + 1;
      this.subscribers, this.channels, this.backend := [], [], backend;
    }

    function RequireSession(session: Option<User>): Result<User, Ros2Error> {
      if session.None? then Err(if allowAnonymous then NoIdentity else MissingToken)
      else if session.value.app != "ros2-bridge" then Err(WrongSession)
      else Ok(session.value)
    }

    /** There is a session, and it is one of this app. */
    predicate Admitted(session: Option<User>) {
      session.Some? && session.value.app == "ros2-bridge"
    }

    /** Why there is none. */
    predicate NotAdmitted(session: Option<User>, e: Ros2Error) {
      if session.None? then (allowAnonymous && e == NoIdentity) || (!allowAnonymous && e == MissingToken)
      else session.value.app != "ros2-bridge" && e == WrongSession
    }

    /** The robot is one of the tenant, and the sender's own unless the sender is anonymous. */
    predicate Usable(tenantId: string, uid: string, anonymous: bool, robotId: string) {
      exists robot | robot in robots :: robot.id == robotId && robot.tenantId == tenantId && (anonymous || robot.ownerUid == uid)
    }

    /** `ensure_robot_access` */
    predicate CanUse(robot: Robot, tenantId: string, uid: string, anonymous: bool) {
      robot.tenantId == tenantId && (anonymous || robot.ownerUid == uid)
    }

    /** `open_message_stream`: with a backend the stream is the backend's, and no session is asked for. */
    method OpenMessageStream(session: Option<User>, path: string) returns (r: Result<Option<Subscription>, Ros2Error>)
      modifies this
      ensures r == Ok(None) <==> !(StartsWith(path, "/apps/ros2-bridge/messages/") && EndsWith(path, "/stream"))
      ensures var topicName := StreamName(path, MESSAGES);
              if r.Ok? && r.value.Some? && r.value.value.Local? then
                && topicName != "" && topicName in allowedTopics && Admitted(session) && backend.None?
                && r.value.value.channel == |old(channels)|
                && State() == Next(old(State()), Subscribe(Feed(session.value.tenantId, topicName)), Wants)
              else State() == old(State())
      ensures var topicName := StreamName(path, MESSAGES);
              r.Ok? && r.value.Some? && r.value.value.Proxy? ==>
                && topicName in allowedTopics && backend.Some?
                && r.value.value.url == BackendUrl(backend.value, "/messages/" + topicName + "/stream")
      ensures var topicName := StreamName(path, MESSAGES);
              r.Err? ==> if topicName == "" then r.error == TopicMissing
                         else if topicName !in allowedTopics then r.error == TopicNotAllowed
                         else backend.None? && NotAdmitted(session, r.error)
      ensures nextMessageId == old(nextMessageId)
    {
      hide StreamName, BackendUrl;
      if !IsStreamPath(path, MESSAGES) {
        return Ok(None);
      }
      var topicName := StreamName(path, MESSAGES);
      if topicName == "" {
        return Err(TopicMissing);
      }
      if topicName !in allowedTopics {
        return Err(TopicNotAllowed);
      }
      if backend.Some? {
        return Ok(Some(Proxy(BackendUrl(backend.value, "/messages/" + topicName + "/stream"))));
      }
      var user := RequireSession(session);
      if user.Err? {
        return Err(user.error);
      }
      var feed := Feed(user.value.tenantId, topicName);
      subscribers := subscribers + [Subscriber(feed, |channels|)];
      channels := channels + [Channel(feed, true, [])];
      return Ok(Some(Local(|channels| - 1)));
    }

    /** `publish_message` */
    method PublishMessage(tenantId: string, uid: string, anonymous: bool, robotId: string, topicName: string,
                          messageType: string, payload: Json.Value, createdAt: nat)
      returns (r: Result<Message, Ros2Error>)
      modifies this
      ensures r.Ok? <==> topicName in allowedTopics && Usable(tenantId, uid, anonymous, robotId)
      ensures r.Ok? ==>
                && r.value == Message("ros2msg_" + Pad4(old(nextMessageId)), tenantId, robotId, topicName,
                                      "tenant/" + tenantId + "/robots/" + robotId + "/ros2/" + topicName,
                                      messageType, payload, uid, createdAt)
                && State() == Next(old(State()), Publish(r.value), Wants)
                && nextMessageId == old(nextMessageId) + 1
      ensures r.Err? ==>
                && State() == old(State()) && nextMessageId == old(nextMessageId)
                && r.error == if topicName !in allowedTopics then TopicNotAllowed else RobotNotFound
    {
      if topicName !in allowedTopics {
        return Err(TopicNotAllowed);
      }
      if !exists robot | robot in robots :: robot.id == robotId && CanUse(robot, tenantId, uid, anonymous) {
        return Err(RobotNotFound);
      }
      var fullTopic := "tenant/" + tenantId + "/robots/" + robotId + "/ros2/" + topicName;
      var id := "ros2msg_" + Pad4(nextMessageId);
      nextMessageId := nextMessageId + 1;
      var message := Message(id, tenantId, robotId, topicName, fullTopic, messageType, payload, uid, createdAt);
      messages := messages + [message];
      subscribers, channels := RetainSubscribers(subscribers, channels, message, Wants);
      return Ok(message);
    }

    method ReceiverDropped(c: nat)
      modifies this`channels
      ensures State() == Next(old(State()), Disconnect(c), Wants)
    {
      if c < |channels| {
        channels := channels[c := channels[c].(open := false)];
      }
    }

    function LatestMessage(tenantId: string, topicName: string): Result<Message, Ros2Error>
      reads this
    {
      match Latest(messages, Feed(tenantId, topicName), Wants)
      case Some(message) => Ok(message)
      case None => Err(NoSnapshot)
    }

    function RecentMessages(tenantId: string, topicName: string): seq<Message>
      reads this
    {
      Recent(messages, Feed(tenantId, topicName), Wants, 12)
    }

    /** The snapshot is the head of the recent messages, and those are the last twelve of the feed, newest first. */
    lemma LatestIsHeadOfRecent(tenantId: string, topicName: string)
      ensures LatestMessage(tenantId, topicName) ==
              if RecentMessages(tenantId, topicName) == [] then Err(NoSnapshot) else Ok(RecentMessages(tenantId, topicName)[0])
      ensures var (all, recent) := (Select(messages, Feed(tenantId, topicName), Wants), RecentMessages(tenantId, topicName));
              && |recent| == (if |all| < 12 then |all| else 12)
              && forall i | 0 <= i < |recent| :: recent[i] == all[|all| - 1 - i]
    {
      RecentIsTail(messages, Feed(tenantId, topicName), Wants, 12);
      hide Recent, Latest, Select;
    }
  }

  /** One publish: exactly the open channels of that tenant and topic get the message, all others nothing. */
  lemma MessageReaches(h: Hub<Feed, Message>, message: Message, c: nat)
    requires HubOk(h) && c < |h.channels|
    ensures var (before, after) := (h.channels[c], Next(h, Publish(message), Wants).channels);
            && c < |after|
            && after[c] == if before.open && before.filter == Feed(message.tenantId, message.topicName)
                           then Channel(before.filter, true, before.received + [message]) else before
  {
    ChannelNext(h, Publish(message), c, Wants);
    hide HubOk, Next;
  }

  /** The backend's address has one slash between base and path, however many were written. */
  lemma BackendUrls(base: string, path: string)
    requires !EndsWith(base, "/") && !StartsWith(path, "/")
    ensures BackendUrl(base, path) == BackendUrl(base + "/", path) == BackendUrl(base, "/" + path) == base + "/" + path
  {
    TrimEndOnce(base, "/");
    TrimStartOnce("/", path);
    NothingToTrim(base, "/");
    assert TrimStartMatches(path, "/") == path;
    hide StartsWith, EndsWith, TrimStartMatches, TrimEndMatches;
  }
}
