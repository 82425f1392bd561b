/** The device module: command publishing and command streams, per tenant, viewer and device. */
module Iot {
  import opened Wrappers
  import opened Text
  import opened Json
  import opened StreamPath
  import opened FanOut
  import AuthStore

  type User = AuthStore.User

  datatype Device = Device(id: string, ownerUid: string, tenantId: string)

  datatype Command = Command(id: string, deviceId: string, topic: string, action: string, issuedBy: string, createdAt: nat)

  datatype Viewer = Viewer(tenantId: string, issuedBy: string, deviceId: string)

  datatype IotError =
    | DeviceIdMissing | NoIdentity | MissingToken | WrongSession | DeviceNotFound | TopicMismatch
    | UidMissing | TenantMissing | TopicMissing | PayloadMissing | ActionMissing

  /** Nothing is missing exactly when every part is there, the texts as texts and the action in the payload. */
  lemma NothingMissingIff(p: Publication)
    ensures Missing(p).None? <==>
            && p.uid.Some? && p.tenantId.Some? && p.topic.Some? && p.topic.value.String?
            && p.deviceId.Some? && p.deviceId.value.String?
            && p.payload.Some? && p.payload.value.Object?
            && exists action :: Get(p.payload.value.fields, "action") == Some(String(action))
    ensures Missing(p) == Some(UidMissing) <==> p.uid.None?
    ensures Missing(p) == Some(TenantMissing) <==> p.uid.Some? && p.tenantId.None?
    ensures Missing(p) == Some(TopicMissing) <==>
            p.uid.Some? && p.tenantId.Some? && forall topic :: p.topic != Some(String(topic))
    ensures Missing(p) == Some(PayloadMissing) ==> p.uid.Some? && p.tenantId.Some? && p.payload.None?
    ensures Missing(p) == Some(ActionMissing) ==>
              p.payload.Some? && forall action :: Member(p.payload.value, "action") != Some(String(action))
    ensures Missing(p) == Some(DeviceIdMissing) ==> forall id :: p.deviceId != Some(String(id))
  {
    if p.topic.Some? && p.topic.value.String? {
      assert p.topic == Some(String(p.topic.value.s));
    }
    if Missing(p).None? {
      assert Get(p.payload.value.fields, "action") == Some(String(Get(p.payload.value.fields, "action").value.s));
    }
    hide Get;
  }

  const COMMANDS := "/apps/iot-realtime/commands/"

  /** The device and action in the body of an app call. */
  function CommandBody(body: Option<Value>): Result<(string, string), IotError> {
    if body.None? then Err(PayloadMissing)
    else
      var (deviceId, action) := (AsText(Member(body.value, "deviceId")), AsText(Member(body.value, "action")));
      if deviceId.None? then Err(DeviceIdMissing) else if action.None? then Err(ActionMissing)
      else Ok((deviceId.value, action.value))
  }

  /** Both parts have to be there and be texts, whatever else is, and the device is looked for first. */
  lemma CommandBodyIff(body: Option<Value>, deviceId: string, action: string)
    ensures CommandBody(body) == Err(PayloadMissing) <==> body.None?
    ensures CommandBody(body) == Err(DeviceIdMissing) <==>
            body.Some? && forall id :: Member(body.value, "deviceId") != Some(String(id))
    ensures CommandBody(body) == Err(ActionMissing) ==> forall text :: Member(body.value, "action") != Some(String(text))
    ensures CommandBody(body) == Ok((deviceId, action)) <==>
            && body.Some? && body.value.Object?
            && Get(body.value.fields, "deviceId") == Some(String(deviceId)) && Get(body.value.fields, "action") == Some(String(action))
  {
    if body.Some? && AsText(Member(body.value, "deviceId")).Some? {
      assert Member(body.value, "deviceId") == Some(String(AsText(Member(body.value, "deviceId")).value));
    }
    hide Get, Member;
  }

  /** What a routed publish carries: the caller's identity, the prepared topic and payload, and the parameter. */
  datatype Publication = Publication(
    uid: Option<string>, tenantId: Option<string>, topic: Option<Value>, payload: Option<Value>, deviceId: Option<Value>)

  /** The first part that is missing or no text. */
  function Missing(p: Publication): Option<IotError> {
    if p.uid.None? then Some(UidMissing)
    else if p.tenantId.None? then Some(TenantMissing)
    else if AsText(p.topic).None? then Some(TopicMissing)
    else if p.payload.None? then Some(PayloadMissing)
    else if AsText(Member(p.payload.value, "action")).None? then Some(ActionMissing)
    else if AsText(p.deviceId).None? then Some(DeviceIdMissing)
    else None
  }

  function TopicOf(tenantId: string, deviceId: string): string {
    "tenant" + "/" + tenantId + "/devices/" + deviceId + "/commands"
  }

  /** `topic.split('/').nth(1).unwrap_or_default()` */
  function SecondSegment(topic: string): string {
    var parts := Split(topic, '/');
    if |parts| > 1 then parts[1] else ""
  }

  /** The test inside `retain`: the tenant is read back from the topic. */
  predicate Wants(v: Viewer, c: Command) {
    v.tenantId == SecondSegment(c.topic) && v.issuedBy == c.issuedBy && v.deviceId == c.deviceId
  }

  /** Before a separator, a split sees only what stands in front. */
  lemma {:induction false} FirstPiece(head: string, tail: string, c: char)
    ensures Split(head + [c] + tail, c)[0] == Split(head, c)[0]
  {
    var whole := head + [c] + tail;
    if head == [] {
      assert whole[0] == c;
    } else {
      FirstPiece(head[1..], tail, c);
      assert whole[1..] == head[1..] + [c] + tail;
    }
  }

  lemma SecondPiece(first: string, second: string, rest: string)
    requires '/' !in first
    ensures SecondSegment(first + ['/'] + (second + ['/'] + rest)) == Split(second, '/')[0]
  {
    SplitFirst(first, second + ['/'] + rest, '/');
    FirstPiece(second, rest, '/');
    hide Split;
  }

  lemma TopicParts(tenantId: string, deviceId: string)
    ensures TopicOf(tenantId, deviceId) == "tenant" + ['/'] + (tenantId + ['/'] + ("devices/" + deviceId + "/commands"))
    ensures '/' !in "tenant"
  {
    assert "/devices/" == ['/'] + "devices/";
  }

  /** The tenant read back from a device's topic is the device's tenant id up to its first slash. */
  lemma TopicNamesFirstPiece(tenantId: string, deviceId: string)
    ensures SecondSegment(TopicOf(tenantId, deviceId)) == Split(tenantId, '/')[0]
  {
    hide Split, TopicOf, SecondSegment;
    TopicParts(tenantId, deviceId);
    SecondPiece("tenant", tenantId, "devices/" + deviceId + "/commands");
  }

  lemma FirstPieceIffClean(tenantId: string)
    ensures Split(tenantId, '/')[0] == tenantId <==> '/' !in tenantId
  {
    if '/' !in tenantId {
      SplitFirst(tenantId, "", '/');
    } else {
      SplitPiecesClean(tenantId, '/');
      assert Split(tenantId, '/')[0] in Split(tenantId, '/');
    }
    hide Split;
  }

  /** A device's topic names its tenant exactly when the tenant id holds no slash. */
  lemma TopicNamesTenantIff(tenantId: string, deviceId: string)
    ensures SecondSegment(TopicOf(tenantId, deviceId)) == tenantId <==> '/' !in tenantId
  {
    TopicNamesFirstPiece(tenantId, deviceId);
    FirstPieceIffClean(tenantId);
    hide Split, TopicOf, SecondSegment;
  }

  class IotModule {
    const devices: seq<Device>
    const allowAnonymous: bool
    var commands: seq<Command>
    var subscribers: seq<Subscriber<Viewer>>
    var channels: seq<Channel<Viewer, Command>>
    var nextCommandId: nat

    function State(): Hub<Viewer, Command>
      reads this
    {
      Hub(commands, subscribers, channels)
    }

    constructor FromConfig(devices: seq<Device>, commands: seq<Command>, allowAnonymous: bool)
      ensures this.devices == devices && this.allowAnonymous == allowAnonymous
      ensures State() == Hub(commands, [], []) && nextCommandId == |commands| + 1
    {
      this.devices, this.commands, this.allowAnonymous := devices, commands, allowAnonymous;
      this.subscribers, this.channels, this.nextCommandId := [], [], |commands| + 1;
    }

    function RequireSession(session: Option<User>): Result<User, IotError> {
      if session.None? then Err(if allowAnonymous then NoIdentity else MissingToken)
      else if session.value.app != "iot-realtime" then Err(WrongSession)
      else Ok(session.value)
    }

    predicate CanAccess(device: Device, user: User) {
      device.tenantId == user.tenantId && (user.anonymous || device.ownerUid == user.uid)
    }

    /** `devices.iter().find(..)` for a viewer. */
    method FindDevice(deviceId: string, user: User) returns (r: Option<Device>)
      ensures r.Some? ==> r.value in devices && r.value.id == deviceId && r.value.tenantId == user.tenantId
                          && (user.anonymous || r.value.ownerUid == user.uid)
      ensures r.None? ==> !Reaches(user, deviceId)
    {
      for i := 0 to |devices|
        invariant forall j | 0 <= j < i && devices[j].id == deviceId :: !CanAccess(devices[j], user)
      {
        if devices[i].id == deviceId && CanAccess(devices[i], user) {
          return Some(devices[i]);
        }
      }
      return None;
    }

    /** The device is one of the user's tenant, and the user's own unless the user is anonymous. */
    predicate Reaches(user: User, deviceId: string) {
      exists d | d in devices ::
        d.id == deviceId && d.tenantId == user.tenantId && (user.anonymous || d.ownerUid == user.uid)
    }

    /** There is a session, and it is one of this app. */
    predicate Admitted(session: Option<User>) {
      session.Some? && session.value.app == "iot-realtime"
    }

    /** Why there is none. */
    predicate NotAdmitted(session: Option<User>, e: IotError) {
      if session.None? then (allowAnonymous && e == NoIdentity) || (!allowAnonymous && e == MissingToken)
      else session.value.app != "iot-realtime" && e == WrongSession
    }

    /** `open_command_stream`: the viewer of an accessible device becomes a subscriber; other paths are not for it. */
    method OpenCommandStream(session: Option<User>, path: string) returns (r: Result<Option<nat>, IotError>)
      modifies this
      ensures r == Ok(None) <==> !(StartsWith(path, "/apps/iot-realtime/commands/") && EndsWith(path, "/stream"))
      ensures var deviceId := StreamName(path, COMMANDS);
              if r.Ok? && r.value.Some? then
                && deviceId != "" && Admitted(session) && Reaches(session.value, deviceId)
                && r.value.value == |old(channels)|
                && State() == Next(old(State()), Subscribe(Viewer(session.value.tenantId, session.value.uid, deviceId)), Wants)
              else State() == old(State())
      ensures var deviceId := StreamName(path, COMMANDS);
              r.Err? ==> if deviceId == "" then r.error == DeviceIdMissing
                         else if !Admitted(session) then NotAdmitted(session, r.error)
                         else r.error == DeviceNotFound && !Reaches(session.value, deviceId)
      ensures nextCommandId == old(nextCommandId)
    {
      hide StreamName;
      if !IsStreamPath(path, COMMANDS) {
        return Ok(None);
      }
      var deviceId := StreamName(path, COMMANDS);
      if deviceId == "" {
        return Err(DeviceIdMissing);
      }
      var user := RequireSession(session);
      if user.Err? {
        return Err(user.error);
      }
      var device := FindDevice(deviceId, user.value);
      if device.None? {
        return Err(DeviceNotFound);
      }
      var viewer := Viewer(device.value.tenantId, user.value.uid, device.value.id);
      subscribers := subscribers + [Subscriber(viewer, |channels|)];
      channels := channels + [Channel(viewer, true, [])];
      return Ok(Some(|channels| - 1));
    }

    /** `publish_command_record` */
    method PublishCommandRecord(deviceId: string, topic: string, action: string, issuedBy: string, createdAt: nat)
      returns (command: Command)
      modifies this
      ensures command == Command("cmd_" + Pad4(old(nextCommandId)), deviceId, topic, action, issuedBy, createdAt)
      ensures State() == Next(old(State()), Publish(command), Wants)
      ensures nextCommandId == old(nextCommandId) + 1
    {
      command := Command("cmd_" + Pad4(nextCommandId), deviceId, topic, action, issuedBy, createdAt);
      nextCommandId := nextCommandId + 1;
      commands := commands + [command];
      subscribers, channels := RetainSubscribers(subscribers, channels, command, Wants);
    }

    /** The app call that sends a command: the topic is the device's own. */
    method PostCommand(session: Option<User>, body: Option<Value>, createdAt: nat) returns (r: Result<Command, IotError>)
      modifies this
      ensures r.Ok? <==> && Admitted(session) && CommandBody(body).Ok?
                         && Reaches(session.value, CommandBody(body).value.0)
      ensures r.Ok? ==>
                && (r.value.deviceId, r.value.action) == CommandBody(body).value && r.value.issuedBy == session.value.uid
                && r.value.topic == TopicOf(session.value.tenantId, r.value.deviceId)
                && State() == Next(old(State()), Publish(r.value), Wants)
      ensures r.Err? ==>
                && State() == old(State())
                && if !Admitted(session) then NotAdmitted(session, r.error)
                   else r.error == if CommandBody(body).Err? then CommandBody(body).error else DeviceNotFound
    {
      hide Next, CommandBody;
      var user := RequireSession(session);
      if user.Err? {
        return Err(user.error);
      }
      var input := CommandBody(body);
      if input.Err? {
        return Err(input.error);
      }
      var (deviceId, action) := input.value;
      var device := FindDevice(deviceId, user.value);
      if device.None? {
        return Err(DeviceNotFound);
      }
      var command := PublishCommandRecord(deviceId, TopicOf(device.value.tenantId, device.value.id), action, user.value.uid, createdAt);
      return Ok(command);
    }

    /** The policy-checked publish: only the owner, and only on the device's own topic. */
    method Execute(p: Publication, createdAt: nat) returns (r: Result<Command, IotError>)
      modifies this
      ensures r.Ok? <==>
                && Missing(p).None? && Device(p.deviceId.value.s, p.uid.value, p.tenantId.value) in devices
                && p.topic.value.s == TopicOf(p.tenantId.value, p.deviceId.value.s)
      ensures r.Ok? ==>
                && r.value.deviceId == p.deviceId.value.s && r.value.issuedBy == p.uid.value && r.value.topic == p.topic.value.s
                && AsText(Member(p.payload.value, "action")) == Some(r.value.action)
                && State() == Next(old(State()), Publish(r.value), Wants)
      ensures r.Err? ==>
                && State() == old(State())
                && r.error == if Missing(p).Some? then Missing(p).value
                              else if Device(p.deviceId.value.s, p.uid.value, p.tenantId.value) in devices then TopicMismatch
                              else DeviceNotFound
    {
      hide Next, Member;
      var missing := Missing(p);
      if missing.Some? {
        return Err(missing.value);
      }
      var (uid, tenantId, topic, deviceId) := (p.uid.value, p.tenantId.value, p.topic.value.s, p.deviceId.value.s);
      if Device(deviceId, uid, tenantId) !in devices {
        return Err(DeviceNotFound);
      }
      if topic != TopicOf(tenantId, deviceId) {
        return Err(TopicMismatch);
      }
      var command := PublishCommandRecord(deviceId, topic, AsText(Member(p.payload.value, "action")).value, uid, createdAt);
      return Ok(command);
    }

    /** The stream's receiver goes away; the module notices at the next matching publish. */
    method ReceiverDropped(c: nat)
      modifies this`channels
      ensures State() == Next(old(State()), Disconnect(c), Wants)
    {
      if c < |channels| {
        channels := channels[c := channels[c].(open := false)];
      }
    }
  }

  /**
   A command reaches exactly the streams of its sender's user id and its device whose tenant is the sender's
   tenant id up to its first slash. Without a slash that is the sender's tenant and no other; with one it is
   another tenant, and the sender's own stream gets nothing.
   */
  lemma StreamsFollowTenants(viewer: Viewer, sender: User, command: Command)
    requires command.topic == TopicOf(sender.tenantId, command.deviceId) && command.issuedBy == sender.uid
    ensures Wants(viewer, command) <==>
            && viewer.tenantId == Split(sender.tenantId, '/')[0]
            && viewer.issuedBy == sender.uid && viewer.deviceId == command.deviceId
    ensures '/' !in sender.tenantId <==> Wants(Viewer(sender.tenantId, sender.uid, command.deviceId), command)
  {
    TopicNamesFirstPiece(sender.tenantId, command.deviceId);
    FirstPieceIffClean(sender.tenantId);
    hide SecondSegment, TopicOf, Split;
  }

  /** One publish: exactly the open channels of that tenant, sender and device get the command, all others nothing. */
  lemma CommandReaches(h: Hub<Viewer, Command>, command: Command, c: nat)
    requires HubOk(h) && c < |h.channels|
    ensures var (before, after) := (h.channels[c], Next(h, Publish(command), Wants).channels);
            && c < |after|
            && after[c] == if before.open && before.filter == Viewer(SecondSegment(command.topic), command.issuedBy, command.deviceId)
                           then Channel(before.filter, true, before.received + [command]) else before
  {
    ChannelNext(h, Publish(command), c, Wants);
    hide HubOk, Next, SecondSegment;
  }
}
