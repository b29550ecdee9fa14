/**
 * The chat-side bookkeeping of the bot: the module-level state that the message
 * handler and the main loop share (the running transcript, the part of it already
 * handed to the agent, the channel label of the last message, the back-off delay),
 * and the choice of the channel a reply goes to. Chat-service objects are reduced
 * to records; waiting, sleeping, downloading and sending are outside the model.
 */
module Bot {
  import opened Wrappers
  import opened Strings

  /** `WAIT`, the initial and reset delay of the main loop, in seconds. */
  const Wait: real := 20.0
  /** Upper bound of the delay: twelve hours. */
  const MaxWait: real := 43200.0
  const Backoff: real := 2.75

  /** One transcript entry; `attachments` is present only when images were saved. */
  datatype Entry = Entry(role: string, content: string, attachments: Option<seq<string>>)

  /** The kinds of channel a message can arrive in. */
  datatype Channel =
    | TextChannel(guild: string, name: string)
    | DmChannel(recipient: Option<string>)
    | GroupChannel(recipients: seq<Option<string>>)
    | OtherChannel(server: Option<string>, name: string) // threads, voice chats, ...

  datatype Attachment = Attachment(filename: string, contentType: Option<string>)

  /** An incoming message. `authorText` is how the author object prints itself,
      `stamp` the creation time as `%a %H:%M`. */
  datatype Message = Message(
    id: nat,
    authorId: nat,
    authorName: string,
    authorText: string,
    channel: Channel,
    stamp: string,
    content: string,
    attachments: seq<Attachment>)

  /** One `add_to_context` call the main loop makes for a new entry. */
  datatype Forward = Forward(content: string, role: string, images: Option<seq<string>>)

  // ---------------------------------------------------------------------------
  // Pure pieces of the message handler

  /** The names of the recipients that are present (`u for u in recipients if u`). */
  function PresentNames(names: seq<Option<string>>): seq<string> {
    if names == [] then []
    else (if names[0].Some? then [names[0].value] else []) + PresentNames(names[1..])
  }

  /** `", ".join(parts)` */
  function CommaJoin(parts: seq<string>): string {
    if parts == [] then ""
    else if |parts| == 1 then parts[0]
    else parts[0] + ", " + CommaJoin(parts[1..])
  }

  /** The server of a channel, if it belongs to one (`msg.guild`). */
  function Guild(c: Channel): Option<string> {
    match c
    case TextChannel(g, _) => Some(g)
    case OtherChannel(g, _) => g
    case _ => None
  }

  /** The label of the place a message came from: `server / channel`, or `DM / someone`. */
  function ContextLabel(msg: Message): (place: string)
    ensures Guild(msg.channel).Some? ==> StartsWith(place, Guild(msg.channel).value + " / ")
    ensures Guild(msg.channel).None? ==> StartsWith(place, "DM / ")
  {
    match Guild(msg.channel)
    case Some(g) => g + " / " + msg.channel.name
    case None =>
      var recipient :=
        match msg.channel
        case DmChannel(r) => r.GetOr(msg.authorName)
        case GroupChannel(rs) => CommaJoin(PresentNames(rs))
        case _ => msg.authorText;
      "DM / " + recipient
  }

  /** The system note that records a move to another channel, if there was one. */
  function ChannelNote(last: Option<string>, current: string): (notes: seq<Entry>)
    ensures |notes| <= 1
    ensures notes != [] <==> last.Some? && last.value != current
    ensures notes != [] ==> notes[0].role == "system" && notes[0].attachments.None?
  {
    if last.Some? && current != last.value then
      [Entry("system", "Channel changed from (" + last.value + ") to (" + current + ")", None)]
    else []
  }

  predicate IsImage(a: Attachment) {
    a.contentType.Some? && StartsWith(a.contentType.value, "image/")
  }

  /** `os.path.join(directory, name)` for a relative `name`. */
  function JoinPath(directory: string, name: string): string {
    if directory == [] || directory[|directory| - 1] == '/' then directory + name
    else directory + "/" + name
  }

  /** Where the image attachment `a` of message `id` is saved. */
  function SavedPath(directory: string, id: nat, a: Attachment): string {
    JoinPath(directory, NatToString(id) + "_" + a.filename)
  }

  /** The saved paths of the image attachments among `atts`, in order. */
  function ImagePaths(directory: string, id: nat, atts: seq<Attachment>): seq<string> {
    if atts == [] then []
    else
      var last := atts[|atts| - 1];
      ImagePaths(directory, id, atts[..|atts| - 1])
        + (if IsImage(last) then [SavedPath(directory, id, last)] else [])
  }

  /** There is a saved path exactly when some attachment is an image. */
  lemma {:induction false} ImagePathsNonEmpty(directory: string, id: nat, atts: seq<Attachment>)
    ensures ImagePaths(directory, id, atts) != [] <==> exists k | 0 <= k < |atts| :: IsImage(atts[k])
    ensures |ImagePaths(directory, id, atts)| <= |atts|
  {
    if atts != [] {
      var init := atts[..|atts| - 1];
      ImagePathsNonEmpty(directory, id, init);
      if exists k | 0 <= k < |init| :: IsImage(init[k]) {
        var k :| 0 <= k < |init| && IsImage(init[k]);
        assert atts[k] == init[k];
      }
      if exists k | 0 <= k < |atts| :: IsImage(atts[k]) {
        var k :| 0 <= k < |atts| && IsImage(atts[k]);
        if k < |init| {
          assert init[k] == atts[k];
        }
      }
    }
  }

  /** The user turn recorded for a message. */
  function UserEntry(msg: Message, paths: seq<string>): (e: Entry)
    ensures e.role == "user"
    ensures e.attachments.Some? <==> paths != []
  {
    Entry("user", "[" + msg.stamp + "] " + msg.authorName + ": " + msg.content,
          if paths != [] then Some(paths) else None)
  }

  /** How the main loop hands an entry to the agent: with its images when it has any. */
  function ForwardOf(e: Entry): (f: Forward)
    ensures f.content == e.content && f.role == e.role
    ensures f.images.Some? <==> e.attachments.Some? && e.attachments.value != []
  {
    if e.attachments.Some? && e.attachments.value != [] then Forward(e.content, e.role, e.attachments)
    else Forward(e.content, e.role, None)
  }

  /** The delay after a pass of the main loop. */
  function NextWait(waitTime: real, hadNew: bool): (w: real)
    ensures hadNew ==> w == Wait
    ensures !hadNew ==> w <= MaxWait && w <= waitTime * Backoff && (w == MaxWait || w == waitTime * Backoff)
  {
    if hadNew then Wait
    else if waitTime * Backoff < MaxWait then waitTime * Backoff else MaxWait
  }

  /** The delay stays between twenty seconds and twelve hours, and grows while idle. */
  lemma NextWaitBounds(waitTime: real, hadNew: bool)
    requires Wait <= waitTime <= MaxWait
    ensures Wait <= NextWait(waitTime, hadNew) <= MaxWait
    ensures !hadNew ==> NextWait(waitTime, hadNew) >= waitTime
  {
  }

  /** The delay after `n` idle passes from the start. */
  function IdleWait(n: nat): real {
    if n == 0 then Wait else NextWait(IdleWait(n - 1), false)
  }

  /** Seven idle passes stay below the cap; the eighth reaches it. */
  lemma IdleWaitReachesCap()
    ensures IdleWait(7) < MaxWait
    ensures IdleWait(8) == MaxWait
    ensures forall n | n >= 8 :: IdleWait(n) == MaxWait
  {
    assert IdleWait(7) == Wait * Backoff * Backoff * Backoff * Backoff * Backoff * Backoff * Backoff;
    forall n | n >= 8 ensures IdleWait(n) == MaxWait {
      IdleWaitStaysCapped(n);
    }
  }

  lemma {:induction false} IdleWaitStaysCapped(n: nat)
    requires n >= 8
    ensures IdleWait(n) == MaxWait
  {
    if n > 8 {
      IdleWaitStaysCapped(n - 1);
    } else {
      assert IdleWait(7) == Wait * Backoff * Backoff * Backoff * Backoff * Backoff * Backoff * Backoff;
    }
  }

  // ---------------------------------------------------------------------------
  // Reply routing

  datatype Route =
    | Silent                                         // empty reply: nothing is sent
    | NoChannel                                      // "Could not determine a valid channel"
    | SendTo(channel: Channel, files: Option<seq<string>>)

  /** `tar_user` is given and `discord.utils.find` finds a user of that name. */
  predicate KnownTarget(target: Option<string>, users: seq<string>) {
    target.Some? && target.value != "" && target.value in users
  }

  /** The channel the agent's reply goes to. `users` are the names of the users the
      client knows; `dmOpened` tells whether opening a private channel succeeds. */
  function RouteReply(reply: Option<string>, target: Option<string>, files: Option<seq<string>>,
                      lastChannel: Option<Channel>, users: seq<string>, dmOpened: bool): (r: Route)
    ensures r.Silent? <==> reply.None? || reply.value == ""
    ensures r.SendTo? ==> r.files == (if files.Some? && files.value != [] then files else None)
    ensures r.SendTo? ==>
      (lastChannel.Some? && r.channel == lastChannel.value && (lastChannel.value.TextChannel? || lastChannel.value.DmChannel?))
      || (target.Some? && target.value in users && dmOpened && r.channel == DmChannel(target))
    ensures reply.Some? && reply.value != "" && lastChannel.Some? && lastChannel.value.TextChannel? ==>
      r.SendTo? && r.channel == lastChannel.value
    ensures reply.Some? && reply.value != "" && lastChannel.Some? && lastChannel.value.DmChannel?
            && (target.None? || target.value == "" || target.value !in users) ==>
      r.SendTo? && r.channel == lastChannel.value
    ensures reply.Some? && reply.value != "" && lastChannel.None? && (target.None? || target.value == "") ==>
      r == NoChannel
    ensures lastChannel.Some? && (lastChannel.value.GroupChannel? || lastChannel.value.OtherChannel?) ==>
      !r.SendTo?
    // a known target whose private channel opens gets the reply there
    ensures reply.Some? && reply.value != "" && (lastChannel.None? || lastChannel.value.DmChannel?)
            && KnownTarget(target, users) && dmOpened ==>
      r == SendTo(DmChannel(target), if files.Some? && files.value != [] then files else None)
    // a private channel that cannot be opened falls back to the current one
    ensures reply.Some? && reply.value != "" && lastChannel.Some? && lastChannel.value.DmChannel?
            && KnownTarget(target, users) && !dmOpened ==>
      r.SendTo? && r.channel == lastChannel.value
    // with no last channel, only an opened private channel can take the reply
    ensures reply.Some? && reply.value != "" && lastChannel.None? && !(KnownTarget(target, users) && dmOpened) ==>
      r == NoChannel
  {
    if reply.None? || reply.value == "" then Silent
    else
      var wanted := target.Some? && target.value != "";
      var found := wanted && target.value in users;
      var channel: Option<Channel> :=
        match lastChannel
        case Some(DmChannel(_)) =>
          if found && dmOpened then Some(DmChannel(target)) else lastChannel
        case Some(TextChannel(_, _)) => lastChannel
        case None => if found && dmOpened then Some(DmChannel(target)) else None
        case _ => None;
      if channel.None? then NoChannel
      else SendTo(channel.value, if files.Some? && files.value != [] then files else None)
  }

  // ---------------------------------------------------------------------------
  // The shared state

  /** The loop over a message's attachments that saves every image and collects the
      paths it was saved under. */
  method SaveImages(directory: string, id: nat, atts: seq<Attachment>) returns (paths: seq<string>)
    ensures paths == ImagePaths(directory, id, atts)
  {
    paths := [];
    for i := 0 to |atts|
      invariant paths == ImagePaths(directory, id, atts[..i])
    {
      var a := atts[i];
      assert atts[..i + 1][..i] == atts[..i];
      if a.contentType.Some? && StartsWith(a.contentType.value, "image/") {
        paths := paths + [JoinPath(directory, NatToString(id) + "_" + a.filename)];
      }
    }
    assert atts[..|atts|] == atts;
  }

  /** Appending to a sequence keeps its prefixes. */
  lemma PrefixKept<T>(a: seq<T>, b: seq<T>, p: seq<T>)
    requires |p| <= |a| && a[..|p|] == p
    ensures (a + b)[..|p|] == p
  {
    assert (a + b)[..|p|] == a[..|p|];
  }

  class State {
    const botId: nat
    const downloadDir: string
    var currentContext: seq<Entry>
    var chatHistory: seq<Entry>
    var lastContextStr: Option<string>
    var waitTime: real
    var lastChannel: Option<Channel>
    var newMessageEvent: bool
    var lastMessageTimestamp: Option<real>
    /** Every entry handed to the agent so far, in order. */
    ghost var forwarded: seq<Entry>

    /** The part already handed to the agent is a prefix of the transcript, and it is
        exactly what was forwarded; the delay stays within its bounds. */
    ghost predicate Valid()
      reads this
    {
      && |chatHistory| <= |currentContext|
      && currentContext[..|chatHistory|] == chatHistory
      && forwarded == chatHistory
      && Wait <= waitTime <= MaxWait
    }

    constructor (botId: nat, downloadDir: string)
      ensures Valid()
      ensures this.botId == botId && this.downloadDir == downloadDir
      ensures currentContext == [] && chatHistory == [] && forwarded == []
      ensures lastContextStr.None? && lastChannel.None? && lastMessageTimestamp.None?
      ensures waitTime == Wait && !newMessageEvent
    {
      this.botId := botId;
      this.downloadDir := downloadDir;
      currentContext := [];
      chatHistory := [];
      lastContextStr := None;
      waitTime := Wait;
      lastChannel := None;
      newMessageEvent := false;
      lastMessageTimestamp := None;
      forwarded := [];
    }

    /** `on_message` run without interruption: a message from the bot itself changes
        nothing; any other message records where it came from, a channel-change note if
        the place changed, and the user turn; the main loop is woken early only while
        it is backing off. The handler can pause while it saves an image; a schedule in
        which other handlers run during that pause is `ReceiveMessage`, then those
        handlers, then `AppendUserTurn`. */
    method OnMessage(msg: Message, now: real)
      requires Valid()
      modifies this
      ensures Valid()
      ensures msg.authorId == botId ==> unchanged(this)
      ensures msg.authorId != botId ==>
        && lastMessageTimestamp == Some(now)
        && lastChannel == Some(msg.channel)
        && lastContextStr == Some(ContextLabel(msg))
        && currentContext == old(currentContext) + ChannelNote(old(lastContextStr), ContextLabel(msg))
                             + [UserEntry(msg, ImagePaths(downloadDir, msg.id, msg.attachments))]
        && chatHistory == old(chatHistory) && forwarded == old(forwarded)
        && waitTime == old(waitTime)
        && newMessageEvent == (old(newMessageEvent) || waitTime > Wait)
    {
      if msg.authorId == botId {
        return;
      }
      ReceiveMessage(msg, now);
      var paths := SaveImages(downloadDir, msg.id, msg.attachments);
      AppendUserTurn(msg, paths);
    }

    /** The part of `on_message` before the first image is saved: the timestamp, the
        last channel, its label and the channel-change note. */
    method ReceiveMessage(msg: Message, now: real)
      requires Valid()
      modifies this
      ensures Valid()
      ensures lastMessageTimestamp == Some(now)
      ensures lastChannel == Some(msg.channel)
      ensures lastContextStr == Some(ContextLabel(msg))
      ensures currentContext == old(currentContext) + ChannelNote(old(lastContextStr), ContextLabel(msg))
      ensures chatHistory == old(chatHistory) && forwarded == old(forwarded)
      ensures waitTime == old(waitTime) && newMessageEvent == old(newMessageEvent)
    {
      lastMessageTimestamp := Some(now);
      lastChannel := Some(msg.channel);
      var place := ContextLabel(msg);
      if lastContextStr.Some? && place != lastContextStr.value {
        currentContext := currentContext
          + [Entry("system", "Channel changed from (" + lastContextStr.value + ") to (" + place + ")", None)];
      }
      assert currentContext == old(currentContext) + ChannelNote(lastContextStr, place);
      PrefixKept(old(currentContext), ChannelNote(old(lastContextStr), place), chatHistory);
      lastContextStr := Some(place);
    }

    /** The part of `on_message` after the images are saved: the user turn, carrying the
        saved paths, and the wake-up of the main loop while it is backing off. */
    method AppendUserTurn(msg: Message, paths: seq<string>)
      requires Valid()
      modifies this
      ensures Valid()
      ensures currentContext == old(currentContext) + [UserEntry(msg, paths)]
      ensures newMessageEvent == (old(newMessageEvent) || waitTime > Wait)
      ensures chatHistory == old(chatHistory) && forwarded == old(forwarded) && waitTime == old(waitTime)
      ensures lastMessageTimestamp == old(lastMessageTimestamp) && lastChannel == old(lastChannel)
      ensures lastContextStr == old(lastContextStr)
    {
      var content := "[" + msg.stamp + "] " + msg.authorName + ": " + msg.content;
      var entry := if paths != [] then Entry("user", content, Some(paths)) else Entry("user", content, None);
      assert entry == UserEntry(msg, paths);
      PrefixKept(currentContext, [entry], chatHistory);
      currentContext := currentContext + [entry];
      if waitTime > Wait {
        newMessageEvent := true;
      }
    }

    /** One pass of the main loop after its wait: the entries added since the last pass
        are handed to the agent, each exactly once and in order, and the delay backs off
        when there were none. */
    method MainStep() returns (calls: seq<Forward>)
      requires Valid()
      modifies this
      ensures Valid()
      ensures !newMessageEvent
      ensures currentContext == old(currentContext) && chatHistory == currentContext
      ensures forwarded == old(forwarded) + currentContext[|old(chatHistory)|..]
      ensures |calls| == |currentContext| - |old(chatHistory)|
      ensures forall k | 0 <= k < |calls| :: calls[k] == ForwardOf(currentContext[|old(chatHistory)| + k])
      ensures waitTime == NextWait(old(waitTime), |calls| > 0)
      ensures lastContextStr == old(lastContextStr) && lastChannel == old(lastChannel)
      ensures lastMessageTimestamp == old(lastMessageTimestamp)
    {
      newMessageEvent := false;
      var newMessages := currentContext[|chatHistory|..];
      chatHistory := currentContext;
      forwarded := forwarded + newMessages;
      assert forwarded == chatHistory by {
        assert old(chatHistory) == currentContext[..|old(chatHistory)|];
      }

      if newMessages == [] {
        waitTime := if waitTime * Backoff < MaxWait then waitTime * Backoff else MaxWait;
      } else {
        waitTime := Wait;
      }

      calls := [];
      for i := 0 to |newMessages|
        invariant |calls| == i
        invariant forall k | 0 <= k < i :: calls[k] == ForwardOf(newMessages[k])
      {
        var m := newMessages[i];
        if m.attachments.Some? && m.attachments.value != [] {
          calls := calls + [Forward(m.content, m.role, m.attachments)];
        } else {
          calls := calls + [Forward(m.content, m.role, None)];
        }
      }
    }
  }

  /** The note `on_reaction_add` adds to the agent's transcript as a system turn;
      the bot's own reactions add nothing. */
  function ReactionNote(reactorId: nat, botId: nat, userText: string, emoji: string, messageContent: string): (f: Option<Forward>)
    ensures f.None? <==> reactorId == botId
    ensures f.Some? ==> f.value.role == "system" && f.value.images.None?
    ensures f.Some? ==> StartsWith(f.value.content, userText + " reacted with ")
  {
    if reactorId == botId then None
    else Some(Forward(userText + " reacted with " + emoji + " to message: " + messageContent, "system", None))
  }
}
