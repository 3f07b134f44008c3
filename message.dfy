/** The Telegram-facing helpers of `bot/helpers/message.py`: the anti-spam registry of
    users and chats with a task in progress, the authorisation check, the user record
    built from a message, and the retry policy of sending and editing messages.  The
    Telegram client is left out: each call is described as a value, and what Telegram
    answers (FloodWait waits, then a final outcome) is an input. */
module Message {
  import opened Common

  // ================================================================ anti-spam

  /** The id `antiSpam` tracks: the chat in 'CHAT+' mode, the user in 'USER' mode, and
      none in any other mode. */
  function SpamKey(mode: string, uid: int, cid: int): (k: Option<int>)
    ensures k.Some? <==> mode == "CHAT+" || mode == "USER"
  {
    if mode == "CHAT+" then Some(cid) else if mode == "USER" then Some(uid) else None
  }

  /** The index of the first `x` in `s`. */
  function IndexOf(s: seq<int>, x: int): (i: nat)
    requires x in s
    ensures i < |s| && s[i] == x && forall j :: 0 <= j < i ==> s[j] != x
  {
    if s[0] == x then 0 else 1 + IndexOf(s[1..], x)
  }

  /** Python's `list.remove(x)` once `x in list` has been checked: the first `x` is
      taken out; nothing happens otherwise. */
  function RemoveFirst(s: seq<int>, x: int): (r: seq<int>)
    ensures x !in s ==> r == s
    ensures multiset(r) == multiset(s) - multiset{x}
  {
    if x in s then
      var i := IndexOf(s, x);
      assert s == s[..i] + [s[i]] + s[i + 1..];
      s[..i] + s[i + 1..]
    else s
  }

  /** Whether an acquire is refused: the tracked id is already registered. */
  predicate Blocked(current: seq<int>, key: Option<int>)
  {
    key.Some? && key.value in current
  }

  /** The registry after an acquire. */
  function Acquired(current: seq<int>, key: Option<int>): seq<int>
  {
    if key.Some? && key.value !in current then current + [key.value] else current
  }

  /** The registry after a revoke. */
  function Revoked(current: seq<int>, key: Option<int>): seq<int>
  {
    if key.Some? && key.value in current then RemoveFirst(current, key.value) else current
  }

  predicate NoDuplicates(s: seq<int>)
  {
    forall i, j :: 0 <= i < j < |s| ==> s[i] != s[j]
  }

  /** An acquire either refuses and changes nothing, or registers the key; in modes
      other than 'CHAT+' and 'USER' it never refuses and changes nothing. */
  lemma AcquireEffect(current: seq<int>, mode: string, uid: int, cid: int)
    ensures Blocked(current, SpamKey(mode, uid, cid)) ==> Acquired(current, SpamKey(mode, uid, cid)) == current
    ensures (!Blocked(current, SpamKey(mode, uid, cid)) && SpamKey(mode, uid, cid).Some?) ==>
      Acquired(current, SpamKey(mode, uid, cid)) == current + [SpamKey(mode, uid, cid).value]
    ensures mode == "CHAT+" ==> (Blocked(current, SpamKey(mode, uid, cid)) <==> cid in current)
    ensures mode == "USER" ==> (Blocked(current, SpamKey(mode, uid, cid)) <==> uid in current)
    ensures (mode != "CHAT+" && mode != "USER") ==>
      !Blocked(current, SpamKey(mode, uid, cid)) && Acquired(current, SpamKey(mode, uid, cid)) == current
      && Revoked(current, SpamKey(mode, uid, cid)) == current
  {
  }

  /** Once acquired, the same key is refused until it is revoked. */
  lemma AcquireThenBlocked(current: seq<int>, key: Option<int>)
    requires key.Some?
    ensures Blocked(Acquired(current, key), key)
  {
    if key.value !in current {
      assert (current + [key.value])[|current|] == key.value;
    }
  }

  lemma RemoveFirstOfAppended(s: seq<int>, x: int)
    requires x !in s
    ensures RemoveFirst(s + [x], x) == s
  {
    var t := s + [x];
    assert t[|s|] == x;
    assert IndexOf(t, x) == |s| by {
      assert forall j :: 0 <= j < |s| ==> t[j] == s[j];
    }
    assert t[..|s|] == s;
  }

  /** An acquire that was let through, followed by the matching revoke, leaves the
      registry as it was. */
  lemma AcquireRevokeRestores(current: seq<int>, key: Option<int>)
    requires !Blocked(current, key)
    ensures Revoked(Acquired(current, key), key) == current
  {
    if key.Some? {
      RemoveFirstOfAppended(current, key.value);
      assert key.value in current + [key.value];
    }
  }

  /** Element `p` of `s` with index `i` taken out. */
  lemma RemovedAt(s: seq<int>, i: nat, p: nat)
    requires i < |s| && p < |s| - 1
    ensures (s[..i] + s[i + 1..])[p] == s[if p < i then p else p + 1]
  {
    if p < i {
      assert (s[..i] + s[i + 1..])[p] == s[..i][p];
    } else {
      assert (s[..i] + s[i + 1..])[p] == s[i + 1..][p - i];
    }
  }

  lemma RemoveFirstNoDuplicates(s: seq<int>, x: int)
    requires NoDuplicates(s)
    ensures NoDuplicates(RemoveFirst(s, x)) && x !in RemoveFirst(s, x)
  {
    if x in s {
      var i := IndexOf(s, x);
      var r := s[..i] + s[i + 1..];
      assert RemoveFirst(s, x) == r;
      forall p, q | 0 <= p < q < |r| ensures r[p] != r[q] {
        RemovedAt(s, i, p);
        RemovedAt(s, i, q);
      }
      forall p | 0 <= p < |r| ensures r[p] != x {
        RemovedAt(s, i, p);
      }
    }
  }

  /** Acquire and revoke are the only writers of the registry, and neither brings in a
      duplicate; after a revoke the key is gone. */
  lemma NoDuplicatesKept(current: seq<int>, key: Option<int>)
    ensures NoDuplicates(current) ==> NoDuplicates(Acquired(current, key))
    ensures NoDuplicates(current) ==> NoDuplicates(Revoked(current, key))
    ensures NoDuplicates(current) && key.Some? ==> key.value !in Revoked(current, key)
  {
    if key.Some? && NoDuplicates(current) {
      RemoveFirstNoDuplicates(current, key.value);
      if key.value !in current {
        var s := current + [key.value];
        forall i, j | 0 <= i < j < |s| ensures s[i] != s[j] {
          if j == |current| {
            assert s[i] == current[i];
          } else {
            assert s[i] == current[i] && s[j] == current[j];
          }
        }
      }
    }
  }

  /** The module-level list `current_user` and `antiSpam`, its only writer. */
  class SpamRegistry {
    var currentUser: seq<int>

    constructor ()
      ensures currentUser == []
    {
      currentUser := [];
    }

    /** Acquire (`revoke` false) answers whether the caller is refused; revoke always
        answers false (Python's `None`). */
    method AntiSpam(mode: string, uid: int, cid: int, revoke: bool) returns (blocked: bool)
      modifies this
      ensures revoke ==> !blocked && currentUser == Revoked(old(currentUser), SpamKey(mode, uid, cid))
      ensures !revoke ==> blocked == Blocked(old(currentUser), SpamKey(mode, uid, cid))
      ensures !revoke ==> currentUser == Acquired(old(currentUser), SpamKey(mode, uid, cid))
      ensures NoDuplicates(old(currentUser)) ==> NoDuplicates(currentUser)
    {
      NoDuplicatesKept(currentUser, SpamKey(mode, uid, cid));
      blocked := false;
      if revoke {
        if mode == "CHAT+" {
          if cid in currentUser {
            currentUser := RemoveFirst(currentUser, cid);
          }
        } else if mode == "USER" {
          if uid in currentUser {
            currentUser := RemoveFirst(currentUser, uid);
          }
        }
      } else {
        if mode == "CHAT+" {
          if cid in currentUser {
            return true;
          } else {
            currentUser := currentUser + [cid];
          }
        } else if mode == "USER" {
          if uid in currentUser {
            return true;
          } else {
            currentUser := currentUser + [uid];
          }
        }
        return false;
      }
    }
  }

  // ================================================================ authorisation

  /** The settings `check_user` reads. */
  datatype Access = Access(admins: seq<int>, authChats: seq<int>, authUsers: seq<int>, botPublic: bool)

  /** The sender of the message being checked. */
  datatype Sender = Sender(userId: int, chatId: int)

  function AllChats(acc: Access): seq<int>
  {
    acc.admins + acc.authChats + acc.authUsers
  }

  /** `check_user`: restricted commands are for admins only; otherwise everyone is let in
      on a public bot, and on a private one whoever, or whose chat, is an admin or
      authorised.  An unrestricted check of a private bot without a message fails at
      `msg.from_user`. */
  function CheckUser(acc: Access, uid: Option<int>, msg: Option<Sender>, restricted: bool): (r: Result<bool>)
    ensures restricted ==> r == Ok(uid.Some? && uid.value in acc.admins)
    ensures (!restricted && acc.botPublic) ==> r == Ok(true)
    ensures (!restricted && !acc.botPublic && msg.Some?) ==>
      r == Ok(msg.value.userId in AllChats(acc) || msg.value.chatId in AllChats(acc))
    ensures r.Err? <==> !restricted && !acc.botPublic && msg.None?
  {
    if restricted then
      Ok(uid.Some? && uid.value in acc.admins)
    else if acc.botPublic then
      Ok(true)
    else if msg.None? then
      Err("AttributeError: 'NoneType' object has no attribute 'from_user'")
    else
      var all := AllChats(acc);
      Ok(msg.value.userId in all || msg.value.chatId in all)
  }

  /** An admin passes every check, restricted or not. */
  lemma AdminAlwaysAllowed(acc: Access, u: int, chat: int, restricted: bool)
    requires u in acc.admins
    ensures CheckUser(acc, Some(u), Some(Sender(u, chat)), restricted) == Ok(true)
  {
    assert u in AllChats(acc);
  }

  /** Authorising more users or chats never withdraws access, and restricted checks
      do not look at them at all. */
  lemma AuthorisingMoreKeepsAccess(acc: Access, moreChats: seq<int>, moreUsers: seq<int>, uid: Option<int>, msg: Option<Sender>, restricted: bool)
    ensures CheckUser(acc, uid, msg, restricted) == Ok(true) ==>
      CheckUser(acc.(authChats := acc.authChats + moreChats, authUsers := acc.authUsers + moreUsers), uid, msg, restricted) == Ok(true)
    ensures restricted ==>
      CheckUser(acc.(authChats := moreChats, authUsers := moreUsers), uid, msg, restricted) == CheckUser(acc, uid, msg, restricted)
  {
    var acc' := acc.(authChats := acc.authChats + moreChats, authUsers := acc.authUsers + moreUsers);
    forall x | x in AllChats(acc) ensures x in AllChats(acc') {
      if x in acc.authChats {
        assert x in acc.authChats + moreChats;
      } else if x in acc.authUsers {
        assert x in acc.authUsers + moreUsers;
      }
    }
  }

  // ================================================================ user details

  /** The parts of an incoming message `fetch_user_details` reads. */
  datatype TgMessage = TgMessage(id: int, fromId: int, firstName: string, username: Option<string>,
                                 mention: string, replyTo: Option<int>, chatId: int)

  /** The `user_details` record; `None` fields are Python's `None`. */
  datatype UserDetails = UserDetails(userId: Option<int>, name: Option<string>, userName: Option<string>,
                                     rId: Option<int>, chatId: Option<int>, provider: Option<string>,
                                     botMsg: Option<int>, link: Option<string>, override: Option<string>)

  const UserTemplate: UserDetails := UserDetails(None, None, None, None, None, None, None, None, None)

  /** `fetch_user_details`: a copy of the template with the sender's fields filled in.
      The reply id is taken from the replied-to message when `reply` is set, which fails
      when there is none. */
  method FetchUserDetails(msg: TgMessage, reply: bool) returns (r: Result<UserDetails>)
    ensures r.Err? <==> reply && msg.replyTo.None?
    ensures r.Ok? ==> r.value.userId == Some(msg.fromId) && r.value.name == Some(msg.firstName)
    ensures r.Ok? ==> r.value.userName == Some(if Truthy(msg.username) then msg.username.value else msg.mention)
    ensures r.Ok? ==> r.value.rId == Some(if reply then msg.replyTo.value else msg.id)
    ensures r.Ok? ==> r.value.chatId == Some(msg.chatId) && r.value.botMsg == Some(msg.id)
    ensures r.Ok? ==> (r.value.provider == UserTemplate.provider && r.value.link == UserTemplate.link
      && r.value.override == UserTemplate.override)
  {
    var details := UserTemplate;
    details := details.(userId := Some(msg.fromId));
    details := details.(name := Some(msg.firstName));
    details := details.(userName := Some(if Truthy(msg.username) then msg.username.value else msg.mention));
    if reply {
      if msg.replyTo.None? {
        return Err("AttributeError: 'NoneType' object has no attribute 'id'");
      }
      details := details.(rId := msg.replyTo);
    } else {
      details := details.(rId := Some(msg.id));
    }
    details := details.(chatId := Some(msg.chatId));
    details := details.(botMsg := Some(msg.id));
    r := Ok(details);
  }

  // ================================================================ retries

  /** What a call returns to its caller: a message id, `None`, or an exception. */
  datatype Reply = Returned(message: Option<int>) | Raised(error: string)

  /** Telegram's answer to the last edit attempt, after any FloodWait answers. */
  datatype EditOutcome = Edited(message: int) | NotModified | EditFailed(error: string)

  function EditReply(last: EditOutcome): Reply
  {
    match last
    case Edited(m) => Returned(Some(m))
    case NotModified => Returned(None)
    case EditFailed(e) => Raised(e)
  }

  /** `edit_message` against Telegram answering FloodWait with the waits in `floods`
      and then `last`: the reply and the sleeps taken.  With `antiflood` every wait is
      slept and the edit retried; without it the first FloodWait gives `None`. */
  function EditMessage(floods: seq<nat>, last: EditOutcome, antiflood: bool): (r: (Reply, seq<nat>))
    ensures antiflood ==> r == (EditReply(last), floods)
    ensures !antiflood && floods != [] ==> r == (Returned(None), [])
    ensures floods == [] ==> r == (EditReply(last), [])
    decreases |floods|
  {
    if floods == [] then (EditReply(last), [])
    else if antiflood then
      var rest := EditMessage(floods[1..], last, antiflood);
      assert [floods[0]] + floods[1..] == floods;
      (rest.0, [floods[0]] + rest.1)
    else (Returned(None), [])
  }

  /** An unchanged text is not an error: the edit gives `None`, however many floods
      came first and whatever `antiflood` is. */
  lemma NotModifiedIsNone(floods: seq<nat>, antiflood: bool)
    ensures EditMessage(floods, NotModified, antiflood).0 == Returned(None)
  {
  }

  /** The metadata `send_message` reads for audio and video. */
  datatype MediaMeta = MediaMeta(duration: Option<int>, artist: Option<string>, title: Option<string>,
                                 thumbnail: Option<string>, width: Option<int>, height: Option<int>)

  /** The Telegram call `send_message` makes. */
  datatype Call =
    | SendText(chatId: Option<int>, text: string, replyTo: Option<int>)
    | SendDocument(chatId: Option<int>, document: string, caption: Option<string>, replyTo: Option<int>)
    | SendAudio(chatId: Option<int>, audio: string, caption: Option<string>, duration: int, performer: string,
                title: string, thumb: Option<string>, replyTo: Option<int>)
    | SendVideo(chatId: Option<int>, video: string, caption: Option<string>, duration: int, width: int,
                height: int, thumb: Option<string>, replyTo: Option<int>)
    | SendPhoto(chatId: Option<int>, photo: string, caption: Option<string>, replyTo: Option<int>)

  function IntOr(o: Option<int>, d: int): int
  {
    if o.Some? then o.value else d
  }

  function TextOr(o: Option<string>, d: string): string
  {
    if o.Some? then o.value else d
  }

  /** The call for `itype`, or `None` for a type it does not know.  An explicit non-zero
      chat id wins over the user's; replies go to the user's `r_id`. */
  function CallFor(user: UserDetails, item: string, itype: string, caption: Option<string>, chatId: Option<int>,
                   meta: Option<MediaMeta>): (c: Option<Call>)
    ensures c.Some? <==> itype in {"text", "doc", "audio", "video", "pic"}
    ensures c.Some? ==> c.value.chatId == (if chatId.Some? && chatId.value != 0 then chatId else user.chatId)
    ensures c.Some? ==> c.value.replyTo == user.rId
    ensures itype == "text" ==> c.value.SendText? && c.value.text == item
    ensures itype == "doc" ==> c.value.SendDocument? && c.value.document == item && c.value.caption == caption
    ensures itype == "audio" ==> c.value.SendAudio? && c.value.audio == item && c.value.caption == caption
    ensures itype == "video" ==> c.value.SendVideo? && c.value.video == item && c.value.caption == caption
    ensures itype == "pic" ==> c.value.SendPhoto? && c.value.photo == item && c.value.caption == caption
  {
    var chat := if chatId.Some? && chatId.value != 0 then chatId else user.chatId;
    var m := if meta.Some? then meta.value else MediaMeta(None, None, None, None, None, None);
    if itype == "text" then Some(SendText(chat, item, user.rId))
    else if itype == "doc" then Some(SendDocument(chat, item, caption, user.rId))
    else if itype == "audio" then
      Some(SendAudio(chat, item, caption, IntOr(m.duration, 0), TextOr(m.artist, "Unknown Artist"),
                     TextOr(m.title, "Unknown Track"), m.thumbnail, user.rId))
    else if itype == "video" then
      Some(SendVideo(chat, item, caption, IntOr(m.duration, 0), IntOr(m.width, 1920), IntOr(m.height, 1080),
                     m.thumbnail, user.rId))
    else if itype == "pic" then Some(SendPhoto(chat, item, caption, user.rId))
    else None
  }

  /** Audio and video without metadata are sent with the defaults. */
  lemma MediaDefaults(user: UserDetails, item: string, caption: Option<string>, chatId: Option<int>)
    ensures CallFor(user, item, "audio", caption, chatId, None).value.duration == 0
    ensures CallFor(user, item, "audio", caption, chatId, None).value.performer == "Unknown Artist"
    ensures CallFor(user, item, "audio", caption, chatId, None).value.title == "Unknown Track"
    ensures CallFor(user, item, "audio", caption, chatId, None).value.thumb.None?
    ensures CallFor(user, item, "video", caption, chatId, None).value.width == 1920
    ensures CallFor(user, item, "video", caption, chatId, None).value.height == 1080
  {
  }

  /** Telegram's answer to the last send attempt. */
  datatype SendOutcome = Sent(message: int) | SendFailed(error: string)

  /** Every call made, the reply, and the sleeps. */
  datatype SendResult = SendResult(calls: seq<Call>, reply: Reply, sleeps: seq<nat>)

  /** The FloodWait retries of one call: each wait is slept and the identical call made
      again; `failed` is what a failure leaves the caller with. */
  function SendRetries(call: Call, floods: seq<nat>, last: SendOutcome, failed: Reply): (r: SendResult)
    ensures |r.calls| == |floods| + 1 && forall i :: 0 <= i < |r.calls| ==> r.calls[i] == call
    ensures r.sleeps == floods
    ensures r.reply == (if last.Sent? then Returned(Some(last.message)) else failed)
    decreases |floods|
  {
    if floods == [] then
      SendResult([call], if last.Sent? then Returned(Some(last.message)) else failed, [])
    else
      var rest := SendRetries(call, floods[1..], last, failed);
      SendResult([call] + rest.calls, rest.reply, [floods[0]] + rest.sleeps)
  }

  const UnboundMsg: string := "UnboundLocalError: local variable 'msg' referenced before assignment"

  /** `send_message` as written: after a failure other than FloodWait, and for an
      unknown `itype`, `return msg` reads a name never bound. */
  function SendMessageAsWritten(user: UserDetails, item: string, itype: string, caption: Option<string>, chatId: Option<int>,
                                meta: Option<MediaMeta>, floods: seq<nat>, last: SendOutcome): SendResult
  {
    match CallFor(user, item, itype, caption, chatId, meta)
    case None => SendResult([], Raised(UnboundMsg), [])
    case Some(call) => SendRetries(call, floods, last, Raised(UnboundMsg))
  }

  /** `send_message` with `msg` bound to `None` before the `try`: a failure is logged
      and gives `None`. */
  function SendMessage(user: UserDetails, item: string, itype: string, caption: Option<string>, chatId: Option<int>,
                       meta: Option<MediaMeta>, floods: seq<nat>, last: SendOutcome): SendResult
  {
    match CallFor(user, item, itype, caption, chatId, meta)
    case None => SendResult([], Returned(None), [])
    case Some(call) => SendRetries(call, floods, last, Returned(None))
  }

  /** A failed send raises as written, and gives `None` once `msg` is bound. */
  lemma SendFailureAsWritten(user: UserDetails, floods: seq<nat>)
    ensures SendMessageAsWritten(user, "hi", "text", None, None, None, floods, SendFailed("timeout")).reply == Raised(UnboundMsg)
    ensures SendMessageAsWritten(user, "hi", "gif", None, None, None, floods, Sent(1)).reply == Raised(UnboundMsg)
    ensures SendMessage(user, "hi", "text", None, None, None, floods, SendFailed("timeout")).reply == Returned(None)
  {
  }

  /** The corrected send never raises; it retries the identical call after every
      FloodWait, sleeping each wait, and returns the message sent or `None`. */
  lemma SendMessageRetries(user: UserDetails, item: string, itype: string, caption: Option<string>, chatId: Option<int>,
                           meta: Option<MediaMeta>, floods: seq<nat>, last: SendOutcome)
    ensures SendMessage(user, item, itype, caption, chatId, meta, floods, last).reply.Returned?
    ensures CallFor(user, item, itype, caption, chatId, meta).Some? ==>
      var r := SendMessage(user, item, itype, caption, chatId, meta, floods, last);
      r.sleeps == floods && |r.calls| == |floods| + 1
      && (forall i :: 0 <= i < |r.calls| ==> r.calls[i] == CallFor(user, item, itype, caption, chatId, meta).value)
      && r.reply == (if last.Sent? then Returned(Some(last.message)) else Returned(None))
  {
  }
}
