/** The conversation list screen's bookkeeping: conversation keys, the user
    directory, the last-message and mark-read updates of the list, the
    mark-read write to the chat document, and the avatar helpers. */
module Conversations {
  import opened Wrappers
  import opened JsString
  import opened Documents

  /** The separator of the two ids in a conversation key. */
  const Separator: char := '_'

  // ---------------------------------------------------------------------
  // Conversation keys

  /** `[a, b].sort()`: the two ids in ascending string order. */
  function SortPair(a: string, b: string): (r: (string, string))
    ensures (r.0 == a && r.1 == b) || (r.0 == b && r.1 == a)
    ensures !Below(r.1, r.0)
  {
    BelowAsymmetric(a, b);
    if Below(b, a) then (b, a) else (a, b)
  }

  /** The conversation key `[a, b].sort().join('_')`: the smaller id, the
      separator, the larger id. */
  function ChatId(a: string, b: string): (r: string)
    ensures !Below(b, a) ==> r == a + [Separator] + b
    ensures !Below(a, b) ==> r == b + [Separator] + a
  {
    BelowConnected(a, b);
    var (lo, hi) := SortPair(a, b);
    lo + [Separator] + hi
  }

  /** Both participants compute the same key. */
  lemma ChatIdSymmetric(a: string, b: string)
    ensures ChatId(a, b) == ChatId(b, a)
  {
    BelowConnected(a, b);
  }

  /** Ids without the separator never share a key with another pair. */
  lemma ChatIdInjective(a: string, b: string, c: string, d: string)
    requires Separator !in a && Separator !in b && Separator !in c && Separator !in d
    requires ChatId(a, b) == ChatId(c, d)
    ensures (a == c && b == d) || (a == d && b == c)
  {
    BelowConnected(a, b);
    BelowConnected(c, d);
    var (lo, hi) := SortPair(a, b);
    var (lo', hi') := SortPair(c, d);
    SplitUnique(lo, hi, lo', hi', Separator);
  }

  /** With the separator inside an id, two different pairs share a key. */
  lemma ChatIdCollision()
    ensures ChatId("a_b", "c") == ChatId("a", "b_c") == "a_b_c"
  {
    assert Below("a_b", "c");
    assert Below("a", "b_c");
  }

  // ---------------------------------------------------------------------
  // Recovering the other participant from a key

  /** The test of the change listener: the key mentions the signed-in uid
      somewhere. */
  predicate MentionsUser(chatId: string, uid: string) {
    Includes(chatId, uid)
  }

  /** The other participant as the listener computes it:
      `chatId.replace(uid, '').replace('_', '')`. */
  function OtherIdAsWritten(chatId: string, uid: string): (r: string)
    ensures |r| <= |chatId|
    ensures MentionsUser(chatId, uid) ==> |r| <= |chatId| - |uid|
    ensures !MentionsUser(chatId, uid) && Separator !in chatId ==> r == chatId
  {
    var once := ReplaceFirst(chatId, uid, "");
    IncludesSingle(chatId, Separator);
    assert MentionsUser(chatId, uid) ==> |once| == |chatId| - |uid|;
    assert !MentionsUser(chatId, uid) ==> once == chatId;
    ReplaceFirst(once, [Separator], "")
  }

  /** The listener handles every conversation the user takes part in. */
  lemma OwnChatMentionsUser(uid: string, other: string)
    ensures MentionsUser(ChatId(uid, other), uid)
  {
    var c := ChatId(uid, other);
    if !Below(other, uid) {
      assert OccursAt(c, uid, 0);
    } else {
      assert OccursAt(c, uid, |other| + 1);
    }
  }

  /** The written extraction removes a leading id and the separator after
      it. */
  lemma StripLeading(uid: string, other: string)
    ensures OtherIdAsWritten(uid + [Separator] + other, uid) == other
  {
    var c := uid + [Separator] + other;
    assert c[..|uid|] == uid;
    assert ReplaceFirst(c, uid, "") == [] + [Separator] + other;
    RemoveFreshChar([], other, Separator);
  }

  /** The written extraction removes a trailing id and the separator before
      it, when the id is first found there and the other id holds no
      separator. */
  lemma StripTrailing(uid: string, other: string)
    requires IndexOf(other + [Separator] + uid, uid) == Some(|other| + 1)
    requires Separator !in other
    ensures OtherIdAsWritten(other + [Separator] + uid, uid) == other
  {
    var c := other + [Separator] + uid;
    assert c[..|other| + 1] == other + [Separator];
    assert ReplaceFirst(c, uid, "") == other + [Separator] + [];
    RemoveFreshChar(other, [], Separator);
  }

  /** The written extraction is right when the signed-in id comes first in
      the key, or when it comes second, is not found earlier in the key, and
      the other id holds no separator. */
  lemma OtherIdAsWrittenRecovers(uid: string, other: string)
    requires !Below(other, uid) ||
             (IndexOf(ChatId(uid, other), uid) == Some(|other| + 1) && Separator !in other)
    ensures OtherIdAsWritten(ChatId(uid, other), uid) == other
  {
    if !Below(other, uid) {
      StripLeading(uid, other);
    } else {
      StripTrailing(uid, other);
    }
  }

  /** The written extraction misreads: for the pair `bc`/`abcd` the user
      `bc` files the conversation under `adbc`. */
  lemma OtherIdAsWrittenMisreads()
    ensures ChatId("bc", "abcd") == "abcd_bc"
    ensures OtherIdAsWritten("abcd_bc", "bc") == "adbc"
  {
    assert Below("abcd", "bc");
    var c := "abcd_bc";
    assert c[..2] != "bc" && c[1..][..2] == "bc";
    assert IndexOf(c[1..], "bc") == Some(0);
    assert IndexOf(c, "bc") == Some(1);
    assert c[..1] + "" + c[3..] == "ad" + [Separator] + "bc";
    RemoveFreshChar("ad", "bc", Separator);
  }

  /** The written test also lets through a conversation between two other
      users: `u1` handles the key of `u10` and `u2`. */
  lemma MentionsForeignChat()
    ensures ChatId("u10", "u2") == "u10_u2"
    ensures MentionsUser("u10_u2", "u1")
  {
    assert Below("u10", "u2");
    assert OccursAt("u10_u2", "u1", 0);
  }

  /** The other participant of a conversation key, or `None` when the key is
      not one of the signed-in user's conversations: the key is cut at its
      separator and one half must be the user's id. */
  function OtherParticipant(chatId: string, uid: string): (r: Option<string>)
    ensures r.Some? ==> Separator !in r.value
    ensures r.Some? ==> chatId == uid + [Separator] + r.value || chatId == r.value + [Separator] + uid
  {
    var head := Before(chatId, Separator);
    if |head| == |chatId| then None
    else
      var tail := chatId[|head| + 1..];
      assert chatId == head + [Separator] + tail;
      if Separator in tail then None
      else if head == uid then Some(tail)
      else if tail == uid then Some(head)
      else None
  }

  /** For ids without the separator, the other participant is recovered
      from the key of every conversation the user takes part in. */
  lemma OtherParticipantRecovers(uid: string, other: string)
    requires Separator !in uid && Separator !in other
    ensures OtherParticipant(ChatId(uid, other), uid) == Some(other)
  {
    var c := ChatId(uid, other);
    var (lo, hi) := SortPair(uid, other);
    BelowConnected(uid, other);
    assert c == lo + [Separator] + hi;
    BeforeJoin(lo, hi, Separator);
    assert c[|lo| + 1..] == hi;
  }

  /** ... and no other participant is found in the key of a conversation
      between two other users. */
  lemma OtherParticipantIgnoresForeignChats(uid: string, a: string, b: string)
    requires Separator !in uid && Separator !in a && Separator !in b
    requires uid != a && uid != b
    ensures OtherParticipant(ChatId(a, b), uid) == None
  {
    var c := ChatId(a, b);
    var (lo, hi) := SortPair(a, b);
    BelowConnected(a, b);
    assert c == lo + [Separator] + hi;
    BeforeJoin(lo, hi, Separator);
    assert c[|lo| + 1..] == hi;
  }

  // ---------------------------------------------------------------------
  // The user directory

  datatype LastMessage = LastMessage(text: Option<string>, timestamp: Option<Atom>, unread: bool)

  /** The stored fields of a user document as the list reads them. */
  datatype Profile = Profile(
    email: Option<string>,
    displayName: Option<string>,
    username: Option<string>,
    lastMessage: Option<LastMessage>)

  /** One list entry: `{ id: doc.id, ...doc.data() }`. */
  datatype User = User(id: string, profile: Profile)

  /** The signed-in account as `auth.currentUser` shows it. */
  datatype Viewer = Viewer(uid: string, email: Option<string>)

  /** A truthy string: present and not empty. */
  predicate Truthy(s: Option<string>) {
    s.Some? && s.value != ""
  }

  /** A user document is listed when it has a non-empty email that differs
      from the signed-in user's email. */
  predicate Listed(p: Profile, viewerEmail: Option<string>) {
    Truthy(p.email) && p.email != viewerEmail
  }

  /** The listed documents, in snapshot order. */
  function Directory(docs: seq<User>, viewerEmail: Option<string>): (r: seq<User>)
    ensures forall u :: u in r <==> u in docs && Listed(u.profile, viewerEmail)
    ensures |r| <= |docs|
  {
    if |docs| == 0 then []
    else
      var head := if Listed(docs[0].profile, viewerEmail) then [docs[0]] else [];
      head + Directory(docs[1..], viewerEmail)
  }

  /** The directory of a concatenation is the concatenation of directories:
      the snapshot's order survives filtering. */
  lemma {:induction false} DirectoryAppend(a: seq<User>, b: seq<User>, viewerEmail: Option<string>)
    ensures Directory(a + b, viewerEmail) == Directory(a, viewerEmail) + Directory(b, viewerEmail)
    decreases |a|
  {
    if |a| == 0 {
      assert a + b == b;
    } else {
      assert (a + b)[1..] == a[1..] + b;
      DirectoryAppend(a[1..], b, viewerEmail);
    }
  }

  /** `fetchUsers`: with no signed-in user nothing is fetched; a failed
      fetch raises an alert and keeps the list; otherwise the list becomes
      the listed documents of the snapshot, pushed one by one. */
  method FetchUsers(current: seq<User>, viewer: Option<Viewer>, snapshot: Result<seq<User>, string>)
    returns (users: seq<User>, alerted: bool)
    ensures viewer.None? ==> users == current && !alerted
    ensures viewer.Some? && snapshot.Failure? ==> users == current && alerted
    ensures viewer.Some? && snapshot.Success? ==>
      !alerted && users == Directory(snapshot.value, viewer.value.email)
  {
    if viewer.None? {
      return current, false;
    }
    if snapshot.Failure? {
      return current, true;
    }
    var docs := snapshot.value;
    var email := viewer.value.email;
    users := [];
    var i := 0;
    while i < |docs|
      invariant 0 <= i <= |docs|
      invariant users == Directory(docs[..i], email)
    {
      DirectoryAppend(docs[..i], [docs[i]], email);
      assert docs[..i + 1] == docs[..i] + [docs[i]];
      if Listed(docs[i].profile, email) {
        users := users + [docs[i]];
      }
      i := i + 1;
    }
    assert docs[..|docs|] == docs;
    alerted := false;
  }

  // ---------------------------------------------------------------------
  // List updates

  /** The latest message document of a conversation. */
  datatype MessageDoc = MessageDoc(text: Option<string>, timestamp: Option<Atom>, senderId: Option<string>)

  /** A conversation is unread when its latest message came from someone
      other than the signed-in user (`false` once nobody is signed in). */
  function Unread(msg: MessageDoc, viewerUid: Option<string>): (r: bool)
    ensures r <==> viewerUid.Some? && msg.senderId != Some(viewerUid.value)
  {
    match viewerUid
    case None => false
    case Some(uid) => msg.senderId != Some(uid)
  }

  /** The list after a new latest message in the conversation with
      `otherId`: entries with that id carry the message as their last
      message, every other entry is as it was. */
  function ApplyLastMessage(users: seq<User>, otherId: string, msg: MessageDoc, viewerUid: Option<string>)
    : (r: seq<User>)
    ensures |r| == |users|
    ensures forall i :: 0 <= i < |users| && users[i].id != otherId ==> r[i] == users[i]
    ensures forall i :: 0 <= i < |users| && users[i].id == otherId ==>
      && r[i].id == otherId
      && r[i].profile.(lastMessage := users[i].profile.lastMessage) == users[i].profile
      && r[i].profile.lastMessage == Some(LastMessage(msg.text, msg.timestamp, Unread(msg, viewerUid)))
  {
    if |users| == 0 then []
    else
      var u := users[0];
      var u' := if u.id == otherId
        then u.(profile := u.profile.(lastMessage := Some(LastMessage(msg.text, msg.timestamp, Unread(msg, viewerUid)))))
        else u;
      var rest := ApplyLastMessage(users[1..], otherId, msg, viewerUid);
      assert forall i :: 1 <= i < |users| ==> users[1..][i - 1] == users[i];
      [u'] + rest
  }

  /** The last message of an opened conversation: `{ ...lastMessage,
      unread: false }`, which creates one without text or time when there
      was none. */
  function ReadCopy(m: Option<LastMessage>): (r: LastMessage)
    ensures !r.unread
    ensures m.Some? ==> r.text == m.value.text && r.timestamp == m.value.timestamp
    ensures m.None? ==> r.text.None? && r.timestamp.None?
  {
    match m
    case Some(lm) => lm.(unread := false)
    case None => LastMessage(None, None, false)
  }

  /** The list after opening the conversation with `userId`: that entry's
      last message is marked read, every other entry is as it was. */
  function MarkOpened(users: seq<User>, userId: string): (r: seq<User>)
    ensures |r| == |users|
    ensures forall i :: 0 <= i < |users| && users[i].id != userId ==> r[i] == users[i]
    ensures forall i :: 0 <= i < |users| && users[i].id == userId ==>
      && r[i].id == userId
      && r[i].profile.(lastMessage := users[i].profile.lastMessage) == users[i].profile
      && r[i].profile.lastMessage == Some(ReadCopy(users[i].profile.lastMessage))
  {
    if |users| == 0 then []
    else
      var u := users[0];
      var u' := if u.id == userId
        then u.(profile := u.profile.(lastMessage := Some(ReadCopy(u.profile.lastMessage))))
        else u;
      var rest := MarkOpened(users[1..], userId);
      assert forall i :: 1 <= i < |users| ==> users[1..][i - 1] == users[i];
      [u'] + rest
  }

  /** Opening a conversation twice leaves the list as opening it once. */
  lemma MarkOpenedIdempotent(users: seq<User>, userId: string)
    ensures MarkOpened(MarkOpened(users, userId), userId) == MarkOpened(users, userId)
  {
    var once := MarkOpened(users, userId);
    var twice := MarkOpened(once, userId);
    forall i | 0 <= i < |users|
      ensures twice[i] == once[i]
    {
    }
  }

  /** Opening the conversation after its latest message arrived shows that
      message, read. */
  lemma OpenAfterMessageShowsItRead(users: seq<User>, otherId: string, msg: MessageDoc, viewerUid: Option<string>, i: nat)
    requires i < |users| && users[i].id == otherId
    ensures MarkOpened(ApplyLastMessage(users, otherId, msg, viewerUid), otherId)[i].profile.lastMessage
      == Some(LastMessage(msg.text, msg.timestamp, false))
  {
  }

  /** One change of the chats collection: for a conversation of the
      signed-in user whose latest message was found, the entry of the other
      participant takes that message. The other participant is found by
      cutting the key at its separator. */
  function OnChatChange(users: seq<User>, viewerUid: Option<string>, chatId: string, latest: Option<MessageDoc>)
    : (r: seq<User>)
    ensures viewerUid.None? || latest.None? ==> r == users
    ensures |r| == |users|
    ensures forall i :: 0 <= i < |users| ==> r[i].id == users[i].id
  {
    match viewerUid
    case None => users
    case Some(uid) =>
      match OtherParticipant(chatId, uid)
      case None => users
      case Some(other) =>
        match latest
        case None => users
        case Some(msg) => ApplyLastMessage(users, other, msg, viewerUid)
  }

  /** A change to a conversation between two other users leaves the list
      alone. */
  lemma ForeignChatChangeIgnored(users: seq<User>, uid: string, a: string, b: string, latest: Option<MessageDoc>)
    requires Separator !in uid && Separator !in a && Separator !in b
    requires uid != a && uid != b
    ensures OnChatChange(users, Some(uid), ChatId(a, b), latest) == users
  {
    OtherParticipantIgnoresForeignChats(uid, a, b);
  }

  /** A new message in a conversation of the signed-in user reaches exactly
      the other participant's entries, unread when the other one sent it. */
  lemma OwnChatChangeReachesPartner(users: seq<User>, uid: string, other: string, msg: MessageDoc, i: nat)
    requires Separator !in uid && Separator !in other
    requires i < |users|
    ensures var r := OnChatChange(users, Some(uid), ChatId(uid, other), Some(msg));
      && (users[i].id == other ==>
            r[i].profile.lastMessage.Some? &&
            r[i].profile.lastMessage.value.unread == (msg.senderId != Some(uid)))
      && (users[i].id != other ==> r[i] == users[i])
  {
    OtherParticipantRecovers(uid, other);
  }

  // ---------------------------------------------------------------------
  // The mark-read write

  /** The fields `handleChatOpen` merges into `chats/{chatId}`. */
  function ReadReceipt(uid: string, now: int): Fields {
    map["lastRead" := Nested(map[uid := Time(now)]), "unreadCount" := Leaf(Num(0))]
  }

  /** The chat document after the signed-in user opens the conversation at
      time `now`: the user's read time is set and the unread count cleared;
      every other field, and every other participant's read time, is kept. */
  function MarkRead(stored: Option<Fields>, uid: string, now: int): (r: Fields)
    ensures "unreadCount" in r && r["unreadCount"] == Leaf(Num(0))
    ensures "lastRead" in r && r["lastRead"].Nested?
    ensures uid in r["lastRead"].entries && r["lastRead"].entries[uid] == Time(now)
    ensures forall k :: k in r && k != "lastRead" && k != "unreadCount" ==> stored.Some? && k in stored.value && r[k] == stored.value[k]
    ensures forall k :: stored.Some? && k in stored.value && k != "lastRead" && k != "unreadCount" ==> k in r && r[k] == stored.value[k]
    ensures forall e ::
      (stored.Some? && "lastRead" in stored.value && stored.value["lastRead"].Nested? &&
       e in stored.value["lastRead"].entries && e != uid) ==>
      e in r["lastRead"].entries && r["lastRead"].entries[e] == stored.value["lastRead"].entries[e]
    ensures r["lastRead"].entries.Keys == {uid} +
      (if stored.Some? && "lastRead" in stored.value && stored.value["lastRead"].Nested?
       then stored.value["lastRead"].entries.Keys else {})
  {
    Apply(stored, ReadReceipt(uid, now), Merge)
  }

  /** Opening a conversation twice in a row keeps the count cleared and
      differs from opening it once only in the user's own read time. */
  lemma MarkReadTwice(stored: Option<Fields>, uid: string, t1: int, t2: int)
    ensures MarkRead(Some(MarkRead(stored, uid, t1)), uid, t2) == MarkRead(stored, uid, t2)
  {
    var r1 := ReadReceipt(uid, t1);
    var r2 := ReadReceipt(uid, t2);
    assert Covers(r2, r1);
    MergeOverwrites(stored.GetOr(map[]), r1, r2);
  }

  /** Two participants' read receipts never write the same path differently. */
  lemma ReceiptsCompatible(u1: string, t1: int, u2: string, t2: int)
    requires u1 != u2
    ensures Compatible(ReadReceipt(u1, t1), ReadReceipt(u2, t2))
  {
  }

  lemma MarkReadMerges(stored: Option<Fields>, uid: string, now: int)
    ensures MarkRead(stored, uid, now) == MergeInto(stored.GetOr(map[]), ReadReceipt(uid, now))
  {
  }

  /** Both participants opening the conversation, in either order, store
      the same document: neither read time clobbers the other. */
  lemma MarkReadBothOrders(stored: Option<Fields>, u1: string, t1: int, u2: string, t2: int)
    requires u1 != u2
    ensures MarkRead(Some(MarkRead(stored, u1, t1)), u2, t2) == MarkRead(Some(MarkRead(stored, u2, t2)), u1, t1)
  {
    var base, d1, d2 := stored.GetOr(map[]), ReadReceipt(u1, t1), ReadReceipt(u2, t2);
    MarkReadMerges(stored, u1, t1);
    MarkReadMerges(stored, u2, t2);
    MarkReadMerges(Some(MarkRead(stored, u1, t1)), u2, t2);
    MarkReadMerges(Some(MarkRead(stored, u2, t2)), u1, t1);
    ReceiptsCompatible(u1, t1, u2, t2);
    MergeCommutes(base, d1, d2);
  }

  /** What opening a conversation does: the write to the chat document,
      the list afterwards, and the route pushed. */
  datatype ChatOpening = ChatOpening(write: Option<Write>, users: seq<User>, route: Option<string>)

  /** `handleChatOpen`: with nobody signed in nothing happens. Otherwise the
      read receipt is merged into the conversation's document; only once
      that write succeeds is the list updated and the chat screen pushed, so
      a rejected write leaves the list as it was. */
  function HandleChatOpen(users: seq<User>, viewerUid: Option<string>, userId: string, email: string,
                          now: int, writeFailed: bool): (r: ChatOpening)
    ensures viewerUid.None? ==> r == ChatOpening(None, users, None)
    ensures viewerUid.Some? ==>
      && r.write.Some? && r.write.value.collection == "chats"
      && r.write.value.id == ChatId(viewerUid.value, userId) && r.write.value.mode == Merge
    ensures viewerUid.Some? && !writeFailed ==>
      r.users == MarkOpened(users, userId) && r.route == Some("/chat/" + userId + "?email=" + email)
    ensures writeFailed ==> r.users == users && r.route.None?
    ensures forall stored: Option<Fields> :: viewerUid.Some? ==>
      Apply(stored, r.write.value.data, r.write.value.mode) == MarkRead(stored, viewerUid.value, now)
  {
    match viewerUid
    case None => ChatOpening(None, users, None)
    case Some(uid) =>
      var w := Write("chats", ChatId(uid, userId), ReadReceipt(uid, now), Merge);
      if writeFailed then ChatOpening(Some(w), users, None)
      else ChatOpening(Some(w), MarkOpened(users, userId), Some("/chat/" + userId + "?email=" + email))
  }

  /** Opening the conversation writes the same document whichever
      participant opens it, and shows the partner's entry as read. */
  lemma ChatOpenTargetsSharedDocument(users: seq<User>, a: string, b: string, now: int, i: nat)
    requires i < |users| && users[i].id == b
    ensures HandleChatOpen(users, Some(a), b, "", now, false).write.value.id
         == HandleChatOpen(users, Some(b), a, "", now, false).write.value.id
    ensures var lm := HandleChatOpen(users, Some(a), b, "", now, false).users[i].profile.lastMessage;
      lm.Some? && !lm.value.unread
  {
    ChatIdSymmetric(a, b);
  }

  // ---------------------------------------------------------------------
  // Avatars

  /** The name shown for an entry: the username, else the display name,
      else the email up to its first `@`, else `User`. */
  function DisplayName(p: Profile): (r: string)
    ensures r != ""
    ensures Truthy(p.username) ==> r == p.username.value
    ensures !Truthy(p.username) && Truthy(p.displayName) ==> r == p.displayName.value
    ensures !Truthy(p.username) && !Truthy(p.displayName) && p.email.Some? && Before(p.email.value, '@') != "" ==>
      r == Before(p.email.value, '@')
    ensures !Truthy(p.username) && !Truthy(p.displayName) && (p.email.None? || Before(p.email.value, '@') == "") ==>
      r == "User"
  {
    if Truthy(p.username) then p.username.value
    else if Truthy(p.displayName) then p.displayName.value
    else if p.email.Some? && Before(p.email.value, '@') != "" then Before(p.email.value, '@')
    else "User"
  }

  /** `name.substring(0, 2).toUpperCase()`. */
  function Initials(name: string): (r: string)
    ensures |r| == if |name| < 2 then |name| else 2
    ensures forall i :: 0 <= i < |r| ==> r[i] == UpperChar(name[i])
  {
    ToUpper(Prefix(name, 2))
  }

  const Palette: seq<string> :=
    ["#E91E63", "#9C27B0", "#673AB7", "#3F51B5", "#2196F3", "#03A9F4", "#00BCD4", "#009688"]

  /** `colors[name.charCodeAt(0) % colors.length]`: for an empty name the
      code is NaN and no colour is found. */
  function AvatarColour(name: string): (r: Option<string>)
    ensures r.Some? <==> name != ""
    ensures r.Some? ==> r.value in Palette
  {
    if name == "" then None
    else Some(Palette[(name[0] as int) % |Palette|])
  }

  /** Every entry gets a palette colour and non-empty initials. */
  lemma AvatarAlwaysDrawn(p: Profile)
    ensures AvatarColour(DisplayName(p)).Some?
    ensures Initials(DisplayName(p)) != ""
  {
  }
}
