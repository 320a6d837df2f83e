/**
 * The chat store of store/chatStore.ts: the list of chats, with duplicate-free
 * insertion, removal, message append (sealing the text for the recipient),
 * unread accounting, reading back with decryption, and one-to-one chat
 * creation. The logged-in user, a global in the app, is a parameter here.
 */
module ChatStore {
  import opened Wrappers
  import opened Types
  import Text
  import Encryption

  const NotAuthenticated: string := "User not authenticated"
  const EncryptedPreview: string := "[Encrypted message]"

  /** `ensureDateObject`: a `Date` is kept as it is, a string or a number becomes the `Date` it denotes. */
  function EnsureDateObject(t: Timestamp): (r: Timestamp)
    ensures r.Date?
    ensures t.Date? ==> r == t
    ensures t.EpochMillis? ==> r == Date(TimeValue(t.millis))
  {
    match t
    case Date(_) => t
    case DateString(text) => Date(ParsedFrom(text))
    case EpochMillis(millis) => Date(TimeValue(millis))
  }

  /** A message with its timestamp made a `Date`, everything else as it was. */
  function WithDate(m: Message): (r: Message)
    ensures r.timestamp.Date?
    ensures r.timestamp == EnsureDateObject(m.timestamp)
    ensures m.timestamp.Date? ==> r == m
    ensures r.(timestamp := m.timestamp) == m
  {
    m.(timestamp := EnsureDateObject(m.timestamp))
  }

  function WithDates(ms: seq<Message>): (r: seq<Message>)
    ensures |r| == |ms|
    ensures forall i :: 0 <= i < |ms| ==> r[i] == WithDate(ms[i])
  {
    if ms == [] then [] else [WithDate(ms[0])] + WithDates(ms[1..])
  }

  /** The chat `addChat` stores: every timestamp, the last message's included, made a `Date`. */
  function Processed(chat: Chat): (r: Chat)
    ensures |r.messages| == |chat.messages|
    ensures forall i :: 0 <= i < |chat.messages| ==> r.messages[i] == WithDate(chat.messages[i])
    ensures r.lastMessage.Some? <==> chat.lastMessage.Some?
    ensures r.lastMessage.Some? ==> r.lastMessage.value == WithDate(chat.lastMessage.value)
    ensures r.(messages := chat.messages, lastMessage := chat.lastMessage) == chat
  {
    var last := if chat.lastMessage.Some? then Some(WithDate(chat.lastMessage.value)) else None;
    chat.(messages := WithDates(chat.messages), lastMessage := last)
  }

  predicate HasChat(chats: seq<Chat>, id: string)
  {
    exists i :: 0 <= i < |chats| && chats[i].id == id
  }

  /** No two chats share an id: what `addChat`'s duplicate check keeps. */
  predicate DistinctIds(chats: seq<Chat>)
  {
    forall i, j :: 0 <= i < j < |chats| ==> chats[i].id != chats[j].id
  }

  /** The position of the first chat with the given id, `|chats|` when there is none. */
  function IndexOfChat(chats: seq<Chat>, id: string): (k: nat)
    ensures k <= |chats|
    ensures k < |chats| ==> chats[k].id == id
    ensures forall j :: 0 <= j < k ==> chats[j].id != id
  {
    if chats == [] then 0
    else if chats[0].id == id then 0
    else 1 + IndexOfChat(chats[1..], id)
  }

  /** `chats.find(c => c.id === id)`. */
  function FindChat(chats: seq<Chat>, id: string): (r: Option<Chat>)
    ensures r.Some? <==> HasChat(chats, id)
    ensures r.Some? ==> r.value.id == id && r.value in chats
    ensures r.Some? ==> r.value == chats[IndexOfChat(chats, id)]
  {
    var k := IndexOfChat(chats, id);
    if k < |chats| then Some(chats[k]) else None
  }

  /** With distinct ids, the chat found for an id is the one chat that has it. */
  lemma FindChatDistinct(chats: seq<Chat>, i: nat)
    requires i < |chats| && DistinctIds(chats)
    ensures IndexOfChat(chats, chats[i].id) == i
    ensures FindChat(chats, chats[i].id) == Some(chats[i])
  {
    var k := IndexOfChat(chats, chats[i].id);
    assert k >= i;
  }

  // ----- addChat -----

  /** The chat list after `addChat(chat)`. */
  function Added(chats: seq<Chat>, chat: Chat): (r: seq<Chat>)
    ensures HasChat(chats, chat.id) ==> r == chats
    ensures !HasChat(chats, chat.id) ==> r == chats + [Processed(chat)]
  {
    if FindChat(chats, chat.id).Some? then chats else chats + [Processed(chat)]
  }

  /** After `addChat` the chat's id is present, and ids stay distinct. */
  lemma AddedKeepsDistinct(chats: seq<Chat>, chat: Chat)
    requires DistinctIds(chats)
    ensures DistinctIds(Added(chats, chat))
    ensures HasChat(Added(chats, chat), chat.id)
  {
    var r := Added(chats, chat);
    if !HasChat(chats, chat.id) {
      assert r[|chats|].id == chat.id;
    }
  }

  /** Adding the same chat twice is adding it once. */
  lemma AddedIdempotent(chats: seq<Chat>, chat: Chat)
    ensures Added(Added(chats, chat), chat) == Added(chats, chat)
  {
    var r := Added(chats, chat);
    if !HasChat(chats, chat.id) {
      assert r[|chats|].id == chat.id;
    }
  }

  // ----- removeChat -----

  /** `chats.filter(chat => chat.id !== id)`. */
  function Removed(chats: seq<Chat>, id: string): (r: seq<Chat>)
    ensures |r| <= |chats|
    ensures forall c :: c in r <==> c in chats && c.id != id
  {
    if chats == [] then []
    else (if chats[0].id == id then [] else [chats[0]]) + Removed(chats[1..], id)
  }

  /** No chat with the removed id is left. */
  lemma RemovedLeavesNone(chats: seq<Chat>, id: string)
    ensures !HasChat(Removed(chats, id), id)
  {
    var r := Removed(chats, id);
    forall i | 0 <= i < |r| ensures r[i].id != id {
      assert r[i] in r;
    }
  }

  /** Removal keeps the order of what is left: it distributes over concatenation. */
  lemma {:induction false} RemovedAppend(a: seq<Chat>, b: seq<Chat>, id: string)
    ensures Removed(a + b, id) == Removed(a, id) + Removed(b, id)
  {
    if a == [] {
      assert a + b == b;
    } else {
      assert (a + b)[0] == a[0] && (a + b)[1..] == a[1..] + b;
      RemovedAppend(a[1..], b, id);
    }
  }

  /** Removing an id no chat has changes nothing. */
  lemma {:induction false} RemovedAbsent(chats: seq<Chat>, id: string)
    requires !HasChat(chats, id)
    ensures Removed(chats, id) == chats
  {
    if chats != [] {
      assert chats[0].id != id;
      assert !HasChat(chats[1..], id) by {
        forall i | 0 <= i < |chats[1..]| ensures chats[1..][i].id != id {
          assert chats[1..][i] == chats[i + 1];
        }
      }
      RemovedAbsent(chats[1..], id);
      assert chats == [chats[0]] + chats[1..];
    }
  }

  /** Removing twice is removing once. */
  lemma RemovedIdempotent(chats: seq<Chat>, id: string)
    ensures Removed(Removed(chats, id), id) == Removed(chats, id)
  {
    RemovedLeavesNone(chats, id);
    RemovedAbsent(Removed(chats, id), id);
  }

  /** Removal keeps ids distinct. */
  lemma {:induction false} RemovedKeepsDistinct(chats: seq<Chat>, id: string)
    requires DistinctIds(chats)
    ensures DistinctIds(Removed(chats, id))
  {
    if chats != [] {
      var rest := Removed(chats[1..], id);
      DistinctTail(chats);
      RemovedKeepsDistinct(chats[1..], id);
      if chats[0].id != id {
        forall j | 0 <= j < |rest| ensures rest[j].id != chats[0].id {
          assert rest[j] in chats[1..];
          var k :| 0 <= k < |chats[1..]| && chats[1..][k] == rest[j];
          assert chats[k + 1] == rest[j];
        }
        DistinctCons(chats[0], rest);
      } else {
        assert [] + rest == rest;
      }
    }
  }

  lemma DistinctTail(chats: seq<Chat>)
    requires chats != [] && DistinctIds(chats)
    ensures DistinctIds(chats[1..])
  {
    forall i, j | 0 <= i < j < |chats[1..]| ensures chats[1..][i].id != chats[1..][j].id {
      assert chats[1..][i] == chats[i + 1] && chats[1..][j] == chats[j + 1];
    }
  }

  lemma DistinctCons(c: Chat, rest: seq<Chat>)
    requires DistinctIds(rest)
    requires forall j :: 0 <= j < |rest| ==> rest[j].id != c.id
    ensures DistinctIds([c] + rest)
  {
    var r := [c] + rest;
    forall i, j | 0 <= i < j < |r| ensures r[i].id != r[j].id {
      if i == 0 {
        assert r[j] == rest[j - 1];
      } else {
        assert r[i] == rest[i - 1] && r[j] == rest[j - 1];
      }
    }
  }

  // ----- addMessage -----

  /** `p.id !== user?.id`: with nobody logged in, everyone is somebody else. */
  predicate OtherThan(id: string, user: Option<User>)
  {
    user.None? || id != user.value.id
  }

  /** `participants.find(p => p.id !== user?.id)`: the first participant who is not the user. */
  function Recipient(participants: seq<User>, user: Option<User>): (r: Option<User>)
    ensures r.Some? <==> exists i :: 0 <= i < |participants| && OtherThan(participants[i].id, user)
    ensures r.Some? ==> r.value in participants && OtherThan(r.value.id, user)
    ensures r.Some? ==> exists i :: 0 <= i < |participants| && participants[i] == r.value
                                 && forall j :: 0 <= j < i ==> !OtherThan(participants[j].id, user)
  {
    if participants == [] then None
    else if OtherThan(participants[0].id, user) then Some(participants[0])
    else
      var r := Recipient(participants[1..], user);
      assert r.Some? ==> exists i :: 0 <= i < |participants| && OtherThan(participants[i].id, user) by {
        if r.Some? {
          var i :| 0 <= i < |participants[1..]| && OtherThan(participants[1..][i].id, user);
          assert participants[i + 1] == participants[1..][i];
        }
      }
      assert r.Some? ==> exists i :: 0 <= i < |participants| && participants[i] == r.value
                                   && forall j :: 0 <= j < i ==> !OtherThan(participants[j].id, user) by {
        if r.Some? {
          var i :| 0 <= i < |participants[1..]| && participants[1..][i] == r.value
                   && forall j :: 0 <= j < i ==> !OtherThan(participants[1..][j].id, user);
          assert participants[i + 1] == r.value;
          forall j | 0 <= j < i + 1 ensures !OtherThan(participants[j].id, user) {
            if j > 0 {
              assert participants[j] == participants[1..][j - 1];
            }
          }
        }
      }
      r
  }

  /** The content stored for a message: a text is sealed when there is a recipient, anything else is kept. */
  function StoredContent(content: Content, recipient: Option<User>): (r: Content)
    ensures content.Plain? && recipient.Some? ==> r == Encryption.EncryptMessage(content.text, Some(recipient.value.publicKey))
    ensures content.Sealed? || recipient.None? ==> r == content
  {
    if content.Plain? && recipient.Some? then Encryption.EncryptMessage(content.text, Some(recipient.value.publicKey))
    else content
  }

  /** Storing is invisible to a reader with a private key: it reads what it would have read before. */
  lemma StoredContentReadsBack(content: Content, recipient: Option<User>, privateKey: Option<string>)
    requires Encryption.IsPresent(privateKey)
    ensures Encryption.DecryptMessage(StoredContent(content, recipient), privateKey)
         == Encryption.DecryptMessage(content, privateKey)
  {
    if content.Plain? && recipient.Some? {
      Encryption.DecryptEncrypted(content.text, Some(recipient.value.publicKey), privateKey);
    }
  }

  /** The `lastMessage` preview: the plaintext, or a placeholder for content that was not a string. */
  function Preview(m: Message): (r: Message)
    ensures r.content.Plain?
    ensures m.content.Plain? ==> r == m
    ensures m.content.Sealed? ==> r == m.(content := Plain(EncryptedPreview))
  {
    m.(content := Plain(if m.content.Plain? then m.content.text else EncryptedPreview))
  }

  /** How much `addMessage` adds to the unread count. */
  function UnreadIncrement(senderId: string, user: Option<User>): (r: nat)
    ensures r <= 1
    ensures user.None? ==> r == 1
    ensures user.Some? && senderId == user.value.id ==> r == 0
  {
    if OtherThan(senderId, user) then 1 else 0
  }

  /** The `chats.map` of `addMessage`: every chat with the id gets the message, the preview and the increment. */
  function AppendToMatching(chats: seq<Chat>, chatId: string, stored: Message, preview: Message, delta: int): (r: seq<Chat>)
    ensures |r| == |chats|
    ensures forall i :: 0 <= i < |chats| && chats[i].id != chatId ==> r[i] == chats[i]
    ensures forall i :: 0 <= i < |chats| && chats[i].id == chatId ==>
      r[i] == chats[i].(messages := chats[i].messages + [stored], lastMessage := Some(preview),
                        unreadCount := chats[i].unreadCount + delta)
  {
    if chats == [] then []
    else
      var c := chats[0];
      var head := if c.id == chatId
        then c.(messages := c.messages + [stored], lastMessage := Some(preview), unreadCount := c.unreadCount + delta)
        else c;
      [head] + AppendToMatching(chats[1..], chatId, stored, preview, delta)
  }

  /** The message `addMessage` stores in chat `chat`: `Date` timestamp, content sealed for the recipient. */
  function StoredMessage(chat: Chat, message: Message, user: Option<User>): (r: Message)
    ensures r.(content := message.content) == WithDate(message)
    ensures r.content == StoredContent(message.content, Recipient(chat.participants, user))
  {
    var processed := WithDate(message);
    processed.(content := StoredContent(processed.content, Recipient(chat.participants, user)))
  }

  /** The chat list after `addMessage(chatId, message)`. */
  function Appended(chats: seq<Chat>, chatId: string, message: Message, user: Option<User>): (r: seq<Chat>)
    ensures !HasChat(chats, chatId) ==> r == chats
    ensures |r| == |chats|
    ensures forall i :: 0 <= i < |chats| ==> r[i].id == chats[i].id
    ensures forall i :: 0 <= i < |chats| && chats[i].id != chatId ==> r[i] == chats[i]
    ensures HasChat(chats, chatId) ==> forall i :: 0 <= i < |chats| && chats[i].id == chatId ==>
      && r[i].messages == chats[i].messages + [StoredMessage(FindChat(chats, chatId).value, message, user)]
      && r[i].lastMessage == Some(Preview(WithDate(message)))
      && r[i].unreadCount == chats[i].unreadCount + UnreadIncrement(message.senderId, user)
      && r[i].(messages := chats[i].messages, lastMessage := chats[i].lastMessage,
               unreadCount := chats[i].unreadCount) == chats[i]
  {
    match FindChat(chats, chatId)
    case None => chats
    case Some(chat) =>
      var processed := WithDate(message);
      AppendToMatching(chats, chatId, StoredMessage(chat, message, user), Preview(processed),
                       UnreadIncrement(processed.senderId, user))
  }

  /** `addMessage` a number of times in a row. */
  function AppendedAll(chats: seq<Chat>, chatId: string, ms: seq<Message>, user: Option<User>): seq<Chat>
    decreases |ms|
  {
    if ms == [] then chats else AppendedAll(Appended(chats, chatId, ms[0], user), chatId, ms[1..], user)
  }

  /** How many of the messages somebody other than the user sent. */
  function CountFromOthers(ms: seq<Message>, user: Option<User>): nat
  {
    if ms == [] then 0 else UnreadIncrement(ms[0].senderId, user) + CountFromOthers(ms[1..], user)
  }

  /**
   * Unread accounting: after a run of appends to a chat, its unread count has
   * grown by the number of messages the current user did not send, and every
   * message has been appended.
   */
  lemma {:induction false} UnreadCountsForeignMessages(chats: seq<Chat>, chatId: string, ms: seq<Message>,
                                                       user: Option<User>, i: nat)
    requires i < |chats| && chats[i].id == chatId
    ensures |AppendedAll(chats, chatId, ms, user)| == |chats|
    ensures AppendedAll(chats, chatId, ms, user)[i].unreadCount == chats[i].unreadCount + CountFromOthers(ms, user)
    ensures |AppendedAll(chats, chatId, ms, user)[i].messages| == |chats[i].messages| + |ms|
    decreases |ms|
  {
    if ms != [] {
      assert HasChat(chats, chatId);
      var next := Appended(chats, chatId, ms[0], user);
      assert next[i].id == chatId;
      assert next[i].unreadCount == chats[i].unreadCount + UnreadIncrement(ms[0].senderId, user);
      assert |next[i].messages| == |chats[i].messages| + 1;
      UnreadCountsForeignMessages(next, chatId, ms[1..], user, i);
      assert AppendedAll(chats, chatId, ms, user) == AppendedAll(next, chatId, ms[1..], user);
    }
  }

  // ----- getMessages -----

  /** A stored message as `getMessages` hands it out: `Date` timestamp, content read as text. */
  function Decrypted(m: Message, privateKey: Option<string>): (r: Message)
    ensures r.content == Plain(Encryption.DecryptMessage(m.content, privateKey))
    ensures r.timestamp.Date?
    ensures r.timestamp == EnsureDateObject(m.timestamp)
    ensures r.(content := m.content, timestamp := m.timestamp) == m
  {
    var text := if m.content.Plain? then m.content.text else Encryption.DecryptMessage(m.content, privateKey);
    m.(timestamp := EnsureDateObject(m.timestamp), content := Plain(text))
  }

  function DecryptedAll(ms: seq<Message>, privateKey: Option<string>): (r: seq<Message>)
    ensures |r| == |ms|
    ensures forall i :: 0 <= i < |ms| ==> r[i] == Decrypted(ms[i], privateKey)
  {
    if ms == [] then [] else [Decrypted(ms[0], privateKey)] + DecryptedAll(ms[1..], privateKey)
  }

  /**
   * `getMessages(chatId)`: nothing for an unknown chat, the stored messages as
   * they are when nobody is logged in, and otherwise every message, in order,
   * with a `Date` timestamp and its content decrypted with the user's key
   * (text content is left as it is).
   */
  function GetMessages(chats: seq<Chat>, chatId: string, user: Option<User>): (r: seq<Message>)
    ensures !HasChat(chats, chatId) ==> r == []
    ensures HasChat(chats, chatId) && user.None? ==> r == FindChat(chats, chatId).value.messages
    ensures HasChat(chats, chatId) && user.Some? ==>
      var ms := FindChat(chats, chatId).value.messages;
      && |r| == |ms|
      && forall i :: 0 <= i < |ms| ==>
        && r[i].content == Plain(Encryption.DecryptMessage(ms[i].content, user.value.privateKey))
        && (ms[i].content.Plain? ==> r[i].content == ms[i].content)
        && r[i].timestamp.Date?
        && r[i].timestamp == EnsureDateObject(ms[i].timestamp)
        && r[i].(content := ms[i].content, timestamp := ms[i].timestamp) == ms[i]
  {
    match FindChat(chats, chatId)
    case None => []
    case Some(chat) =>
      if user.None? then chat.messages else DecryptedAll(chat.messages, user.value.privateKey)
  }

  /**
   * Send, then read: a text added to a chat with another participant is
   * stored sealed when that participant has a key, previewed as plaintext,
   * and read back as the same text by a user holding a private key.
   */
  lemma SentTextReadsBack(chats: seq<Chat>, i: nat, message: Message, user: Option<User>)
    requires i < |chats| && DistinctIds(chats)
    requires message.content.Plain?
    requires user.Some? && Encryption.IsPresent(user.value.privateKey)
    ensures var after := Appended(chats, chats[i].id, message, user);
      var n := |chats[i].messages|;
      && |GetMessages(after, chats[i].id, user)| == n + 1
      && GetMessages(after, chats[i].id, user)[n].content == message.content
      && after[i].lastMessage.value.content == message.content
      && (var recipient := Recipient(chats[i].participants, user);
          recipient.Some? && recipient.value.publicKey != "" ==> after[i].messages[n].content.Sealed?)
  {
    var id := chats[i].id;
    FindChatDistinct(chats, i);
    var after := Appended(chats, id, message, user);
    assert after[i].id == id;
    FindChatDistinct(after, i) by {
      forall a, b | 0 <= a < b < |after| ensures after[a].id != after[b].id {
        assert after[a].id == chats[a].id && after[b].id == chats[b].id;
      }
    }
    var n := |chats[i].messages|;
    var stored := StoredMessage(chats[i], message, user);
    assert after[i].messages[n] == stored;
    StoredContentReadsBack(message.content, Recipient(chats[i].participants, user), user.value.privateKey);
  }

  // ----- markAsRead -----

  /** The chat list after `markAsRead(chatId)`. */
  function MarkedRead(chats: seq<Chat>, chatId: string): (r: seq<Chat>)
    ensures |r| == |chats|
    ensures forall i :: 0 <= i < |chats| && chats[i].id != chatId ==> r[i] == chats[i]
    ensures forall i :: 0 <= i < |chats| && chats[i].id == chatId ==> r[i] == chats[i].(unreadCount := 0)
  {
    if chats == [] then []
    else
      var head := if chats[0].id == chatId then chats[0].(unreadCount := 0) else chats[0];
      [head] + MarkedRead(chats[1..], chatId)
  }

  /** Marking as read twice is marking once. */
  lemma {:induction false} MarkedReadIdempotent(chats: seq<Chat>, chatId: string)
    ensures MarkedRead(MarkedRead(chats, chatId), chatId) == MarkedRead(chats, chatId)
  {
    var once := MarkedRead(chats, chatId);
    var twice := MarkedRead(once, chatId);
    assert forall i :: 0 <= i < |chats| ==> twice[i] == once[i];
  }

  // ----- getChatWithContact -----

  /** A one-to-one chat one of whose participants has the given id. */
  predicate Involves(chat: Chat, contactId: string)
  {
    !chat.isGroup && exists k :: 0 <= k < |chat.participants| && chat.participants[k].id == contactId
  }

  /** `getChatWithContact(contactId)`: the first one-to-one chat with that contact. */
  function GetChatWithContact(chats: seq<Chat>, contactId: string): (r: Option<Chat>)
    ensures r.Some? <==> exists i :: 0 <= i < |chats| && Involves(chats[i], contactId)
    ensures r.Some? ==> r.value in chats && Involves(r.value, contactId)
  {
    if chats == [] then None
    else if Involves(chats[0], contactId) then Some(chats[0])
    else
      var r := GetChatWithContact(chats[1..], contactId);
      assert r.Some? ==> exists i :: 0 <= i < |chats| && Involves(chats[i], contactId) by {
        if r.Some? {
          var i :| 0 <= i < |chats[1..]| && Involves(chats[1..][i], contactId);
          assert chats[i + 1] == chats[1..][i];
        }
      }
      r
  }

  /** A chat appended at the end is found only when no earlier chat is. */
  lemma {:induction false} GetChatWithContactAppend(chats: seq<Chat>, c: Chat, contactId: string)
    ensures GetChatWithContact(chats + [c], contactId)
         == if GetChatWithContact(chats, contactId).Some? then GetChatWithContact(chats, contactId)
            else if Involves(c, contactId) then Some(c) else None
  {
    if chats == [] {
      assert chats + [c] == [c];
    } else {
      assert (chats + [c])[0] == chats[0] && (chats + [c])[1..] == chats[1..] + [c];
      GetChatWithContactAppend(chats[1..], c, contactId);
    }
  }

  // ----- createChat -----

  /**
   * `[a, b].sort().join('-')`: the two ids in UTF-16 order, joined with a
   * dash.
   */
  function ChatIdFor(a: string, b: string): (r: string)
    ensures || (r == a + "-" + b && !Text.Less(b, a))
            || (r == b + "-" + a && !Text.Less(a, b))
  {
    Text.LessTotal(a, b);
    if Text.Less(b, a) then b + "-" + a else a + "-" + b
  }

  /** The chat id does not depend on which of the two ids comes first. */
  lemma ChatIdSymmetric(a: string, b: string)
    ensures ChatIdFor(a, b) == ChatIdFor(b, a)
  {
    Text.LessTotal(a, b);
  }

  /** The chat `createChat` builds for the user and a new contact. */
  function NewChat(user: User, participant: User): (r: Chat)
    ensures r.id == ChatIdFor(user.id, participant.id)
    ensures r.participants == [user, participant]
    ensures r.messages == [] && r.lastMessage.None? && r.unreadCount == 0
    ensures Involves(r, participant.id) && Involves(r, user.id)
  {
    var r := Chat(ChatIdFor(user.id, participant.id), [user, participant], [], None, 0, false, None, None);
    assert r.participants[0] == user && r.participants[1] == participant;
    r
  }

  /**
   * `createChat(participant)`, as the chat it returns (or the error it throws)
   * and the chat list afterwards.
   */
  function Created(chats: seq<Chat>, participant: User, user: Option<User>): (r: (Result<Chat, string>, seq<Chat>))
    ensures r.0.Failure? <==> user.None?
    ensures r.0.Failure? ==> r.0.error == NotAuthenticated && r.1 == chats
    ensures r.0.Success? ==> Involves(r.0.value, participant.id)
    ensures r.0.Success? && GetChatWithContact(chats, participant.id).Some? ==>
      r.0.value == GetChatWithContact(chats, participant.id).value && r.0.value in chats && r.1 == chats
    ensures user.Some? && GetChatWithContact(chats, participant.id).None? ==>
      r.0 == Success(NewChat(user.value, participant)) && r.1 == Added(chats, NewChat(user.value, participant))
    ensures r.1 == chats || r.1 == chats + [r.0.value]
  {
    if user.None? then (Failure(NotAuthenticated), chats)
    else
      var existing := GetChatWithContact(chats, participant.id);
      if existing.Some? then (Success(existing.value), chats)
      else
        var newChat := NewChat(user.value, participant);
        assert Processed(newChat) == newChat;
        (Success(newChat), Added(chats, newChat))
  }

  /** Creating the chat with the same contact twice returns the same chat and adds nothing the second time. */
  lemma CreatedTwice(chats: seq<Chat>, participant: User, user: Option<User>)
    ensures var (first, after) := Created(chats, participant, user);
            Created(after, participant, user) == (first, after)
  {
    var (first, after) := Created(chats, participant, user);
    if user.Some? && GetChatWithContact(chats, participant.id).None? && after != chats {
      GetChatWithContactAppend(chats, first.value, participant.id);
    }
  }

  /** The chat store: its list of chats, ids kept distinct by every action. */
  class Store {
    var chats: seq<Chat>

    ghost predicate Valid()
      reads this
    {
      DistinctIds(chats)
    }

    constructor ()
      ensures Valid() && chats == []
    {
      chats := [];
    }

    method AddChat(chat: Chat)
      requires Valid()
      modifies this
      ensures Valid()
      ensures chats == Added(old(chats), chat)
    {
      var existing := FindChat(chats, chat.id);
      if existing.Some? {
        return;
      }
      AddedKeepsDistinct(chats, chat);
      chats := chats + [Processed(chat)];
    }

    method RemoveChat(chatId: string)
      requires Valid()
      modifies this
      ensures Valid()
      ensures chats == Removed(old(chats), chatId)
    {
      RemovedKeepsDistinct(chats, chatId);
      chats := Removed(chats, chatId);
    }

    method AddMessage(chatId: string, message: Message, user: Option<User>)
      requires Valid()
      modifies this
      ensures Valid()
      ensures chats == Appended(old(chats), chatId, message, user)
    {
      var chat := FindChat(chats, chatId);
      if chat.None? {
        return;
      }
      var processed := WithDate(message);
      var stored := StoredMessage(chat.value, message, user);
      var delta := UnreadIncrement(processed.senderId, user);
      var next := AppendToMatching(chats, chatId, stored, Preview(processed), delta);
      assert forall i :: 0 <= i < |chats| ==> next[i].id == chats[i].id;
      chats := next;
    }

    method MarkAsRead(chatId: string)
      requires Valid()
      modifies this
      ensures Valid()
      ensures chats == MarkedRead(old(chats), chatId)
    {
      var next := MarkedRead(chats, chatId);
      assert forall i :: 0 <= i < |chats| ==> next[i].id == chats[i].id;
      chats := next;
    }

    method CreateChat(participant: User, user: Option<User>) returns (r: Result<Chat, string>)
      requires Valid()
      modifies this
      ensures Valid()
      ensures (r, chats) == Created(old(chats), participant, user)
    {
      if user.None? {
        return Failure(NotAuthenticated);
      }
      var existing := GetChatWithContact(chats, participant.id);
      if existing.Some? {
        return Success(existing.value);
      }
      var newChat := NewChat(user.value, participant);
      AddChat(newChat);
      return Success(newChat);
    }
  }
}
