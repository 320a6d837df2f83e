# secure-chat-app core, modelled in Dafny

This project models the client-side state of a peer-to-peer chat app written
in TypeScript, and proves properties about it. It covers:

- **The chat store** (`store/chatStore.ts`), a list of conversations. It
  supports duplicate-free insertion and removal. Appending a message seals it
  for the recipient, updates the unread count and sets the `lastMessage`
  preview. It also covers marking a chat read, reading messages back with
  decryption, finding the one-to-one chat with a contact, and creating a chat
  whose id does not depend on the order of its participants.
- **The mock message codec** (`utils/encryption.ts`). It prefixes `MOCK:`, then
  UTF-8 encodes (RFC 3629) and Base64 encodes (section 4 of RFC 4648). Both
  layers are modelled over byte sequences and proved to round-trip.
- **The peer-connection manager** (`utils/peer.ts`, class `PeerConnection`):
  - the initialization flags;
  - the connection map, which keeps its insertion order and records each
    connection's `open` flag;
  - the ordered listener list;
  - event fan-out that isolates a listener that throws;
  - send, the connected-peer listing and disconnect.
- **The contact store** (`store/contactStore.ts`): add, remove and
  merge-update.
- **The user store** (`store/userStore.ts`): create, set and logout.
- **The settings store** (`store/settingsStore.ts`): three toggles.
- **The add-contact form** (`components/AddContactModal.tsx`): its validation,
  and the contact its submission builds and stores.

Modules, one file each:

- `Wrappers`: `Option` and `Result`.
- `Text`: JavaScript string length, order and `trim` on UTF-16 code units.
- `Utf8` and `Base64`: the codecs.
- `Types`: the records of `types/index.ts`.
- `Encryption`, `ChatStore`, `Peer`, `ContactStore`, `UserStore`,
  `SettingsStore` and `AddContactModal`: the source files above.

Where the source mutates state, the model uses a class:

- the stores' `set` calls;
- `PeerConnection` and its data connections;
- the form's component state.

Each method's `ensures` ties the new state to a pure function of the old
state. The lemmas then prove the source's promises about those functions.

Several things outside the app are parameters of the model:

- **The logged-in user.** The app reads it from a global. Here it is an
  `Option<User>` parameter.
- **The key pair.** Its generation is an input to `createUser`.
- **The transport's callbacks.** Each becomes an explicit `On…` method.
- **Exceptions.** Whether a listener, the dial or a send throws is an input.
- **The clock.** Its reading is the `now` parameter.

Two behaviours of the code are worth stating outright:

- **Sealing is deterministic.** The envelope always carries `mock-key` and
  `mock-nonce` (utils/encryption.ts:75-79), so the same message always gives
  the same envelope, whatever the recipient key
  (`Encryption.EncryptIgnoresKeyValue`).
- **A reconnect replaces the entry.** `handleConnection` overwrites the map
  entry for the peer with the new connection (utils/peer.ts:141); it does not
  reuse an existing one (`Peer.PeerConnection.HandleConnection`).

## Model

| member | source | states |
|---|---|---|
| ChatStore.EnsureDateObject | store/chatStore.ts:20-23 | the result is always a `Date`; a `Date` is returned as it is; a number (an integer in this model) becomes the `Date` built from it |
| ChatStore.WithDate | store/chatStore.ts:38-41 | a message with its timestamp passed through `ensureDateObject`: a `Date` timestamp, the one `EnsureDateObject` gives, so a message already holding a `Date` is returned as it is; every other field is kept |
| ChatStore.Processed | store/chatStore.ts:36-47 | the stored chat equals the given one except that every message, the last message included, has a `Date` timestamp and the same other fields |
| ChatStore.FindChat | store/chatStore.ts:32 | `find` yields a chat exactly when some chat has the id, and the chat yielded is the first chat with that id |
| ChatStore.FindChatDistinct | store/chatStore.ts:62 | when ids are distinct, `find` by a chat's id yields that very chat |
| ChatStore.Added | store/chatStore.ts:30-52 | with the id already present the list is unchanged; otherwise exactly the processed chat is appended at the end |
| ChatStore.AddedKeepsDistinct | store/chatStore.ts:31-33 | `addChat` keeps ids distinct and leaves the id present |
| ChatStore.AddedIdempotent | store/chatStore.ts:31-33 | adding the same chat twice is adding it once |
| ChatStore.Removed | store/chatStore.ts:54-57 | a chat is kept exactly when it was there and its id differs from the removed id |
| ChatStore.RemovedLeavesNone | store/chatStore.ts:56 | after `removeChat` no chat has the id |
| ChatStore.RemovedAppend | store/chatStore.ts:56 | removal distributes over concatenation, so the remaining chats keep their order |
| ChatStore.RemovedAbsent | store/chatStore.ts:56 | removing an id no chat has changes nothing |
| ChatStore.RemovedIdempotent | store/chatStore.ts:54-57 | removing twice is removing once |
| ChatStore.RemovedKeepsDistinct | store/chatStore.ts:54-57 | removal keeps ids distinct |
| ChatStore.Recipient | store/chatStore.ts:78 | there is a recipient exactly when some participant's id differs from the user's id (every participant when nobody is logged in), and the recipient is the first such participant |
| ChatStore.StoredContent | store/chatStore.ts:81-84 | a text with a recipient is stored as `encryptMessage(text, recipient.publicKey)`; an envelope, or content with no recipient, is stored as given |
| ChatStore.StoredContentReadsBack | store/chatStore.ts:81-84 | for a reader with a private key, the stored content decrypts to what the original content decrypts to |
| ChatStore.Preview | store/chatStore.ts:93-98 | the preview's content is always text: the message itself for text, `'[Encrypted message]'` for an envelope |
| ChatStore.StoredMessage | store/chatStore.ts:69-92 | the stored message is the message with a `Date` timestamp, and its content is the content sealed for the chat's recipient (`StoredContent` of the first participant who is not the user) |
| ChatStore.UnreadIncrement | store/chatStore.ts:99 | a message adds at most one to the unread count: one when nobody is logged in, none when the user sent it |
| ChatStore.AppendToMatching | store/chatStore.ts:88-103 | the `chats.map`: same length; a chat with another id is unchanged; a chat with the id gets the stored message at the end of its log, the preview as `lastMessage` and the increment added to its unread count, nothing else |
| ChatStore.Appended | store/chatStore.ts:59-107 | an unknown chat id changes nothing; otherwise the list keeps its length and ids, other chats are unchanged, and the target gets exactly the stored message at the end of its log, the preview as `lastMessage` and the unread increment, nothing else |
| ChatStore.UnreadCountsForeignMessages | store/chatStore.ts:99 | after a run of appends, the chat's unread count has grown by the number of messages the current user did not send (all of them when nobody is logged in), and every message was appended |
| ChatStore.Decrypted | store/chatStore.ts:119-132 | a read message has the timestamp `EnsureDateObject` gives for the stored one (a `Date` stays as it was) and its content decrypted with the key; its other fields are unchanged |
| ChatStore.GetMessages | store/chatStore.ts:109-141 | unknown chat: `[]`; nobody logged in: the stored messages as they are; otherwise same length and order, every timestamp the `EnsureDateObject` of the stored one, text kept, every content decrypted, other fields unchanged |
| ChatStore.SentTextReadsBack | store/chatStore.ts:59-136 | a text appended to a chat reads back as the same text for a user with a private key; it is previewed in plaintext and stored sealed when the recipient has a key |
| ChatStore.MarkedRead | store/chatStore.ts:143-149 | every chat with the id gets `unreadCount` 0 and nothing else changes |
| ChatStore.MarkedReadIdempotent | store/chatStore.ts:143-149 | marking as read twice is marking once |
| ChatStore.GetChatWithContact | store/chatStore.ts:151-155 | a chat is found exactly when some one-to-one chat has the contact as a participant, and the chat found is such a chat in the list |
| ChatStore.GetChatWithContactAppend | store/chatStore.ts:152-154 | `find` returns the first match: a chat appended at the end is found only when no earlier chat matches |
| ChatStore.ChatIdFor | store/chatStore.ts:163 | the id is the two participant ids in UTF-16 order, joined by a dash |
| ChatStore.ChatIdSymmetric | store/chatStore.ts:161-163 | the chat id is the same whichever order the two ids come in |
| ChatStore.NewChat | store/chatStore.ts:170-176 | the new chat has that id, participants `[user, participant]`, no messages, no last message and unread count 0, and it is a one-to-one chat with both |
| ChatStore.Created | store/chatStore.ts:157-182 | fails with 'User not authenticated' exactly when nobody is logged in, changing nothing; returns the existing chat with the contact, adding nothing; otherwise returns the new chat after `addChat` |
| ChatStore.CreatedTwice | store/chatStore.ts:165-167 | creating the chat with the same contact twice returns the same chat, and the second call adds nothing |
| ChatStore.Store.constructor | store/chatStore.ts:28 | the store starts with no chats |
| ChatStore.Store.AddChat | store/chatStore.ts:30-52 | the new list is `Added` of the old, with ids kept distinct |
| ChatStore.Store.RemoveChat | store/chatStore.ts:54-57 | the new list is `Removed` of the old, with ids kept distinct |
| ChatStore.Store.AddMessage | store/chatStore.ts:59-107 | the new list is `Appended` of the old, with ids kept distinct |
| ChatStore.Store.MarkAsRead | store/chatStore.ts:143-149 | the new list is `MarkedRead` of the old, with ids kept distinct |
| ChatStore.Store.CreateChat | store/chatStore.ts:157-182 | the returned chat or error and the new list are `Created` of the old list |
| Encryption.EncryptMessage | utils/encryption.ts:68-80 | plaintext is returned exactly when the recipient key is absent or empty; otherwise an envelope with `mock-key` and `mock-nonce` |
| Encryption.DecryptMessage | utils/encryption.ts:90-93 | plaintext content is returned as it is, whatever the key |
| Encryption.DecryptEncrypted | utils/encryption.ts:68-115 | round trip: decrypting the output of encryption gives the message back, for any key when no recipient key was given and for any present key otherwise |
| Encryption.EncryptIgnoresKeyValue | utils/encryption.ts:75-79 | any two present keys give the same envelope, `base64(utf8("MOCK:" + message))` |
| Encryption.DecryptWithoutKey | utils/encryption.ts:96-98 | an envelope read without a private key gives `''` |
| Encryption.DecryptForeignEnvelope | utils/encryption.ts:101-114 | an envelope whose decoded text does not start with `MOCK:` gives `'[Encrypted message]'` |
| Encryption.DecryptEmptyEnvelope | utils/encryption.ts:101-114 | example of the previous row: an envelope with an empty `encrypted` field gives `'[Encrypted message]'` |
| Utf8.EncodeChar | utils/encryption.ts:76 | a character takes one to four bytes, one exactly when it is ASCII |
| Utf8.Encode | utils/encryption.ts:76 | at least one byte per character (its inverse is `Utf8.RoundTrip`) |
| Utf8.DecodeFirst | utils/encryption.ts:103 | the decoder consumes between one byte and what is left, and an ASCII byte read on its own is that character |
| Utf8.Decode | utils/encryption.ts:103 | never more characters than bytes (its inverse is `Utf8.RoundTrip`) |
| Utf8.DecodeFirstOfEncoded | utils/encryption.ts:103 | the decoder reads back exactly the character the encoder wrote, whatever follows |
| Utf8.DecodeAfterEncoded | utils/encryption.ts:103 | decoding an encoded text followed by any bytes gives the text first |
| Utf8.RoundTrip | utils/encryption.ts:103 | decoding the encoding of any text gives it back |
| Utf8.EncodeAppend | utils/encryption.ts:76 | encoding distributes over concatenation |
| Base64.Encode | utils/encryption.ts:76 | four characters for every three bytes, each from the alphabet or `=` padding |
| Base64.Clean | utils/encryption.ts:103 | the six-bit values read are never more than the characters given (what is skipped and where it stops are `Base64.CleanOfChars` and `Base64.DecodeSkipsForeign`) |
| Base64.Decode | utils/encryption.ts:103 | at most three bytes for every four characters (its inverse is `Base64.RoundTrip`) |
| Base64.RoundTrip | utils/encryption.ts:103 | decoding the encoding of any bytes gives them back |
| Base64.DecodeSkipsForeign | utils/encryption.ts:103 | a character outside the alphabet before the first `=` is skipped by the decoder |
| Base64.CleanOfChars | utils/encryption.ts:103 | the decoder reads back every six-bit value the encoder wrote and stops at the padding |
| Base64.DecodeSextetsOfSextets | utils/encryption.ts:103 | regrouping six-bit values into bytes inverts splitting bytes into six-bit values |
| Text.LessTotal | store/chatStore.ts:163 | string `<` on code units is a strict total order |
| Text.CodeUnitsInjective | store/chatStore.ts:163 | two different texts have different UTF-16 forms |
| Text.Less | store/chatStore.ts:163 | `a < b` never holds between equal strings, and never together with `b < a` |
| Text.TrimStartSpec | components/AddContactModal.tsx:23 | the part `trim` drops at the start is all whitespace, and what is left does not start with whitespace |
| Text.TrimEndSpec | components/AddContactModal.tsx:23 | the part `trim` drops at the end is all whitespace, and what is left does not end with whitespace |
| Text.Trim | components/AddContactModal.tsx:23-29 | the trimmed text is never longer than the text and neither starts nor ends with whitespace |
| Text.TrimEmptyIff | components/AddContactModal.tsx:23 | `!s.trim()` holds exactly when the text is all whitespace |
| Text.TrimOfPadded | components/AddContactModal.tsx:27 | `trim` removes exactly the whitespace around a text that neither starts nor ends with whitespace |
| Text.TrimIdempotent | components/AddContactModal.tsx:48-49 | trimming twice is trimming once |
| Text.LengthOfBasicText | components/AddContactModal.tsx:29 | a text below U+10000 has one code unit per character |
| Peer.Without | utils/peer.ts:183 | the filter keeps exactly the elements different from the removed one |
| Peer.WithoutAppend | utils/peer.ts:183 | the filter keeps the order of the others |
| Peer.WithoutAbsent | utils/peer.ts:183 | filtering out a callback that is not there changes nothing, so removing twice is removing once |
| Peer.WithoutDistinct | utils/peer.ts:161 | deleting a key keeps the map's keys distinct |
| Peer.OpenKeys | utils/peer.ts:213-217 | a key is listed exactly when it has an entry whose connection is open |
| Peer.OpenKeysAppend | utils/peer.ts:214-216 | the listing follows map order |
| Peer.OpenKeysDistinct | utils/peer.ts:214 | each key is listed at most once |
| Peer.DataConnection.constructor | utils/peer.ts:127-129 | a new connection is for the dialled peer and not yet open |
| Peer.PeerConnection.constructor | utils/peer.ts:16-20 | no peer, no connections, no listeners, both flags false |
| Peer.PeerConnection.Initialize | utils/peer.ts:22-110 | while initializing: `null` and no change; after a failure: `'mock-peer-id'` and no change; with a peer id: that id and no change; otherwise a key-generation failure yields `'mock-peer-id'` and sets `initializationFailed`, and success creates the peer and leaves the bring-up pending; `initializationFailed` never goes back to false |
| Peer.PeerConnection.OnPeerOpen | utils/peer.ts:97-102 | open clears `initializing` and the timer, and a pending bring-up resolves with the id |
| Peer.PeerConnection.OnInitTimeout | utils/peer.ts:91-95 | the timeout clears `initializing`, sets `initializationFailed` and rejects with the timeout message |
| Peer.PeerConnection.OnPeerError | utils/peer.ts:66-79 | every listener hears the error from `'system'`; during bring-up `initializationFailed` is set and `initializing` is cleared |
| Peer.PeerConnection.OnIncomingConnection | utils/peer.ts:62-64 | an incoming connection is registered as `handleConnection` does |
| Peer.PeerConnection.Connect | utils/peer.ts:112-137 | no peer: `null`, one error event from `'system'` to every listener, and the map unchanged; a dial that throws: `null` and no change; otherwise a new closed connection to the peer id, registered under it |
| Peer.PeerConnection.HandleConnection | utils/peer.ts:139-177 | the connection takes the entry for its peer, replacing any earlier one; a new key goes last in map order, an existing key keeps its place |
| Peer.PeerConnection.OnConnectionOpen | utils/peer.ts:144-150 | the connection is open and every listener hears `connected` from that peer |
| Peer.PeerConnection.OnConnectionData | utils/peer.ts:152-158 | every listener gets a message event with the data from that peer |
| Peer.PeerConnection.OnConnectionClose | utils/peer.ts:160-167 | the peer's key is deleted from the map, the others keep their order, and every listener hears `disconnected` |
| Peer.PeerConnection.OnConnectionError | utils/peer.ts:169-176 | every listener hears the error from that peer; nothing changes |
| Peer.PeerConnection.AddEventListener | utils/peer.ts:179-185 | the callback goes last, and the remover for it is returned |
| Peer.PeerConnection.Unsubscribe | utils/peer.ts:181-184 | every occurrence of the callback is removed, and the others keep their order |
| Peer.PeerConnection.NotifyListeners | utils/peer.ts:187-195 | every listener, in list order, gets the event once, including those after one that throws |
| Peer.PeerConnection.SendMessage | utils/peer.ts:197-211 | true exactly when the peer has an entry, it is open and the send does not throw; nothing changes |
| Peer.PeerConnection.GetConnectedPeers | utils/peer.ts:213-217 | exactly the keys whose connection is open, each once |
| Peer.PeerConnection.Disconnect | utils/peer.ts:219-236 | every connection is closed, the map and the listener list are emptied and the peer is dropped; the initialization flags are kept |
| ContactStore.MergeTakesCarriedFields | store/contactStore.ts:22 | for each of the seven fields, a merged contact takes the field's value when the update carries it and keeps its own otherwise; an empty update changes nothing |
| ContactStore.MergeIdempotent | store/contactStore.ts:22 | merging the same update twice is merging once |
| ContactStore.Merge | store/contactStore.ts:22 | an update carrying no field leaves the contact as it is, and the merged id is the update's when it carries one and the contact's otherwise |
| ContactStore.Removed | store/contactStore.ts:15-18 | a contact is kept exactly when it was there and its id differs |
| ContactStore.RemovedAppend | store/contactStore.ts:17 | removal keeps the order of the rest |
| ContactStore.RemovedAbsent | store/contactStore.ts:17 | removing an id nobody has changes nothing |
| ContactStore.RemovedIdempotent | store/contactStore.ts:15-18 | removing twice is removing once |
| ContactStore.RemovedAfterAdd | store/contactStore.ts:13-18 | removing the id of a contact just added gives what removing it before the add gives |
| ContactStore.Updated | store/contactStore.ts:19-24 | same length; a contact with another id is unchanged, one with the id is merged with the update |
| ContactStore.UpdatedIdempotent | store/contactStore.ts:19-24 | applying the same update twice gives the list that applying it once gives |
| ContactStore.Store.constructor | store/contactStore.ts:12 | the list starts empty |
| ContactStore.Store.AddContact | store/contactStore.ts:13-14 | the contact goes last, with no duplicate check |
| ContactStore.Store.RemoveContact | store/contactStore.ts:15-18 | the new list is `Removed` of the old |
| ContactStore.Store.UpdateContact | store/contactStore.ts:19-24 | the new list is `Updated` of the old |
| UserStore.ErrorMessage | store/userStore.ts:45 | an `Error`'s message, or 'Failed to create user' for anything else thrown |
| UserStore.NewUser | store/userStore.ts:35-40 | the user's id is its public key, its name is the trimmed name (not blank, nothing left to trim) and it holds the private key |
| UserStore.AfterCreateUser | store/userStore.ts:23-49 | a blank name is rejected with 'Name is required' and only the error changes; otherwise loading ends off; success makes the new user current with no error; a failure keeps the user, records the message and rethrows |
| UserStore.CreateThenLogout | store/userStore.ts:23-57 | a successful creation followed by logout leaves no user, no error and not loading |
| UserStore.Store.constructor | store/userStore.ts:19-21 | no user, not loading, no error |
| UserStore.Store.CreateUser | store/userStore.ts:23-49 | the new state and the outcome are `AfterCreateUser` of the old state |
| UserStore.Store.SetUser | store/userStore.ts:51-53 | the user is set, the error cleared, and loading kept |
| UserStore.Store.Logout | store/userStore.ts:55-57 | no user; loading and error kept |
| SettingsStore.Toggled | store/settingsStore.ts:16-18 | a toggle negates its own switch and leaves the other two alone |
| SettingsStore.ToggleTwice | store/settingsStore.ts:16-18 | toggling twice restores the settings |
| SettingsStore.TogglesCommute | store/settingsStore.ts:16-18 | toggles commute |
| SettingsStore.Store.constructor | store/settingsStore.ts:13-15 | dark mode off, notifications on, end-to-end encryption on |
| SettingsStore.Store.ToggleDarkMode | store/settingsStore.ts:16 | the state is the old one toggled on dark mode |
| SettingsStore.Store.ToggleNotifications | store/settingsStore.ts:17 | the state is the old one toggled on notifications |
| SettingsStore.Store.ToggleE2EEncryption | store/settingsStore.ts:18 | the state is the old one toggled on end-to-end encryption |
| AddContactModal.ValidationErrorsWhen | components/AddContactModal.tsx:20-35 | 'Name is required' exactly when the name is blank; 'Public key is required' exactly when the key is blank; 'Public key is invalid' exactly when the key is not blank and its trimmed length is under 10 |
| AddContactModal.ValidationErrors | components/AddContactModal.tsx:20-32 | the errors object holds only the form's messages: 'Name is required' for the name, 'Public key is required' or 'Public key is invalid' for the key, and no key error only for a key that is not blank |
| AddContactModal.ValidWhen | components/AddContactModal.tsx:34 | no errors exactly when the name is not blank and the trimmed key has at least 10 code units |
| AddContactModal.LongBasicKeyValid | components/AddContactModal.tsx:29-34 | a named form whose key is at least 10 characters below U+10000, not padded with whitespace, passes |
| AddContactModal.NewContactFields | components/AddContactModal.tsx:47-53 | the contact's id and public key are the trimmed key, its name is the trimmed name, it is online exactly when `connect` returned a connection, and it was last seen now; from a valid form the name is not blank and the id has at least 10 code units |
| AddContactModal.NewContact | components/AddContactModal.tsx:47-53 | the contact's id is its public key, it is online exactly when `connect` returned a connection, and it has no private key and no avatar |
| AddContactModal.Form.constructor | components/AddContactModal.tsx:13-16 | empty fields, not loading, no errors |
| AddContactModal.Form.ValidateForm | components/AddContactModal.tsx:20-35 | the recorded errors are those of the fields, and the result is true exactly when there are none |
| AddContactModal.Form.HandleSubmit | components/AddContactModal.tsx:37-66 | an invalid form records its errors and changes nothing else, the peer manager included; a valid one dials the trimmed key (a new closed connection is registered under it, or without a peer or on a throwing dial the connections stay as they were), appends the built contact to the store, clears both fields and ends not loading |

## Left out

- Persistence is not modelled: the `persist` middleware, AsyncStorage and JSON
  serialisation.
- Key generation (`generateKeyPair`, `generateMockKeyPair`) and the libsodium
  wrapper `initSodium` are not modelled. Their random output is an input.
- Date parsing is not modelled. A string timestamp becomes an opaque parsed
  instant, and `new Date()` is the `now` parameter.
- Console logging, `Alert`, `onClose` and everything the components render are
  not modelled.
- The PeerJS library is abstracted. Peer construction, its server and STUN
  configuration, and the `send`, `close`, `disconnect` and `destroy` calls
  become state changes and inputs.
- Timers and promises in `initialize` become discrete events:
  `OnPeerOpen` and `OnInitTimeout`.
- Asynchrony is modelled sequentially: the `await` in `addMessage`,
  `Promise.all` in `getMessages` and the `await` of key generation in
  `createUser`. Results keep input order.
- UserStore.Store.CreateUser: the intermediate state with `isLoading` true and
  the error cleared (store/userStore.ts:30), which lasts while the key pair is
  generated, is not observable in the contract.
- Texts are sequences of Unicode scalar values, so a lone UTF-16 surrogate
  cannot be represented. The UTF-8 encoder's handling of lone surrogates is
  left out.
- ChatStore.Processed: the `messages || []` and `unreadCount || 0` defaults are
  not modelled. The record types make `messages` and `unreadCount` required,
  so a chat always has both, and NaN is not modelled.
- ChatStore.EnsureDateObject: a number timestamp is an integer here. JavaScript's
  `new Date(n)` also drops a fraction and gives an invalid date for NaN or for
  a magnitude above 8.64e15; neither is modelled, and nothing in the model
  reads an instant.
- ChatStore.Created: the case of another chat already holding the computed id
  is not singled out. There, `createChat` returns a new chat that `addChat`
  then refuses to store. The contract allows it: the list stays as it was.
- Peer.PeerConnection.Initialize: the branch where the peer is missing right
  after it was created (utils/peer.ts:83-88) is left out, because it cannot
  happen.
- Peer.PeerConnection.Disconnect: the model does not fire the `close` events
  that `conn.close()` raises on an open connection (utils/peer.ts:222), so the
  handler at utils/peer.ts:160 does not run and listeners hear no
  `disconnected` from `disconnect()`. In the program they hear one per open
  connection. A `close` that throws is treated like one that succeeds: the
  connection ends up closed.
- Peer.PeerConnection.OnConnectionClose: after `handleConnection` replaced a
  connection, a `close` event from the superseded connection deletes its
  replacement, because deletion goes by key. The model keeps this behaviour
  rather than treating it as a finding.
- Peer.PeerConnection.NotifyListeners: what a listener does when called is not
  modelled. Only whether it throws is an input.
- ContactStore.Merge: an update cannot set a required field (`id`, `name`,
  `publicKey`, `status`, `lastSeen`) to `undefined`. Only the optional fields
  can be cleared.
- AddContactModal.Form.HandleSubmit: the intermediate state with `loading`
  true is not observable in the contract. The error branch with its alert is
  left out, because `connect` catches a dial that throws and `addContact`
  does not throw.
