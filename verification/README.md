# Chat client core, modelled in Dafny

This project models the logic of a React Native chat client built on
Firebase Authentication and Cloud Firestore. The model covers:

- the conversation list screen (`app/index.tsx`):
  - the conversation key built from two user ids;
  - recovering the other participant from a key;
  - the user directory fetched from the `users` collection;
  - the list updates for a new latest message and for opening a conversation;
  - the merging "mark read" write to the chat document;
  - the display name, initials and avatar colour of an entry.
- the auth context (`context/authContext.js`):
  - the session state `isAuthenticated` / `user` and its transitions on provider notifications;
  - profile loads (`updateUserData`);
  - `login`, `logout` and `register`, with their rewriting of provider error messages;
  - `useAuth`.
- the two root layouts:
  - the redirect decision and loading gate of `app/_layout.js`;
  - the `initializing` state machine of `app/_layout.tsx`.
- the submit handlers of the four form screens: `app/signup.tsx`, `app/login.tsx`, `app/signIn.js` and `app/signUp.js`.

Firebase, the router and React are not modelled as running code. Each
handler is a pure function. Its inputs are the form fields and the outcomes
of the calls it makes. It returns:

- the next state;
- the messages shown;
- the document written;
- the route taken;
- the values given to the loading flag.

The outcome of a provider or database call is therefore an input: a
`Result` or an `Option`. Clock readings are inputs too.

Modules (one concept per module, in dependency order):

- `Wrappers` (`wrappers.dfy`): `Option` and `Result`.
- `JsString` (`jsstring.dfy`): the JavaScript string operations the code uses:
  - `includes`, `indexOf`, `replace` with a string pattern, `split(c)[0]`, `substring`, `<`, `toUpperCase` and `toLowerCase`.
  - Strings are `seq<char>`.
- `Documents` (`documents.dfy`): Firestore documents as field maps, and `setDoc` in its replacing and merging forms.
- `Conversations` (`conversations.dfy`): `app/index.tsx`.
- `AuthSession` (`session.dfy`): `context/authContext.js`.
- `Navigation` (`navigation.dfy`): `app/_layout.js` and `app/_layout.tsx`.
- `Forms` (`forms.dfy`): the four form screens.

## Model

| member | source | states |
|---|---|---|
| JsString.ReplaceFirst | app/index.tsx:81 | `replace` with a string pattern returns the string unchanged when the pattern does not occur. Otherwise the result is shorter by the pattern's length and longer by the replacement's. |
| JsString.ReplaceFirstContent | app/index.tsx:81 | When the pattern occurs, `replace` keeps the text before its first occurrence, puts the replacement there, and keeps the text after it. |
| JsString.IndexOf | app/index.tsx:80-81 | The index found is an occurrence of the pattern and no earlier index is one. No index is found exactly when the pattern is not included anywhere. |
| JsString.Before | app/login.tsx:34 | `split(c)[0]` is a prefix of the string that holds no `c`. It stops either at the end or at a `c`. |
| JsString.Prefix | app/index.tsx:153 | `substring(0, n)` is a prefix of the string. It is `n` long, or the whole string when the string is shorter. |
| JsString.BeforeJoin | app/index.tsx:197 | Cutting `x + c + y` at its first `c` gives back `x` when `x` holds no `c`. |
| JsString.BelowConnected | app/index.tsx:124 | JavaScript's string order is total: two different strings are ordered one way or the other. |
| JsString.BelowAsymmetric | app/index.tsx:124 | JavaScript's string order is never both ways, so sorting a pair is well defined. |
| Documents.MergeInto | app/index.tsx:127-132 | A merging `setDoc` leaves unwritten fields untouched and overwrites written leaves. Inside a written map it sets the written keys and keeps the others. No other keys appear in that map. |
| Documents.Apply | app/signup.tsx:47 | Written leaves are stored as written. A replacing write, or a merge into a missing document, stores exactly the data, so a replace drops every unwritten stored field. A merge into an existing document keeps its unwritten fields and stores the union of both key sets. |
| Documents.MergeIdempotent | app/login.tsx:37 | Repeating the same merging write changes nothing. |
| Documents.MergeCommutes | app/index.tsx:127-132 | Two merges that agree on every path they share give the same document in either order. |
| Documents.FieldOverwrites | app/index.tsx:127-132 | A field written again with the same shape, and inside a map with at least the same keys, keeps no trace of the earlier write. |
| Documents.MergeOverwrites | app/index.tsx:127-132 | A merge that rewrites every path of an earlier merge hides the earlier one completely. |
| Conversations.SortPair | app/index.tsx:124 | `[a, b].sort()` is a permutation of the pair and is in order. |
| Conversations.ChatId | app/index.tsx:124 | The key is the smaller id, `_`, then the larger id. |
| Conversations.ChatIdSymmetric | app/index.tsx:124 | Both participants compute the same key. |
| Conversations.ChatIdInjective | app/index.tsx:124 | For ids without `_`, equal keys mean the same pair of ids. |
| Conversations.ChatIdCollision | app/index.tsx:124 | With `_` inside ids, the different pairs `a_b`/`c` and `a`/`b_c` share the key `a_b_c`. |
| Conversations.MentionsUser | app/index.tsx:80 | The listener's test `chatId.includes(uid)`, as written. Its consequences are stated by `OwnChatMentionsUser` and `MentionsForeignChat`. |
| Conversations.OtherIdAsWritten | app/index.tsx:81 | The written extraction never lengthens the key. It removes at least the user's id when the key mentions it, and leaves a key without the id or `_` unchanged. |
| Conversations.OwnChatMentionsUser | app/index.tsx:80 | The listener's `includes` test accepts every conversation the user takes part in. |
| Conversations.StripLeading | app/index.tsx:81 | When the key starts with the user's id, the written extraction removes that id and the `_` after it. |
| Conversations.StripTrailing | app/index.tsx:81 | The written extraction also removes a trailing id and its `_`. This holds when the id is first found there and the other id has no `_`. |
| Conversations.OtherIdAsWrittenRecovers | app/index.tsx:81 | The written extraction gives the other id back in two cases. The user's id may sort first. Or it may sort second, provided it is not found earlier in the key and the other id has no `_`. |
| Conversations.OtherIdAsWrittenMisreads | app/index.tsx:81 | For the pair `bc`/`abcd`, user `bc` extracts `adbc` from the key `abcd_bc`. |
| Conversations.MentionsForeignChat | app/index.tsx:80 | User `u1` accepts the key `u10_u2` of two other users. |
| Conversations.OtherParticipant | app/index.tsx:80-81 | A participant found has no `_`, and the key is the user's id and that participant joined by `_`, in one order or the other. |
| Conversations.OtherParticipantRecovers | app/index.tsx:80-81 | For ids without `_`, the other participant is recovered from the key of every conversation of the user. |
| Conversations.OtherParticipantIgnoresForeignChats | app/index.tsx:80 | No participant is found in the key of a conversation between two other users. |
| Conversations.Directory | app/index.tsx:53-61 | A document is listed exactly when it is in the snapshot with a non-empty email that differs from the signed-in user's. |
| Conversations.DirectoryAppend | app/index.tsx:53-61 | Filtering keeps the snapshot's order: the directory of a concatenation is the concatenation of the directories. |
| Conversations.FetchUsers | app/index.tsx:41-72 | With no signed-in user the list is kept. A failed fetch keeps the list and raises an alert. Otherwise the list becomes the directory of the snapshot, pushed one document at a time. |
| Conversations.Unread | app/index.tsx:97 | A message is unread exactly when a user is signed in and someone else sent it. |
| Conversations.ApplyLastMessage | app/index.tsx:89-102 | Entries of the other participant take the message as their last message, with only that field changed. Every other entry is unchanged. The length is kept. |
| Conversations.ReadCopy | app/index.tsx:138 | The opened last message is read. It keeps its text and time, and has neither when there was no last message. |
| Conversations.MarkOpened | app/index.tsx:135-141 | The opened user's entries get a read last message, with nothing else changed. Every other entry is unchanged. |
| Conversations.MarkOpenedIdempotent | app/index.tsx:135-141 | Opening a conversation twice leaves the list as opening it once. |
| Conversations.OpenAfterMessageShowsItRead | app/index.tsx:89-102 | A new message followed by opening the conversation shows that message's text and time, read. |
| Conversations.OnChatChange | app/index.tsx:77-107 | The list is unchanged without a signed-in user or a latest message. Entry ids and the length are kept. |
| Conversations.ForeignChatChangeIgnored | app/index.tsx:80 | A change to a conversation between two other users leaves the list unchanged. |
| Conversations.OwnChatChangeReachesPartner | app/index.tsx:89-102 | A new message in the user's own conversation reaches exactly the partner's entries. It is unread unless the user sent it. |
| Conversations.MarkRead | app/index.tsx:127-132 | After opening, `unreadCount` is 0 and the user's `lastRead` is now. Every other field and every other participant's read time is kept. `lastRead` holds no other keys. |
| Conversations.MarkReadTwice | app/index.tsx:127-132 | Opening twice stores what the second opening alone would store. |
| Conversations.MarkReadBothOrders | app/index.tsx:127-132 | Two participants opening in either order store the same document. |
| Conversations.HandleChatOpen | app/index.tsx:121-144 | With nobody signed in nothing happens. Otherwise the read receipt is merged into the shared key's document, and applying that write to any stored document gives `MarkRead`. Only when the write succeeds does the list become `MarkOpened` and the chat route get pushed. A failed write leaves the list and the route untouched. |
| Conversations.ChatOpenTargetsSharedDocument | app/index.tsx:121-144 | Either participant opening the conversation writes to the same document, and the opened partner's entry shows a read last message. |
| Conversations.DisplayName | app/index.tsx:197 | The shown name is never empty. It is the username if non-empty, else the display name if non-empty. Otherwise it is exactly `email.split('@')[0]` when that is non-empty, and `User` in every other case. |
| Conversations.Initials | app/index.tsx:152-154 | The initials are the first two characters, or all of them for a shorter name. Only ASCII letters are upper-cased. |
| Conversations.AvatarColour | app/index.tsx:156-160 | A non-empty name gets a palette colour. An empty name gets none. |
| Conversations.AvatarAlwaysDrawn | app/index.tsx:197-209 | Every list entry gets a palette colour and non-empty initials. |
| AuthSession.OnAuthChanged | context/authContext.js:19-31 | A notified user signs the state in with that user. None signs it out and clears the user. The result is coherent. |
| AuthSession.UpdateUserData | context/authContext.js:33-51 | An existing profile lays `username`, `profileUrl` and `userId` over the user object and keeps its other fields. A missing document or failed read changes nothing. |
| AuthSession.ProfileLoadKeepsCoherence | context/authContext.js:19-51 | A profile load while signed in keeps the user object present exactly while signed in. |
| AuthSession.LateProfileLoadAfterSignOut | context/authContext.js:24-51 | A profile load landing after a sign-out leaves a user object while `isAuthenticated` is false. |
| AuthSession.FirstMatch | context/authContext.js:60-72 | The shown text is that of the first code the message holds, or the message when it holds none. |
| AuthSession.Rewrite | context/authContext.js:60-72 | The chain of `if (msg.includes(code)) msg = text;` statements as written returns the message itself or one of the table's texts. Equality with the first-match lookup is `RewriteIsFirstMatch`. |
| AuthSession.RewriteNoCode | context/authContext.js:60-72 | A message holding no code passes the chain of `if` statements unchanged. |
| AuthSession.RewriteIsFirstMatch | context/authContext.js:106-120 | When no replacement text holds a code, the sequential rewrites equal a first-match lookup. |
| AuthSession.LoginRulesSettled | context/authContext.js:62-70 | No login replacement text holds a login error code. |
| AuthSession.RegisterRulesSettled | context/authContext.js:108-118 | No register replacement text holds a register error code. |
| AuthSession.LoginErrorText | context/authContext.js:60-72 | The login chain returns the first-match text. |
| AuthSession.RegisterErrorText | context/authContext.js:106-120 | The register chain returns the first-match text. |
| AuthSession.Login | context/authContext.js:53-74 | Success signs the provider's user in. Failure keeps the state and returns the rewritten message, or rejects when the error has no message. |
| AuthSession.Logout | context/authContext.js:76-85 | Success signs out and clears the user. Failure keeps the state and returns the raw message. |
| AuthSession.RegisterProfile | context/authContext.js:95-99 | The write replaces `users/{uid}` with exactly `username`, `profileUrl` and `userId`. |
| AuthSession.Register | context/authContext.js:87-122 | The profile is written whenever the account was created, and only when both steps succeed is the user signed in. Otherwise the state is kept. A failed creation or a failed profile write returns that error's first-match text, or rejects when the error has no message. |
| AuthSession.StepKeepsDecided | context/authContext.js:17-122 | No transition returns a decided state to `undefined`. |
| AuthSession.RunKeepsDecided | context/authContext.js:17-122 | A decided state stays decided through any run of events. |
| AuthSession.FailedLoginsKeepState | context/authContext.js:59-73 | Any run of failed logins leaves the state as it was. |
| AuthSession.DecidedAfterNotification | context/authContext.js:19-31 | Any run that holds a provider notification ends decided. |
| AuthSession.UseAuth | context/authContext.js:133-140 | The hook throws its misuse message exactly outside a provider, and otherwise returns the provider's value. |
| Navigation.InAuthRoutes | app/_layout.js:16 | The first route segment is `signIn` or `signUp`, as written. Its use is stated by `Decide`. |
| Navigation.Decide | app/_layout.js:13-25 | The layout waits exactly while the state is undecided. It stays on the sign-in and sign-up screens. Otherwise it redirects a signed-in user to `/home` and a signed-out one to `/signIn`. |
| Navigation.View | app/_layout.js:27-36 | The spinner shows exactly while the state is undecided. |
| Navigation.RedirectSettles | app/_layout.js:13-25 | Deciding again on a redirect's target, in the same state, does not redirect elsewhere. |
| Navigation.LoginThenDecide | app/_layout.js:13-36 | After a successful login the slot renders. The user stays on an auth screen, and anywhere else goes to `/home`. |
| Navigation.WaitUntilNotified | app/_layout.js:14 | Failed logins before the first notification leave the layout waiting. |
| Navigation.RenderRoot | app/_layout.tsx:35-47 | Nothing renders exactly while initializing. |
| Navigation.OnRootAuthChanged | app/_layout.tsx:16-30 | A notification records the user and ends initialization. The first one does not route. Later ones route to `/` with a user and to `/login` without. |
| Navigation.RootRun | app/_layout.tsx:16-30 | A run of notifications ends initialized with the last notified user. It routes once per notification, except for the first one from start-up. |
| Navigation.RootRunInitialized | app/_layout.tsx:16-30 | After initialization every notification routes according to its user, and the last one is recorded. |
| Navigation.RootRunFromStart | app/_layout.tsx:11-33 | From start-up the first notification is swallowed and every later one routes. Initialization does not come back. |
| Forms.SignupError | app/signup.tsx:51-57 | The in-use message shows exactly for the `auth/email-already-in-use` code. Everything else gets the generic message. |
| Forms.SignupProfile | app/signup.tsx:38-45 | The write replaces `users/{uid}` with exactly five fields: the provider's email (or `null`), `createdAt` and `lastLogin` from the two clock readings, `displayName` as typed, and `username` in lower case. |
| Forms.HandleSignup | app/signup.tsx:21-61 | Empty fields come before a short password, and both are refused before the provider is called, with the loading flag untouched. Otherwise the flag goes up then down. The profile is written exactly when the account is created, and the app routes to `/` exactly when the write also succeeds. A failed creation or a failed write shows that error's inline message. |
| Forms.LoginDisplayName | app/login.tsx:34 | The stored name is the provider's non-empty display name, or else the email up to its first `@`. |
| Forms.LoginProfile | app/login.tsx:30-37 | The write merges exactly four fields into `users/{uid}`: the provider's email (or `null`), `lastLogin` from the first clock reading, `createdAt` from the second, and the display name. |
| Forms.LoginFailureText | app/login.tsx:43 | An `Error`'s message is shown, and the generic text for anything else thrown. |
| Forms.HandleDirectLogin | app/login.tsx:17-48 | Empty fields are refused with the "Oops!" alert before the provider is called. A signed-in user's document is merged, and the app routes to `/` exactly when the write succeeds. A failed sign-in or a failed write raises "Authentication Failed" with that error's text. |
| Forms.LoginAfterSignup | app/login.tsx:30-37 | Logging in after signing up keeps the stored lower-case username and replaces `createdAt` with the login's clock reading. |
| Forms.HandleSignIn | app/signIn.js:29-50 | Empty fields are refused before `login` is called. Success replaces the route with `/home`. A failed reply's message is shown, and a rejection shows the generic text. |
| Forms.SignInThroughContext | app/signIn.js:38-44 | Over the context's `login`, success signs in and goes home. Failure keeps the state and shows the first-match text. |
| Forms.HandleRegister | app/signUp.js:30-52 | All four fields are required before `register` is called. Success pushes `/app/home`. A failed reply's message is shown, and a rejection shows the generic text. |
| Forms.SignUpThroughContext | app/signUp.js:39-47 | Over the context's `register`, the screen moves on exactly when the account is created and its profile written, and only then is the user signed in. |

## Left out

- **Firebase and the router.** Authentication, Firestore reads and writes, and navigation are not executed. Their outcomes are inputs and their effects are returned values.
- **Chat-open guard.** `handleChatOpen` is only called when the entry's email is truthy (app/index.tsx:202). The email is an input of `HandleChatOpen`, not checked.
- **Clocks.** `new Date()` and `toISOString()` readings are inputs (`now`, `stamp1`, `stamp2`). The form handlers read the clock twice, and the two readings are separate inputs. `handleChatOpen` reads it once.
- **Async ordering.** `snapshot.docChanges().forEach(async …)` may finish its queries in any order. `OnChatChange` models one change at a time, and the order of the changes is the caller's.
- **`formatTime`.** The other view code in `app/index.tsx` and the styles are left out as presentation.
- **Other screens and config.** The chat screen `app/chat/[id].tsx`, `app/(app)/*`, `components/*`, `app/index.js` and the Firebase configuration files are not part of this model.
- **Re-subscription in `app/_layout.tsx`.** The effect re-subscribes when `initializing` changes, and the provider calls a new listener at once. That call is one more notification in the sequence `RootRun` takes. Stale closures of an old listener are not modelled.
- **Document ids.** A stored `id` field that would override `doc.id` in `{ id: doc.id, ...userData }` is not modelled: `User.id` is the document id.
- **Nesting depth.** `Documents.MergeInto` merges maps one level deep. That is the only depth the client writes.
- Documents.MergeField: a written empty map keeps the stored entries. Firestore instead stores `{}` for an empty map written with merge. The client never writes an empty map: its only nested write, the read receipt, always has one key.
- **Read failures.** A failed `getDoc` in `updateUserData` is treated like a missing document. Both change nothing.
- **Null.** A `null` thrown into `app/signup.tsx`'s handler is not modelled. Reading `.code` on it would throw inside the `catch`.
- JsString.ToUpper, JsString.ToLower: map only the ASCII letters, whereas JavaScript maps all of Unicode.
- JsString.IndexOf, Conversations.AvatarColour: a Dafny `char` is a Unicode scalar value, but JavaScript works on UTF-16 code units. Text outside the Basic Multilingual Plane is therefore not modelled code unit by code unit. For example, `charCodeAt(0)` of an emoji name is its high surrogate, not the model's code point.
- JsString.Below: orders code points, whereas JavaScript's `<` orders UTF-16 code units. The two differ once a string holds a character above U+FFFF: the model puts U+FF00 below U+1F600, and JavaScript puts the surrogate 0xD83D first.
- Conversations.ChatId: inherits that order. For ids mixing such characters, the model's key may put the ids in the other order than `[a, b].sort().join('_')`.
- Conversations.Initials: takes the first two characters. `substring(0, 2)` takes two code units and can split a surrogate pair, which the model cannot represent.
- Forms.HandleSignup: counts the password length in characters. `password.length` counts code units, so a password of three emoji is refused by the model but accepted by the source (length 6).
- Conversations.OnChatChange: uses the corrected `OtherParticipant` rather than the written `includes` test and `replace` extraction (see Findings). The written behaviour is stated by `OtherIdAsWritten` and its lemmas.
- Conversations.OnChatChange: its own contract only states what is kept. Which entries change is stated by `ForeignChatChangeIgnored` and `OwnChatChangeReachesPartner`.

## Findings

| source | as written | input that shows it | evidently intended | confidence | as-written member | corrected member |
|---|---|---|---|---|---|---|
| app/index.tsx:80-81 | The listener accepts any key that includes the user's id. It takes the other id to be the key with the first occurrence of the user's id removed and then the first `_` removed. | User `bc` and user `abcd` have the key `abcd_bc`. The first `bc` is inside `abcd`, so the extraction yields `adbc` and the new message never reaches `abcd`'s entry. Also, user `u1` accepts the key `u10_u2` of two other users. | The other participant is the half of the key, split at `_`, that is not the user's id. A key without the user as one half is ignored. | not executed | Conversations.OtherIdAsWritten (Conversations.OtherIdAsWrittenMisreads, Conversations.MentionsForeignChat) | Conversations.OtherParticipant (Conversations.OtherParticipantRecovers, Conversations.OtherParticipantIgnoresForeignChats) |
