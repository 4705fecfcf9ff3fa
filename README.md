# VidSync connection bookkeeping, summarisation and account controllers in Dafny

This project models the in-memory bookkeeping of VidSync's signalling layer,
the meeting-summary service and two API controllers, and proves properties of
that model.

- `SignalingRegistry` models `InMemoryConnectionManager`. It keeps three maps:
  connection → room, connection → user and user → connection.
- `SignalingHub` models `CommunicationHub`. It keeps the hub's two static maps
  and covers `JoinRoom`, `OnDisconnectedAsync` and the participant list sent to
  a room's group. Each broadcast is appended to an outbox.
- `SignalingHelpers` models the lock-guarded `ConnectionMapping<T>` dictionary.
- `Summarization` models `ConversationSummarizationService`. It covers the AI
  payload built from a room's messages, the encrypted summary saved on the
  room, and the choice of e-mail recipients with one send per recipient.
- `RoomsApi` models `RoomsController`. It covers listing rooms, fetching a room
  and creating a room with a case-insensitive duplicate-name check.
- `AuthApi` models `AuthController.Register`. It builds the username, checks
  the name and then the e-mail against the identity store, and creates the
  user.

Shared modules:

- `Guids` models a Guid as a 128-bit value. Its text is the lower-case
  "D" form, and different Guids have different texts.
- `Text` models `Trim`, `IsNullOrEmpty`, `IsNullOrWhiteSpace`, lower-casing and
  the `"\n"` → `"<br>"` replacement.
- `Collections` models `Distinct`.
- `Entities` and `Mvc` hold the record shapes and the action results.

Each stateful class is modelled the same way:

- The class keeps the source's fields.
- Its methods are proved against pure step functions: `Add`, `Remove`, `Join`,
  `Disconnect`, `Create`, `SaveSummary`.
- The lemmas about those functions state what the source promises.

The database tables are sequences of records. The remaining services are
passed in as functions:

- the user store;
- the AI client;
- the encryption;
- the e-mail delivery;
- the identity store.

## Model

| member | source | states |
|---|---|---|
| SignalingRegistry.InMemoryConnectionManager.constructor | src/Core/VidSync.Signaling/InMemoryConnectionManager.cs:7-9 | the three maps start empty |
| SignalingRegistry.InMemoryConnectionManager.AddConnection | src/Core/VidSync.Signaling/InMemoryConnectionManager.cs:11-17 | the new maps are `Add` of the old ones, and the two connection-keyed maps keep equal key sets |
| SignalingRegistry.InMemoryConnectionManager.RemoveConnection | src/Core/VidSync.Signaling/InMemoryConnectionManager.cs:19-30 | the returned (user, room) and the new maps are `Remove` of the old maps, and the equal key sets are kept |
| SignalingRegistry.InMemoryConnectionManager.GetConnectionId | src/Core/VidSync.Signaling/InMemoryConnectionManager.cs:32-36 | the user's connection if the index has one, null otherwise; no map changes |
| SignalingRegistry.InMemoryConnectionManager.GetUsersInRoom | src/Core/VidSync.Signaling/InMemoryConnectionManager.cs:38-50 | a duplicate-free list holding exactly the users of the room's connections other than the excluded one, in any enumeration order |
| SignalingRegistry.InMemoryConnectionManager.GetRoomForConnection | src/Core/VidSync.Signaling/InMemoryConnectionManager.cs:52-56 | the connection's room text if it has one, null otherwise; no map changes |
| SignalingRegistry.AddRegisters | src/Core/VidSync.Signaling/InMemoryConnectionManager.cs:11-17 | after adding, the connection's room is the Guid's text, its user is the given user, and the user resolves to the connection |
| SignalingRegistry.LastJoinWins | src/Core/VidSync.Signaling/InMemoryConnectionManager.cs:14-16 | a later add of the same user from another connection takes over the user's index entry |
| SignalingRegistry.AddKeepsOthers | src/Core/VidSync.Signaling/InMemoryConnectionManager.cs:11-17 | adding leaves every other connection's room and user, and every other user's connection, unchanged |
| SignalingRegistry.AddPlacesInOneRoom | src/Core/VidSync.Signaling/InMemoryConnectionManager.cs:13-15 | an added connection is in the room asked about iff that is the room it joined |
| SignalingRegistry.AddListsUser | src/Core/VidSync.Signaling/InMemoryConnectionManager.cs:38-47 | after adding, the user is among the room's users for every caller except that connection itself |
| SignalingRegistry.AddKeepsSameConnections | src/Core/VidSync.Signaling/InMemoryConnectionManager.cs:14-15 | adding keeps the key sets of connection → room and connection → user equal |
| SignalingRegistry.AddKeepsIndexCoherent | src/Core/VidSync.Signaling/InMemoryConnectionManager.cs:11-17 | the user index stays a true inverse when the connection id is new or already belongs to the same user |
| SignalingRegistry.StaleIndexAfterOwnerChange | src/Core/VidSync.Signaling/InMemoryConnectionManager.cs:14-27 | when a connection id changes owner, the first owner's index entry still names it, even after the connection is removed |
| SignalingRegistry.RemoveReports | src/Core/VidSync.Signaling/InMemoryConnectionManager.cs:19-30 | removal returns the user and room the connection had, and the connection is in neither connection map afterwards |
| SignalingRegistry.RemoveIdempotent | src/Core/VidSync.Signaling/InMemoryConnectionManager.cs:19-30 | a second removal returns (null, null) and changes nothing |
| SignalingRegistry.RemoveKeepsReRegistration | src/Core/VidSync.Signaling/InMemoryConnectionManager.cs:24-27 | if the user has since moved to another connection, removing the old one keeps the user's new index entry |
| SignalingRegistry.RemoveClearsOwnIndex | src/Core/VidSync.Signaling/InMemoryConnectionManager.cs:22-28 | after removing a connection, its user no longer resolves to it |
| SignalingRegistry.RemoveKeepsOthers | src/Core/VidSync.Signaling/InMemoryConnectionManager.cs:19-30 | removal leaves every other connection's room and user unchanged |
| SignalingRegistry.RemoveKeepsSameConnections | src/Core/VidSync.Signaling/InMemoryConnectionManager.cs:21-22 | removal keeps the two connection-keyed maps on equal key sets |
| SignalingRegistry.RemoveKeepsIndexCoherent | src/Core/VidSync.Signaling/InMemoryConnectionManager.cs:19-30 | removal keeps a coherent user index coherent |
| SignalingRegistry.RunKeepsSameConnections | src/Core/VidSync.Signaling/InMemoryConnectionManager.cs:11-30 | any sequence of adds and removes keeps the two connection-keyed maps on equal key sets |
| SignalingRegistry.UsersInRoomExactly | src/Core/VidSync.Signaling/InMemoryConnectionManager.cs:38-47 | with equal key sets, a user is listed for a room iff some non-excluded connection in that room belongs to the user, so the null filter drops nothing |
| SignalingHub.CommunicationHub.constructor | src/Core/VidSync.Signaling/Hubs/CommunicationHub.cs:13-14 | both static maps start empty and nothing has been broadcast |
| SignalingHub.CommunicationHub.JoinRoom | src/Core/VidSync.Signaling/Hubs/CommunicationHub.cs:22-36 | the maps become `Join` of the old maps; without a user claim nothing is broadcast, otherwise exactly one participant update for the room is appended |
| SignalingHub.CommunicationHub.OnDisconnected | src/Core/VidSync.Signaling/Hubs/CommunicationHub.cs:38-52 | the maps become `Disconnect` of the old maps; only a connection that had a room causes a broadcast, and only to that room |
| SignalingHub.CommunicationHub.UpdateAndBroadcastParticipantList | src/Core/VidSync.Signaling/Hubs/CommunicationHub.cs:54-73 | appends one "UpdateParticipantList" message to the room's group, holding the resolved entries of the room's distinct users |
| SignalingHub.CommunicationHub.UserIdsInRoom | src/Core/VidSync.Signaling/Hubs/CommunicationHub.cs:56-60 | a duplicate-free list of exactly the user ids whose connection's room entry is the room |
| SignalingHub.CommunicationHub.Participants | src/Core/VidSync.Signaling/Hubs/CommunicationHub.cs:62-70 | the loop's output is `Resolved` of the ids: one `{Id, FirstName}` entry per id the store resolves, in order |
| SignalingHub.JoinWithoutClaimKeepsMaps | src/Core/VidSync.Signaling/Hubs/CommunicationHub.cs:24-25 | a join with a null or empty claim changes neither map |
| SignalingHub.JoinOverwrites | src/Core/VidSync.Signaling/Hubs/CommunicationHub.cs:27-30 | a join sets both maps under the connection id, or "" when the id is null, and a second join overwrites the first room |
| SignalingHub.DisconnectUnjoined | src/Core/VidSync.Signaling/Hubs/CommunicationHub.cs:42-49 | disconnecting a connection with no room entry changes nothing and names no room |
| SignalingHub.DisconnectJoined | src/Core/VidSync.Signaling/Hubs/CommunicationHub.cs:42-49 | disconnecting a joined connection removes it from both maps, keeps the others, and names its former room |
| SignalingHub.StepKeepsSameConnections | src/Core/VidSync.Signaling/Hubs/CommunicationHub.cs:29-44 | one join or disconnect keeps the two maps on equal key sets |
| SignalingHub.ReplayKeepsSameConnections | src/Core/VidSync.Signaling/Hubs/CommunicationHub.cs:29-44 | any sequence of joins and disconnects keeps the two maps on equal key sets |
| SignalingHub.ResolvedMembers | src/Core/VidSync.Signaling/Hubs/CommunicationHub.cs:63-70 | an entry is in the resolved list iff some id of the list is known to the store and shows as that entry |
| SignalingHub.ParticipantListMembers | src/Core/VidSync.Signaling/Hubs/CommunicationHub.cs:56-70 | a broadcast list holds exactly the store entries of the room's users; unresolved ids are skipped |
| SignalingHub.JoinBroadcastListsJoiner | src/Core/VidSync.Signaling/Hubs/CommunicationHub.cs:29-35 | the list broadcast after a join includes the joining user whenever the store knows that user |
| SignalingHelpers.ConnectionMapping.constructor | src/Core/VidSync.Signaling/Helpers/ConnectionMapping.cs:5 | the dictionary starts empty |
| SignalingHelpers.ConnectionMapping.Add | src/Core/VidSync.Signaling/Helpers/ConnectionMapping.cs:7-13 | sets or overwrites the connection's room and leaves every other key unchanged |
| SignalingHelpers.ConnectionMapping.TryGetRoom | src/Core/VidSync.Signaling/Helpers/ConnectionMapping.cs:15-21 | returns true with the stored room iff the key is present, false with null otherwise; the dictionary does not change |
| SignalingHelpers.ConnectionMapping.Remove | src/Core/VidSync.Signaling/Helpers/ConnectionMapping.cs:23-29 | drops the key, is a no-op for an absent key, and leaves every other key unchanged |
| SignalingHelpers.AddLookupRemove | src/Core/VidSync.Signaling/Helpers/ConnectionMapping.cs:7-29 | for a caller: an added room is found, a second add overwrites it, after removal nothing is found, and another key is untouched |
| Summarization.MessagesOf | src/Infrastructure/VidSync.Persistence/Services/ConversationSummarizationService.cs:38-39 | every message of the room, with the multiplicity the table has, and no other message |
| Summarization.InsertKeepsOrder | src/Infrastructure/VidSync.Persistence/Services/ConversationSummarizationService.cs:41 | inserting into a list sorted by SentAt keeps it sorted |
| Summarization.InsertKeepsElements | src/Infrastructure/VidSync.Persistence/Services/ConversationSummarizationService.cs:41 | inserting adds exactly the one message |
| Summarization.SortOrdersBySentAt | src/Infrastructure/VidSync.Persistence/Services/ConversationSummarizationService.cs:41 | the ordering yields a permutation of the messages, sorted by SentAt |
| Summarization.ChatHistoryOfRoom | src/Infrastructure/VidSync.Persistence/Services/ConversationSummarizationService.cs:38-75 | the history has one entry per message of the room, in SentAt order, numbered 1..n, with each message's sender and text |
| Summarization.BuildPayload | src/Infrastructure/VidSync.Persistence/Services/ConversationSummarizationService.cs:52-76 | the metadata carries the room's key text, name and creation time, the current time as the end, "tr-TR" and "pending"; one history entry per message with its HH:mm:ss time, and at most one participant per message |
| Summarization.ClockText | src/Infrastructure/VidSync.Persistence/Services/ConversationSummarizationService.cs:74 | the timestamp is eight characters "HH:mm:ss" that read back as the hour of the day, the minute and the second |
| Summarization.TimeOfDayRepeatsDaily | src/Infrastructure/VidSync.Persistence/Services/ConversationSummarizationService.cs:74 | the timestamp carries no date: instants a whole day apart show the same text |
| Summarization.ParticipantsAreDistinctSenders | src/Infrastructure/VidSync.Persistence/Services/ConversationSummarizationService.cs:50-68 | every payload participant stands for a message sender, every sender is represented, and none is listed twice |
| Summarization.ParticipantFields | src/Infrastructure/VidSync.Persistence/Services/ConversationSummarizationService.cs:62-68 | the full name is trimmed and non-empty for a non-blank first name, a null e-mail becomes "", and the role is "Participant" |
| Summarization.FirstPerEmailFresh | src/Infrastructure/VidSync.Persistence/Services/ConversationSummarizationService.cs:106-109 | every selected recipient has a non-blank e-mail not seen before |
| Summarization.FirstPerEmailDistinct | src/Infrastructure/VidSync.Persistence/Services/ConversationSummarizationService.cs:106-109 | no two selected recipients share an e-mail |
| Summarization.FirstPerEmailCovers | src/Infrastructure/VidSync.Persistence/Services/ConversationSummarizationService.cs:106-109 | every non-blank, unseen e-mail of the input is represented |
| Summarization.FirstPerEmailTakesFirst | src/Infrastructure/VidSync.Persistence/Services/ConversationSummarizationService.cs:106-109 | each selected recipient is the first participant of its e-mail group |
| Summarization.RecipientsOnePerAddress | src/Infrastructure/VidSync.Persistence/Services/ConversationSummarizationService.cs:106-109 | recipients are the participants with non-blank e-mail, exactly one per distinct address, each the first with that address |
| Summarization.NoParticipantsNoMail | src/Infrastructure/VidSync.Persistence/Services/ConversationSummarizationService.cs:99-102 | no send is attempted when the response's participant list is null or empty |
| Summarization.FailuresDoNotStopSends | src/Infrastructure/VidSync.Persistence/Services/ConversationSummarizationService.cs:111-133 | which addresses are mailed, and with what, does not depend on which sends fail |
| Summarization.MailGoesToDistinctAddresses | src/Infrastructure/VidSync.Persistence/Services/ConversationSummarizationService.cs:104-127 | each mail goes to a distinct non-blank address, with subject "Toplantı Özeti: " + room name and the summary with `<br>` for newlines |
| Summarization.SaveSummaryTouchesOneRoom | src/Infrastructure/VidSync.Persistence/Services/ConversationSummarizationService.cs:86-91 | saving the summary changes only the summary of the room with that key |
| Summarization.ConversationSummarizationService.constructor | src/Infrastructure/VidSync.Persistence/Services/ConversationSummarizationService.cs:17-25 | the service starts over the given tables with no mail sent |
| Summarization.ConversationSummarizationService.SummarizeAndSave | src/Infrastructure/VidSync.Persistence/Services/ConversationSummarizationService.cs:27-95 | a missing room ends in not-found, and a room without messages ends early; otherwise the payload is built and sent to the AI client. A failed AI call ends the run. In these three cases nothing is saved or sent. After a reply, only a non-empty summary is saved encrypted and mailed |
| Summarization.ConversationSummarizationService.SendSummaryEmailsToParticipants | src/Infrastructure/VidSync.Persistence/Services/ConversationSummarizationService.cs:97-134 | the loop attempts exactly `EmailAttempts`: one send per selected recipient, in order, continuing past failures |
| RoomsApi.RoomsController.constructor | src/Core/VidSync.API/Controllers/RoomsController.cs:17-20 | the controller works over the given Rooms table |
| RoomsApi.RoomsController.GetRooms | src/Core/VidSync.API/Controllers/RoomsController.cs:22-32 | every room when the table is non-empty, otherwise a validation problem "Room is already in use." |
| RoomsApi.RoomsController.GetRoom | src/Core/VidSync.API/Controllers/RoomsController.cs:34-46 | succeeds iff a room has the key, returning that room; otherwise "Room not found." |
| RoomsApi.RoomsController.CreateRoom | src/Core/VidSync.API/Controllers/RoomsController.cs:48-69 | the table becomes `Create` of the old one; a name taken ignoring case is refused, otherwise the new room is returned; distinct names and distinct keys are kept |
| RoomsApi.CreateRejectsTakenName | src/Core/VidSync.API/Controllers/RoomsController.cs:51-57 | a name equal to an existing one ignoring case adds nothing |
| RoomsApi.CreateAppendsOne | src/Core/VidSync.API/Controllers/RoomsController.cs:59-66 | otherwise exactly one room is appended, with the request's name and expiry, and the existing rooms are kept |
| RoomsApi.CreateKeepsNamesDistinct | src/Core/VidSync.API/Controllers/RoomsController.cs:51-66 | one create keeps room names pairwise distinct ignoring case |
| RoomsApi.CreateAllKeepsNamesDistinct | src/Core/VidSync.API/Controllers/RoomsController.cs:51-66 | rooms created only through `CreateRoom`, one at a time, never have two names equal ignoring case |
| AuthApi.Register | src/Core/VidSync.API/Controllers/AuthController.cs:19-58 | a taken username is refused before the e-mail is checked, and a taken e-mail is refused; in both cases no user is created. Otherwise the user submitted has the built username, the e-mail and the stamp's text; a failed create yields every reported error and a successful one yields the success message |
| AuthApi.AddIdentityErrors | src/Core/VidSync.API/Controllers/AuthController.cs:50-53 | one model error per identity error, keyed by its code and in order |
| AuthApi.SplitUserNamesEqual | src/Core/VidSync.API/Controllers/AuthController.cs:22 | trimmed middle and last names whose concatenations agree give equal usernames |
| AuthApi.TakenNameRefused | src/Core/VidSync.API/Controllers/AuthController.cs:24-29 | a username the store already holds gives "Username is already in use." and no user submitted, whatever the e-mail |
| AuthApi.UserNameHasNoEdgeWhiteSpace | src/Core/VidSync.API/Controllers/AuthController.cs:22 | however the parts are padded, the username neither starts nor ends with white space |
| AuthApi.UserNameStartsWithFirstName | src/Core/VidSync.API/Controllers/AuthController.cs:22 | the trimmed first name prefixes the username, and null or blank middle and last names add nothing |
| AuthApi.SplitNamesCollide | src/Core/VidSync.API/Controllers/AuthController.cs:22-29 | names that split differently between middle and last name give the same username; once the first is in the store, the second registration is refused and no user is created |
| Guids.ToString | src/Core/VidSync.Signaling/InMemoryConnectionManager.cs:13 | a Guid's text is 36 characters with dashes at positions 8, 13, 18 and 23 |
| Guids.ToStringInjective | src/Core/VidSync.Signaling/InMemoryConnectionManager.cs:13 | two Guids have the same text iff they are equal |
| Text.Trim | src/Core/VidSync.API/Controllers/AuthController.cs:22 | the result is a slice of the input with white space outside it and none at its own ends |
| Text.TrimIdempotent | src/Core/VidSync.API/Controllers/AuthController.cs:22 | trimming twice is trimming once |
| Text.NonBlankTrimsToNonEmpty | src/Infrastructure/VidSync.Persistence/Services/ConversationSummarizationService.cs:65 | a non-blank string does not trim to nothing |
| Text.ReplaceNewlines | src/Infrastructure/VidSync.Persistence/Services/ConversationSummarizationService.cs:121 | the result contains no newline |
| Text.ReplaceNewlinesKeepsPlainText | src/Infrastructure/VidSync.Persistence/Services/ConversationSummarizationService.cs:121 | text without newlines is unchanged |
| Text.NewlineBecomesBreak | src/Infrastructure/VidSync.Persistence/Services/ConversationSummarizationService.cs:121 | a line break becomes `<br>` |
| Text.ReplaceNewlinesAppends | src/Infrastructure/VidSync.Persistence/Services/ConversationSummarizationService.cs:121 | the replacement of a concatenation is the concatenation of the replacements, which with the two lemmas above fixes the result for every input |
| Collections.Distinct | src/Infrastructure/VidSync.Persistence/Services/ConversationSummarizationService.cs:50 | a duplicate-free list with exactly the input's elements, no longer than the input |
| Entities.RoomIndex | src/Infrastructure/VidSync.Persistence/Services/ConversationSummarizationService.cs:86 | the position of the first room with the key, or none when no room has it |

## Left out

- Concurrency is not modelled. `ConcurrentDictionary` and the `lock` in `ConnectionMapping<T>` are modelled one call at a time. `RemoveConnection` is three separate map operations and is not claimed to be atomic.
- SignalR transport is not modelled. `Groups.AddToGroupAsync` is dropped, and `Clients.Group(...).SendAsync` becomes an appended `Broadcast` in the hub's outbox. The console logging is dropped.
- The hub's maps are static in the source and so are shared by every hub instance. Here they are the fields of one hub object.
- `UserManager.FindByIdAsync` is a map from id text to user. The hub's per-user lookups are not I/O.
- `TranscriptionHub` is not part of this model; it only consumes an audio stream and logs.
- The AI client, AES encryption and SMTP delivery are function parameters. An AI call that throws is a `None` reply, which ends the run as the exception does. A delivery that throws is a `false` result, which the loop records before going on.
- `Summarization.ConversationSummarizationService.SummarizeAndSave`: the encryption and the database save are taken never to throw.
- The EF Core database is a sequence of records per table. Tracking, `Include`, `AsNoTracking` and `SaveChangesAsync` are not modelled.
- The database assigns room keys. `CreateRoom` takes the new key as a parameter.
- `Summarization.ParticipantsAreDistinctSenders`: `Distinct` is value equality on the user record. Under EF no-tracking queries the real comparison is by object reference, so one user materialised twice can appear twice.
- `Summarization.SortOrdersBySentAt`: states sorted and a permutation only. The database does not fix the order of messages with equal SentAt, so neither does the contract.
- `DateTime.UtcNow` and the security stamp's `Guid.NewGuid()` are parameters. Times are tick counts, and `HH:mm:ss` is computed from ticks without calendar or time-zone handling.
- `RoomsApi.CreateRoom`: lower-casing covers ASCII letters only, so the duplicate check ignores culture-specific case rules.
- The HTML around the mail body is reduced to its varying parts: the greeting name, the room name and the summary with `<br>` for newlines.
- ASP.NET Identity internals are an oracle: password rules, normalisation of names and e-mails, and `CreateAsync`. `FindByNameAsync` and `FindByEmailAsync` are reduced to whether a user is found.
- `ValidationProblem(ModelState)` is a list of (key, message) errors in insertion order. The grouping of messages by key in the problem document is not modelled.
- DTO validation attributes are not modelled. These are `[Required]`, `[StringLength]`, and `[Authorize]` on the controllers and the hub.
- `SignalingHub.CommunicationHub.JoinRoom` and `SignalingHub.CommunicationHub.OnDisconnected` state the broadcast's participant list up to the enumeration order of the dictionary, which .NET leaves unspecified.
