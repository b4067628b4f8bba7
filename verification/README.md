# Souveraine, modelled and verified

Souveraine runs long-lived agents behind a daemon. Most of it is plumbing; this project models the
parts that have to be right over whole histories, and proves that they are, for every input and
every run.

* **Chat-history translation** (`Conversation`, `Translation*`, `Breakpoints`). The subscription
  provider compiles an internal chat history into the turns of a stricter upstream protocol:
  grouping blocks into turns, dropping leading assistant turns together with the results answering
  them, demoting system turns that may not stand where they landed, and placing cache breakpoints.
  The imperative passes (`TranslateMessages` and the methods it calls) are proved equal to functions
  on lists. `TranslationLoss` characterises which blocks survive by one pass over the flat list,
  `TranslationRules` proves the upstream protocol's rules, and `TranslationPrefix`,
  `TranslationCut` and `TranslationNotes` prove what stays the same when a history grows.
* **The login protocol** (`Logins`, `CredentialProtocol`, `ClaudeRetry`, `ClaudeCall`). Several
  logins behind an active index, each backed by a credential file shared with another process that
  rotates one-time refresh tokens; sticky round-robin rotation; and the retry loop around them.
* **The event stream** (`Utf8`, `Events`, `EventStream`, `EventRoundTrip`). Engine events, their
  wire mirror, the frames they travel in, and the receiver that drains a byte buffer as chunks come
  in. UTF-8 is modelled byte by byte; JSON is a parameter.
* **The secret store** (`Sealing`, `SecretStores`, `StoreRefinement`). A store key wrapped in two
  slots over a map of sealed items, written by creating a temporary file and renaming it. Sealing is
  symbolic: a sealed blob carries its key and associated data as part of the term. The disk keeps
  what programs see apart from what has reached the platter, so a power loss may leave an unsynced
  file blank, torn or whole and may lose the last rename. The store is proved to refine a plain map
  over every run, with writes stopping at any step, restarts and power losses.
* **Device machines** (`LightSensor`, `LightReports`, `KvmFrame`, `KvmDraw`, `KvmHid`, `KvmInput`).
  The light debouncer, the report throttle and the keepalive, the dirty-rectangle framebuffer and
  its window, and the splitting of pointer motion into HID reports together with the state of held
  keys and buttons, the cursor and the touch.
* **Smaller cores** (`RetryBudget`, `KeyAgreement`, `Admission`). The gateway client's retry budget,
  the Diffie-Hellman exchange over the group of section 6.2 of RFC 2409, and the admission of agents
  to a node's Unix accounts.

Code that changes things step by step is modelled by methods and classes, each proved against a
specification function or relation; what the program promises is then proved about those as lemmas.
Clocks, random bytes, upstream answers, files written by others and the results of system calls are
parameters of the operations that depend on them.

## Where the code differs from what it says or what one would expect

Each of these is kept as the code has it, and the exact condition is proved.

* The subscription provider's retry loop can fall through to its `unreachable!`: exactly when three
  attempts go on and the fourth is told to leave its login and can. It takes no more than two good
  logins, three answers 503 and a 429 (`ClaudeCall.CallFallsThroughIff`,
  `ClaudeCall.OverloadThenMoveFallsThroughIff`, `ClaudeCall.FourAnswersFallThrough`).
* The credential file's compare-and-swap is said never to replace a login another process wrote. It
  tells logins apart by their refresh tokens, so a login without one is replaced
  (`CredentialProtocol.LoginKeptIff`, `CredentialProtocol.AccessOnlyLoginIsOverwritten`).
* A refresh whose write-back fails is said to continue in memory. The next look at the file finds
  the old access token, which differs from the new one, and goes back to the login that was just
  spent (`CredentialProtocol.RefreshedLoginKeptIff`, `CredentialProtocol.FailedWriteStrandsProvider`).
* A stored empty value can never be read back, because a sealed blob must be longer than its
  overhead (`Sealing.SealRoundTripIff`, `StoreRefinement.GetMeaning`).
* The reporter's throttle is said to lose nothing when it drops an edge, since the keepalive re-sends
  the last value. A change in light decided within 250 milliseconds of the last light report is
  dropped; it is reported only if the keepalive turns before the next light reading
  (`LightReports.ChangeReachesIff`, `LightReports.ChangeIsLost`).
* A pixel of a framebuffer does not show what its zeroed bytes stand for until an update covers it,
  and exactly then (`KvmFrame.ShowsItsBytesIffCovered`).
* Drawing an empty framebuffer into a window with any pixel indexes out of range
  (`KvmFrame.DrawIndicesInRangeIff`).
* The gateway client's ceiling on waits, meant to keep a call from sleeping for hours, guards 429s
  only: a 503 naming a wait of hours is slept on in full (`RetryBudget.LongWaitIff`,
  `RetryBudget.LongNamedWaits`).
* A tool return read from the wire keeps its status only when that is one of the two statuses the
  engine writes (`Events.WireRoundTripBackIff`).
* In mid-conversation mode a history's final system turn loses its role when what follows is not an
  assistant turn; the earlier output is continued exactly when that does not happen
  (`TranslationPrefix.TranslateContinuesIff`, `TranslationNotes.NoteStandsIff`).

## Model

| member | source | states |
|---|---|---|
| Translation.TranslateMessages | src/bridge/claude_subscription.rs:982-1122 | the whole pass returns the wire form of the specification's turns, and the leading notes joined as the system string |
| Translation.GroupHistory | src/bridge/claude_subscription.rs:986-1059 | the message loop groups exactly the blocks the history asks for, and collects exactly the notes that precede its first user turn |
| Translation.PushMerge | src/bridge/claude_subscription.rs:1193-1201 | a block joins the last turn when the roles agree, and starts a turn otherwise |
| Translation.PushAssistant | src/bridge/claude_subscription.rs:1012-1050 | an assistant message contributes its thinking, then its text, then its calls |
| Translation.PushCalls | src/bridge/claude_subscription.rs:1034-1049 | the calls of one message are appended in order |
| Translation.DropLeadingTurns | src/bridge/claude_subscription.rs:1065-1087 | leading assistant turns go, each with the results that answer its calls |
| Translation.PurgeAnswers | src/bridge/claude_subscription.rs:1072-1085 | results answering dropped calls go, then the user turns left empty |
| Translation.NormalizeSystemTurns | src/bridge/claude_subscription.rs:1127-1142 | each turn is sent with the role the rule on system turns allows, merged into an equal neighbour |
| Translation.GroupRoles | src/bridge/claude_subscription.rs:996 | asking whether a user turn exists is asking whether a user block was placed |
| TranslationRules.TranslateSendable | src/bridge/claude_subscription.rs:1061-1142 | in either mode the output is empty or starts with a user turn, alternates roles, has no empty turn, and every system turn follows a user turn and is last or before an assistant turn |
| TranslationRules.NormalizedSendable | src/bridge/claude_subscription.rs:1124-1142 | normalization restores all the rules even when purging left equal roles side by side |
| TranslationRules.NoSystemTurnUnlessSupported | src/bridge/claude_subscription.rs:976-1003 | where the model takes no system turns, none is sent |
| TranslationLoss.GroupMeaning | src/bridge/claude_subscription.rs:1193-1201 | grouping only inserts turn boundaries: flattened again, it is the list of placed blocks |
| TranslationLoss.PurgeMeaning | src/bridge/claude_subscription.rs:1072-1085 | purging turns filters the flat list of blocks and nothing else |
| TranslationLoss.DropLeadingMeaning | src/bridge/claude_subscription.rs:1061-1087 | the turn-level loop leaves exactly the survivors of one pass over the flat list |
| TranslationLoss.NormalizedMeaning | src/bridge/claude_subscription.rs:1127-1142 | normalization keeps every block in order, and changes a role only from system to user |
| TranslationLoss.KeptMeaning | src/bridge/claude_subscription.rs:986-1087 | the first two passes of a history leave its surviving blocks, in turns that do not start with the assistant |
| TranslationLoss.TranslateKeepsSurvivors | src/bridge/claude_subscription.rs:982-1122 | the blocks sent are exactly the survivors, in order |
| TranslationLoss.TranslateCut | src/bridge/claude_subscription.rs:1061-1087 | there is one cut: what precedes it is the assistant's or answers it, what follows is kept except results answering calls before the cut |
| TranslationLoss.LosesNothingIff | src/bridge/claude_subscription.rs:1065-1087 | nothing is lost exactly when the first block is not the assistant's |
| TranslationLoss.TranslateKeepsPairing | src/bridge/claude_subscription.rs:1061-1087 | if every result followed a call it answers, it still does |
| TranslationLoss.KeptCallKeepsResults | src/bridge/claude_subscription.rs:1065-1087 | with unique call ids a call that survives keeps every result answering it |
| TranslationPrefix.KeptContinues | src/bridge/claude_subscription.rs:1061-1087 | dropping leading turns commutes with growing the history |
| TranslationPrefix.TranslateContinues | src/bridge/claude_subscription.rs:970-1122 | a longer history continues the shorter one's turns, or those with the final note folded into the user turn before it |
| TranslationPrefix.TranslateContinuesIff | src/bridge/claude_subscription.rs:1124-1142 | the turns are continued as sent exactly when the final note may stand |
| TranslationPrefix.BlocksArePrefix | src/bridge/claude_subscription.rs:970-1122 | in either mode the blocks sent are a prefix of those sent for any extension |
| TranslationPrefix.RolesArePrefix | src/bridge/claude_subscription.rs:970-1122 | without mid-conversation system turns the roles are a prefix as well |
| TranslationPrefix.EarlierTurnsContinue | src/bridge/claude_subscription.rs:970-1122 | in either mode the turns before a final system turn are continued as sent, boundaries and all |
| TranslationPrefix.EarlierRolesArePrefix | src/bridge/claude_subscription.rs:970-1122 | only the final surviving system turn may change role |
| TranslationPrefix.EarlierWireContinues | src/bridge/claude_subscription.rs:1090-1107 | the messages on the wire before a final system turn are the same in every later request, the last one perhaps with more blocks |
| TranslationCut.KeptIsPurged | src/bridge/claude_subscription.rs:1061-1087 | the loop over leading turns leaves the grouped turns from one cut on, purged of the results answering the calls before it |
| TranslationCut.CutStable | src/bridge/claude_subscription.rs:1061-1087 | once some turn is kept, more turns do not move that cut or change what is dropped with it |
| TranslationCut.DroppedIdsAtCut | src/bridge/claude_subscription.rs:1066-1071 | the ids remembered at the cut are those of the calls placed before the first block kept |
| TranslationCut.NextTurnMeaning | src/bridge/claude_subscription.rs:1072-1087 | the next turn kept after a note is that of the first block that opens one, a dropped result opening none but parting the notes around it |
| TranslationNotes.NoteStandsIff | src/bridge/claude_subscription.rs:1065-1142 | for every history a final system turn keeps its place exactly when the next turn the messages after it open, purged results aside, is the assistant's or there is none |
| TranslationNotes.FinalNoteStandsIff | src/bridge/claude_subscription.rs:1124-1142 | where nothing is dropped: exactly when the first message after it that asks for a turn is the assistant's, or there is none |
| TranslationNotes.KeptIsGrouped | src/bridge/claude_subscription.rs:1065-1087 | where the first block is not the assistant's, the turns kept are those the first pass made |
| TranslationNotes.NoteIsDemoted | src/bridge/claude_subscription.rs:1124-1142 | a system turn sent as such, and folded into the user turn once the user speaks again |
| TranslationPrefix.StartedIff | src/bridge/claude_subscription.rs:996-998 | the conversation has started exactly when some message is neither a system note nor the assistant's |
| TranslationPrefix.HoistedMeaning | src/bridge/claude_subscription.rs:991-1003 | in either mode the notes in the system string are the non-empty ones before that message, in order |
| TranslationPrefix.SystemStringIsFixed | src/bridge/claude_subscription.rs:991-1003 | once there is a user turn no extension changes the top-level system string |
| TranslationPrefix.NoteBeforeUserIsHoisted | src/bridge/claude_subscription.rs:991-998 | before that, a non-empty system message goes to the system string and nowhere else |
| Breakpoints.Body.constructor | src/bridge/claude_subscription.rs:279-302 | a request holds its tools, system blocks and turns |
| Breakpoints.Body.MarkCacheBreakpoints | src/bridge/claude_subscription.rs:1152-1191 | the last tool, the last system block and the last two turns with a block are marked, and nothing else changes |
| Breakpoints.AtMostFour | src/bridge/claude_subscription.rs:1144-1191 | a request carries one mark for each of the four places it has |
| Breakpoints.CarriersAreExchanges | src/bridge/claude_subscription.rs:1090-1107 | in a translated history the turns that can carry a mark are those that are not system turns |
| Breakpoints.CachedPrefixIsReread | src/bridge/claude_subscription.rs:1146-1151 | the last mark sits on the last turn that is not a system turn, and whatever is added, the next request repeats the system string and all messages up to that mark, the last one perhaps with more blocks |
| Breakpoints.TailIsNear | src/bridge/claude_subscription.rs:1149-1151 | both transcript marks lie within the last three turns |
| Logins.LoadedAll | src/bridge/claude_subscription.rs:203-210 | every login loaded has something to present, no recorded window, and is what its file holds |
| Logins.LoadedAllComplete | src/bridge/claude_subscription.rs:203-210 | no file with a login to present is passed over |
| Logins.Accounts.Load | src/bridge/claude_subscription.rs:197-255 | loading skips unreadable files and files without a credential, starts on the first login left, and gives no provider when none is |
| Logins.Accounts.constructor | src/bridge/claude_subscription.rs:255 | a provider starts on the first of its logins |
| Logins.Accounts.AdoptFileIfChanged | src/bridge/claude_subscription.rs:622-646 | the file's login is taken when it has another non-empty access token, keeping the recorded window; no other login changes |
| Logins.Accounts.RefreshToken | src/bridge/claude_subscription.rs:685-748 | the login, the answer and the file after a refresh, over every endpoint reply and file |
| Logins.Accounts.CurrentAccessToken | src/bridge/claude_subscription.rs:309-345 | adopting, refreshing and re-reading change the active login only, and a token is returned exactly when that login then has one |
| Logins.Accounts.CanAuthenticate | src/bridge/claude_subscription.rs:398-403 | a login can speak with an unexpired token or an accepted refresh |
| Logins.Accounts.TryLogin | src/bridge/claude_subscription.rs:372-382 | one candidate is adopted and looked at, no other login changes |
| Logins.Accounts.MoveOn | src/bridge/claude_subscription.rs:370-391 | the first usable login in round-robin order becomes active, and only the logins up to it are looked at |
| Logins.Accounts.RotateAccount | src/bridge/claude_subscription.rs:357-392 | a rotation records the window, rides along when another request already moved, and otherwise goes to the first usable login |
| Logins.RotationIsDetermined | src/bridge/claude_subscription.rs:357-392 | what is known of the moment of a rotation decides its answer and the logins after it |
| Logins.AdoptMatchesFile | src/bridge/claude_subscription.rs:622-646 | after adopting, the held access token is the file's whenever the file has a non-empty one |
| Logins.WindowSurvives | src/bridge/claude_subscription.rs:641-645 | no adopt, re-read, refresh or look at a candidate changes a login's recorded window or its path |
| Logins.RunKeepsWindows | src/bridge/claude_subscription.rs:357-392 | over every run a login's window is the one recorded by the last rotation off it, and the active index stays in range |
| Logins.MovesOnlyToFirstUsable | src/bridge/claude_subscription.rs:357-392 | the active index moves only in a rotation, to the first login that can be used, never to one whose window is running |
| Logins.StaysIffNoneUsable | src/bridge/claude_subscription.rs:370-391 | a rotation off the active login stays exactly when no other login can be used |
| CredentialProtocol.StepConsistent | src/bridge/claude_subscription.rs:685-748 | every action of either process keeps the bookkeeping of issued and spent refresh tokens |
| CredentialProtocol.StepCleanIff | src/bridge/claude_subscription.rs:725-744 | one action leaves file and provider free of spent tokens exactly when it loses no write-back |
| CredentialProtocol.NeverHoldsSpent | src/bridge/claude_subscription.rs:648-748 | in every run that loses no write-back neither file nor provider ever holds a refresh token this provider has spent |
| CredentialProtocol.RefreshWritesIff | src/bridge/claude_subscription.rs:854-890 | a granted refresh writes the file exactly when it is an object with room for a login and holds the refresh token being spent, or none |
| CredentialProtocol.RefreshReplacesLoginIff | src/bridge/claude_subscription.rs:858-867 | a login with another access token is replaced exactly when the disk works and it has no refresh token or the one being spent |
| CredentialProtocol.LoginKeptIff | src/bridge/claude_subscription.rs:841-867 | over every run of the provider's own actions that does not take a foreign login over, the file is left alone throughout exactly when that login has a refresh token or no refresh succeeds |
| CredentialProtocol.AccessOnlyLoginIsOverwritten | src/bridge/claude_subscription.rs:841-867 | a run in which another process's login without a refresh token is replaced by the account it left |
| CredentialProtocol.RefreshUndoesLogout | src/bridge/claude_subscription.rs:854-868 | a run in which a refresh writes a login into a file just logged out of |
| CredentialProtocol.RefreshedLoginKeptIff | src/bridge/claude_subscription.rs:725-744 | a refreshed login survives the next look at the file exactly when the file did not hold another non-empty access token that the write-back failed on or left alone |
| CredentialProtocol.FailedWriteStrandsProvider | src/bridge/claude_subscription.rs:740 | a run in which one failed write-back brings the spent token back |
| ClaudeRetry.Judge | src/bridge/claude_subscription.rs:474-602 | one answer ends the call or sends it round again, with the strain entry that belongs to it |
| ClaudeCall.Try | src/bridge/claude_subscription.rs:456-568 | one attempt over the logins: what other requests did since the last, the token lookup, what they do before the answer, and the rotation the answer calls for |
| ClaudeCall.LetOthersRun | src/bridge/claude_subscription.rs:309-392 | other requests' lookups and rotations, during a wait or a request |
| ClaudeCall.Complete | src/bridge/claude_subscription.rs:444-605 | the loop's outcome, strain, attempts, time waited and the logins afterwards, for every sequence of upstream answers and every login state |
| ClaudeRetry.SleepsAtMost | src/bridge/claude_subscription.rs:1401-1404 | no call waits longer than 2800 milliseconds in all |
| ClaudeRetry.FallsThroughIff | src/bridge/claude_subscription.rs:554-568 | control passes the loop exactly when every attempt asks for another and the fourth rotated |
| ClaudeCall.MovesIff | src/bridge/claude_subscription.rs:554-568 | an attempt moves to another login exactly when it found a token, its answer is an exhausted window or an authentication failure, and another request has moved already or another login can be used |
| ClaudeCall.CallFallsThroughIff | src/bridge/claude_subscription.rs:444-605 | control passes the loop exactly when three attempts go on and the fourth finds a token, is told to leave its login, and can |
| ClaudeCall.OneLoginNeverFallsThrough | src/bridge/claude_subscription.rs:362-365 | with one login it never does |
| ClaudeCall.OverloadThenMoveFallsThroughIff | src/bridge/claude_subscription.rs:444-605 | after three overloads, an answer asking to leave the login falls past the loop exactly when a token was there each time and some spare could be used when the call began |
| ClaudeCall.TwoLoginsLoaded | src/bridge/claude_subscription.rs:203-210 | the witness's two logins are those loaded from two credential files |
| ClaudeCall.FourAnswersFallThrough | src/bridge/claude_subscription.rs:554-604 | two good logins loaded from two files, three answers 503 and a 429 naming no wait do reach the end of the loop |
| ClaudeRetry.StrainOnSuccess | src/bridge/claude_subscription.rs:488-540 | on success the strain has one entry for each earlier attempt, with that attempt's status |
| ClaudeRetry.CallIsDetermined | src/bridge/claude_subscription.rs:444-605 | the answers decide outcome, strain, attempts and time waited |
| ClaudeRetry.WindowResumesAt | src/bridge/claude_subscription.rs:1453-1463 | a window never resumes in the past, at the reset on the wire when it is ahead, after the cooldown when nothing is known |
| Utf8.DecodeEncode | src/backend/remote.rs:418 | strict decoding undoes encoding, for every text |
| Utf8.EncodeDecode | src/backend/remote.rs:418 | the decoder is strict: bytes that decode are the encoding of the text they decode to |
| Utf8.EncodeNoBreaks | src/backend/remote.rs:395-418 | a text without line breaks has no line-break byte in its encoding, so frames can be cut in bytes |
| Events.WireRoundTrip | src/api/models.rs:662-849 | no engine event is changed by crossing the wire |
| Events.WireRoundTripBackIff | src/api/models.rs:662-849 | a wire event survives the other way round exactly when a tool return's status is one the engine writes |
| EventStream.FindFrameEnd | src/backend/remote.rs:395-415 | the first delimiter of either kind is found, and none is reported only when there is none |
| EventStream.FrameEndStable | src/backend/remote.rs:395-415 | a frame's end and delimiter do not change when bytes are appended |
| EventStream.CutFrame | src/backend/remote.rs:343-352 | a found frame is always followed by a delimiter, so the branch for its absence is dead |
| EventStream.TakeFrames | src/backend/remote.rs:342-358 | the inner loop ends, takes every complete frame and leaves the rest |
| EventStream.DrainConcat | src/backend/remote.rs:341-358 | draining early and going on with the rest is draining everything at once |
| EventStream.DrainRest | src/backend/remote.rs:342 | what is left in the buffer holds no complete frame |
| EventStream.ParseFrame | src/backend/remote.rs:417-437 | the line loop collects the data lines of a frame and decodes them, or gives nothing |
| EventStream.SendParsed | src/backend/remote.rs:353-363 | a frame sends its event, or nothing |
| EventStream.Receive | src/backend/remote.rs:330-366 | the receiver sends what decoding the arrived bytes in one piece gives, then Done, or the failure that ended the stream |
| EventStream.ChunkInvariance | src/backend/remote.rs:330-366 | however a stream is cut into chunks, the same events are sent |
| EventRoundTrip.FrameParsesBack | src/api/handlers.rs:442-447 | a frame as the server writes it parses back to its event |
| EventRoundTrip.BlankLineEndsFrame | src/backend/remote.rs:395-415 | a frame of two lines ends at its blank line and no earlier |
| EventRoundTrip.StreamDrains | src/api/handlers.rs:608-613 | the stream written for a list of events drains to exactly those events, with nothing left |
| EventRoundTrip.EndToEnd | src/backend/remote.rs:330-366 | any events, framed and cut into any chunks, are received as the same list and one final Done |
| EventRoundTrip.BrokenStreamSendsPrefix | src/backend/remote.rs:334-340 | a stream that breaks off delivers the first events in order, then the failure |
| Sealing.SealRoundTripIff | src/secrets/store.rs:351-382 | a sealed blob opens exactly under its own key and context, and only when it is not empty |
| SecretStores.Disk.constructor | src/secrets/store.rs:225-252 | a disk starts with everything on the platter |
| SecretStores.Disk.Write | src/secrets/store.rs:244-247 | what a program writes is seen at once and has not reached the platter |
| SecretStores.Disk.Sync | src/secrets/store.rs:248 | syncing the temporary file puts it on the platter, with earlier changes of its directory |
| SecretStores.Disk.Rename | src/secrets/store.rs:250 | renaming puts the temporary file in the store's place |
| SecretStores.SecretStore.constructor | src/secrets/store.rs:150-155 | a store object holds its material, key and file |
| SecretStores.SecretStore.Open | src/secrets/store.rs:122-162 | opening parses and unwraps, or mints a key and persists at once; an unreadable store or one that does not unwrap leaves the disk as it was |
| SecretStores.SecretStore.Persist | src/secrets/store.rs:225-252 | the disk, and what of it has reached the platter, after any number of the steps create, write, sync, rename; success exactly when all were taken |
| SecretStores.SecretStore.Set | src/secrets/store.rs:254-277 | the item is sealed under its own id, keeps its creation time, and the file is persisted |
| SecretStores.SecretStore.Delete | src/secrets/store.rs:288-291 | the item goes and the file is persisted |
| SecretStores.SecretStore.SetPassphrase | src/secrets/store.rs:164-185 | the passphrase slot is rewrapped with the salt kept once drawn, and the file is persisted |
| SecretStores.SecretStore.Get | src/secrets/store.rs:279-286 | nothing for an unknown id, else the item opened under that id |
| SecretStores.SecretStore.Search | src/secrets/store.rs:293-304 | exactly the ids whose attributes include the query |
| SecretStores.SecretStore.VerifyPassphrase | src/secrets/store.rs:194-203 | true exactly when the slot unwraps to the store key under this passphrase |
| StoreRefinement.StoredIsOldOrNew | src/secrets/store.rs:223-252 | after any number of steps and any power loss the store path holds a whole file: the new one exactly when the rename was reached and kept |
| StoreRefinement.CrashSafe | src/secrets/store.rs:223-252 | a power loss after any step, whatever it leaves of unsynced files, reopens to exactly the old or exactly the new contents |
| StoreRefinement.UnsyncedRenameIsUnsafe | src/secrets/store.rs:248-250 | without the sync before the rename a power loss can leave a store that does not open |
| StoreRefinement.SetRefines | src/secrets/store.rs:254-277 | setting an item is putting it in a map |
| StoreRefinement.DeleteRefines | src/secrets/store.rs:288-291 | deleting an item is removing it from a map |
| StoreRefinement.EnrollRefines | src/secrets/store.rs:164-185 | rotation changes neither store key nor items, only which passphrase is enrolled |
| StoreRefinement.ReopenedRefines | src/secrets/store.rs:122-162 | opening a disk brings back what its store path holds, under the same key, or mints an empty store |
| StoreRefinement.StepRefines | src/secrets/store.rs:118-304 | every operation keeps the store valid and is a step of a plain map with a durable copy |
| StoreRefinement.RunRefines | src/secrets/store.rs:118-304 | the same over every run, with writes stopping at any step, restarts and power losses |
| StoreRefinement.RunKeepsKey | src/secrets/store.rs:136-148 | once a store is on disk no run changes its key or removes it, unless a power loss undoes the rename that first put it there |
| StoreRefinement.GetMeaning | src/secrets/store.rs:279-286 | reading gives the map's value, except that an empty one cannot be opened |
| StoreRefinement.SearchMeaning | src/secrets/store.rs:293-304 | a search finds exactly the ids whose attributes include the query |
| StoreRefinement.VerifyMeaning | src/secrets/store.rs:194-203 | exactly the enrolled passphrase verifies |
| StoreRefinement.ItemOpensOnlyUnderItsId | src/secrets/store.rs:262-283 | no item opens under another item's id |
| StoreRefinement.WrongMachineFailsClosed | src/secrets/store.rs:136-138 | a store opens under its own machine material and under no other |
| StoreRefinement.OpeningCreates | src/secrets/store.rs:122-162 | opening a missing or empty file gives an empty store under the fresh key |
| StoreRefinement.PlainRunRecords | src/secrets/store.rs:254-291 | the plain map holds for each id the last entry set and not deleted |
| StoreRefinement.StoreRefinesMap | src/secrets/store.rs:118-304 | after any run from an empty store, reads, searches and passphrase checks answer from the history alone |
| LightSensor.ParserState.constructor | src/bin/souveraine-sensord.rs:221-232 | the parser starts without a level or an excursion |
| LightSensor.ParserState.ParseLight | src/bin/souveraine-sensord.rs:155-211 | one reading's flag and the new memory, or nothing at all for an unreadable line |
| LightSensor.NextMeans | src/bin/souveraine-sensord.rs:172-206 | one sample gives the declared flag and keeps what the memory stands for |
| LightSensor.LongestRunDecides | src/bin/souveraine-sensord.rs:187-196 | only the start of the longest one-sided run matters, so remembering one instant is enough |
| LightSensor.DebounceMeaning | src/bin/souveraine-sensord.rs:155-211 | in every history a sample is a change exactly when a one-sided run away from the last reported level has lasted that side's debounce |
| LightSensor.LevelMovesOnlyOnChange | src/bin/souveraine-sensord.rs:197-201 | the reference moves on the first sample and on changes, and never otherwise |
| LightSensor.ChangesAreSpaced | src/bin/souveraine-sensord.rs:244-261 | changes are at least two seconds apart, four before a darkening one |
| LightSensor.Reporter.constructor | src/bin/souveraine-sensord.rs:444-470 | nothing has been reported at the start |
| LightSensor.Reporter.Submit | src/bin/souveraine-sensord.rs:502-540 | one offered value is remembered, and sent when it changed and its turn has come |
| LightSensor.Reporter.KeepAlive | src/bin/souveraine-sensord.rs:327-350 | every source's last value is re-sent and nothing else changes |
| LightSensor.OffersRemembered | src/bin/souveraine-sensord.rs:511-537 | the two maps hold each source's last offer and the time of its last report |
| LightSensor.SentIff | src/bin/souveraine-sensord.rs:511-537 | an offer is sent exactly when it differs from its source's last offer and the interval since its last report has passed |
| LightSensor.ReportsAreSpaced | src/bin/souveraine-sensord.rs:274-283 | the read loop's reports of one source are at least 250 milliseconds apart |
| LightReports.Daemon.constructor | src/bin/souveraine-sensord.rs:444-451 | parser and reporter start empty |
| LightReports.Daemon.Handle | src/bin/souveraine-sensord.rs:476-540 | a light reading goes through the parser and the throttle, another source's through the throttle, and the keepalive past both |
| LightReports.OfferGoesOutIff | src/bin/souveraine-sensord.rs:511-537 | until its source offers again, a value reaches the machine exactly when the throttle lets it through or the keepalive turns in between |
| LightReports.MemoryIsParsers | src/bin/souveraine-sensord.rs:448-451 | the parser's memory depends on the light readings alone |
| LightReports.DecidedIffChange | src/bin/souveraine-sensord.rs:155-211 | so what is decided is what the debounce means, whatever else happens in between |
| LightReports.LightIsRemembered | src/bin/souveraine-sensord.rs:511-537 | the two maps hold the last light reading with its flag, and the time of the last light report |
| LightReports.DecidedIsIsolated | src/bin/souveraine-sensord.rs:196-201 | after a decided change the parser starts afresh, so the next reading is none |
| LightReports.ChangeReachesIff | src/bin/souveraine-sensord.rs:520-537 | up to the next decided change, a decided one is reported exactly when 250 milliseconds had passed since the last light report, or the keepalive turned before the next light reading |
| LightReports.ChangeIsLost | src/bin/souveraine-sensord.rs:520-537 | five readings in just over three seconds after which, whatever follows, no report tells of the change decided among them |
| KvmFrame.ConversionInjective | src/bin/souveraine-usb-kvm.rs:78-82 | no two RGB565 values become the same pixel |
| KvmFrame.FreshPixelIsNotBlack | src/bin/souveraine-usb-kvm.rs:60-69 | a fresh frame's pixels are not the conversion of its bytes |
| KvmFrame.Frame.constructor | src/bin/souveraine-usb-kvm.rs:60-69 | a fresh frame has zeroed bytes and grey pixels |
| KvmFrame.Frame.ConvertRect | src/bin/souveraine-usb-kvm.rs:71-86 | exactly the clipped rectangle shows its current bytes, every other pixel is unchanged, and the generation advances |
| KvmFrame.Frame.ConvertRow | src/bin/souveraine-usb-kvm.rs:75-83 | one row of that |
| KvmFrame.Frame.ConvertPixel | src/bin/souveraine-usb-kvm.rs:76-82 | one pixel comes to show what its two bytes stand for, and no other changes |
| KvmFrame.IncrementalEqualsFull | src/bin/souveraine-usb-kvm.rs:180-187 | after any run of updates every pixel ever covered equals the conversion of its current bytes, and every other has its initial value |
| KvmFrame.UncoveredKeepsBytes | src/bin/souveraine-usb-kvm.rs:180-187 | a place no update has covered keeps its bytes |
| KvmFrame.ShowsItsBytesIffCovered | src/bin/souveraine-usb-kvm.rs:60-86 | in every run from a fresh frame a pixel shows what its bytes stand for exactly when some update has covered it |
| KvmFrame.ScaledInRange | src/bin/souveraine-usb-kvm.rs:293-295 | a scaled coordinate is in range exactly when the source is not empty |
| KvmFrame.DrawIndicesInRangeIff | src/bin/souveraine-usb-kvm.rs:293-298 | every pixel a window asks for exists exactly when the frame is not empty |
| KvmDraw.View.constructor | src/bin/souveraine-usb-kvm.rs:593-594 | nothing has been rendered at the start |
| KvmDraw.View.Draw | src/bin/souveraine-usb-kvm.rs:271-307 | the window then shows every sample of the frame, and drawing is skipped exactly for the same generation at the same size |
| KvmDraw.RedrawIsCurrent | src/bin/souveraine-usb-kvm.rs:286-302 | over every run a redraw leaves the window current, skipped or not, unless the 64-bit generation went once round undrawn |
| KvmHid.SplitMeaning | src/bin/souveraine-usb-kvm.rs:233-254 | the reports sum to the request, each component is within 127, their number is the least possible and at least one |
| KvmHid.MotionArrives | src/bin/souveraine-usb-kvm.rs:238-246 | what a receiver adds up from the bytes is the motion asked for |
| KvmHid.App.constructor | src/bin/souveraine-usb-kvm.rs:585-600 | nothing is held at the start |
| KvmHid.App.SendPointer | src/bin/souveraine-usb-kvm.rs:233-254 | the loop ends for every 32-bit request and sends exactly the split's reports |
| KvmHid.App.SendKeyboard | src/bin/souveraine-usb-kvm.rs:224-231 | one report with the modifiers and the first six held keys |
| KvmHid.App.SetMouseButton | src/bin/souveraine-usb-kvm.rs:256-269 | a known button changes its bit and is reported, an unknown one does nothing |
| KvmHid.App.WindowEvent | src/bin/souveraine-usb-kvm.rs:373-454 | the held state and the reports sent for each key, button, motion, tap and loss of focus |
| KvmInput.Input.constructor | src/bin/souveraine-usb-kvm.rs:599-600 | no cursor and no touch is tracked at the start |
| KvmInput.Input.Follow | src/bin/souveraine-usb-kvm.rs:393-444 | the cursor and touch tracked after each event, and the motion or tap it amounts to |
| KvmInput.Input.Handle | src/bin/souveraine-usb-kvm.rs:359-454 | every event's effect on tracking, held state and reports |
| KvmInput.TouchMeaning | src/bin/souveraine-usb-kvm.rs:413-431 | over every run the tracked touch is the last one started and not ended, at the end of its path, with the path's length as its travel |
| KvmInput.TapIff | src/bin/souveraine-usb-kvm.rs:432-443 | the end of a touch is a tap exactly when it is the tracked one and its path is shorter than twelve |
| KvmInput.LegIsDecoded | src/bin/souveraine-usb-kvm.rs:393-431 | a move of the cursor or the tracked touch is reported as the rounded motion of its leg, and only then |
| KvmInput.CursorMeaning | src/bin/souveraine-usb-kvm.rs:393-402 | in every run, other events in between or not, the legs reported since the cursor came in are those of its path, and the tracked cursor is the path's end |
| KvmInput.TouchLegsMeaning | src/bin/souveraine-usb-kvm.rs:413-431 | likewise the legs reported since the tracked touch started are those of its path |
| KvmInput.CursorIsNear | src/bin/souveraine-usb-kvm.rs:393-402 | so what is reported of the cursor strays from where it went by at most half a unit a leg, on both axes |
| KvmInput.ReportedIsNear | src/bin/souveraine-usb-kvm.rs:395-399 | the rounded motions along a path stray from its displacement by at most half a unit a leg, on both axes |
| KvmHid.InsertedMeaning | src/bin/souveraine-usb-kvm.rs:387 | pressing adds one key and keeps the order |
| KvmHid.RemovedMeaning | src/bin/souveraine-usb-kvm.rs:389 | releasing removes one key and keeps the order |
| KvmHid.ReportNamesHeldKeysIff | src/bin/souveraine-usb-kvm.rs:224-231 | the keyboard report names exactly the held keys when there is a slot for each, and only then |
| KvmHid.ReportsInStep | src/bin/souveraine-usb-kvm.rs:373-454 | after any run of events the last keyboard and button reports equal the held state |
| KvmHid.HeldKeysAscend | src/bin/souveraine-usb-kvm.rs:209 | the held keys stay in ascending order without repetition |
| KvmHid.HeldIffPressed | src/bin/souveraine-usb-kvm.rs:373-451 | a key is held exactly when its last event since the last loss of focus was a press |
| KvmHid.ModifierHeldIffPressed | src/bin/souveraine-usb-kvm.rs:378-383 | a modifier likewise |
| KvmHid.ButtonHeldIffPressed | src/bin/souveraine-usb-kvm.rs:256-269 | a mouse button likewise, a tap counting as a release of the left one |
| KvmHid.FocusLossReleases | src/bin/souveraine-usb-kvm.rs:445-463 | after focus is lost everything is reported released, whatever came before |
| RetryBudget.JitterBounds | src/bridge/openai_compatible.rs:503-508 | every backoff lies between its cap and half as much again |
| RetryBudget.Judge | src/bridge/openai_compatible.rs:713-797 | one answer ends the model or is slept on, with its strain entry |
| RetryBudget.TryModelWithRetries | src/bridge/openai_compatible.rs:690-804 | a model's outcome, strain and number of requests, for every sequence of answers |
| RetryBudget.TryModel | src/bridge/openai_compatible.rs:647-663 | what a model gives and how many requests it takes |
| RetryBudget.ChatCompletion | src/bridge/openai_compatible.rs:638-688 | primary and fallbacks are tried in order until one completes, all of them when none does, and the strain is what each left, in order |
| RetryBudget.ModelCallIsDetermined | src/bridge/openai_compatible.rs:702-804 | the answers decide a model's result, its number of requests and the strain it leaves |
| RetryBudget.SpentIff | src/bridge/openai_compatible.rs:800-803 | the bail after the loop needs a policy without retries and an answer tagged as timed out |
| RetryBudget.NeverSpent | src/bridge/openai_compatible.rs:418-427 | no client the program builds reaches that bail, and none makes more than seven requests to a model |
| RetryBudget.TaggedTimeoutEnds | src/bridge/openai_compatible.rs:452-459 | a timeout-tagged failure after the first attempt ends the model |
| RetryBudget.WaitMeaning | src/bridge/openai_compatible.rs:759-778 | a wait an answer names is slept on as named, except that a 429 naming more than sixty seconds is not; any other wait is a jittered backoff |
| RetryBudget.LongWaitIff | src/bridge/openai_compatible.rs:461-477 | where no backoff exceeds sixty seconds, a wait does exactly when an answer other than a 429 names one |
| RetryBudget.LongestBackoffReached | src/bridge/openai_compatible.rs:503-508 | a policy's longest backoff is slept on a 429 in some run, so the bound on the policy is needed |
| RetryBudget.ShortCapSuffices | src/bridge/openai_compatible.rs:503-508 | a cap of forty seconds keeps every backoff within sixty |
| RetryBudget.NoLongRateLimitWait | src/bridge/openai_compatible.rs:418-427 | for every client the program builds no 429 is slept on past sixty seconds |
| RetryBudget.LongNamedWaits | src/bridge/openai_compatible.rs:461-477 | under the program's policy a 429 naming 11997 seconds fails at once and a 503 naming as much is slept on in full |
| RetryBudget.WholeCallBudget | src/bridge/openai_compatible.rs:638-688 | the whole call takes at most one full budget for each model |
| KeyAgreement.SidesAgree | src/secrets/dh.rs:60-79 | for all private exponents both sides compute the same shared value |
| KeyAgreement.PaddedRoundTrip | src/secrets/dh.rs:81-88 | the padded encoding is as wide as the modulus and decodes back |
| KeyAgreement.BytesMatchBits | src/secrets/dh.rs:81-83 | a number takes as many bytes as its bits need |
| KeyAgreement.SharedFits | src/secrets/dh.rs:84-87 | a shared value below the modulus fits its width, so the width check never fails |
| KeyAgreement.PaddedInjective | src/secrets/dh.rs:73-88 | below the modulus the padded encoding loses nothing |
| KeyAgreement.PrimeWidth | src/secrets/dh.rs:26-33 | the group's modulus is 1024 bits wide, so secrets are 128 bytes |
| KeyAgreement.DhSession.constructor | src/secrets/dh.rs:47-67 | the public value is the generator to the private exponent, reduced |
| KeyAgreement.DhSession.DeriveSessionKey | src/secrets/dh.rs:78-95 | every peer value gives a key from the full-width bytes of the shared value |
| KeyAgreement.Exchange | src/secrets/dh.rs:47-95 | two sessions that exchange public values derive the same key |
| Admission.ValidateAccountName | src/core/principal_map.rs:46-61 | a name passes exactly when it is a lowercase Unix name of at most 31 characters that is not reserved |
| Admission.LoadNodeMapping | src/core/principal_map.rs:78-81 | an agent's mapping is one of the node's, and is missing only when there is none |
| Admission.FirstOwner | src/core/principal_map.rs:83-111 | a search over the mappings finds an agent whose mapping has the property, and nobody only when no mapping has it |
| Admission.MappingOwnerOfAccount | src/core/principal_map.rs:106-111 | an account's owner holds it, and nobody does when none is found |
| Admission.Node.constructor | src/bin/souveraine-admit.rs:121 | a node starts with no mappings |
| Admission.Node.Apply | src/bin/souveraine-admit.rs:121-235 | the answer, mappings, drop-ins and state roots after one call; a refusal or dry run before the first write changes nothing |
| Admission.ApplySound | src/bin/souveraine-admit.rs:121-222 | one call keeps mappings one per agent, accounts unshared and names valid |
| Admission.RunIsSound | src/bin/souveraine-admit.rs:135-143 | over every run no two agents hold one account |
| Admission.RunContinues | src/bin/souveraine-admit.rs:145-158 | an admitted agent's account, admission time and recorded seed never change afterwards |
| Admission.RecordedBy | src/bin/souveraine-admit.rs:160-222 | every recorded mapping goes back to a call in which the account had no login shell, and one adopted at first admission had a uid below 1000 |
| Admission.UidNamesItsAgent | src/core/principal_map.rs:95-103 | over every run on one account table the uid in a mapping names that mapping's agent |
| Admission.ApplyIdempotent | src/bin/souveraine-admit.rs:145-222 | repeating a call whose account has not changed answers the same and leaves the mappings as they are |

## Left out

- Network, threads and locks: HTTP, sockets, D-Bus, Wayland and the mutexes around shared state are
  not modelled; every operation is one step, and what the outside answers is its parameter.
- Translation.TranslateMessages: does not return the first user text, which only feeds the billing
  fingerprint; a tool call's arguments stay text, where the program parses them as JSON and falls
  back to an empty object; images in a message contribute no text, as in the program.
- Breakpoints.Body.MarkCacheBreakpoints: absent tools or system are empty lists; the attribution
  block put before the system prompt is not modelled.
- Logins.Accounts.RefreshToken: the file is read and written as a value that holds a login, something
  unreadable, or nothing; other fields of the file, its mode and its temporary file are not modelled.
- CredentialProtocol.NeverHoldsSpent: a refresh with its write-back is one step, so the window between
  the endpoint's answer and the write is not modelled.
- ClaudeCall.Complete: what other requests do is placed before each attempt and between a request and
  its answer; the body text kept in a strain entry, and error messages, are not modelled.
- Logins.Accounts.Load: the list of credential paths is given; finding it in the configuration and
  removing repeats is not modelled.
- EventStream.Receive: a receiver that hangs up in the middle of a stream is not modelled; a failure
  of the transport is a value.
- EventStream.ParseFrame: JSON is a pair of functions; section 9.2.6 of the WHATWG HTML Standard would
  keep an empty first data line, which the program's collected text does not.
- EventRoundTrip.EndToEnd: needs the JSON codec to give each event of the list a one-line object that
  decodes back to it, and pressures are real numbers, where the program has 32-bit floats.
- Ciphers and key derivation: AES-GCM, HKDF, Argon2id and SHA-256 are terms and cannot fail; nonces
  and fresh keys are parameters.
- SecretStores.SecretStore.Persist: directories, file modes and what a temporary file left behind
  holds are not modelled beyond whole, torn or blank; syncing a file is taken to bring earlier
  changes of its directory with it, as journalling file systems do.
- StoreRefinement.StoreRefinesMap: is about histories whose writes complete and whose power losses
  keep the last rename, since the program does not sync the directory; `StoreRefinement.RunRefines`
  covers the others.
- LightSensor.ParserState.ParseLight: light levels are real numbers, so there is no NaN; splitting the
  line is not modelled.
- LightSensor.Reporter.Submit: the charge poller and the line markers are not modelled; a failed send
  is not reported back to the program either.
- LightReports.Daemon.Handle: a turn of the keepalive is one step, and its half-minute rhythm is not
  modelled: it may turn at any time.
- KvmDraw.View.Draw: asks for a frame with pixels when the window has any, since the program panics
  otherwise; a surface that fails to resize or present is not modelled.
- KvmHid.App.WindowEvent: the tables from key codes to usage codes are parameters of the events, and
  8-bit masks are sets of bits.
- KvmInput.Input.Handle: positions are real numbers, so there is no NaN and no rounding of their own.
- KvmFrame.IncrementalEqualsFull: what the USB side writes is assumed to stay inside the clipped
  rectangle; the receiver of pixel data is not part of this model.
- RetryBudget.JitterBounds: the jitter is a whole number of thousandths and the product is rounded
  down exactly, where the program multiplies floating-point numbers; 64-bit overflow of the backoff
  and of clock sums is not modelled.
- RetryBudget.TryModelWithRetries: the excerpt of the body kept in a strain entry is not modelled.
- KeyAgreement.DhSession.DeriveSessionKey: the key is the term made of the padded secret.
- Admission.Node.Apply: failing writes and the ownership of files are not modelled; whether the caller
  may act is one flag, made in the program from the effective user and the chosen root; an unreadable
  mapping file counts as none.
- Admission.RunIsSound: account lookups return the name asked for.
- Everything else: configuration, prompts, token counting, image scaling, device registry, session
  ranking, the model router and the terminal interface would add easy members only.
