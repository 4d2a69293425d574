# go-kahla-notify: push pipeline, configuration and notification model

A Dafny model of the sequential core of go-kahla-notify, a background client
for the Kahla chat service that keeps a WebSocket open to the Kahla push
server ("pusher") and turns pushed events into desktop toasts. Four pieces
are modelled, all I/O abstracted away:

- **The push session** (`kahla/websocket.go`), in modules `Events`, `Receive`
  and `Session`:
  - the two-pass, discriminator-driven `DecodeWebSocketEvent` over abstract
    JSON frames. Each `json.Unmarshal` pass either parses or fails with a
    partly filled struct;
  - `runReceiveMessage` as a fold over `ReadMessage` results;
  - the four socket states, and `changeState` with its lossy notification;
  - `Connect` as a transition function over a trace of the events its
    `select` loop picks up (dial result, read-loop done/error, heartbeat tick
    with the write result, interrupt with the close-frame write result).
- **Configuration loading** (`config.go`), in module `Config`: error order,
  the four defaults, and the JSON error reported last.
- **REST response classification** (`kahla/kahla.go`), in module `Rest`:
  `Client.Do` with the `Code = -1` preset, and the `Error()` texts of its
  three error types.
- **Notifications** (`client.go`), in module `Notify`: the event-to-toast
  mapping of `runNotify`, the unread filter and titles of
  `runNotifyUnread`, and the branches of `toastWithHeadImageKey`.

`Wrappers` holds `Option`, `Cause` (an error from a collaborator outside the
model, known by its text) and `byte`. `Decimal` models Go's `%d` together with
a reader for it, so that every text that embeds a number can be shown to
carry that number back.

Behaviour of the code worth knowing before reading the model:
- A frame that fails to decode ends the read loop. Its error goes to
  `errChan`, and `Connect` returns it with the state `Disconnected`; the
  connection is not kept open past a bad frame.
- A new message that fails to decrypt produces no notification; the failure
  is only logged. The unread list, by contrast, falls back to the raw message.
- A failed dial leaves `State` as it was. That is `New` only for a fresh
  socket.
- Every event type other than 0–3 is `InvalidEventTypeError`.
- Without SnoreToast configured, `c.toast` only logs the title and message.

## Model

| member | source | states |
|---|---|---|
| Decimal.ParseFormatInt | kahla/websocket.go:39-41 | the `%d` text of any int reads back as that same int, so messages that embed a number identify it |
| Events.DecodeWebSocketEvent | kahla/websocket.go:169-194 | an envelope parse failure returns the bare `*Event` and the JSON error before any variant is chosen; a type outside 0..3 returns `InvalidEventTypeError` carrying exactly that type; a type in 0..3 always yields that variant with its embedded Type equal to the discriminator; for types 0 and 1 the variant carries what the second pass produced, and that pass's JSON error is the error returned; an error is returned exactly when a pass failed or the type is unknown |
| Events.DecodeEncode | kahla/websocket.go:43-71 | for every event struct whose Type matches its variant, decoding the frame a server sends for it gives back the event with no error |
| Events.InvalidEventTypeMessageCarriesType | kahla/websocket.go:35-41 | the "invalid event type: N" message names exactly the offending type N |
| Receive.RunReceiveMessage | kahla/websocket.go:149-167 | the loop either consumes every read without error, or stops at a read that does not deliver an event and reports exactly that read's read error or decode error; it never emits more events than reads |
| Receive.ReceiveStopsAtFirstFailure | kahla/websocket.go:149-167 | the read loop emits, in frame order, the decoded event of every read before the first read error or decode error, and then stops with exactly that error |
| Receive.EmittedAreWellTyped | kahla/websocket.go:160-165 | every value put on the Event channel is one of the four event structs whose Type matches it |
| Receive.NothingAfterStop | kahla/websocket.go:153-166 | once a read or decode error has stopped the loop, later frames change neither the events emitted nor the error |
| Receive.ReadingMoreAppends | kahla/websocket.go:153-166 | while no error has occurred, more frames only append events after those already emitted |
| Session.StateOfCode | kahla/websocket.go:17-22 | exactly the codes 0..3 name a state, and the state named has that code |
| Session.StateCodeRoundTrip | kahla/websocket.go:17-22 | each state's constant is distinct and maps back to the state |
| Session.ChangeState | kahla/websocket.go:81-87 | State is always set to the new value; the notification is recorded only if a receiver is waiting |
| Session.NewWebSocket | kahla/websocket.go:73-79 | a new socket is in state New and nobody has observed a notification |
| Session.BroadcastObservesHeard | kahla/websocket.go:81-87 | observers receive exactly the changes made while a receiver was waiting, in the order they were made |
| Session.BroadcastKeepsLastState | kahla/websocket.go:81-87 | whichever notifications are lost, State is the last value set; observers see only values that were really set, and all of them when a receiver always waits |
| Session.FormatCloseMessage | kahla/websocket.go:133 | the close frame body is the status code as two big-endian bytes followed by the reason, and is empty for 1005 |
| Session.CloseMessageRoundTrip | kahla/websocket.go:133 | the close frame body gives back its status code and reason |
| Session.SelectLoop | kahla/websocket.go:113-146 | while the loop waits, the only state set is Connected; once it returns it has set exactly one more state, Disconnected or Closed, after consuming at least one event |
| Session.SelectLoopDecidedByFirstOtherEvent | kahla/websocket.go:113-146 | only successful heartbeats keep the loop going, and each writes one empty text frame. The first other event decides the outcome. A failed heartbeat, read-loop completion or read-loop error moves to Disconnected. An interrupt writes the normal-closure frame and moves to Closed. The error returned is the one from that deciding event |
| Session.Connect | kahla/websocket.go:93-147 | a failed dial returns its error and changes nothing; after a successful dial the first state set is Connected, states only move forward (never back to New or Connected), Connect returns only from Disconnected or Closed, and what it returns is the select loop's outcome |
| Session.NothingAfterReturn | kahla/websocket.go:113-146 | events after the one that made Connect return are never looked at |
| Session.HeartbeatsThen | kahla/websocket.go:115-144 | after any number of successful heartbeats, each kind of next event yields its documented state and return value. An interrupt always ends in Closed, returning nil or the close-write error |
| Session.StateSurvivesLostNotifications | kahla/websocket.go:102-143 | however many state notifications are dropped, replaying Connect's state changes leaves State equal to Connect's final state |
| Rest.InitializeResponse | kahla/kahla.go:76-80 | only Code is touched, and it is preset to -1 |
| Rest.Do | kahla/kahla.go:108-130 | transport errors pass through; a non-200 status yields ResponseStatusCodeNot200 with that status and the body is not decoded; a decode error yields ResponseJsonDecodeError with the decoded Message, before the code check; a clean decode whose code is absent (still -1) or any other non-zero value yields ResponseCodeNotZero with the decoded Message; nil exactly for status 200, a clean decode and code 0 |
| Rest.ErrorTextsCarryTheirData | kahla/kahla.go:47-74 | the status text gives back its status code, the code-not-zero text gives back the server message, and the decode-error text is the message when non-empty, else the decoder's text |
| Config.WithDefaults | config.go:48-59 | the four optional fields get "SnoreToast.exe", "https://server.kahla.app", "https://oss.aiursoft.com" and "avatars" when empty, keep given values, and the other fields are untouched |
| Config.LoadConfig | config.go:39-64 | empty Email gives "empty email" with no defaults applied; then empty Password gives "empty password"; otherwise defaults are filled in and the JSON error, if any, is reported last; no error exactly when both are given and the JSON parsed |
| Config.DefaultsIdempotent | config.go:48-59 | filling defaults twice is the same as once |
| Config.LoadKeepsCredentials | config.go:39-63 | LoadConfig never changes Email, Password or EnableSnoreToast |
| Config.TemplateRejected | config.go:42-44 | the all-empty configuration written on first run is rejected with "empty email", whatever the JSON error |
| Notify.React | client.go:131-171 | a new message that decrypts is handed to toastWithHeadImageKey as "<nick> [Kahla]" with the plaintext and the sender's avatar key; one that fails to decrypt only has its error logged; the three other events hand their fixed titles and texts to `c.toast`, which logs them and shows them only when SnoreToast is configured; only a non-event value reaches the panic |
| Notify.RunNotify | client.go:124-174 | every notification handed on comes from a channel value whose reaction is that notification, and there are never more notifications than values |
| Notify.RunNotifyOne | client.go:130-171 | one channel value yields its notification when it is shown, nothing and no panic when its decryption fails, and a panic with nothing shown for a non-event value |
| Notify.RunNotifyAppend | client.go:124-174 | the loop handles values one after another: until a panic it goes on past every value, a failed decryption included, so the notifications of a concatenation are those of its parts in order; after a panic nothing more is shown |
| Notify.PanicsIffBareValue | client.go:169-170 | runNotify panics exactly when the channel delivers a value that is none of the four event structs |
| Notify.NeverPanicsOnDecodedEvents | client.go:130-171 | for any sequence of frames, the values the read loop emits never reach runNotify's panic branch |
| Notify.EveryEventShownInOrder | client.go:124-174 | when every event yields a toast, the toasts are shown one per event in arrival order |
| Notify.UnreadNotification | client.go:109-115 | the title is "[N unread] " + DisplayName + " [Kahla]"; the message is the decrypted text, or the raw LatestMessage when decryption fails; the avatar is DisplayImageKey |
| Notify.RunNotifyUnread | client.go:107-121 | every toast comes from an item with UnReadAmount > 0, and there are no more toasts than items |
| Notify.UnreadOne | client.go:107-116 | a single friend item yields its unread notification exactly when UnReadAmount > 0, and nothing otherwise |
| Notify.UnreadAppend | client.go:107-121 | items are handled independently and in list order |
| Notify.ReadConversationsSilent | client.go:107-108 | items with no unread messages produce no toast |
| Notify.UnreadTitleRoundTrip | client.go:114 | an unread title gives back its count and display name |
| Notify.AvatarPathRoundTrip | client.go:65 | the cached avatar path's file name "<key>.png" gives back the key, whatever AvatarsDir is |
| Notify.ToastWithHeadImageKey | client.go:63-88 | without SnoreToast the title and message are only logged (`c.toast` with no SnoreToast) and no avatar is looked up or downloaded; with it the avatar path is AvatarsDir joined with "<key>.png", used at once if the file exists, else downloaded first |
| Notify.AfterDownload | client.go:70-83 | the image toast, with the cached avatar path, is tried first exactly when the download succeeds; a failed download or a failed image toast is followed by one SnoreToast toast without the image (`c.toast`, SnoreToast being configured on this path), and nothing else is shown; every toast carries the plan's title and message |

## Left out

- `cryptojs.AesDecrypt` is not part of this model: the decryptor is a function parameter returning the plaintext or nothing. AES, MD5 and the key derivation are not modelled.
- `retry.Do` (avast/retry-go) is an external library. So are the retry loops in `Client.Run` and `main` and their reading of `State` after `Connect`.
- Goroutines, channels and timing are represented only by the order of events in a `Connect` trace:
  - the Event channel's buffer of 10;
  - the 45-second ticker and the one-second wait after the close frame;
  - the deferred `close(done)` and `close(errChan)`. In the code the read loop closes `done` only after its `errChan` send has been received, so the read-loop-done event cannot win that race in practice; the model still allows it, as the `select` does.
- JSON decoding and gorilla/websocket dial, read and write are inputs: parse results, dial outcomes and write outcomes. A missing `type` key counts as type 0, as Go's zero value makes it.
- Events.Sender: the untyped `bio` and `sex` fields are not modelled.
- The source of gorilla/websocket's `FormatCloseMessage` is not part of this model. `Session.FormatCloseMessage` models its call at kahla/websocket.go:133 by the close frame body of section 5.5.1 of RFC 6455, for status codes below 65536, with the rule of section 7.4.1 that 1005 is never sent; the code only sends 1000.
- Notify.Join: models `path.Join` only for a file name without separators. Cleaning of `.`, `..` and doubled separators inside AvatarsDir is not modelled.
- Rest.Do: the returned `*http.Response` and the closing of its body are not modelled. Only the `Code` and `Message` fields of the caller's struct are.
- Go `int` is 64 bits wide; the model's integers are unbounded. Out-of-range JSON numbers are the decoder's errors, and those are inputs here.
- Root `kahla.go` is an older revision that does not match the current API; its notification mapping is the same as in `client.go`.
- `kahla/api.go` is HTTP plumbing. Its status, decode and code checks repeat `Client.Do`.
- `head_image.go`, `snore-toast/snore-toast.go`, `notify.go`, `signal.go` and `main.go` are file-system access, process execution, signals and flag parsing. The first-run template of `main.go` appears as `Config.Template`.
- `errors.go` holds two error types that the modelled code does not use.
- kahla/websocket.go has no `Close` method, and retrying is left to `retry.Do`; neither is modelled.
