# Beat Aware pages: device pairing and profile form

A verified model of the two pieces of real logic in the Beat Aware web client.

**Device pairing page** (`src/pages/DeviceSetup.tsx`). Four state cells: the chosen transport (`"bluetooth" | "wifi" | null`), the flags `isConnecting` and `isConnected`, and a progress percentage. A click on a transport card calls `handleConnect` only while neither flag is set. `handleConnect` records the transport, sets connecting, zeroes the progress and registers a 200 ms interval. Each firing of the interval adds 10 while progress is below 100. The first firing that sees 100 or more clears the interval, clamps to 100 and flips connecting to connected. Module `DeviceSetupPage` holds:
- pure transition functions (`AfterConnect`, `AfterClick`, `AfterTick`) over a `Pairing` state value;
- a page invariant `Inv`, proved to be exactly the set of reachable states;
- lemmas about arbitrary event runs;
- the class `DeviceSetup`, whose fields are the state cells. Its methods `HandleConnect`, `OnCardClick` and `Tick` are each proved against the matching transition function.

The interval is a discrete `Tick` plus a `timerActive` flag that records whether it is still registered.

**Profile page** (`src/pages/Profile.tsx`). The avatar initials are `name.split(' ').map(n => n[0]).join('')`. Module `JsStrings` models the JavaScript operations involved. `split` is modelled for a one-character separator, and empty pieces are kept. `s[0]` gives `undefined` on an empty string, and `join('')` renders `undefined` as nothing. Module `ProfilePage` defines `Initials` from these. It proves `Initials` equal to an independent scanning definition, `WordStarts`, and proves its length and content. The class `Profile` holds the `isEditing` flag, the eight-field record and the contact list, with the Edit/Save button, `handleSaveProfile`, the per-field change handlers and `handleAddEmergencyContact`.

About the code as it stands:
- The page has no device-catalog step, no reset, and no cleanup of the interval on unmount.
- Progress reads 100 for one firing while the page is still connecting; only the eleventh firing after a connect sets connected. `FullProgressBeforeConnected` exhibits that state.

## Model

| member | source | states |
|---|---|---|
| `DeviceSetupPage.AfterConnect` | src/pages/DeviceSetup.tsx:16-19 | handleConnect from idle leaves the page not idle, with transport `t`, and does not touch `isConnected` |
| `DeviceSetupPage.AfterClick` | src/pages/DeviceSetup.tsx:59 | a card click keeps the invariant and always leaves the page connecting or connected with a transport recorded |
| `DeviceSetupPage.AfterTick` | src/pages/DeviceSetup.tsx:22-32 | an interval firing keeps the invariant and never lowers the progress |
| `DeviceSetupPage.Run` | src/pages/DeviceSetup.tsx:22-32 | every state reached by any sequence of clicks and firings satisfies the invariant (bounds 0..100, multiple of 10, flags exclusive, connected implies 100 and a transport, timer registered iff connecting) |
| `DeviceSetupPage.Ticks` | src/pages/DeviceSetup.tsx:22 | n firings of the interval are n `IntervalFires` events |
| `DeviceSetupPage.ClickFromIdle` | src/pages/DeviceSetup.tsx:16-19 | from idle a click sets the transport, connecting, progress 0 and the timer, and leaves connected false |
| `DeviceSetupPage.ClickWhenBusy` | src/pages/DeviceSetup.tsx:108 | while connecting or connected a click changes nothing, the transport included |
| `DeviceSetupPage.TickBelowComplete` | src/pages/DeviceSetup.tsx:23-30 | a firing below 100 adds exactly 10 and changes nothing else |
| `DeviceSetupPage.TickAtComplete` | src/pages/DeviceSetup.tsx:24-28 | the firing that sees 100 gives exactly progress 100, connected, not connecting, interval cleared |
| `DeviceSetupPage.RunAppend` | src/pages/DeviceSetup.tsx:22-32 | running two event sequences one after the other is running their concatenation |
| `DeviceSetupPage.ConnectedIsFinal` | src/pages/DeviceSetup.tsx:25-27 | once connected, no sequence of events changes any state cell |
| `DeviceSetupPage.TransportFixedOnceStarted` | src/pages/DeviceSetup.tsx:59 | once an attempt has started, the page never returns to idle and its transport never changes |
| `DeviceSetupPage.ProgressMonotone` | src/pages/DeviceSetup.tsx:19-30 | progress never decreases along any run |
| `DeviceSetupPage.TicksWhileConnecting` | src/pages/DeviceSetup.tsx:23-30 | while room remains, n firings add exactly 10·n and change nothing else |
| `DeviceSetupPage.ConnectingForTenTicks` | src/pages/DeviceSetup.tsx:16-32 | after a fresh connect, the first ten firings give progress 10·n while still connecting |
| `DeviceSetupPage.ConnectedOnEleventhTick` | src/pages/DeviceSetup.tsx:22-32 | the eleventh firing after a fresh connect gives exactly the connected state over the chosen transport |
| `DeviceSetupPage.FullProgressBeforeConnected` | src/pages/DeviceSetup.tsx:24-30 | after ten firings progress is 100 while still connecting and not connected |
| `DeviceSetupPage.InvIsReachable` | src/pages/DeviceSetup.tsx:10-32 | every state satisfying the invariant is reached from mount by one click and a number of firings |
| `DeviceSetupPage.ReachableIffInv` | src/pages/DeviceSetup.tsx:10-32 | a state is reachable from mount if and only if it satisfies the invariant |
| `DeviceSetupPage.DeviceSetup.constructor` | src/pages/DeviceSetup.tsx:10-13 | on mount there is no transport, neither flag is set, progress is 0 and no interval is registered |
| `DeviceSetupPage.DeviceSetup.HandleConnect` | src/pages/DeviceSetup.tsx:16-22 | sets transport `t`, connecting, progress 0 and registers the interval; keeps the invariant |
| `DeviceSetupPage.DeviceSetup.OnCardClick` | src/pages/DeviceSetup.tsx:59 | connects when idle, otherwise leaves every field unchanged |
| `DeviceSetupPage.DeviceSetup.Tick` | src/pages/DeviceSetup.tsx:22-32 | +10 below 100; at 100 clamps, clears the interval and connects; a no-op once connected; never changes the transport |
| `JsStrings.Split` | src/pages/Profile.tsx:76 | `split(' ')` yields one piece more than there are separators, and no piece contains the separator |
| `JsStrings.Heads` | src/pages/Profile.tsx:76 | `map(n => n[0])` keeps the length and maps each piece to its head |
| `JsStrings.JoinSplit` | src/pages/Profile.tsx:76 | joining the pieces of a split with the separator gives back the string |
| `JsStrings.SplitJoin` | src/pages/Profile.tsx:76 | splitting a join of separator-free pieces gives back those pieces |
| `ProfilePage.NonEmpty` | src/pages/Profile.tsx:76 | the result holds exactly the non-empty pieces of the input: every kept piece is a non-empty input piece, and every non-empty input piece is kept |
| `ProfilePage.SplitScan` | src/pages/Profile.tsx:76 | the initials of the split pieces agree with the scanning definition, at a word start and in mid-word |
| `ProfilePage.InitialsAreWordStarts` | src/pages/Profile.tsx:76 | `Initials`, the avatar text `name.split(' ').map(n => n[0]).join('')`, is exactly the non-space characters that come first or after a space, in order |
| `ProfilePage.JoinedHeads` | src/pages/Profile.tsx:76 | `JoinChars` (`join('')`, which renders the `undefined` head of an empty piece as nothing) over the heads of the pieces gives one character per non-empty piece, its first |
| `ProfilePage.InitialsOfPieces` | src/pages/Profile.tsx:76 | the initials have one character per non-empty piece of the name, the first of that piece, in order |
| `ProfilePage.InitialsBounds` | src/pages/Profile.tsx:76 | there are at most (number of spaces + 1) initials and none is a space |
| `ProfilePage.InitialsOfTwoWords` | src/pages/Profile.tsx:215 | two space-free words joined by one space give their two first letters |
| `ProfilePage.InitialsJohnDoe` | src/pages/Profile.tsx:22 | "John Doe" gives "JD" |
| `ProfilePage.InitialsJaneDoe` | src/pages/Profile.tsx:35 | "Jane Doe" gives "JD" |
| `ProfilePage.InitialsRobertDoe` | src/pages/Profile.tsx:42 | "Robert Doe" gives "RD" |
| `ProfilePage.ContactInitials` | src/pages/Profile.tsx:207-215 | one avatar text per contact, in list order, each the initials of that contact's name |
| `ProfilePage.MountedInitials` | src/pages/Profile.tsx:21-47 | on mount the avatars read "JD" for the profile and "JD", "RD" for the two contacts |
| `ProfilePage.ProfileData.With` | src/pages/Profile.tsx:101 | `{...profile, f: v}` sets field `f` to `v` and keeps the other seven fields |
| `ProfilePage.RecordsAgreeOnFields` | src/pages/Profile.tsx:21-30 | a record is determined by its eight fields, so `With` determines the new record exactly |
| `ProfilePage.WithSameValue` | src/pages/Profile.tsx:101 | writing back a field's current value leaves the record equal |
| `ProfilePage.WithTwice` | src/pages/Profile.tsx:111 | a second write to the same field overrides the first |
| `ProfilePage.Profile.constructor` | src/pages/Profile.tsx:20-47 | on mount the page is not editing and holds the initial record and two contacts |
| `ProfilePage.Profile.AvatarText` | src/pages/Profile.tsx:76 | the profile avatar's text contains no space |
| `ProfilePage.Profile.HandleSaveProfile` | src/pages/Profile.tsx:49-51 | saving clears `isEditing` and keeps the record and the contacts |
| `ProfilePage.Profile.OnEditButtonClick` | src/pages/Profile.tsx:85 | the button flips `isEditing`, by saving when editing or by starting to edit when not, and keeps the data |
| `ProfilePage.Profile.OnFieldChange` | src/pages/Profile.tsx:98-183 | while editing, a change to field `f` sets `f` and keeps the other seven fields, the flag and the contacts; while not editing the disabled input changes nothing |
| `ProfilePage.Profile.HandleAddEmergencyContact` | src/pages/Profile.tsx:53-55 | adding a contact leaves the contact list, the record and the flag unchanged |

## Left out

- Rendering, styling and animation, including the status panels (src/pages/DeviceSetup.tsx:83-97, 132-146, 152-201): view code.
- `handleContinue` and all navigation and routing: no state of these pages depends on them.
- Real time: the 200 ms period is abstracted to a discrete `Tick`; `setInterval`/`clearInterval` become the `timerActive` flag.
- React's scheduling of state updates: the model applies all state updates of a click, or of a firing, before the next event is handled, as React does for a click handler that sets state and re-renders before the next click.
- React StrictMode calling the progress updater twice: a framework concern, not modelled.
- `DeviceSetupPage.DeviceSetup.HandleConnect`: requires the idle state because both call sites guard it; an unguarded second call, which would register a second interval, is not modelled.
- The console log in `handleAddEmergencyContact` (src/pages/Profile.tsx:54): I/O.
- `JsStrings.Split`: models `split` only for the one-character separator the page uses; `s[0]` is taken per `char`, without UTF-16 surrogate pairs.
- Which field a change event comes from is a parameter of `OnFieldChange`. The eight handlers at src/pages/Profile.tsx:101, 111, 121, 130, 140, 163, 173 and 182 differ only in that field.
- The dashboard, location, analytics, index and login pages: sample data, timers with random or floating-point values, and library calls, with no logic of these two pages.
