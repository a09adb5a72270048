# Trippi quick-send messages, modelled in Dafny

Trippi is a React Native app for motorbike riders. The rider keeps a short,
ordered list of quick-send messages, each with a text, an icon, a colour, an
`order` field and send statistics. One tap sends a message to the riding
group. On Android a floating button drawn over other apps opens a menu of the
same messages.

This project models the logic behind that:

- the message store (`MessageService`), including its storage slots;
- the pure helpers it relies on: list move, text validation, clamp, time
  formatting and colour arithmetic;
- the JavaScript overlay controller (`FloatingService`) and its running flag;
- the send-confirmation listener registry (`NotificationService`);
- the bookkeeping of the Android overlay service (`FloatingWindowService`):
  message parsing, the button's creation guard, dragging and edge snap, menu
  visibility and placement, and the icon-to-emoji lookup;
- the icon and colour catalogues the pickers and the random pick use.

Files:

| file | module | models |
|---|---|---|
| wrappers.dfy | Wrappers | `Option` and `Result` |
| js_text.dfy | JsText | `String.prototype.trim`, `.length` in UTF-16 code units, `toString(radix)`, `padStart(2, '0')` |
| js_array.dfy | JsArray | `Array.prototype.filter`, `Math.floor(Math.random() * n)` |
| messages.dfy | Messages | the `BikeMessage` record and the `order := index` renumbering |
| helpers.dfy | Helpers | src/utils/helpers.ts |
| message_storage.dfy | MessageStorage | src/services/MessageService.ts: the list transforms and class `MessageService` with its two storage slots |
| notification_service.dfy | Notifications | src/services/NotificationService.ts |
| floating_service.dfy | Floating | src/services/FloatingService.ts |
| floating_window.dfy | FloatingWindow | android/app/src/main/java/com/trippi/floating/FloatingWindowService.java |
| icons.dfy | Icons | src/constants/icons.ts |
| colors.dfy | Colors | src/constants/colors.ts |

How the model represents the program:

- **Storage.** AsyncStorage becomes two fields of `MessageService`:
  - `stored` is the messages slot; `None` means nothing was ever written;
  - `lastSent` is the last-sent slot.

  JSON serialisation is the identity. A failed read or write is a boolean
  parameter.
- **Bridge.** Each awaited native call of `FloatingService` gets its answer
  as a parameter: "returned b" or "threw". The calls it makes are kept as a
  trace.
- **Listeners.** Callbacks are opaque handles compared by identity, and
  their invocations are kept as a trace. Whether each callback throws is a
  parameter of the send.
- **Window manager.** In the Android service it is reduced to whether each
  `addView` succeeded. Every `dpToPx` size is a given pixel count in a
  `Layout` value.
- **Other parameters.** New ids, the clock and the random number are
  parameters too.

Where the description of the app and its code disagree, the model follows the
code:

- **Storage errors.** The description says storage errors never reach the
  caller. In `markSent` (src/services/MessageService.ts:128-131) the write of
  the last-sent record is outside any `try`, so a rejected write makes the
  whole call reject. `MessageStorage.MessageService.MarkSent` therefore
  returns a `Result`.
- **An empty stored list.** `loadMessages` tests `if (stored)` on the stored
  string, and the string "[]" is truthy. So a stored empty list loads as
  empty; it is not replaced by the defaults.
- **A refused overlay button.** `createFloatingButton` assigns
  `floatingButton` before `addView` runs. A button the window manager refuses
  therefore still counts as created, and later start commands never retry it.
  `FloatingWindow.RefusedButtonStaysDetached` shows this.
- **A throwing listener.** The description says a send cannot fail.
  `sendMessage` (src/services/NotificationService.ts:50) calls the listeners
  with an unguarded `forEach`, so a listener that throws makes the send
  reject, and the later listeners are not called.
  `Notifications.NotificationService.SendMessage` therefore returns a
  `Result`, and `Notifications.FirstThrower` says where the calls stop.

## Model

| member | source | states |
|---|---|---|
| JsText.TrimBounds | src/utils/helpers.ts:107 | `trim()` cuts exactly a whitespace prefix and a whitespace suffix. What is left starts and ends with a non-whitespace character, or is empty |
| JsText.TrimIdempotent | src/utils/helpers.ts:107 | trimming a trimmed text changes nothing |
| JsText.Utf16Length | src/utils/helpers.ts:108 | `.length` counts UTF-16 code units: between the code-point count and twice it, and equal to it when every character is in the Basic Multilingual Plane |
| JsText.ToBaseRoundTrip | src/utils/helpers.ts:16 | reading back the digits of `n.toString(radix)`, for radix 10 or 16, gives `n` |
| JsText.LeadingOneHex | src/utils/helpers.ts:69 | `(0x1000000 + x).toString(16)` is "1" followed by x as exactly six hex digits, so `slice(1)` keeps those six digits |
| JsText.FixedWidthRoundTrip | src/utils/helpers.ts:69 | a number below base^w written in exactly w digits reads back as itself |
| JsText.FixedWidthLower | src/utils/helpers.ts:69 | `toString(16)` writes only lower-case hex digits |
| JsText.PaddedDecimal | src/utils/helpers.ts:16 | `minutes.toString().padStart(2, '0')` is exactly two decimal digits that read back as the minute |
| Messages.Renumber | src/services/MessageService.ts:85-88 | `map((msg, index) => ({...msg, order: index}))` gives a list whose orders are its positions, and changes nothing but the orders |
| Messages.RenumberDense | src/services/MessageService.ts:85-88 | renumbering a list whose orders are already its positions returns it unchanged |
| Messages.RenumberUnranked | src/services/MessageService.ts:105-108 | lists that differ only in their orders renumber to the same list |
| Helpers.SpliceStart | src/utils/helpers.ts:50-51 | splice's normalised start index lies within the list, and an in-range start is kept as it is |
| Helpers.RemoveInsert | src/utils/helpers.ts:50-51 | removing the element just inserted at k restores the list |
| Helpers.InsertRemove | src/utils/helpers.ts:50-51 | re-inserting a removed element at its own index restores the list |
| Helpers.MoveAt | src/utils/helpers.ts:49-51 | each position of the moved list holds a named position of the input: the move is a re-indexing |
| Helpers.MovePermutation | src/utils/helpers.ts:49-51 | the splice-out, splice-in move is a permutation of the list |
| Helpers.MoveSpec | src/utils/helpers.ts:49-51 | the moved element ends at `toIndex`, and removing it from both lists leaves the same list, so the others keep their relative order |
| Helpers.MoveInverse | src/utils/helpers.ts:49-51 | moving from i to j and then from j to i restores the list |
| Helpers.MoveUnranked | src/utils/helpers.ts:49-57 | moving commutes with forgetting the orders |
| Helpers.ReorderSpec | src/utils/helpers.ts:44-58 | `reorderMessages` keeps the length and the multiset of messages up to their orders. Every order equals its index, the moved message sits at `toIndex`, and the rest keep their relative order |
| Helpers.ReorderInverse | src/utils/helpers.ts:44-58 | reordering from i to j and back gives the renumbered input, which is the input itself when its orders were already its positions |
| Helpers.ReorderLastToFront | src/utils/helpers.ts:44-58 | dragging the last message to the top shifts every other message down by one position |
| Helpers.ValidMessageText | src/utils/helpers.ts:106-109 | a text is valid exactly when it has a non-whitespace character and its trimmed form is at most 30 code units. Trimming does not change validity |
| Helpers.Clamp | src/utils/helpers.ts:114-116 | with min ≤ max the result lies in [min, max], equals the value when it is in range, and equals the nearer bound when it is not |
| Helpers.ClockHour | src/utils/helpers.ts:18-19 | `hours % 12 \|\| 12` written in decimal has one or two decimal digits, no leading zero, and reads back to a value in 1..12 congruent to the hour mod 12; midnight and noon show 12 |
| Helpers.FormatTimeLayout | src/utils/helpers.ts:17-19 | the output is 7 or 8 characters long, with ':' and ' ' at fixed places from the end and "AM" exactly before noon, otherwise "PM" |
| Helpers.FormatTimeMinute | src/utils/helpers.ts:16 | the two characters after the colon are decimal digits that read back as the minute |
| Helpers.FormatTimeHour | src/utils/helpers.ts:18-19 | the characters before the colon are decimal digits without a leading zero that read as 1..12, congruent to the hour mod 12, and 12 at midnight and noon |
| Helpers.FormatTimeFields | src/utils/helpers.ts:13-20 | `formatTime` shows an hour in decimal digits without a leading zero, 1..12 and congruent to the hour mod 12 (12 for midnight and noon), a colon, the minute as exactly two digits, a space, and "AM" exactly before noon, otherwise "PM" |
| Helpers.RelativeJustNow | src/utils/helpers.ts:29 | the result is "Just now" exactly when the difference is below 60000 ms, negative differences included |
| Helpers.RelativeMinutes | src/utils/helpers.ts:30-33 | below an hour: "n min ago" with n = floor(diff/60000) in 1..59, and "s" after "min" exactly when n > 1 |
| Helpers.RelativeHours | src/utils/helpers.ts:34-37 | below a day: "n hr ago" with n = floor(diff/3600000) in 1..23, and "s" after "hr" exactly when n > 1 |
| Helpers.RelativeFallsBackToClock | src/utils/helpers.ts:38 | a day or more ago, the result is the clock time |
| Helpers.RemoveFirstHash | src/utils/helpers.ts:64 | `replace('#', '')` drops a leading '#' and leaves a text without '#' as it is |
| Helpers.ColorChannels | src/utils/helpers.ts:64-68 | the three channels read from six hex digits lie in 0..255 |
| Helpers.ChannelsOfPacked | src/utils/helpers.ts:66-69 | packing three bytes as `R * 0x10000 + G * 0x100 + B` and shifting and masking them back gives the same bytes |
| Helpers.PackColorRoundTrip | src/utils/helpers.ts:69 | a packed colour is "#" and six lower-case hex digits that read back to the same channels |
| Helpers.LightenSpec | src/utils/helpers.ts:63-70 | `lightenColor` outputs "#" and six lower-case hex digits. Each channel is the input's raised by the amount and capped at 255, so no channel decreases |
| Helpers.DarkenSpec | src/utils/helpers.ts:75-82 | `darkenColor` outputs "#" and six lower-case hex digits. Each channel is the input's lowered by the amount and floored at 0, so no channel increases |
| JsArray.FilterMembers | src/services/MessageService.ts:84 | `filter` keeps exactly the elements that pass, each as often as it occurred |
| JsArray.FilterAppend | src/services/NotificationService.ts:63 | filtering distributes over concatenation, so survivors keep their order |
| JsArray.FilterIdempotent | src/services/NotificationService.ts:63 | filtering twice with the same test is filtering once |
| JsArray.RandomIndexInRange | src/components/AddMessageForm.tsx:47-50 | `Math.floor(Math.random() * n)` with n > 0 is an index below n |
| MessageStorage.AppendedSpec | src/services/MessageService.ts:48-57 | `addMessage` appends one message and leaves the earlier ones unchanged. The new message has the fresh id, the trimmed text, the draft's icon and colour, order = old length, sendCount 0 and no lastSentAt. Dense orders and unique ids (for a fresh id) are kept, and a valid draft gives a valid text |
| MessageStorage.AppendedRanksAndIds | src/services/MessageService.ts:48-57 | the appended message's order is the old length and its id is fresh, so dense orders and unique ids survive `addMessage` |
| MessageStorage.TrimmedDraftValid | src/services/MessageService.ts:50 | the trimmed text of a valid draft is itself valid and already trimmed |
| MessageStorage.MergeSpec | src/services/MessageService.ts:71 | `{...msg, ...updates}`: each of the seven fields takes the patch's value when the patch gives one and keeps its own otherwise, and the merge is the only message with that property. An empty patch is the identity, and applying a patch twice is applying it once |
| MessageStorage.UpdatedSpec | src/services/MessageService.ts:70-72 | `updateMessage` keeps the length and leaves every message without the id as it was. Each message with the id takes the fields the patch gives and keeps the others. An absent id gives the same list. Dense orders survive a patch without `order`, the ids survive a patch without `id`, and updating twice is updating once |
| MessageStorage.FilterUnranked | src/services/MessageService.ts:84 | filtering by id commutes with forgetting the orders |
| MessageStorage.DeletedSpec | src/services/MessageService.ts:84-88 | after `deleteMessage` the id is gone and the orders are the positions. The survivors are exactly the other messages in their old order. An absent id only renumbers, which is no change for a dense list; with unique ids a present id costs exactly one element |
| MessageStorage.MarkedSentSpec | src/services/MessageService.ts:121-126 | `markSent` changes only the messages with the id, giving them lastSentAt = now and sendCount + 1. Length, ids and dense orders are kept, and marking twice adds two sends |
| MessageStorage.SortByOrder | src/services/MessageService.ts:18 | the load sort returns a permutation of the stored list, sorted ascending by `order` |
| MessageStorage.SortStable | src/services/MessageService.ts:18 | the sort is stable: messages with equal `order` keep their stored relative order |
| MessageStorage.SortSorted | src/services/MessageService.ts:18 | sorting a list that is already sorted changes nothing |
| MessageStorage.DenseSorted | src/services/MessageService.ts:18 | a list whose orders are its positions is sorted by order |
| MessageStorage.MessageService.constructor | src/services/MessageService.ts:9 | the service starts with the given defaults and slot contents |
| MessageStorage.MessageService.SaveMessages | src/services/MessageService.ts:32-39 | the slot holds the list after a successful write and is unchanged after a failed one; the error never escapes |
| MessageStorage.MessageService.LoadMessages | src/services/MessageService.ts:13-27 | a read error returns the defaults and writes nothing. A stored list is returned sorted by order and the slot is untouched. An empty slot is filled with the defaults (if the write succeeds), and the defaults are returned |
| MessageStorage.MessageService.AddMessage | src/services/MessageService.ts:44-60 | returns the appended list and stores it unless the write fails |
| MessageStorage.MessageService.UpdateMessage | src/services/MessageService.ts:65-75 | returns the patched list and stores it unless the write fails |
| MessageStorage.MessageService.DeleteMessage | src/services/MessageService.ts:80-91 | returns the filtered, renumbered list and stores it unless the write fails |
| MessageStorage.MessageService.ReorderMessages | src/services/MessageService.ts:96-112 | returns the same list as `reorderMessages` in helpers.ts and stores it unless the write fails |
| MessageStorage.MessageService.MarkSent | src/services/MessageService.ts:117-133 | stores the marked list unless that write fails. It then writes {id, now} to the last-sent slot and returns the list; if that second write is rejected, the call rejects and the last-sent slot is unchanged |
| MessageStorage.MessageService.ResetToDefaults | src/services/MessageService.ts:138-141 | stores the defaults unless the write fails, and returns them |
| MessageStorage.SavedListsReload | src/services/MessageService.ts:13-18 | from a dense list, what add, update (without `order`), delete and markSent store loads back unchanged |
| MessageStorage.ReorderReloads | src/services/MessageService.ts:13-18 | what a reorder stores loads back unchanged |
| MessageStorage.AddThenDragToTop | src/services/MessageService.ts:96-112 | adding a message and dragging it to the top puts it first and shifts every other message down by one |
| MessageStorage.AddDeleteScenario | src/services/MessageService.ts:80-91 | on a dense list with unique ids, adding a fresh message and deleting it again restores the stored list |
| Notifications.Confirmation | src/services/NotificationService.ts:40-44 | the confirmation carries the message's id and text and the send time |
| Notifications.FirstThrower | src/services/NotificationService.ts:50 | `forEach` stops at the first callback that throws: every earlier callback returns, and the one at that position throws (the length when none does) |
| Notifications.FanoutSpec | src/services/NotificationService.ts:50 | `forEach` calls every registered callback once per registration, in order, all with the same confirmation |
| Notifications.UnsubscribeSpec | src/services/NotificationService.ts:62-64 | unsubscribing removes every registration of the callback and keeps the others, in order and as often as they were registered. It is idempotent, and it undoes a subscribe of a callback not registered before |
| Notifications.NotificationService.SendMessage | src/services/NotificationService.ts:24-55 | the listeners registered at call time are called in order with the confirmation. If none throws, the send resolves to the confirmation. Otherwise the first listener that throws is the last one called, and the send rejects with its error. The listener list is unchanged |
| Notifications.NotificationService.OnMessageSent | src/services/NotificationService.ts:60-61 | the callback is appended at the end of the list |
| Notifications.NotificationService.Unsubscribe | src/services/NotificationService.ts:62-64 | the list becomes the filter of itself without the callback |
| Notifications.NotificationService.RemoveAllListeners | src/services/NotificationService.ts:70-72 | the list becomes empty |
| Notifications.NotificationService.constructor | src/services/NotificationService.ts:19 | a new service has no listeners |
| Notifications.SubscribeSendUnsubscribe | src/services/NotificationService.ts:50-64 | a fresh callback hears the send made while it is subscribed and none made after it unsubscribes; the list ends as it started |
| Floating.Outcome | src/services/FloatingService.ts:21-26 | an awaited bridge answer counts as true exactly when the bridge returned true; a throw becomes false |
| Floating.FloatingService.constructor | src/services/FloatingService.ts:12 | the service starts not running, with no bridge calls made |
| Floating.FloatingService.HasOverlayPermission | src/services/FloatingService.ts:17-27 | without Android and the module: false and no call. Otherwise the bridge's answer, with a throw giving false. The running flag is untouched |
| Floating.FloatingService.RequestOverlayPermission | src/services/FloatingService.ts:32-36 | the bridge is called exactly when it exists |
| Floating.FloatingService.StartFloating | src/services/FloatingService.ts:41-56 | without a bridge: false, nothing changes. A bridge answer b is returned and becomes the running flag. A throw gives false and leaves the flag |
| Floating.FloatingService.StopFloating | src/services/FloatingService.ts:61-74 | without a bridge: false, nothing changes. A bridge answer b is returned and the running flag becomes not b. A throw gives false and leaves the flag |
| Floating.FloatingService.UpdateMessages | src/services/FloatingService.ts:79-91 | the bridge is called only when it exists and the overlay is running. The answer is passed through, a throw gives false, and the running flag never changes |
| Floating.FloatingService.MinimizeApp | src/services/FloatingService.ts:96-100 | the bridge is called exactly when it exists |
| Floating.FloatingService.GetIsRunning | src/services/FloatingService.ts:105-107 | reports the running flag exactly |
| Floating.FloatingService.IsSupported | src/services/FloatingService.ts:112-114 | depends on the platform alone |
| Floating.StartStopUpdate | src/services/FloatingService.ts:41-91 | an accepted start and then an accepted stop leave the overlay not running, so a later update calls nothing |
| Floating.NoBridgeNoCalls | src/services/FloatingService.ts:17-100 | without Android or the module, no operation reaches the bridge and the overlay never runs |
| Icons.IconsIndexed | src/constants/icons.ts:3-79 | the catalogue has 62 icons, each found at its own position by name, each in a category of `ICON_CATEGORIES` |
| Icons.IconNamesDistinct | src/constants/icons.ts:3-79 | icon names are pairwise distinct, so a name identifies one icon |
| Icons.IconCategoriesDistinct | src/constants/icons.ts:81-89 | the tabs are pairwise distinct |
| Icons.EveryCategoryHasIcons | src/constants/icons.ts:3-89 | every tab has at least one icon |
| Icons.RandomIconPick | src/components/AddMessageForm.tsx:47-48 | the random icon pick is always a catalogue index |
| Colors.ColorsIndexed | src/constants/colors.ts:3-45 | the palette has 26 colours. Each is found at its own position by hex value, and each is "#" and six hex digits |
| Colors.ColorHexesDistinct | src/constants/colors.ts:3-45 | hex values are pairwise distinct, so a value identifies one colour |
| Colors.HexColorDigits | src/utils/helpers.ts:64 | removing the '#' of a hex colour leaves the six digits the colour helpers parse |
| Colors.PaletteLightensAndDarkens | src/constants/colors.ts:3-45 | every palette colour is accepted by lightenColor and darkenColor, and both give lower-case hex colours |
| Colors.RandomColorPick | src/components/AddMessageForm.tsx:49-50 | the random colour pick is always a palette index |
| Colors.ThemeAccent | src/constants/colors.ts:58-68 | `THEME.accent` and `THEME.floatingBorder` are both "#FF6B35" |
| FloatingWindow.ParseEntry | android/app/src/main/java/com/trippi/floating/FloatingWindowService.java:157-164 | an array entry yields a message exactly when it is an object with all of "id", "text", "icon" and "color" |
| FloatingWindow.ParsedPrefix | android/app/src/main/java/com/trippi/floating/FloatingWindowService.java:152-170 | the parsed list is the longest prefix of entries that parse, each in its place; the first entry that throws and everything after it are lost |
| FloatingWindow.Project | android/app/src/main/java/com/trippi/floating/FloatingWindowService.java:65-77 | the overlay keeps a message's id, text, icon and colour |
| FloatingWindow.EncodedListParses | android/app/src/main/java/com/trippi/floating/FloatingWindowService.java:157-164 | a list the app serialises reaches the overlay whole and in order |
| FloatingWindow.Abs | android/app/src/main/java/com/trippi/floating/FloatingWindowService.java:250 | `Math.abs` is the value or its negation, never negative |
| FloatingWindow.ClampAxis | android/app/src/main/java/com/trippi/floating/FloatingWindowService.java:259-262 | `max(0, min(v, hi))` is at least 0, at most hi when hi ≥ 0, and v itself when v is in range |
| FloatingWindow.DragStaysOnScreen | android/app/src/main/java/com/trippi/floating/FloatingWindowService.java:255-262 | on a screen that can hold the button, a drag keeps it wholly on the screen, and follows the pointer exactly while it stays on the screen |
| FloatingWindow.SnapSpec | android/app/src/main/java/com/trippi/floating/FloatingWindowService.java:276-281 | a release left of mid-screen snaps to the left margin, otherwise to the right margin. On a roomy screen the button stays on the screen, and snapping again changes nothing |
| FloatingWindow.InitialButtonSpec | android/app/src/main/java/com/trippi/floating/FloatingWindowService.java:224-225 | the button starts on the screen, at the spot a right-side snap gives |
| FloatingWindow.MenuPlacement | android/app/src/main/java/com/trippi/floating/FloatingWindowService.java:414-421 | for a button right of the middle the menu's right edge meets the button's right edge; otherwise their left edges meet. The menu sits menuLift above the button, but never above menuMinTop |
| FloatingWindow.OverlayColorsMatchTheme | android/app/src/main/java/com/trippi/floating/FloatingWindowService.java:191 | the accent, menu background and divider colours the overlay hardcodes are the theme's |
| FloatingWindow.EmojiTableListed | android/app/src/main/java/com/trippi/floating/FloatingWindowService.java:507-528 | each of the 18 listed icons gets its own emoji, never the fallback |
| FloatingWindow.EmojiFallback | android/app/src/main/java/com/trippi/floating/FloatingWindowService.java:507-528 | every icon that is not listed gets "📢" |
| FloatingWindow.EmojiIconInCatalogue | android/app/src/main/java/com/trippi/floating/FloatingWindowService.java:507-528 | every listed icon is an icon of the app's catalogue |
| FloatingWindow.FloatingWindowService.constructor | android/app/src/main/java/com/trippi/floating/FloatingWindowService.java:85-94 | no button, no menu, no messages, and the touch state at its initial values (the listener itself is made with the button) |
| FloatingWindow.FloatingWindowService.ParseMessages | android/app/src/main/java/com/trippi/floating/FloatingWindowService.java:152-170 | the list is cleared. A missing or malformed extra leaves it empty; otherwise it is refilled with the parseable prefix. Nothing else changes |
| FloatingWindow.FloatingWindowService.CreateFloatingButton | android/app/src/main/java/com/trippi/floating/FloatingWindowService.java:175-302 | once a button exists nothing happens. Otherwise the button is created at its initial spot with a fresh listener; it is attached exactly when the window manager accepts it, and counts as created either way |
| FloatingWindow.FloatingWindowService.HideMenu | android/app/src/main/java/com/trippi/floating/FloatingWindowService.java:558-568 | the menu and its flag are cleared together; without a menu nothing changes |
| FloatingWindow.FloatingWindowService.ShowMenu | android/app/src/main/java/com/trippi/floating/FloatingWindowService.java:318-430 | an open menu is closed first. The menu is placed beside the button, and shows the current messages with the flag set exactly when the window manager accepts it |
| FloatingWindow.FloatingWindowService.ToggleMenu | android/app/src/main/java/com/trippi/floating/FloatingWindowService.java:307-313 | the menu becomes visible exactly when it was hidden and the window manager accepts it; a visible menu is hidden |
| FloatingWindow.FloatingWindowService.UpdateMenuContent | android/app/src/main/java/com/trippi/floating/FloatingWindowService.java:573-578 | a visible menu is rebuilt on the current messages; a hidden one stays hidden |
| FloatingWindow.FloatingWindowService.OnStartCommand | android/app/src/main/java/com/trippi/floating/FloatingWindowService.java:96-119 | "update_messages" re-parses the list and rebuilds a visible menu, and never touches the button. Any other intent parses the list it carries, leaves the menu alone and ensures a button exists |
| FloatingWindow.FloatingWindowService.TouchDown | android/app/src/main/java/com/trippi/floating/FloatingWindowService.java:237-244 | on an attached button, the listener records the button and pointer positions and the time, and the gesture is not a drag |
| FloatingWindow.FloatingWindowService.TouchMove | android/app/src/main/java/com/trippi/floating/FloatingWindowService.java:246-270 | a move beyond 10 px on either axis starts a drag, which lasts until release. While dragging, the button follows the pointer, clamped to the screen |
| FloatingWindow.FloatingWindowService.TouchUp | android/app/src/main/java/com/trippi/floating/FloatingWindowService.java:272-290 | a release within 300 ms without a drag toggles the menu. A release after a drag snaps x to the near edge and keeps y. A slow release without a drag changes nothing. The drag ends |
| FloatingWindow.FloatingWindowService.OnDestroy | android/app/src/main/java/com/trippi/floating/FloatingWindowService.java:581-592 | the menu and the button are dropped; the messages, the button's last position, the touch state and the menu placement are kept |
| FloatingWindow.RefusedButtonStaysDetached | android/app/src/main/java/com/trippi/floating/FloatingWindowService.java:175-302 | once the window manager has refused the button, later start intents create nothing and the button stays detached |
| FloatingWindow.TapTapScenario | android/app/src/main/java/com/trippi/floating/FloatingWindowService.java:272-290 | a tap opens the menu beside the button and a second tap closes it, with the button and messages unchanged |

## Left out

- `generateId` (src/utils/helpers.ts:6-8) depends on the clock and randomness. New ids are parameters of `AddMessage`.
- `getContrastColor` (src/utils/helpers.ts:87-94) compares a floating-point luminance.
- `serializeMessages`, `JSON.stringify` and `JSON.parse` are treated as the identity, and AsyncStorage as two fields. A stored value that is not valid JSON is not modelled.
- The default message list lives in a file that is not part of this model. It is a constant given to the `MessageService` constructor.
- Helpers.FormatTime, Helpers.FormatRelativeTime: take the hour, the minute and `now` as integers instead of reading a `Date` in the device's time zone.
- Helpers.LightenColor, Helpers.DarkenColor: take the rounded amount `Math.round(2.55 * percent)` as a non-negative integer. They require the input (after dropping the first '#') to be six hex digits. A shorter or non-hex input still gives a well-defined but different colour: "#FFF" parses to 4095, and `NaN` shifts to 0. That colour is not modelled. Every caller passes a palette colour, and `Colors.PaletteLightensAndDarkens` shows that all of them meet the requirement.
- Helpers.Reorder, MessageStorage.MessageService.ReorderMessages: require a non-empty list and an in-range `fromIndex`. Otherwise `splice` removes nothing and inserts `undefined`, which a sequence of messages cannot hold. The target index is normalised as `splice` does.
- MessageStorage.Merge: a patch key set explicitly to `undefined` (which overwrites the field in a spread) is not modelled; a patch field is either present with a value or absent.
- The 150 ms send delay, and the flash and auto-clear timers of the screens, are not modelled. `await` points are sequential steps; interleaving between concurrent async calls and re-entrant listener callbacks is not modelled.
- Notifications.NotificationService.SendMessage: what a listener does, beyond returning or throwing, is not modelled. Whether each callback throws is a parameter, and the rejection carries the callback that threw rather than its error value.
- `console` logging, the foreground notification, Toast messages, the broadcast of an overlay send, the launch intent of the "Edit Messages" row and every view's construction and styling are not modelled.
- `sendMessageFromOverlay` (FloatingWindowService.java:534-553) only shows a Toast and sends a broadcast, so it is not modelled.
- FloatingWindow.Layout: each `dpToPx` value (float density, `Math.round`) is a given pixel count.
- FloatingWindow.FloatingWindowService.TouchMove: touch coordinates are integers, so the float `getRawX` values and their `(int)` truncation are not modelled. Java's 32-bit overflow of positions is not modelled either.
- FloatingWindow.FloatingWindowService.HideMenu, OnDestroy: a `removeView` that throws has no effect on the modelled state, because the source clears its fields anyway. `updateViewLayout` failures are also without effect.
- FloatingWindow.JsonValue: the values of an object are the strings org.json's `getString` turns them into (it converts numbers, booleans and null to text). Only a missing key or a non-object entry throws. JSON syntax is reduced to "well-formed array or not".
- React components, screens and hooks (rendering, animation, gestures, `setTimeout`) are outside the model. Their small guards are covered by the service and helper contracts: the empty-text check of the add form, and the same-index check of the list.
- BikeMessengerModule.java and MainApplication.kt (permission checks, service intents, package registration) are not part of this model.
