/**
 * The Android overlay service
 * (android/app/src/main/java/com/trippi/floating/FloatingWindowService.java):
 * the message list it parses from the intent's JSON, the draggable button
 * and its edge snap, the quick-send menu's visibility and placement, and
 * the icon-to-emoji lookup. Window-manager calls are reduced to whether an
 * `addView` succeeded; every `dpToPx` size is a given pixel count.
 */
module FloatingWindow {
  import opened Wrappers
  import opened Messages
  import opened Helpers
  import opened Icons
  import opened Colors

  /** The four fields the overlay keeps of a message. */
  datatype MessageData = MessageData(id: string, text: string, icon: string, color: string)

  /**
   * An element of the JSON array: an object, whose values are given as the
   * strings org.json's `getString` turns them into, or anything else.
   */
  datatype JsonValue = JsonObject(fields: map<string, string>) | JsonOther

  /** The intent's "messages" extra: missing, not a JSON array, or an array. */
  datatype MessagesExtra = Absent | Malformed | JsonArray(entries: seq<JsonValue>)

  /** The extras of a start intent. */
  datatype Intent = Intent(action: Option<string>, messages: MessagesExtra)

  /** One array element as a message: an object that has all four keys. */
  function ParseEntry(v: JsonValue): (r: Option<MessageData>)
    ensures r.Some? <==> v.JsonObject? && "id" in v.fields && "text" in v.fields
                         && "icon" in v.fields && "color" in v.fields
  {
    match v
    case JsonObject(f) =>
      if "id" in f && "text" in f && "icon" in f && "color" in f then
        Some(MessageData(f["id"], f["text"], f["icon"], f["color"]))
      else None
    case JsonOther => None
  }

  /** The messages the parse loop adds before the first entry that throws. */
  function ParseAll(entries: seq<JsonValue>): seq<MessageData> {
    if |entries| == 0 then []
    else match ParseEntry(entries[0])
      case None => []
      case Some(d) => [d] + ParseAll(entries[1..])
  }

  /**
   * The parsed list is the longest prefix of the array whose entries all
   * parse, each in its place: k entries parse, and entry k (if any) does not.
   */
  lemma {:induction false} ParsedPrefix(entries: seq<JsonValue>) returns (k: nat)
    ensures k <= |entries| && |ParseAll(entries)| == k
    ensures forall i :: 0 <= i < k ==> ParseEntry(entries[i]) == Some(ParseAll(entries)[i])
    ensures k < |entries| ==> ParseEntry(entries[k]).None?
  {
    if |entries| == 0 || ParseEntry(entries[0]).None? {
      k := 0;
    } else {
      var rest := ParsedPrefix(entries[1..]);
      k := rest + 1;
    }
  }

  /** parseMessages: nothing for a missing or malformed extra, else the parseable prefix. */
  function Parsed(extra: MessagesExtra): seq<MessageData> {
    match extra
    case Absent => []
    case Malformed => []
    case JsonArray(entries) => ParseAll(entries)
  }

  /** The four fields of a stored message that the overlay receives. */
  function Project(m: BikeMessage): (d: MessageData)
    ensures d.id == m.id && d.text == m.text && d.icon == m.icon && d.color == m.color
  {
    MessageData(m.id, m.text, m.icon, m.color)
  }

  /** A message as the app serialises it, reduced to the keys the overlay reads. */
  function Encode(m: BikeMessage): JsonValue {
    JsonObject(map["id" := m.id, "text" := m.text, "icon" := m.icon, "color" := m.color])
  }

  /**
   * A list the app serialises reaches the overlay whole: every entry parses,
   * in order, to the message's four fields.
   */
  lemma {:induction false} EncodedListParses(ms: seq<BikeMessage>)
    ensures ParseAll(seq(|ms|, i requires 0 <= i < |ms| => Encode(ms[i])))
            == seq(|ms|, i requires 0 <= i < |ms| => Project(ms[i]))
  {
    var es := seq(|ms|, i requires 0 <= i < |ms| => Encode(ms[i]));
    if |ms| > 0 {
      EncodedListParses(ms[1..]);
      assert es[1..] == seq(|ms[1..]|, i requires 0 <= i < |ms[1..]| => Encode(ms[1..][i]));
      assert ParseEntry(es[0]) == Some(Project(ms[0]));
    }
  }

  /** A screen position in pixels. */
  datatype Point = Point(x: int, y: int)

  /**
   * The screen and the overlay's sizes in pixels: `buttonSize` is
   * dpToPx(60), `edgeMargin` dpToPx(16), `bottomOffset` dpToPx(200),
   * `menuWidth` dpToPx(220), `menuMinTop` dpToPx(50) and `menuLift`
   * dpToPx(300).
   */
  datatype Layout = Layout(
    screenWidth: nat, screenHeight: nat,
    buttonSize: nat, edgeMargin: nat, bottomOffset: nat,
    menuWidth: nat, menuMinTop: nat, menuLift: nat)

  /** A screen big enough for the button at its margins. */
  predicate Roomy(l: Layout) {
    l.buttonSize + l.edgeMargin <= l.screenWidth && l.buttonSize + l.bottomOffset <= l.screenHeight
  }

  /** The button lies wholly on the screen. */
  predicate OnScreen(l: Layout, p: Point) {
    0 <= p.x <= l.screenWidth - l.buttonSize && 0 <= p.y <= l.screenHeight - l.buttonSize
  }

  /** `Math.abs`. */
  function Abs(v: int): (r: nat)
    ensures r == v || r == -v
  {
    if v < 0 then -v else v
  }

  /** A pointer move beyond this many pixels on either axis starts a drag. */
  const DRAG_SLOP := 10
  /** A release within this many milliseconds of the press, without a drag, is a tap. */
  const TAP_MILLIS := 300

  /** `Math.max(0, Math.min(v, hi))`. */
  function ClampAxis(v: int, hi: int): (r: int)
    ensures 0 <= r
    ensures 0 <= hi ==> r <= hi
    ensures 0 <= v <= hi ==> r == v
    ensures v < 0 ==> r == 0
  {
    Max(0, Min(v, hi))
  }

  /** Where a drag by (dx, dy) from `start` puts the button. */
  function DragTo(l: Layout, start: Point, dx: int, dy: int): Point {
    Point(ClampAxis(start.x + dx, l.screenWidth - l.buttonSize),
          ClampAxis(start.y + dy, l.screenHeight - l.buttonSize))
  }

  /**
   * A drag never takes the button off a screen that can hold it, and a
   * drag that stays on the screen follows the pointer exactly.
   */
  lemma DragStaysOnScreen(l: Layout, start: Point, dx: int, dy: int)
    requires l.buttonSize <= l.screenWidth && l.buttonSize <= l.screenHeight
    ensures OnScreen(l, DragTo(l, start, dx, dy))
    ensures OnScreen(l, Point(start.x + dx, start.y + dy)) ==> DragTo(l, start, dx, dy) == Point(start.x + dx, start.y + dy)
  {
  }

  /** The x a released drag snaps to: the near side's margin. */
  function SnapX(l: Layout, x: int): int {
    if x < l.screenWidth / 2 then l.edgeMargin else l.screenWidth - l.buttonSize - l.edgeMargin
  }

  /**
   * A snap lands at the left margin when the button was left of
   * mid-screen and otherwise at the right margin; on a roomy screen it
   * stays on the screen, and on a screen whose margins lie on their own
   * sides of the middle, snapping again leaves the button where it is.
   */
  lemma SnapSpec(l: Layout, p: Point)
    ensures p.x < l.screenWidth / 2 ==> SnapX(l, p.x) == l.edgeMargin
    ensures p.x >= l.screenWidth / 2 ==> SnapX(l, p.x) + l.buttonSize + l.edgeMargin == l.screenWidth
    ensures Roomy(l) && OnScreen(l, p) ==> OnScreen(l, Point(SnapX(l, p.x), p.y))
    ensures l.edgeMargin < l.screenWidth / 2 <= l.screenWidth - l.buttonSize - l.edgeMargin ==>
              SnapX(l, SnapX(l, p.x)) == SnapX(l, p.x)
  {
  }

  /** Where the button first appears: the right margin, bottomOffset above the bottom. */
  function InitialButton(l: Layout): Point {
    Point(l.screenWidth - l.buttonSize - l.edgeMargin, l.screenHeight - l.buttonSize - l.bottomOffset)
  }

  /** On a roomy screen the button starts on the screen, at the spot a right-side snap would give. */
  lemma InitialButtonSpec(l: Layout)
    requires Roomy(l)
    ensures OnScreen(l, InitialButton(l))
    ensures l.screenWidth / 2 <= InitialButton(l).x ==> SnapX(l, InitialButton(l).x) == InitialButton(l).x
  {
  }

  /** The menu's top-left corner for a button at `button`. */
  function MenuPosition(l: Layout, button: Point): Point {
    Point(if button.x > l.screenWidth / 2 then button.x - l.menuWidth + l.buttonSize else button.x,
          Max(l.menuMinTop, button.y - l.menuLift))
  }

  /**
   * The menu opens towards the middle of the screen: for a button right of
   * the middle the menu's right edge is the button's right edge, otherwise
   * the left edges meet. It sits menuLift above the button, but never above
   * menuMinTop.
   */
  lemma MenuPlacement(l: Layout, button: Point)
    ensures button.x > l.screenWidth / 2 ==> MenuPosition(l, button).x + l.menuWidth == button.x + l.buttonSize
    ensures button.x <= l.screenWidth / 2 ==> MenuPosition(l, button).x == button.x
    ensures MenuPosition(l, button).y >= l.menuMinTop && MenuPosition(l, button).y >= button.y - l.menuLift
    ensures MenuPosition(l, button).y == l.menuMinTop || MenuPosition(l, button).y == button.y - l.menuLift
  {
  }

  /** The accent of the button and menu border (lines 191 and 333). */
  const OVERLAY_ACCENT := "#FF6B35"
  /** The menu background (line 332). */
  const MENU_BACKGROUND := "#1A1F2E"
  /** The menu dividers (line 349). */
  const MENU_DIVIDER := "#30363D"

  /** The colours the overlay hardcodes are the app theme's. */
  lemma OverlayColorsMatchTheme()
    ensures OVERLAY_ACCENT == THEME.accent == THEME.floatingBorder
    ensures MENU_BACKGROUND == THEME.floatingBg && MENU_DIVIDER == THEME.border
  {
  }

  /** An icon name and the emoji the overlay draws for it. */
  datatype EmojiEntry = EmojiEntry(icon: string, emoji: string)

  /** What every icon without a dedicated emoji is drawn as. */
  const DEFAULT_EMOJI := "📢"

  const EMOJI_TABLE_A: seq<EmojiEntry> := [
    EmojiEntry("car-brake-alert", "🛑"),
    EmojiEntry("gas-station", "⛽"),
    EmojiEntry("map-marker-alert", "📍"),
    EmojiEntry("coffee", "☕"),
    EmojiEntry("speedometer", "💨"),
    EmojiEntry("speedometer-slow", "🐌"),
    EmojiEntry("alert-octagon", "🚨"),
    EmojiEntry("hand-back-left", "✋"),
    EmojiEntry("motorbike", "🏍")
  ]

  const EMOJI_TABLE_B: seq<EmojiEntry> := [
    EmojiEntry("navigation", "🧭"),
    EmojiEntry("food", "🍔"),
    EmojiEntry("wrench", "🔧"),
    EmojiEntry("camera", "📷"),
    EmojiEntry("phone", "📞"),
    EmojiEntry("thumb-up", "👍"),
    EmojiEntry("flag-checkered", "🏁"),
    EmojiEntry("weather-rainy", "🌧"),
    EmojiEntry("home", "🏠")
  ]

  /** The 18 icons the overlay draws with a dedicated emoji, in the order of the switch. */
  const EMOJI_TABLE: seq<EmojiEntry> := EMOJI_TABLE_A + EMOJI_TABLE_B

  /** getEmojiForIcon. */
  function EmojiForIcon(iconName: string): string {
    match iconName
    case "car-brake-alert" => "🛑"
    case "gas-station" => "⛽"
    case "map-marker-alert" => "📍"
    case "coffee" => "☕"
    case "speedometer" => "💨"
    case "speedometer-slow" => "🐌"
    case "alert-octagon" => "🚨"
    case "hand-back-left" => "✋"
    case "motorbike" => "🏍"
    case "navigation" => "🧭"
    case "food" => "🍔"
    case "wrench" => "🔧"
    case "camera" => "📷"
    case "phone" => "📞"
    case "thumb-up" => "👍"
    case "flag-checkered" => "🏁"
    case "weather-rainy" => "🌧"
    case "home" => "🏠"
    case _ => DEFAULT_EMOJI
  }

  /** The lookup gives the entry's own emoji, which is not the fallback. */
  predicate Listed(e: EmojiEntry) {
    EmojiForIcon(e.icon) == e.emoji && e.emoji != DEFAULT_EMOJI
  }

  lemma EmojiTableAListed()
    ensures |EMOJI_TABLE| == 18
    ensures forall i :: 0 <= i < 9 ==> Listed(EMOJI_TABLE[i])
  {
  }

  lemma EmojiTableBListed()
    ensures |EMOJI_TABLE| == 18
    ensures forall i :: 9 <= i < 18 ==> Listed(EMOJI_TABLE[i])
  {
  }

  /** A listed icon gets its own emoji, which is never the fallback. */
  lemma EmojiTableListed()
    ensures |EMOJI_TABLE| == 18
    ensures forall i :: 0 <= i < |EMOJI_TABLE| ==> Listed(EMOJI_TABLE[i])
  {
    forall i | 0 <= i < |EMOJI_TABLE|
      ensures Listed(EMOJI_TABLE[i])
    {
      if i < 9 {
        EmojiTableAListed();
      } else {
        EmojiTableBListed();
      }
    }
  }

  /** Every emoji other than the fallback comes from the table: an icon that is not listed gets the fallback. */
  lemma EmojiFallback()
    ensures forall name :: EmojiForIcon(name) != DEFAULT_EMOJI ==>
              exists i :: 0 <= i < |EMOJI_TABLE| && EMOJI_TABLE[i].icon == name
  {
    forall name | EmojiForIcon(name) != DEFAULT_EMOJI
      ensures exists i :: 0 <= i < |EMOJI_TABLE| && EMOJI_TABLE[i].icon == name
    {
      if name == "car-brake-alert" { assert EMOJI_TABLE[0].icon == name; }
      else if name == "gas-station" { assert EMOJI_TABLE[1].icon == name; }
      else if name == "map-marker-alert" { assert EMOJI_TABLE[2].icon == name; }
      else if name == "coffee" { assert EMOJI_TABLE[3].icon == name; }
      else if name == "speedometer" { assert EMOJI_TABLE[4].icon == name; }
      else if name == "speedometer-slow" { assert EMOJI_TABLE[5].icon == name; }
      else if name == "alert-octagon" { assert EMOJI_TABLE[6].icon == name; }
      else if name == "hand-back-left" { assert EMOJI_TABLE[7].icon == name; }
      else if name == "motorbike" { assert EMOJI_TABLE[8].icon == name; }
      else if name == "navigation" { assert EMOJI_TABLE[9].icon == name; }
      else if name == "food" { assert EMOJI_TABLE[10].icon == name; }
      else if name == "wrench" { assert EMOJI_TABLE[11].icon == name; }
      else if name == "camera" { assert EMOJI_TABLE[12].icon == name; }
      else if name == "phone" { assert EMOJI_TABLE[13].icon == name; }
      else if name == "thumb-up" { assert EMOJI_TABLE[14].icon == name; }
      else if name == "flag-checkered" { assert EMOJI_TABLE[15].icon == name; }
      else if name == "weather-rainy" { assert EMOJI_TABLE[16].icon == name; }
      else if name == "home" { assert EMOJI_TABLE[17].icon == name; }
    }
  }

  /** Every icon with a dedicated emoji is an icon of the catalogue the app offers. */
  lemma EmojiIconInCatalogue(i: nat)
    requires i < |EMOJI_TABLE|
    ensures exists k :: 0 <= k < |AVAILABLE_ICONS| && AVAILABLE_ICONS[k].name == EMOJI_TABLE[i].icon
  {
    IconsIndexed();
    EmojiTableListed();
    if i == 0 { assert AVAILABLE_ICONS[4].name == EMOJI_TABLE[0].icon; }
    else if i == 1 { assert AVAILABLE_ICONS[20].name == EMOJI_TABLE[1].icon; }
    else if i == 2 { assert AVAILABLE_ICONS[5].name == EMOJI_TABLE[2].icon; }
    else if i == 3 { assert AVAILABLE_ICONS[29].name == EMOJI_TABLE[3].icon; }
    else if i == 4 { assert AVAILABLE_ICONS[8].name == EMOJI_TABLE[4].icon; }
    else if i == 5 { assert AVAILABLE_ICONS[9].name == EMOJI_TABLE[5].icon; }
    else if i == 6 { assert AVAILABLE_ICONS[2].name == EMOJI_TABLE[6].icon; }
    else if i == 7 { assert AVAILABLE_ICONS[37].name == EMOJI_TABLE[7].icon; }
    else if i == 8 { assert AVAILABLE_ICONS[21].name == EMOJI_TABLE[8].icon; }
    else if i == 9 { assert AVAILABLE_ICONS[11].name == EMOJI_TABLE[9].icon; }
    else if i == 10 { assert AVAILABLE_ICONS[30].name == EMOJI_TABLE[10].icon; }
    else if i == 11 { assert AVAILABLE_ICONS[28].name == EMOJI_TABLE[11].icon; }
    else if i == 12 { assert AVAILABLE_ICONS[52].name == EMOJI_TABLE[12].icon; }
    else if i == 13 { assert AVAILABLE_ICONS[43].name == EMOJI_TABLE[13].icon; }
    else if i == 14 { assert AVAILABLE_ICONS[39].name == EMOJI_TABLE[14].icon; }
    else if i == 15 { assert AVAILABLE_ICONS[59].name == EMOJI_TABLE[15].icon; }
    else if i == 16 { assert AVAILABLE_ICONS[47].name == EMOJI_TABLE[16].icon; }
    else if i == 17 { assert AVAILABLE_ICONS[58].name == EMOJI_TABLE[17].icon; }
  }
  /**
   * The button's touch listener: where the button and the pointer were at
   * the press, whether the gesture has become a drag, and when it began.
   */
  datatype Touch = Touch(initial: Point, initialTouch: Point, isDragging: bool, startTime: int)

  /** A fresh listener: Java's zero defaults. */
  const NO_TOUCH := Touch(Point(0, 0), Point(0, 0), false, 0)

  /**
   * The service's state. `buttonCreated` is `floatingButton != null`;
   * `buttonAttached` says whether the window manager accepted the button.
   * `menu` is the menu view, given by the rows it shows.
   */
  class FloatingWindowService {
    const layout: Layout
    var messages: seq<MessageData>
    var buttonCreated: bool
    var buttonAttached: bool
    var buttonParams: Option<Point>
    var touch: Touch
    var menu: Option<seq<MessageData>>
    var menuParams: Option<Point>
    var isMenuVisible: bool

    /**
     * The flag mirrors the menu view; a menu and a created button both have
     * their layout parameters; on a roomy screen the button is on the screen.
     */
    predicate Valid()
      reads this
    {
      && (isMenuVisible <==> menu.Some?)
      && (menu.Some? ==> menuParams.Some? && buttonParams.Some?)
      && (buttonCreated ==> buttonParams.Some?)
      && (buttonAttached ==> buttonCreated)
      && (buttonParams.Some? && Roomy(layout) ==> OnScreen(layout, buttonParams.value))
    }

    /** onCreate: the screen is measured; no button, no menu, no messages. */
    constructor (layout: Layout)
      ensures this.layout == layout && messages == []
      ensures !buttonCreated && !buttonAttached && buttonParams == None && touch == NO_TOUCH
      ensures menu == None && menuParams == None && !isMenuVisible
      ensures Valid()
    {
      this.layout := layout;
      messages := [];
      buttonCreated := false;
      buttonAttached := false;
      buttonParams := None;
      touch := NO_TOUCH;
      menu := None;
      menuParams := None;
      isMenuVisible := false;
    }

    /**
     * parseMessages: the list is cleared and refilled with the longest
     * parseable prefix of the array; a malformed extra leaves it empty.
     */
    method ParseMessages(extra: MessagesExtra)
      requires Valid()
      modifies this
      ensures Valid()
      ensures messages == Parsed(extra)
      ensures buttonCreated == old(buttonCreated) && buttonAttached == old(buttonAttached)
      ensures buttonParams == old(buttonParams) && touch == old(touch)
      ensures menu == old(menu) && menuParams == old(menuParams) && isMenuVisible == old(isMenuVisible)
    {
      messages := [];
      if !extra.JsonArray? {
        return;
      }
      var entries := extra.entries;
      var i := 0;
      while i < |entries|
        invariant 0 <= i <= |entries|
        invariant messages + ParseAll(entries[i..]) == ParseAll(entries)
        invariant buttonCreated == old(buttonCreated) && buttonAttached == old(buttonAttached)
        invariant buttonParams == old(buttonParams) && touch == old(touch)
        invariant menu == old(menu) && menuParams == old(menuParams) && isMenuVisible == old(isMenuVisible)
      {
        assert entries[i..][1..] == entries[i + 1..];
        var entry := ParseEntry(entries[i]);
        if entry.None? {
          assert ParseAll(entries[i..]) == [];
          break;
        }
        messages := messages + [entry.value];
        i := i + 1;
      }
    }

    /**
     * createFloatingButton: once a button exists nothing happens. Otherwise
     * the button is created at its initial spot with a fresh touch listener,
     * and stays created even when the window manager refuses it.
     */
    method CreateFloatingButton(addFails: bool)
      requires Valid()
      modifies this
      ensures Valid()
      ensures buttonCreated
      ensures old(buttonCreated) ==>
                buttonAttached == old(buttonAttached) && buttonParams == old(buttonParams) && touch == old(touch)
      ensures !old(buttonCreated) ==>
                buttonAttached == !addFails && buttonParams == Some(InitialButton(layout)) && touch == NO_TOUCH
      ensures messages == old(messages)
      ensures menu == old(menu) && menuParams == old(menuParams) && isMenuVisible == old(isMenuVisible)
    {
      if buttonCreated {
        return;
      }
      buttonCreated := true;
      buttonParams := Some(InitialButton(layout));
      if Roomy(layout) {
        InitialButtonSpec(layout);
      }
      touch := NO_TOUCH;
      if !addFails {
        buttonAttached := true;
      }
    }

    /** hideMenu: drops the menu and its flag together; without a menu it does nothing. */
    method HideMenu()
      requires Valid()
      modifies this
      ensures Valid()
      ensures menu == None && !isMenuVisible && menuParams == old(menuParams)
      ensures messages == old(messages)
      ensures buttonCreated == old(buttonCreated) && buttonAttached == old(buttonAttached)
      ensures buttonParams == old(buttonParams) && touch == old(touch)
    {
      if menu.Some? {
        menu := None;
        isMenuVisible := false;
      }
    }

    /**
     * showMenu: any open menu is closed, the menu is placed beside the
     * button, and it shows the current messages if the window manager
     * accepts it; if not, no menu is shown.
     */
    method ShowMenu(addFails: bool)
      requires Valid() && buttonParams.Some?
      modifies this
      ensures Valid()
      ensures messages == old(messages)
      ensures buttonCreated == old(buttonCreated) && buttonAttached == old(buttonAttached)
      ensures buttonParams == old(buttonParams) && touch == old(touch)
      ensures menuParams == Some(MenuPosition(layout, buttonParams.value))
      ensures menu == (if addFails then None else Some(messages))
      ensures isMenuVisible == !addFails
    {
      if menu.Some? {
        HideMenu();
      }
      menuParams := Some(MenuPosition(layout, buttonParams.value));
      if !addFails {
        menu := Some(messages);
        isMenuVisible := true;
      }
    }

    /** toggleMenu: a shown menu is hidden; otherwise a menu is shown if the window manager accepts it. */
    method ToggleMenu(addFails: bool)
      requires Valid() && buttonParams.Some?
      modifies this
      ensures Valid()
      ensures messages == old(messages)
      ensures buttonCreated == old(buttonCreated) && buttonAttached == old(buttonAttached)
      ensures buttonParams == old(buttonParams) && touch == old(touch)
      ensures isMenuVisible == (!old(isMenuVisible) && !addFails)
      ensures isMenuVisible ==> menu == Some(messages)
      ensures old(isMenuVisible) ==> menuParams == old(menuParams)
      ensures !old(isMenuVisible) ==> menuParams == Some(MenuPosition(layout, buttonParams.value))
    {
      if isMenuVisible {
        HideMenu();
      } else {
        ShowMenu(addFails);
      }
    }

    /** updateMenuContent: a visible menu is rebuilt to show the current messages; a hidden one stays hidden. */
    method UpdateMenuContent(addFails: bool)
      requires Valid()
      modifies this
      ensures Valid()
      ensures old(isMenuVisible) ==> menu == (if addFails then None else Some(messages))
      ensures old(isMenuVisible) ==>
                buttonParams.Some? && menuParams == Some(MenuPosition(layout, buttonParams.value))
      ensures !old(isMenuVisible) ==> menu == None && menuParams == old(menuParams)
      ensures isMenuVisible == (old(isMenuVisible) && !addFails)
      ensures messages == old(messages)
      ensures buttonCreated == old(buttonCreated) && buttonAttached == old(buttonAttached)
      ensures buttonParams == old(buttonParams) && touch == old(touch)
    {
      if isMenuVisible {
        HideMenu();
        ShowMenu(addFails);
      }
    }

    /**
     * onStartCommand. An "update_messages" intent re-parses the list,
     * rebuilds a visible menu and never touches the button. Any other
     * intent parses the list if it carries one, leaves an open menu as it
     * was, and creates the button if there is none.
     */
    method OnStartCommand(intent: Option<Intent>, buttonAddFails: bool, menuAddFails: bool)
      requires Valid()
      modifies this
      ensures Valid()
      ensures intent.Some? && intent.value.action == Some("update_messages") ==>
                && messages == Parsed(intent.value.messages)
                && buttonCreated == old(buttonCreated) && buttonAttached == old(buttonAttached)
                && buttonParams == old(buttonParams) && touch == old(touch)
                && isMenuVisible == (old(isMenuVisible) && !menuAddFails)
                && (old(isMenuVisible) ==> menu == (if menuAddFails then None else Some(messages)))
                && (old(isMenuVisible) ==>
                      buttonParams.Some? && menuParams == Some(MenuPosition(layout, buttonParams.value)))
                && (!old(isMenuVisible) ==> menu == None && menuParams == old(menuParams))
      ensures !(intent.Some? && intent.value.action == Some("update_messages")) ==>
                && messages == (if intent.None? || intent.value.messages.Absent? then old(messages)
                                else Parsed(intent.value.messages))
                && buttonCreated && menu == old(menu)
                && menuParams == old(menuParams) && isMenuVisible == old(isMenuVisible)
                && (old(buttonCreated) ==>
                      buttonAttached == old(buttonAttached) && buttonParams == old(buttonParams) && touch == old(touch))
                && (!old(buttonCreated) ==>
                      buttonAttached == !buttonAddFails && buttonParams == Some(InitialButton(layout)) && touch == NO_TOUCH)
    {
      if intent.Some? {
        if intent.value.action == Some("update_messages") {
          ParseMessages(intent.value.messages);
          if isMenuVisible {
            UpdateMenuContent(menuAddFails);
          }
          return;
        }
        if !intent.value.messages.Absent? {
          ParseMessages(intent.value.messages);
        }
      }
      CreateFloatingButton(buttonAddFails);
    }

    /**
     * ACTION_DOWN: the listener records where the button and the pointer
     * were, and when. Touches reach only a button the window manager shows,
     * so every touch event requires an attached button.
     */
    method TouchDown(rawX: int, rawY: int, now: int)
      requires Valid() && buttonAttached
      modifies this
      ensures Valid()
      ensures buttonParams == old(buttonParams)
      ensures touch == Touch(buttonParams.value, Point(rawX, rawY), false, now)
      ensures messages == old(messages) && buttonCreated == old(buttonCreated) && buttonAttached == old(buttonAttached)
      ensures menu == old(menu) && menuParams == old(menuParams) && isMenuVisible == old(isMenuVisible)
    {
      touch := Touch(buttonParams.value, Point(rawX, rawY), false, now);
    }

    /**
     * ACTION_MOVE: a move beyond the slop on either axis starts a drag,
     * which lasts until release; while dragging the button follows the
     * pointer from where it was pressed, clamped to the screen.
     */
    method TouchMove(rawX: int, rawY: int)
      requires Valid() && buttonAttached
      modifies this
      ensures Valid()
      ensures touch.initial == old(touch.initial) && touch.initialTouch == old(touch.initialTouch)
      ensures touch.startTime == old(touch.startTime)
      ensures touch.isDragging == (old(touch.isDragging) || Abs(rawX - touch.initialTouch.x) > DRAG_SLOP
                                                        || Abs(rawY - touch.initialTouch.y) > DRAG_SLOP)
      ensures touch.isDragging ==>
                buttonParams == Some(DragTo(layout, touch.initial, rawX - touch.initialTouch.x, rawY - touch.initialTouch.y))
      ensures !touch.isDragging ==> buttonParams == old(buttonParams)
      ensures touch.isDragging && layout.buttonSize <= layout.screenWidth && layout.buttonSize <= layout.screenHeight ==>
                OnScreen(layout, buttonParams.value)
      ensures messages == old(messages) && buttonCreated == old(buttonCreated) && buttonAttached == old(buttonAttached)
      ensures menu == old(menu) && menuParams == old(menuParams) && isMenuVisible == old(isMenuVisible)
    {
      var dx := rawX - touch.initialTouch.x;
      var dy := rawY - touch.initialTouch.y;
      if Abs(dx) > DRAG_SLOP || Abs(dy) > DRAG_SLOP {
        touch := touch.(isDragging := true);
      }
      if touch.isDragging {
        buttonParams := Some(DragTo(layout, touch.initial, dx, dy));
        if layout.buttonSize <= layout.screenWidth && layout.buttonSize <= layout.screenHeight {
          DragStaysOnScreen(layout, touch.initial, dx, dy);
        }
      }
    }

    /**
     * ACTION_UP: a quick release without a drag toggles the menu, a release
     * after a drag snaps the button to the near edge, keeping its height,
     * and a slow release without a drag does nothing; the drag then ends.
     */
    method TouchUp(now: int, menuAddFails: bool)
      requires Valid() && buttonAttached
      modifies this
      ensures Valid()
      ensures touch == old(touch).(isDragging := false)
      ensures messages == old(messages) && buttonCreated == old(buttonCreated) && buttonAttached == old(buttonAttached)
      ensures !old(touch.isDragging) && now - old(touch.startTime) < TAP_MILLIS ==>
                && buttonParams == old(buttonParams)
                && isMenuVisible == (!old(isMenuVisible) && !menuAddFails)
                && (isMenuVisible ==> menu == Some(messages))
                && (old(isMenuVisible) ==> menuParams == old(menuParams))
                && (!old(isMenuVisible) ==> menuParams == Some(MenuPosition(layout, buttonParams.value)))
      ensures old(touch.isDragging) ==>
                && buttonParams == Some(Point(SnapX(layout, old(buttonParams).value.x), old(buttonParams).value.y))
                && menu == old(menu) && menuParams == old(menuParams)
      ensures !old(touch.isDragging) && now - old(touch.startTime) >= TAP_MILLIS ==>
                buttonParams == old(buttonParams) && menu == old(menu) && menuParams == old(menuParams)
    {
      if !touch.isDragging && now - touch.startTime < TAP_MILLIS {
        ToggleMenu(menuAddFails);
      } else if touch.isDragging {
        var p := buttonParams.value;
        if Roomy(layout) {
          SnapSpec(layout, p);
        }
        buttonParams := Some(Point(SnapX(layout, p.x), p.y));
      }
      touch := touch.(isDragging := false);
    }

    /** onDestroy: the menu and the button are dropped; everything else, the button's last position included, is kept. */
    method OnDestroy()
      requires Valid()
      modifies this
      ensures Valid()
      ensures menu == None && !isMenuVisible && !buttonCreated && !buttonAttached
      ensures messages == old(messages) && buttonParams == old(buttonParams)
      ensures touch == old(touch) && menuParams == old(menuParams)
    {
      HideMenu();
      if buttonCreated {
        buttonCreated := false;
        buttonAttached := false;
      }
    }
  }

  /**
   * A refused button is never retried: once the window manager has refused
   * it, further start intents create nothing and the button stays detached
   * until the service is destroyed.
   */
  method RefusedButtonStaysDetached(s: FloatingWindowService, intent: Option<Intent>)
    requires s.Valid() && !s.buttonCreated
    modifies s
    ensures s.buttonCreated && !s.buttonAttached
  {
    s.OnStartCommand(None, true, false);
    s.OnStartCommand(intent, false, false);
  }

  /**
   * A tap on a created button opens the menu on the current messages,
   * beside the button, and a second tap closes it again.
   */
  method TapTapScenario(s: FloatingWindowService, t: int)
    requires s.Valid() && s.buttonAttached && !s.isMenuVisible
    modifies s
    ensures s.buttonParams == old(s.buttonParams) && s.messages == old(s.messages)
    ensures !s.isMenuVisible && s.menu == None
    ensures s.menuParams == Some(MenuPosition(s.layout, s.buttonParams.value))
  {
    s.TouchDown(0, 0, t);
    s.TouchUp(t, false);
    assert s.menu == Some(s.messages);
    s.TouchDown(0, 0, t);
    s.TouchUp(t, false);
  }
}
