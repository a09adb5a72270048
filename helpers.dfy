/**
 * The pure helpers of src/utils/helpers.ts: the drag-and-drop list move,
 * message text validation, clamp, clock and relative-time formatting, and
 * hex colour lightening and darkening.
 */
module Helpers {
  import opened Messages
  import opened JsText

  // ---------------------------------------------------------------------------
  // Math.min / Math.max
  // ---------------------------------------------------------------------------

  function Min(a: int, b: int): int {
    if a <= b then a else b
  }

  function Max(a: int, b: int): int {
    if a >= b then a else b
  }

  // ---------------------------------------------------------------------------
  // List move: two Array.prototype.splice calls
  // ---------------------------------------------------------------------------

  /**
   * How splice interprets its start argument on a list of length len:
   * a negative start counts back from the end, and the result is clamped to 0..len.
   */
  function SpliceStart(k: int, len: nat): (r: nat)
    ensures r <= len
    ensures 0 <= k <= len ==> r == k
  {
    if k < 0 then (if len + k < 0 then 0 else len + k) else if k > len then len else k
  }

  /** `list.splice(k, 1)` on a copy: the list without position k. */
  function RemoveAt<T>(s: seq<T>, k: nat): (r: seq<T>)
    requires k < |s|
    ensures |r| == |s| - 1
  {
    s[..k] + s[k + 1..]
  }

  /** `list.splice(k, 0, x)` on a copy: x placed at position k. */
  function InsertAt<T>(s: seq<T>, k: nat, x: T): (r: seq<T>)
    requires k <= |s|
    ensures |r| == |s| + 1
  {
    s[..k] + [x] + s[k..]
  }

  /**
   * `const [removed] = result.splice(fromIndex, 1); result.splice(toIndex, 0, removed);`
   * The source only has an element to move when the first splice removes one,
   * that is when the list is non-empty and fromIndex < length.
   */
  function Move<T>(s: seq<T>, from: int, to: int): (r: seq<T>)
    requires |s| > 0 && from < |s|
    ensures |r| == |s|
  {
    var f := SpliceStart(from, |s|);
    var rest := RemoveAt(s, f);
    InsertAt(rest, SpliceStart(to, |rest|), s[f])
  }

  /** Where the element at position i after Move(s, f, t) came from. */
  function MoveSource(f: nat, t: nat, i: nat): nat {
    if i == t then f
    else
      var k := if i < t then i else i - 1;
      if k < f then k else k + 1
  }

  lemma RemoveInsert<T>(s: seq<T>, k: nat, x: T)
    requires k <= |s|
    ensures RemoveAt(InsertAt(s, k, x), k) == s
  {
    var m := InsertAt(s, k, x);
    assert m[..k] == s[..k];
    assert m[k + 1..] == s[k..];
  }

  lemma InsertRemove<T>(s: seq<T>, k: nat)
    requires k < |s|
    ensures InsertAt(RemoveAt(s, k), k, s[k]) == s
  {
    var r := RemoveAt(s, k);
    assert r[..k] == s[..k];
    assert r[k..] == s[k + 1..];
  }

  /** Position by position, Move(s, f, t) reads s through MoveSource. */
  lemma MoveAt<T>(s: seq<T>, f: nat, t: nat, i: nat)
    requires f < |s| && t < |s| && i < |s|
    ensures MoveSource(f, t, i) < |s|
    ensures Move(s, f, t)[i] == s[MoveSource(f, t, i)]
  {
    var rest := RemoveAt(s, f);
    if i != t {
      var k := if i < t then i else i - 1;
      assert Move(s, f, t)[i] == rest[k];
    }
  }

  /** The moved list holds the same elements, each as often as before. */
  lemma MovePermutation<T>(s: seq<T>, from: int, to: int)
    requires |s| > 0 && from < |s|
    ensures multiset(Move(s, from, to)) == multiset(s)
  {
    var f := SpliceStart(from, |s|);
    var rest := RemoveAt(s, f);
    var t := SpliceStart(to, |rest|);
    calc {
      multiset(Move(s, from, to));
      multiset(rest[..t] + [s[f]] + rest[t..]);
      { assert rest == rest[..t] + rest[t..]; }
      multiset(rest) + multiset{s[f]};
      { assert s == s[..f] + [s[f]] + s[f + 1..]; }
      multiset(s);
    }
  }

  /**
   * The list move for in-range indices: the removed element lands at `to`, and
   * taking it out again leaves the other elements in their old relative order.
   */
  lemma MoveSpec<T>(s: seq<T>, from: nat, to: nat)
    requires from < |s| && to < |s|
    ensures Move(s, from, to)[to] == s[from]
    ensures RemoveAt(Move(s, from, to), to) == RemoveAt(s, from)
  {
    RemoveInsert(RemoveAt(s, from), to, s[from]);
  }

  /** Moving back from `to` to `from` restores the original list. */
  lemma MoveInverse<T>(s: seq<T>, from: nat, to: nat)
    requires from < |s| && to < |s|
    ensures Move(Move(s, from, to), to, from) == s
  {
    var m := Move(s, from, to);
    MoveSpec(s, from, to);
    InsertRemove(s, from);
  }

  /** Moving commutes with erasing ranks. */
  lemma MoveUnranked(s: seq<BikeMessage>, from: nat, to: nat)
    requires from < |s| && to < |s|
    ensures UnrankedAll(Move(s, from, to)) == Move(UnrankedAll(s), from, to)
  {
    var u := UnrankedAll(s);
    forall i | 0 <= i < |s|
      ensures UnrankedAll(Move(s, from, to))[i] == Move(u, from, to)[i]
    {
      MoveAt(s, from, to, i);
      MoveAt(u, from, to, i);
    }
  }

  /** `reorderMessages`: move one message, then give every message its new index as `order`. */
  function Reorder(messages: seq<BikeMessage>, fromIndex: int, toIndex: int): (r: seq<BikeMessage>)
    requires |messages| > 0 && fromIndex < |messages|
  {
    Renumber(Move(messages, fromIndex, toIndex))
  }

  /**
   * For in-range indices the reordered list is a permutation of the input
   * (ignoring ranks), its ranks are its positions, the moved message sits at
   * toIndex, and all other messages keep their relative order.
   */
  lemma ReorderSpec(messages: seq<BikeMessage>, fromIndex: nat, toIndex: nat)
    requires fromIndex < |messages| && toIndex < |messages|
    ensures |Reorder(messages, fromIndex, toIndex)| == |messages|
    ensures Dense(Reorder(messages, fromIndex, toIndex))
    ensures multiset(UnrankedAll(Reorder(messages, fromIndex, toIndex))) == multiset(UnrankedAll(messages))
    ensures Reorder(messages, fromIndex, toIndex)[toIndex] == messages[fromIndex].(order := toIndex)
    ensures UnrankedAll(RemoveAt(Reorder(messages, fromIndex, toIndex), toIndex))
         == UnrankedAll(RemoveAt(messages, fromIndex))
  {
    var m := Move(messages, fromIndex, toIndex);
    var u := UnrankedAll(messages);
    MoveUnranked(messages, fromIndex, toIndex);
    assert UnrankedAll(Reorder(messages, fromIndex, toIndex)) == Move(u, fromIndex, toIndex);
    MovePermutation(u, fromIndex, toIndex);
    MoveSpec(messages, fromIndex, toIndex);
    MoveSpec(u, fromIndex, toIndex);
    UnrankedRemoveAt(Reorder(messages, fromIndex, toIndex), toIndex);
    UnrankedRemoveAt(messages, fromIndex);
  }

  /** Erasing ranks commutes with removing one position. */
  lemma UnrankedRemoveAt(s: seq<BikeMessage>, k: nat)
    requires k < |s|
    ensures UnrankedAll(RemoveAt(s, k)) == RemoveAt(UnrankedAll(s), k)
  {
    forall i | 0 <= i < |s| - 1
      ensures UnrankedAll(RemoveAt(s, k))[i] == RemoveAt(UnrankedAll(s), k)[i]
    {
      if i < k {
        assert RemoveAt(s, k)[i] == s[i];
      } else {
        assert RemoveAt(s, k)[i] == s[i + 1];
      }
    }
  }

  /**
   * Reordering from i to j and then from j to i gives back the original
   * messages, renumbered; a list whose ranks were dense comes back unchanged.
   */
  lemma ReorderInverse(messages: seq<BikeMessage>, i: nat, j: nat)
    requires i < |messages| && j < |messages|
    ensures |Reorder(messages, i, j)| == |messages|
    ensures Reorder(Reorder(messages, i, j), j, i) == Renumber(messages)
    ensures Dense(messages) ==> Reorder(Reorder(messages, i, j), j, i) == messages
  {
    var m := Move(messages, i, j);
    var r := Renumber(m);
    MoveUnranked(r, j, i);
    MoveUnranked(m, j, i);
    MoveInverse(messages, i, j);
    RenumberUnranked(Move(r, j, i), Move(m, j, i));
    if Dense(messages) {
      RenumberDense(messages);
    }
  }

  /**
   * Dragging the last message to the top: it gets rank 0 and every other
   * message moves down one place, its rank one higher than its old position.
   */
  lemma ReorderLastToFront(messages: seq<BikeMessage>)
    requires |messages| > 0
    ensures Reorder(messages, |messages| - 1, 0)[0] == messages[|messages| - 1].(order := 0)
    ensures forall i :: 0 <= i < |messages| - 1 ==>
              Reorder(messages, |messages| - 1, 0)[i + 1] == messages[i].(order := i + 1)
  {
    var f := |messages| - 1;
    MoveAt(messages, f, 0, 0);
    forall i | 0 <= i < f
      ensures Reorder(messages, f, 0)[i + 1] == messages[i].(order := i + 1)
    {
      MoveAt(messages, f, 0, i + 1);
    }
  }

  // ---------------------------------------------------------------------------
  // Text validation and clamp
  // ---------------------------------------------------------------------------

  /** `isValidMessageText`: the trimmed text is 1 to 30 UTF-16 code units long. */
  function IsValidMessageText(text: string): bool {
    var n := Utf16Length(Trim(text));
    1 <= n <= 30
  }

  /**
   * A text is valid exactly when it contains a non-whitespace character and its
   * trimmed form is at most 30 code units; validity does not change under trim.
   */
  lemma ValidMessageText(text: string)
    ensures IsValidMessageText(text) <==>
              (exists k :: 0 <= k < |text| && !IsWhitespace(text[k])) && Utf16Length(Trim(text)) <= 30
    ensures IsValidMessageText(Trim(text)) == IsValidMessageText(text)
    ensures IsValidMessageText(text) ==> 1 <= |Trim(text)| <= 30
  {
    var a, b := TrimBounds(text);
    TrimIdempotent(text);
    if a < b {
      assert !IsWhitespace(text[a]);
    } else {
      assert forall k :: 0 <= k < |text| ==> IsWhitespace(text[k]) by {
        forall k | 0 <= k < |text| ensures IsWhitespace(text[k]) {
          if k >= b {
          } else {
            assert k < a;
          }
        }
      }
    }
  }

  /** `clamp`: Math.min(Math.max(value, min), max). */
  function Clamp(value: int, min: int, max: int): (r: int)
    ensures r <= max
    ensures min <= max ==> min <= r
    ensures min <= value <= max ==> r == value
    ensures value < min && min <= max ==> r == min
    ensures value > max ==> r == max
  {
    Min(Max(value, min), max)
  }

  // ---------------------------------------------------------------------------
  // Clock and relative time
  // ---------------------------------------------------------------------------

  /**
   * `formatTime`, given the local hour (0..23) and minute (0..59) that
   * Date.getHours and Date.getMinutes return for the timestamp.
   */
  function FormatTime(hours: int, minutes: int): string
    requires 0 <= hours < 24 && 0 <= minutes < 60
  {
    ToBase(DisplayHour(hours), 10) + ":" + PadStart2(ToBase(minutes, 10)) + " " + (if hours >= 12 then "PM" else "AM")
  }

  /** Where the parts of "h:mm ap" sit, counted from the end. */
  lemma ClockLayout(hs: string, ms: string, ap: string)
    requires |ms| == 2 && |ap| == 2
    ensures var r := hs + ":" + ms + " " + ap;
      && |r| == |hs| + 6
      && r[..|r| - 6] == hs && r[|r| - 6] == ':' && r[|r| - 5..|r| - 3] == ms
      && r[|r| - 5] == ms[0] && r[|r| - 4] == ms[1]
      && r[|r| - 3] == ' ' && r[|r| - 2..] == ap
  {
  }

  /** The 12-hour clock hour: `hours % 12 || 12`. */
  function DisplayHour(hours: int): (h: int)
    requires 0 <= hours < 24
  {
    if hours % 12 == 0 then 12 else hours % 12
  }

  /**
   * The hour field: one or two decimal digits without a leading zero,
   * reading as an hour 1..12 that agrees with the 24-hour hour modulo 12,
   * and 12 at midnight and at noon.
   */
  lemma ClockHour(hours: int)
    requires 0 <= hours < 24
    ensures var hs := ToBase(DisplayHour(hours), 10);
      && 1 <= |hs| <= 2
      && (forall k :: 0 <= k < |hs| ==> IsDecimalDigit(hs[k])) && hs[0] != '0'
      && 1 <= ParseBase(hs, 10) <= 12
      && ParseBase(hs, 10) % 12 == hours % 12
      && (hours == 0 || hours == 12 ==> ParseBase(hs, 10) == 12)
  {
    var dh := DisplayHour(hours);
    ToBaseRoundTrip(dh, 10);
    if dh >= 10 {
      DigitCharValue(dh % 10);
      assert ToBase(dh, 10) == ToBase(dh / 10, 10) + [DigitChar(dh % 10)];
    } else {
      DigitCharValue(dh);
    }
  }

  /** FormatTime is the hour field, ':', the two-digit minute field, ' ' and the AM/PM marker. */
  lemma FormatTimeParts(hours: int, minutes: int)
    requires 0 <= hours < 24 && 0 <= minutes < 60
    ensures var hs, ms := ToBase(DisplayHour(hours), 10), PadStart2(ToBase(minutes, 10));
      && |ms| == 2
      && FormatTime(hours, minutes) == hs + ":" + ms + " " + (if hours >= 12 then "PM" else "AM")
  {
    PaddedDecimal(minutes);
  }

  /** The separators and the AM/PM marker of FormatTime, counted from the end. */
  lemma FormatTimeLayout(hours: int, minutes: int)
    requires 0 <= hours < 24 && 0 <= minutes < 60
    ensures var r := FormatTime(hours, minutes);
      && 7 <= |r| <= 8
      && (r[|r| - 2..] == "AM" <==> hours < 12)
      && (r[|r| - 2..] == "PM" <==> hours >= 12)
      && r[|r| - 3] == ' ' && r[|r| - 6] == ':'
  {
    var hs, ms := ToBase(DisplayHour(hours), 10), PadStart2(ToBase(minutes, 10));
    FormatTimeParts(hours, minutes);
    ClockHour(hours);
    ClockLayout(hs, ms, if hours >= 12 then "PM" else "AM");
  }

  /** The minute field of FormatTime: two decimal digits that read back as the minute. */
  lemma FormatTimeMinute(hours: int, minutes: int)
    requires 0 <= hours < 24 && 0 <= minutes < 60
    ensures var r := FormatTime(hours, minutes);
      && |r| >= 7
      && IsDecimalDigit(r[|r| - 5]) && IsDecimalDigit(r[|r| - 4])
      && ParseBase(r[|r| - 5..|r| - 3], 10) == minutes
  {
    var hs, ms := ToBase(DisplayHour(hours), 10), PadStart2(ToBase(minutes, 10));
    FormatTimeParts(hours, minutes);
    PaddedDecimal(minutes);
    ClockLayout(hs, ms, if hours >= 12 then "PM" else "AM");
  }

  /** The hour field of FormatTime: the clock hour of ClockHour, in front of the colon. */
  lemma FormatTimeHour(hours: int, minutes: int)
    requires 0 <= hours < 24 && 0 <= minutes < 60
    ensures var r := FormatTime(hours, minutes);
      && |r| >= 7
      && (forall k :: 0 <= k < |r| - 6 ==> IsDecimalDigit(r[k])) && r[0] != '0'
      && 1 <= ParseBase(r[..|r| - 6], 10) <= 12
      && ParseBase(r[..|r| - 6], 10) % 12 == hours % 12
      && (hours == 0 || hours == 12 ==> ParseBase(r[..|r| - 6], 10) == 12)
  {
    var hs, ms := ToBase(DisplayHour(hours), 10), PadStart2(ToBase(minutes, 10));
    FormatTimeParts(hours, minutes);
    ClockHour(hours);
    ClockLayout(hs, ms, if hours >= 12 then "PM" else "AM");
    var r := FormatTime(hours, minutes);
    assert forall k :: 0 <= k < |r| - 6 ==> r[k] == hs[k];
  }

  /**
   * What a reader of FormatTime's output finds: a 12-hour clock hour in 1..12
   * (12 for both midnight and noon), a colon, the minute as exactly two digits,
   * a space, and "AM" exactly when the hour is before noon.
   */
  lemma FormatTimeFields(hours: int, minutes: int)
    requires 0 <= hours < 24 && 0 <= minutes < 60
    ensures var r := FormatTime(hours, minutes);
      && 7 <= |r| <= 8
      && (r[|r| - 2..] == "AM" <==> hours < 12)
      && (r[|r| - 2..] == "PM" <==> hours >= 12)
      && r[|r| - 3] == ' ' && r[|r| - 6] == ':'
      && IsDecimalDigit(r[|r| - 5]) && IsDecimalDigit(r[|r| - 4])
      && (forall k :: 0 <= k < |r| - 6 ==> IsDecimalDigit(r[k])) && r[0] != '0'
      && ParseBase(r[|r| - 5..|r| - 3], 10) == minutes
      && 1 <= ParseBase(r[..|r| - 6], 10) <= 12
      && ParseBase(r[..|r| - 6], 10) % 12 == hours % 12
      && (hours == 0 || hours == 12 ==> ParseBase(r[..|r| - 6], 10) == 12)
  {
    FormatTimeLayout(hours, minutes);
    FormatTimeMinute(hours, minutes);
    FormatTimeHour(hours, minutes);
  }

  /**
   * `formatRelativeTime(timestamp)` at clock time `now`, with the local hour and
   * minute of the timestamp for the fall-back clock format.
   */
  function FormatRelativeTime(timestamp: int, now: int, hours: int, minutes: int): string
    requires 0 <= hours < 24 && 0 <= minutes < 60
  {
    var diff := now - timestamp;
    if diff < 60000 then "Just now"
    else if diff < 3600000 then
      var mins := diff / 60000;
      ToBase(mins, 10) + " min" + (if mins > 1 then "s" else "") + " ago"
    else if diff < 86400000 then
      var hrs := diff / 3600000;
      ToBase(hrs, 10) + " hr" + (if hrs > 1 then "s" else "") + " ago"
    else FormatTime(hours, minutes)
  }

  /** "Just now" is shown exactly for differences below one minute, future timestamps included. */
  lemma RelativeJustNow(timestamp: int, now: int, hours: int, minutes: int)
    requires 0 <= hours < 24 && 0 <= minutes < 60
    ensures FormatRelativeTime(timestamp, now, hours, minutes) == "Just now" <==> now - timestamp < 60000
  {
    var diff := now - timestamp;
    var r := FormatRelativeTime(timestamp, now, hours, minutes);
    if diff >= 60000 {
      var n := if diff < 3600000 then diff / 60000 else if diff < 86400000 then diff / 3600000
               else if hours % 12 == 0 then 12 else hours % 12;
      ToBaseDigits(n, 10);
      assert r[0] == ToBase(n, 10)[0];
      assert r[0] != 'J';
    }
  }

  /**
   * Between one minute and one hour the output is the number n of whole minutes
   * (n * 60000 <= diff < (n + 1) * 60000), with "mins" exactly when n > 1.
   */
  lemma RelativeMinutes(timestamp: int, now: int, hours: int, minutes: int, n: nat)
    requires 0 <= hours < 24 && 0 <= minutes < 60
    requires 60000 <= now - timestamp < 3600000
    requires n * 60000 <= now - timestamp < (n + 1) * 60000
    ensures 1 <= n <= 59
    ensures FormatRelativeTime(timestamp, now, hours, minutes)
         == ToBase(n, 10) + (if n > 1 then " mins ago" else " min ago")
  {
    assert (now - timestamp) / 60000 == n;
  }

  /**
   * Between one hour and one day the output is the number n of whole hours
   * (n * 3600000 <= diff < (n + 1) * 3600000), with "hrs" exactly when n > 1.
   */
  lemma RelativeHours(timestamp: int, now: int, hours: int, minutes: int, n: nat)
    requires 0 <= hours < 24 && 0 <= minutes < 60
    requires 3600000 <= now - timestamp < 86400000
    requires n * 3600000 <= now - timestamp < (n + 1) * 3600000
    ensures 1 <= n <= 23
    ensures FormatRelativeTime(timestamp, now, hours, minutes)
         == ToBase(n, 10) + (if n > 1 then " hrs ago" else " hr ago")
  {
    assert (now - timestamp) / 3600000 == n;
  }

  /** From one day on the output is the clock time of the timestamp. */
  lemma RelativeFallsBackToClock(timestamp: int, now: int, hours: int, minutes: int)
    requires 0 <= hours < 24 && 0 <= minutes < 60
    requires now - timestamp >= 86400000
    ensures FormatRelativeTime(timestamp, now, hours, minutes) == FormatTime(hours, minutes)
  {
  }

  // ---------------------------------------------------------------------------
  // Colour arithmetic
  // ---------------------------------------------------------------------------

  /** `hex.replace('#', '')`: removes the first '#' only. */
  function RemoveFirstHash(s: string): (r: string)
    ensures '#' !in s ==> r == s
    ensures |s| > 0 && s[0] == '#' ==> r == s[1..]
  {
    if |s| == 0 then s else if s[0] == '#' then s[1..] else [s[0]] + RemoveFirstHash(s[1..])
  }

  predicate IsSixHexDigits(s: string) {
    |s| == 6 && forall k :: 0 <= k < 6 ==> IsHexDigit(s[k])
  }

  /** "#" followed by six hexadecimal digits. */
  predicate IsHexColor(s: string) {
    |s| == 7 && s[0] == '#' && IsSixHexDigits(s[1..])
  }

  /** "#" followed by six lower-case hexadecimal digits. */
  predicate IsLowerHexColor(s: string) {
    |s| == 7 && s[0] == '#' && forall k :: 1 <= k < 7 ==> IsLowerHexDigit(s[k])
  }

  /** The red, green and blue channels. */
  datatype Rgb = Rgb(r: int, g: int, b: int)

  predicate InByteRange(c: Rgb) {
    0 <= c.r <= 255 && 0 <= c.g <= 255 && 0 <= c.b <= 255
  }

  /** `num >> 16`, `(num >> 8) & 0xff` and `num & 0xff`, for a 24-bit num. */
  function Channels(num: nat): Rgb
    requires num < 0x1000000
  {
    Rgb(num / 0x10000, (num / 0x100) % 0x100, num % 0x100)
  }

  /** The channels of a colour whose digits (after dropping the first '#') are six hex digits. */
  function ColorChannels(hex: string): (c: Rgb)
    requires IsSixHexDigits(RemoveFirstHash(hex))
    ensures InByteRange(c)
  {
    var body := RemoveFirstHash(hex);
    ParseSixHex(body);
    Channels(ParseBase(body, 16))
  }

  /** `#${(0x1000000 + R * 0x10000 + G * 0x100 + B).toString(16).slice(1)}`. */
  function PackColor(c: Rgb): string
    requires InByteRange(c)
  {
    "#" + ToBase(0x1000000 + c.r * 0x10000 + c.g * 0x100 + c.b, 16)[1..]
  }

  lemma {:induction false} ParseSixHex(s: string)
    requires IsSixHexDigits(s)
    ensures ParseBase(s, 16) < 0x1000000
  {
    var k := 0;
    assert ParseBase(s[..0], 16) == 0;
    while k < 6
      invariant 0 <= k <= 6
      invariant ParseBase(s[..k], 16) < Pow(16, k)
    {
      assert s[..k + 1] == s[..k] + [s[k]];
      ParseStep(s[..k], s[k], 16);
      k := k + 1;
    }
    assert s[..6] == s;
  }

  /** 16^6 is 0x1000000, the bound of a 24-bit colour. */
  lemma Pow16Six()
    ensures Pow(16, 6) == 0x1000000
  {
    calc {
      Pow(16, 6);
      16 * Pow(16, 5);
      16 * (16 * Pow(16, 4));
      16 * (16 * (16 * Pow(16, 3)));
      16 * (16 * (16 * (16 * Pow(16, 2))));
      16 * (16 * (16 * (16 * (16 * Pow(16, 1)))));
      16 * (16 * (16 * (16 * (16 * (16 * Pow(16, 0))))));
    }
  }

  /** The channel extraction undoes the packing of three bytes. */
  lemma ChannelsOfPacked(c: Rgb)
    requires InByteRange(c)
    ensures c.r * 0x10000 + c.g * 0x100 + c.b < 0x1000000
    ensures Channels(c.r * 0x10000 + c.g * 0x100 + c.b) == c
  {
    var low := c.g * 0x100 + c.b;
    var x := c.r * 0x10000 + low;
    assert 0 <= low < 0x10000;
    assert x / 0x10000 == c.r;
    assert x % 0x100 == c.b;
    assert x / 0x100 == c.r * 0x100 + c.g;
    assert (c.r * 0x100 + c.g) % 0x100 == c.g;
  }

  /**
   * The packed colour is "#" and six lower-case hex digits, and reading those
   * digits back yields exactly the channels that were packed.
   */
  lemma PackColorRoundTrip(c: Rgb)
    requires InByteRange(c)
    ensures IsLowerHexColor(PackColor(c))
    ensures ParseBase(PackColor(c)[1..], 16) < 0x1000000
    ensures Channels(ParseBase(PackColor(c)[1..], 16)) == c
  {
    var x := c.r * 0x10000 + c.g * 0x100 + c.b;
    ChannelsOfPacked(c);
    Pow16Six();
    LeadingOneHex(6, x);
    var digits := FixedWidth(x, 6, 16);
    assert PackColor(c)[1..] == digits;
    FixedWidthRoundTrip(x, 6, 16);
    FixedWidthLower(x, 6);
  }

  /** `lightenColor(hex, percent)` with the rounded amount `Math.round(2.55 * percent)` given as amount. */
  function LightenColor(hex: string, amount: nat): string
    requires IsSixHexDigits(RemoveFirstHash(hex))
  {
    var c := ColorChannels(hex);
    PackColor(Rgb(Min(255, c.r + amount), Min(255, c.g + amount), Min(255, c.b + amount)))
  }

  /** `darkenColor(hex, percent)` with the rounded amount `Math.round(2.55 * percent)` given as amount. */
  function DarkenColor(hex: string, amount: nat): string
    requires IsSixHexDigits(RemoveFirstHash(hex))
  {
    var c := ColorChannels(hex);
    PackColor(Rgb(Max(0, c.r - amount), Max(0, c.g - amount), Max(0, c.b - amount)))
  }

  /**
   * Lightening gives "#" and six lower-case hex digits whose channels are the
   * input's raised by the amount and capped at 255: never lower than before.
   */
  lemma LightenSpec(hex: string, amount: nat)
    requires IsSixHexDigits(RemoveFirstHash(hex))
    ensures var out := LightenColor(hex, amount);
      && IsLowerHexColor(out)
      && ParseBase(out[1..], 16) < 0x1000000
      && var before, after := ColorChannels(hex), Channels(ParseBase(out[1..], 16));
      && after == Rgb(Min(255, before.r + amount), Min(255, before.g + amount), Min(255, before.b + amount))
      && InByteRange(after)
      && before.r <= after.r && before.g <= after.g && before.b <= after.b
  {
    var c := ColorChannels(hex);
    var shifted := Rgb(Min(255, c.r + amount), Min(255, c.g + amount), Min(255, c.b + amount));
    assert InByteRange(shifted);
    assert LightenColor(hex, amount) == PackColor(shifted);
    PackColorRoundTrip(shifted);
  }

  /**
   * Darkening gives "#" and six lower-case hex digits whose channels are the
   * input's lowered by the amount and floored at 0: never higher than before.
   */
  lemma DarkenSpec(hex: string, amount: nat)
    requires IsSixHexDigits(RemoveFirstHash(hex))
    ensures var out := DarkenColor(hex, amount);
      && IsLowerHexColor(out)
      && ParseBase(out[1..], 16) < 0x1000000
      && var before, after := ColorChannels(hex), Channels(ParseBase(out[1..], 16));
      && after == Rgb(Max(0, before.r - amount), Max(0, before.g - amount), Max(0, before.b - amount))
      && InByteRange(after)
      && after.r <= before.r && after.g <= before.g && after.b <= before.b
  {
    var c := ColorChannels(hex);
    var shifted := Rgb(Max(0, c.r - amount), Max(0, c.g - amount), Max(0, c.b - amount));
    assert InByteRange(shifted);
    assert DarkenColor(hex, amount) == PackColor(shifted);
    PackColorRoundTrip(shifted);
  }
}
