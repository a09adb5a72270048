/**
 * The colour catalogue (src/constants/colors.ts): MESSAGE_COLORS, written
 * here as one block per colour family in the source's order, and THEME.
 */
module Colors {
  import opened JsArray
  import opened Helpers

  /** An entry of the colour picker. */
  datatype ColorOption = ColorOption(hex: string, name: string)

  const REDS: seq<ColorOption> := [
    ColorOption("#E74C3C", "Red"),
    ColorOption("#C0392B", "Dark Red"),
    ColorOption("#FF6B6B", "Coral")
  ]

  const ORANGES: seq<ColorOption> := [
    ColorOption("#E67E22", "Orange"),
    ColorOption("#F39C12", "Amber"),
    ColorOption("#FF9F43", "Light Orange")
  ]

  const YELLOWS: seq<ColorOption> := [
    ColorOption("#F1C40F", "Yellow"),
    ColorOption("#FECA57", "Sunflower")
  ]

  const GREENS: seq<ColorOption> := [
    ColorOption("#2ECC71", "Green"),
    ColorOption("#27AE60", "Dark Green"),
    ColorOption("#1ABC9C", "Turquoise"),
    ColorOption("#00B894", "Mint")
  ]

  const BLUES: seq<ColorOption> := [
    ColorOption("#3498DB", "Blue"),
    ColorOption("#2980B9", "Dark Blue"),
    ColorOption("#74B9FF", "Light Blue"),
    ColorOption("#0984E3", "Royal Blue")
  ]

  const PURPLES: seq<ColorOption> := [
    ColorOption("#9B59B6", "Purple"),
    ColorOption("#8E44AD", "Dark Purple"),
    ColorOption("#A29BFE", "Lavender"),
    ColorOption("#6C5CE7", "Indigo")
  ]

  const PINKS: seq<ColorOption> := [
    ColorOption("#FD79A8", "Pink"),
    ColorOption("#E84393", "Hot Pink"),
    ColorOption("#FF6F91", "Salmon")
  ]

  const NEUTRALS: seq<ColorOption> := [
    ColorOption("#636E72", "Gray"),
    ColorOption("#2D3436", "Charcoal"),
    ColorOption("#B2BEC3", "Silver")
  ]

  const MESSAGE_COLORS: seq<ColorOption> :=
    REDS + ORANGES + YELLOWS + GREENS + BLUES + PURPLES + PINKS + NEUTRALS

  /** The app theme; `overlay` is the one entry that is not a hex colour. */
  datatype Theme = Theme(
    background: string,
    surface: string,
    surfaceLight: string,
    surfaceHover: string,
    border: string,
    borderLight: string,
    textPrimary: string,
    textSecondary: string,
    textMuted: string,
    accent: string,
    accentLight: string,
    accentDark: string,
    success: string,
    warning: string,
    danger: string,
    info: string,
    overlay: string,
    shadow: string,
    floatingBg: string,
    floatingBorder: string)

  const THEME := Theme(
    "#0D1117",
    "#161B22",
    "#1C2333",
    "#252D3A",
    "#30363D",
    "#3D4450",
    "#F0F6FC",
    "#8B949E",
    "#6E7681",
    "#FF6B35",
    "#FF8B5E",
    "#E05520",
    "#2ECC71",
    "#F39C12",
    "#E74C3C",
    "#3498DB",
    "rgba(0, 0, 0, 0.75)",
    "#000000",
    "#1A1F2E",
    "#FF6B35")

  /** The position of a hex value in MESSAGE_COLORS, or -1 for a value that is not listed. */
  function ColorIndex(hex: string): int {
    match hex
    case "#E74C3C" => 0
    case "#C0392B" => 1
    case "#FF6B6B" => 2
    case "#E67E22" => 3
    case "#F39C12" => 4
    case "#FF9F43" => 5
    case "#F1C40F" => 6
    case "#FECA57" => 7
    case "#2ECC71" => 8
    case "#27AE60" => 9
    case "#1ABC9C" => 10
    case "#00B894" => 11
    case "#3498DB" => 12
    case "#2980B9" => 13
    case "#74B9FF" => 14
    case "#0984E3" => 15
    case "#9B59B6" => 16
    case "#8E44AD" => 17
    case "#A29BFE" => 18
    case "#6C5CE7" => 19
    case "#FD79A8" => 20
    case "#E84393" => 21
    case "#FF6F91" => 22
    case "#636E72" => 23
    case "#2D3436" => 24
    case "#B2BEC3" => 25
    case _ => -1
  }

  lemma RedsIndexed()
    ensures |REDS| == 3
    ensures forall i :: 0 <= i < 3 ==> ColorIndex(REDS[i].hex) == 0 + i && IsHexColor(REDS[i].hex)
  {
  }

  lemma OrangesIndexed()
    ensures |ORANGES| == 3
    ensures forall i :: 0 <= i < 3 ==> ColorIndex(ORANGES[i].hex) == 3 + i && IsHexColor(ORANGES[i].hex)
  {
  }

  lemma YellowsIndexed()
    ensures |YELLOWS| == 2
    ensures forall i :: 0 <= i < 2 ==> ColorIndex(YELLOWS[i].hex) == 6 + i && IsHexColor(YELLOWS[i].hex)
  {
  }

  lemma GreensIndexed()
    ensures |GREENS| == 4
    ensures forall i :: 0 <= i < 4 ==> ColorIndex(GREENS[i].hex) == 8 + i && IsHexColor(GREENS[i].hex)
  {
  }

  lemma BluesIndexed()
    ensures |BLUES| == 4
    ensures forall i :: 0 <= i < 4 ==> ColorIndex(BLUES[i].hex) == 12 + i && IsHexColor(BLUES[i].hex)
  {
  }

  lemma PurplesIndexed()
    ensures |PURPLES| == 4
    ensures forall i :: 0 <= i < 4 ==> ColorIndex(PURPLES[i].hex) == 16 + i && IsHexColor(PURPLES[i].hex)
  {
  }

  lemma PinksIndexed()
    ensures |PINKS| == 3
    ensures forall i :: 0 <= i < 3 ==> ColorIndex(PINKS[i].hex) == 20 + i && IsHexColor(PINKS[i].hex)
  {
  }

  lemma NeutralsIndexed()
    ensures |NEUTRALS| == 3
    ensures forall i :: 0 <= i < 3 ==> ColorIndex(NEUTRALS[i].hex) == 23 + i && IsHexColor(NEUTRALS[i].hex)
  {
  }

  /**
   * ColorIndex finds every listed colour at its own position, and every hex
   * value is "#" followed by six hexadecimal digits.
   */
  lemma ColorsIndexed()
    ensures |MESSAGE_COLORS| == 26
    ensures forall i :: 0 <= i < |MESSAGE_COLORS| ==> ColorIndex(MESSAGE_COLORS[i].hex) == i
    ensures forall i :: 0 <= i < |MESSAGE_COLORS| ==> IsHexColor(MESSAGE_COLORS[i].hex)
  {
    RedsIndexed();
    OrangesIndexed();
    YellowsIndexed();
    GreensIndexed();
    BluesIndexed();
    PurplesIndexed();
    PinksIndexed();
    NeutralsIndexed();
  }

  /** Hex values are pairwise distinct, so a value identifies one palette entry. */
  lemma ColorHexesDistinct()
    ensures forall i, j :: 0 <= i < j < |MESSAGE_COLORS| ==> MESSAGE_COLORS[i].hex != MESSAGE_COLORS[j].hex
  {
    ColorsIndexed();
  }

  /** A hex colour's digits, once the '#' is dropped, are the six hex digits lighten and darken read. */
  lemma HexColorDigits(hex: string)
    requires IsHexColor(hex)
    ensures RemoveFirstHash(hex) == hex[1..] && IsSixHexDigits(RemoveFirstHash(hex))
  {
  }

  /**
   * Every palette colour is accepted by lightenColor and darkenColor, which
   * then produce a lower-case hex colour.
   */
  lemma PaletteLightensAndDarkens(i: nat, amount: nat)
    requires i < |MESSAGE_COLORS|
    ensures IsSixHexDigits(RemoveFirstHash(MESSAGE_COLORS[i].hex))
    ensures IsLowerHexColor(LightenColor(MESSAGE_COLORS[i].hex, amount))
    ensures IsLowerHexColor(DarkenColor(MESSAGE_COLORS[i].hex, amount))
  {
    ColorsIndexed();
    HexColorDigits(MESSAGE_COLORS[i].hex);
    LightenSpec(MESSAGE_COLORS[i].hex, amount);
    DarkenSpec(MESSAGE_COLORS[i].hex, amount);
  }

  /** The random colour pick of the add form always lands on a palette entry. */
  lemma RandomColorPick(num: nat, den: nat)
    requires num < den
    ensures RandomIndex(|MESSAGE_COLORS|, num, den) < |MESSAGE_COLORS|
  {
    ColorsIndexed();
    RandomIndexInRange(|MESSAGE_COLORS|, num, den);
  }

  /** The accent and the floating border are the same orange. */
  lemma ThemeAccent()
    ensures THEME.accent == THEME.floatingBorder == "#FF6B35"
    ensures IsHexColor(THEME.accent)
  {
  }
}