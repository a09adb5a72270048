/**
 * The icon catalogue (src/constants/icons.ts): AVAILABLE_ICONS, written here
 * as one block per category in the source's order, and ICON_CATEGORIES, the
 * picker's tabs.
 */
module Icons {
  import opened JsArray

  /** An entry of the icon picker: the icon's name, its label (`label` in the source) and its tab. */
  datatype IconOption = IconOption(name: string, labelText: string, category: string)

  const ALERT_ICONS: seq<IconOption> := [
    IconOption("alert", "Alert", "Alerts"),
    IconOption("alert-circle", "Alert Circle", "Alerts"),
    IconOption("alert-octagon", "Alert Octagon", "Alerts"),
    IconOption("alert-rhombus", "Alert Diamond", "Alerts"),
    IconOption("car-brake-alert", "Brake Alert", "Alerts"),
    IconOption("map-marker-alert", "Location Alert", "Alerts"),
    IconOption("bell-alert", "Bell Alert", "Alerts"),
    IconOption("hazard-lights", "Hazard", "Alerts")
  ]

  const MOVEMENT_ICONS: seq<IconOption> := [
    IconOption("speedometer", "Speedometer", "Movement"),
    IconOption("speedometer-slow", "Slow Down", "Movement"),
    IconOption("speedometer-medium", "Medium Speed", "Movement"),
    IconOption("navigation", "Navigate", "Movement"),
    IconOption("compass", "Compass", "Movement"),
    IconOption("map-marker", "Location", "Movement"),
    IconOption("map-marker-check", "Destination", "Movement"),
    IconOption("arrow-up-bold", "Go Ahead", "Movement"),
    IconOption("arrow-left-bold", "Turn Left", "Movement"),
    IconOption("arrow-right-bold", "Turn Right", "Movement"),
    IconOption("u-turn-left", "U-Turn", "Movement"),
    IconOption("sign-direction", "Direction", "Movement")
  ]

  const VEHICLE_ICONS: seq<IconOption> := [
    IconOption("gas-station", "Gas Station", "Vehicle"),
    IconOption("motorbike", "Motorbike", "Vehicle"),
    IconOption("bike", "Bicycle", "Vehicle"),
    IconOption("car", "Car", "Vehicle"),
    IconOption("car-brake-parking", "Parking", "Vehicle"),
    IconOption("engine", "Engine", "Vehicle"),
    IconOption("oil", "Oil", "Vehicle"),
    IconOption("tire", "Tire", "Vehicle"),
    IconOption("wrench", "Repair", "Vehicle")
  ]

  const STOP_ICONS: seq<IconOption> := [
    IconOption("coffee", "Coffee", "Stops"),
    IconOption("food", "Food", "Stops"),
    IconOption("food-fork-drink", "Restaurant", "Stops"),
    IconOption("bed", "Rest", "Stops"),
    IconOption("hospital-box", "Hospital", "Stops"),
    IconOption("water", "Water", "Stops"),
    IconOption("toilet", "Restroom", "Stops"),
    IconOption("store", "Store", "Stops")
  ]

  const COMMUNICATION_ICONS: seq<IconOption> := [
    IconOption("hand-back-left", "Stop/Wait", "Communication"),
    IconOption("hand-wave", "Wave", "Communication"),
    IconOption("thumb-up", "Thumbs Up", "Communication"),
    IconOption("thumb-down", "Thumbs Down", "Communication"),
    IconOption("check-circle", "OK", "Communication"),
    IconOption("close-circle", "No", "Communication"),
    IconOption("phone", "Call", "Communication"),
    IconOption("message-text", "Message", "Communication"),
    IconOption("bullhorn", "Announce", "Communication"),
    IconOption("eye", "Watch Out", "Communication")
  ]

  const WEATHER_ICONS: seq<IconOption> := [
    IconOption("weather-rainy", "Rain", "Weather"),
    IconOption("weather-sunny", "Sunny", "Weather"),
    IconOption("weather-fog", "Fog", "Weather"),
    IconOption("road-variant", "Road", "Weather"),
    IconOption("image-filter-hdr", "Mountain", "Weather")
  ]

  const ACTION_ICONS: seq<IconOption> := [
    IconOption("camera", "Photo Stop", "Actions"),
    IconOption("map", "Check Map", "Actions"),
    IconOption("clock-fast", "Hurry", "Actions"),
    IconOption("pause-circle", "Pause", "Actions"),
    IconOption("play-circle", "Go", "Actions"),
    IconOption("stop-circle", "Stop", "Actions"),
    IconOption("home", "Head Home", "Actions"),
    IconOption("flag-checkered", "Finish", "Actions"),
    IconOption("star", "Important", "Actions"),
    IconOption("heart", "Love It", "Actions")
  ]

  const AVAILABLE_ICONS: seq<IconOption> :=
    ALERT_ICONS + MOVEMENT_ICONS + VEHICLE_ICONS + STOP_ICONS + COMMUNICATION_ICONS + WEATHER_ICONS + ACTION_ICONS

  const ICON_CATEGORIES: seq<string> := ["Alerts", "Movement", "Vehicle", "Stops", "Communication", "Weather", "Actions"]

  /** The position of an icon name in AVAILABLE_ICONS, or -1 for a name that is not listed. */
  function IconIndex(name: string): int {
    match name
    case "alert" => 0
    case "alert-circle" => 1
    case "alert-octagon" => 2
    case "alert-rhombus" => 3
    case "car-brake-alert" => 4
    case "map-marker-alert" => 5
    case "bell-alert" => 6
    case "hazard-lights" => 7
    case "speedometer" => 8
    case "speedometer-slow" => 9
    case "speedometer-medium" => 10
    case "navigation" => 11
    case "compass" => 12
    case "map-marker" => 13
    case "map-marker-check" => 14
    case "arrow-up-bold" => 15
    case "arrow-left-bold" => 16
    case "arrow-right-bold" => 17
    case "u-turn-left" => 18
    case "sign-direction" => 19
    case "gas-station" => 20
    case "motorbike" => 21
    case "bike" => 22
    case "car" => 23
    case "car-brake-parking" => 24
    case "engine" => 25
    case "oil" => 26
    case "tire" => 27
    case "wrench" => 28
    case "coffee" => 29
    case "food" => 30
    case "food-fork-drink" => 31
    case "bed" => 32
    case "hospital-box" => 33
    case "water" => 34
    case "toilet" => 35
    case "store" => 36
    case "hand-back-left" => 37
    case "hand-wave" => 38
    case "thumb-up" => 39
    case "thumb-down" => 40
    case "check-circle" => 41
    case "close-circle" => 42
    case "phone" => 43
    case "message-text" => 44
    case "bullhorn" => 45
    case "eye" => 46
    case "weather-rainy" => 47
    case "weather-sunny" => 48
    case "weather-fog" => 49
    case "road-variant" => 50
    case "image-filter-hdr" => 51
    case "camera" => 52
    case "map" => 53
    case "clock-fast" => 54
    case "pause-circle" => 55
    case "play-circle" => 56
    case "stop-circle" => 57
    case "home" => 58
    case "flag-checkered" => 59
    case "star" => 60
    case "heart" => 61
    case _ => -1
  }

  lemma AlertIconsIndexed()
    ensures |ALERT_ICONS| == 8
    ensures forall i :: 0 <= i < 8 ==> IconIndex(ALERT_ICONS[i].name) == 0 + i && ALERT_ICONS[i].category == "Alerts"
  {
  }

  lemma MovementIconsIndexed()
    ensures |MOVEMENT_ICONS| == 12
    ensures forall i :: 0 <= i < 12 ==> IconIndex(MOVEMENT_ICONS[i].name) == 8 + i && MOVEMENT_ICONS[i].category == "Movement"
  {
  }

  lemma VehicleIconsIndexed()
    ensures |VEHICLE_ICONS| == 9
    ensures forall i :: 0 <= i < 9 ==> IconIndex(VEHICLE_ICONS[i].name) == 20 + i && VEHICLE_ICONS[i].category == "Vehicle"
  {
  }

  lemma StopIconsIndexed()
    ensures |STOP_ICONS| == 8
    ensures forall i :: 0 <= i < 8 ==> IconIndex(STOP_ICONS[i].name) == 29 + i && STOP_ICONS[i].category == "Stops"
  {
  }

  lemma CommunicationIconsIndexed()
    ensures |COMMUNICATION_ICONS| == 10
    ensures forall i :: 0 <= i < 10 ==> IconIndex(COMMUNICATION_ICONS[i].name) == 37 + i && COMMUNICATION_ICONS[i].category == "Communication"
  {
  }

  lemma WeatherIconsIndexed()
    ensures |WEATHER_ICONS| == 5
    ensures forall i :: 0 <= i < 5 ==> IconIndex(WEATHER_ICONS[i].name) == 47 + i && WEATHER_ICONS[i].category == "Weather"
  {
  }

  lemma ActionIconsIndexed()
    ensures |ACTION_ICONS| == 10
    ensures forall i :: 0 <= i < 10 ==> IconIndex(ACTION_ICONS[i].name) == 52 + i && ACTION_ICONS[i].category == "Actions"
  {
  }
  /**
   * IconIndex finds every listed icon at its own position, and every icon's
   * category is one of the picker's tabs.
   */
  lemma IconsIndexed()
    ensures |AVAILABLE_ICONS| == 62
    ensures forall i :: 0 <= i < |AVAILABLE_ICONS| ==> IconIndex(AVAILABLE_ICONS[i].name) == i
    ensures forall i :: 0 <= i < |AVAILABLE_ICONS| ==> AVAILABLE_ICONS[i].category in ICON_CATEGORIES
  {
    AlertIconsIndexed();
    MovementIconsIndexed();
    VehicleIconsIndexed();
    StopIconsIndexed();
    CommunicationIconsIndexed();
    WeatherIconsIndexed();
    ActionIconsIndexed();
  }

  /** Icon names are pairwise distinct, so a name identifies one catalogue entry. */
  lemma IconNamesDistinct()
    ensures forall i, j :: 0 <= i < j < |AVAILABLE_ICONS| ==> AVAILABLE_ICONS[i].name != AVAILABLE_ICONS[j].name
  {
    IconsIndexed();
  }

  /** The tabs are pairwise distinct. */
  lemma IconCategoriesDistinct()
    ensures forall i, j :: 0 <= i < j < |ICON_CATEGORIES| ==> ICON_CATEGORIES[i] != ICON_CATEGORIES[j]
  {
  }

  /** No tab of the picker is empty. */
  lemma EveryCategoryHasIcons()
    ensures forall c :: c in ICON_CATEGORIES ==>
              exists i :: 0 <= i < |AVAILABLE_ICONS| && AVAILABLE_ICONS[i].category == c
  {
    IconsIndexed();
    forall c | c in ICON_CATEGORIES
      ensures exists i :: 0 <= i < |AVAILABLE_ICONS| && AVAILABLE_ICONS[i].category == c
    {
      if c == "Alerts" { assert AVAILABLE_ICONS[0].category == c; }
      else if c == "Movement" { assert AVAILABLE_ICONS[8].category == c; }
      else if c == "Vehicle" { assert AVAILABLE_ICONS[20].category == c; }
      else if c == "Stops" { assert AVAILABLE_ICONS[29].category == c; }
      else if c == "Communication" { assert AVAILABLE_ICONS[37].category == c; }
      else if c == "Weather" { assert AVAILABLE_ICONS[47].category == c; }
      else if c == "Actions" { assert AVAILABLE_ICONS[52].category == c; }
    }
  }

  /** The random icon pick of the add form always lands on a catalogue entry. */
  lemma RandomIconPick(num: nat, den: nat)
    requires num < den
    ensures RandomIndex(|AVAILABLE_ICONS|, num, den) < |AVAILABLE_ICONS|
  {
    IconsIndexed();
    RandomIndexInRange(|AVAILABLE_ICONS|, num, den);
  }
}
