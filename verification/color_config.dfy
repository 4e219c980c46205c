/** The customisable colour table: categories of named colours (and one
    category of sizes), the built-in defaults, merging of a saved table,
    lookups with their fallbacks, and the setters. Persisting the table
    to disk is not part of this model. */
module ColorConfig {
  import opened Common

  /** A stored entry: a colour tuple, or a plain number (sizes). */
  datatype Value = Tuple(components: seq<int>) | Scalar(n: int)

  type Category = map<string, Value>
  type Table = map<string, Category>

  function C3(r: int, g: int, b: int): Value { Tuple([r, g, b]) }
  function C4(r: int, g: int, b: int, a: int): Value { Tuple([r, g, b, a]) }

  const WhiteRgb: Value := Tuple([255, 255, 255])
  const CarCount: nat := 18

  /** The built-in car colours, keyed by the decimal index. */
  function DefaultCarColors(): Category
  {
    map[
      "0" := C3(255, 68, 68), "1" := C3(68, 255, 68), "2" := C3(68, 68, 255), "3" := C3(255, 255, 68),
      "4" := C3(255, 68, 255), "5" := C3(68, 255, 255), "6" := C3(255, 136, 68), "7" := C3(136, 255, 68),
      "8" := C3(255, 136, 255), "9" := C3(136, 68, 255), "10" := C3(255, 200, 68), "11" := C3(68, 200, 255),
      "12" := C3(200, 68, 255), "13" := C3(255, 68, 136), "14" := C3(68, 255, 136), "15" := C3(136, 136, 255),
      "16" := C3(255, 136, 136), "17" := C3(136, 255, 255)]
  }

  /** The built-in brake colours, light to heavy, front and rear. */
  function DefaultBrakeGradient(): Category
  {
    map[
      "front_light" := C3(68, 255, 68), "front_medium" := C3(255, 170, 68), "front_heavy" := C3(255, 68, 68),
      "rear_light" := C3(68, 200, 68), "rear_medium" := C3(255, 140, 68), "rear_heavy" := C3(200, 68, 68)]
  }

  /** The entries `get_brake_color` reads. */
  function BrakeEntries(): set<string>
  {
    {"front_light", "front_medium", "front_heavy", "rear_light", "rear_medium", "rear_heavy"}
  }

  lemma DefaultBrakeEntries()
    ensures BrakeEntries() <= DefaultBrakeGradient().Keys
  {
  }

  /** `_get_defaults`. */
  function Defaults(): Table
  {
    map[
      "car_colors" := DefaultCarColors(),
      "brake_gradient" := DefaultBrakeGradient(),
      "deviation_bars" := map[
        "right" := C3(255, 20, 147), "left" := C3(0, 191, 255), "inactive" := C3(60, 60, 60)],
      "acceleration_heatmap" := map[
        "low" := C3(50, 90, 255), "medium" := C3(60, 220, 60), "high" := C3(255, 50, 50)],
      "delta_speed" := map[
        "slower" := C3(68, 119, 255), "baseline" := C3(60, 220, 60), "faster" := C3(255, 50, 50)],
      "race_timer" := map[
        "minutes" := C3(255, 68, 68), "seconds" := C3(255, 165, 0),
        "milliseconds" := C3(68, 255, 68), "separator" := C3(150, 150, 150)],
      "track" := map[
        "density_plot" := C4(255, 255, 255, 128), "racing_line" := C4(100, 100, 100, 128),
        "outline" := C4(255, 200, 0, 180), "global_racing_line" := C4(57, 255, 20, 255)],
      "theme_dark" := map[
        "bg" := C3(20, 20, 20), "panel_bg" := C3(40, 40, 40), "panel_bg_alpha" := C4(40, 40, 40, 200),
        "header_bg" := C4(60, 60, 60, 220), "text" := C3(255, 255, 255), "text_secondary" := C3(200, 200, 200),
        "text_muted" := C3(150, 150, 150), "accent" := C3(100, 255, 100), "timer_bg" := C4(0, 0, 0, 180)],
      "theme_light" := map[
        "bg" := C3(200, 200, 200), "panel_bg" := C3(245, 245, 245), "panel_bg_alpha" := C4(245, 245, 245, 230),
        "header_bg" := C4(230, 230, 230, 240), "text" := C3(20, 20, 20), "text_secondary" := C3(60, 60, 60),
        "text_muted" := C3(100, 100, 100), "accent" := C3(0, 180, 0), "timer_bg" := C4(255, 255, 255, 200)],
      "intro" := map[
        "title" := C3(255, 200, 0), "subtitle" := C3(150, 150, 150),
        "error" := C3(255, 100, 100), "file_extension" := C3(0, 255, 0)],
      "hud" := map[
        "drag_handle" := C3(150, 150, 150), "collapse_button" := C3(200, 200, 200),
        "toggle_enabled" := C3(100, 255, 100), "toggle_disabled" := C3(100, 100, 100),
        "hover_label_bg" := C4(0, 0, 0, 180), "hover_label_text" := C3(255, 255, 255)],
      "sector_timing" := map[
        "sector_1" := C3(255, 68, 68), "sector_2" := C3(68, 136, 255), "sector_3" := C3(255, 255, 68),
        "overall_best" := C3(180, 68, 255), "personal_best" := C3(68, 255, 68), "slower" := C3(255, 200, 68),
        "current" := C3(255, 255, 255), "delta_positive" := C3(255, 68, 68), "delta_negative" := C3(68, 255, 68)],
      "speed_comparison" := map[
        "faster" := C3(68, 255, 68), "slower" := C3(255, 68, 68), "neutral" := C3(255, 255, 255)],
      "sizes" := map[
        "car_dot_radius" := Scalar(8), "brake_arc_thickness" := Scalar(3), "trail_width" := Scalar(2),
        "racing_line_width" := Scalar(2), "deviation_bar_width" := Scalar(4), "hud_font_size" := Scalar(12),
        "brake_arc_max_radius" := Scalar(120), "deviation_bar_length" := Scalar(20),
        "trail_duration_s" := Scalar(5), "steering_arrow_size" := Scalar(30), "accel_display_size" := Scalar(15)]
    ]
  }

  /** Every built-in category is present with at least its built-in keys. */
  predicate Complete(t: Table)
  {
    "car_colors" in t && "brake_gradient" in t && "sector_timing" in t && "sizes" in t && "theme_dark" in t
    && Covers(t, Defaults())
  }

  /** Every category of d is in t with at least d's keys. */
  predicate Covers(t: Table, d: Table)
  {
    forall cat :: cat in d ==> cat in t && d[cat].Keys <= t[cat].Keys
  }

  lemma DefaultsComplete()
    ensures Complete(Defaults())
  {
  }

  /** Writing one key of a category keeps the table complete. */
  lemma WriteKeepsComplete(t: Table, cat: string, c: Category, key: string, v: Value)
    requires Complete(t) && (cat in t ==> t[cat].Keys <= c.Keys)
    ensures Complete(t[cat := c[key := v]])
  {
    WriteKeepsCovers(t, Defaults(), cat, c[key := v]);
  }

  lemma WriteKeepsCovers(t: Table, d: Table, cat: string, c: Category)
    requires Covers(t, d) && (cat in t ==> t[cat].Keys <= c.Keys)
    ensures Covers(t[cat := c], d)
  {
    var t' := t[cat := c];
    forall k | k in d ensures k in t' && d[k].Keys <= t'[k].Keys {
      if k != cat {
        assert t'[k] == t[k];
      }
    }
  }

  // ---------------------------------------------------------------------
  // Merging a saved table
  // ---------------------------------------------------------------------

  /** A saved JSON value: a list (turned into a tuple) or anything else. */
  datatype SavedValue = List(items: seq<int>) | Plain(v: Value)
  /** A saved category: an object, or something that is not one. */
  datatype SavedCategory = Object(entries: map<string, SavedValue>) | NotObject

  function Convert(v: SavedValue): Value
  {
    match v
    case List(items) => Tuple(items)
    case Plain(x) => x
  }

  /** `_merge_colors`: each saved (category, key) overwrites the current
      entry only when the category exists, is saved as an object, and the
      key exists; nothing is added. */
  function Merge(t: Table, saved: map<string, SavedCategory>): (r: Table)
    ensures r.Keys == t.Keys
    ensures forall cat :: cat in t ==> r[cat].Keys == t[cat].Keys
  {
    map cat | cat in t ::
      if cat in saved && saved[cat].Object? then
        map key | key in t[cat] ::
          if key in saved[cat].entries then Convert(saved[cat].entries[key]) else t[cat][key]
      else t[cat]
  }

  /** An entry changes only to the converted saved value of the same
      category and key; every other entry is kept. */
  lemma MergeSpec(t: Table, saved: map<string, SavedCategory>)
    ensures var r := Merge(t, saved);
      forall cat, key :: cat in t && key in t[cat] ==>
        (r[cat][key] == t[cat][key]
         || (cat in saved && saved[cat].Object? && key in saved[cat].entries
             && r[cat][key] == Convert(saved[cat].entries[key])))
    ensures Complete(t) ==> Complete(Merge(t, saved))
  {
  }

  // ---------------------------------------------------------------------
  // Lookups
  // ---------------------------------------------------------------------

  /** `get_car_color`: white when the index has no entry. */
  function CarColor(t: Table, index: int): Value
    requires Complete(t)
  {
    MapGet(t["car_colors"], IntToDecimal(index), WhiteRgb)
  }

  /** `get_car_colors_list`: indices 0 to 17 in order. */
  function CarColorsList(t: Table): (r: seq<Value>)
    requires Complete(t)
    ensures |r| == CarCount
    ensures forall i :: 0 <= i < CarCount ==> r[i] == CarColor(t, i)
  {
    seq(CarCount, i requires 0 <= i < CarCount => CarColor(t, i))
  }

  /** `get_brake_color`: light below 0.3, medium below 0.7, heavy above;
      any type other than "rear" reads the front colours. */
  function BrakeColor(t: Table, intensity: real, brakeType: string): Value
    requires Complete(t)
  {
    BrakeKeys(t);
    var g := t["brake_gradient"];
    if brakeType == "rear" then
      (if intensity < 0.3 then g["rear_light"] else if intensity < 0.7 then g["rear_medium"] else g["rear_heavy"])
    else
      (if intensity < 0.3 then g["front_light"] else if intensity < 0.7 then g["front_medium"] else g["front_heavy"])
  }

  /** A complete table holds the six brake-gradient entries. */
  lemma BrakeKeys(t: Table)
    requires Complete(t)
    ensures "brake_gradient" in t
    ensures BrakeEntries() <= t["brake_gradient"].Keys
  {
    assert Defaults()["brake_gradient"] == DefaultBrakeGradient();
    DefaultBrakeEntries();
  }

  /** Every type but "rear" reads the front colours, and each intensity
      band reads its own entry. */
  lemma BrakeColorSpec(t: Table, intensity: real, brakeType: string)
    requires Complete(t)
    ensures brakeType != "rear" ==> BrakeColor(t, intensity, brakeType) == BrakeColor(t, intensity, "front")
    ensures intensity < 0.3 ==> BrakeColor(t, intensity, "front") == t["brake_gradient"]["front_light"]
    ensures 0.3 <= intensity < 0.7 ==> BrakeColor(t, intensity, "rear") == t["brake_gradient"]["rear_medium"]
    ensures intensity >= 0.7 ==> BrakeColor(t, intensity, "rear") == t["brake_gradient"]["rear_heavy"]
  {
  }

  /** The table key of a theme. */
  function ThemeKey(themeName: string): string
  {
    "theme_" + themeName
  }

  /** `get_theme`: the named theme, or the dark theme when unknown. */
  function Theme(t: Table, themeName: string): Category
    requires Complete(t)
  {
    var key := ThemeKey(themeName);
    if key in t then t[key] else t["theme_dark"]
  }

  /** The sizes `get_size` falls back to before its final default of 8. */
  function SizeDefaults(): map<string, int>
  {
    map["car_dot_radius" := 8, "brake_arc_thickness" := 3, "trail_width" := 2,
        "racing_line_width" := 2, "deviation_bar_width" := 4, "hud_font_size" := 12]
  }

  /** `get_size`: the stored size, else the built-in fallback table,
      else 8. */
  function Size(t: Table, key: string): Value
  {
    var sizes := StoredSizes(t);
    if key in sizes then sizes[key]
    else if key in SizeDefaults() then Scalar(SizeDefaults()[key])
    else Scalar(8)
  }

  /** The sizes the table stores (none without a "sizes" category). */
  function StoredSizes(t: Table): Category
  {
    if "sizes" in t then t["sizes"] else map[]
  }

  /** `get_sector_color`: white for a missing sector entry. */
  function SectorColor(t: Table, sector: int): Value
  {
    var colors := if "sector_timing" in t then t["sector_timing"] else map[];
    MapGet(colors, "sector_" + IntToDecimal(sector), WhiteRgb)
  }

  /** `get_category_colors`: empty for an unknown category. */
  function CategoryColors(t: Table, category: string): Category
  {
    if category in t then t[category] else map[]
  }

  /** Fallbacks: a stored theme is read as stored and an unknown theme
      reads the dark theme; a stored size wins, the built-in fallback
      table comes next, and an unknown size is 8. */
  lemma LookupFallbacks(t: Table, themeName: string, key: string)
    requires Complete(t)
    ensures ThemeKey(themeName) in t ==> Theme(t, themeName) == t[ThemeKey(themeName)]
    ensures ThemeKey(themeName) !in t ==> Theme(t, themeName) == Theme(t, "dark")
    ensures key in StoredSizes(t) ==> Size(t, key) == StoredSizes(t)[key]
    ensures key !in StoredSizes(t) ==> Size(t, key) == Scalar(MapGet(SizeDefaults(), key, 8))
  {
    DarkThemeKey();
  }

  /** Fallbacks of the colour getters: a car index or a sector without an
      entry reads white. */
  lemma ColorFallbacks(t: Table, index: int, sector: int)
    requires Complete(t)
    ensures IntToDecimal(index) in t["car_colors"] ==> CarColor(t, index) == t["car_colors"][IntToDecimal(index)]
    ensures IntToDecimal(index) !in t["car_colors"] ==> CarColor(t, index) == WhiteRgb
    ensures "sector_" + IntToDecimal(sector) in t["sector_timing"] ==>
      SectorColor(t, sector) == t["sector_timing"]["sector_" + IntToDecimal(sector)]
    ensures "sector_" + IntToDecimal(sector) !in t["sector_timing"] ==> SectorColor(t, sector) == WhiteRgb
  {
  }

  /** An unknown category reads as empty. Every built-in category is
      present in a complete table, so its own getter (`get_brake_gradient`,
      `get_hud_colors`, `get_sizes`, …) reads it as stored. */
  lemma CategoryFallbacks(t: Table, category: string)
    requires Complete(t)
    ensures category in t ==> CategoryColors(t, category) == t[category]
    ensures category !in t ==> CategoryColors(t, category) == map[]
    ensures category in Defaults() ==> category in t && CategoryColors(t, category) == t[category]
  {
  }

  lemma DarkThemeKey()
    ensures ThemeKey("dark") == "theme_dark"
  {
    assert ("theme_" + "dark")[6..] == "dark";
  }


  // ---------------------------------------------------------------------
  // The mutable table
  // ---------------------------------------------------------------------

  class ColorTable {
    var colors: Table

    predicate Valid()
      reads this
    {
      Complete(colors)
    }

    /** A table holding the defaults merged with a saved table when one was
        loaded. */
    constructor (saved: Option<map<string, SavedCategory>>)
      ensures Valid()
      ensures colors == if saved.Some? then Merge(Defaults(), saved.value) else Defaults()
    {
      DefaultsComplete();
      colors := Defaults();
      if saved.Some? {
        MergeSpec(Defaults(), saved.value);
        colors := Merge(Defaults(), saved.value);
      }
    }

    /** `reset_to_defaults`. */
    method ResetToDefaults()
      modifies this
      ensures Valid() && colors == Defaults()
    {
      DefaultsComplete();
      colors := Defaults();
    }

    /** `reset_category`: only a built-in category is restored. */
    method ResetCategory(category: string)
      requires Valid()
      modifies this
      ensures Valid()
      ensures colors == if category in Defaults() then old(colors)[category := Defaults()[category]] else old(colors)
    {
      if category in Defaults() {
        colors := colors[category := Defaults()[category]];
      }
    }

    /** `set_color`: succeeds, and writes, exactly when the category and key
        both exist. The per-category setters are this with a fixed
        category. */
    method SetColor(category: string, key: string, color: seq<int>) returns (ok: bool)
      requires Valid()
      modifies this
      ensures Valid()
      ensures ok <==> category in old(colors) && key in old(colors)[category]
      ensures ok ==> colors == old(colors)[category := old(colors)[category][key := Tuple(color)]]
      ensures !ok ==> colors == old(colors)
    {
      if category in colors && key in colors[category] {
        WriteKeepsComplete(colors, category, colors[category], key, Tuple(color));
        colors := colors[category := colors[category][key := Tuple(color)]];
        return true;
      }
      return false;
    }

    /** `set_car_color`: writes the entry for the index, adding it if new. */
    method SetCarColor(index: int, color: seq<int>)
      requires Valid()
      modifies this
      ensures Valid()
      ensures colors == old(colors)["car_colors" := old(colors)["car_colors"][IntToDecimal(index) := Tuple(color)]]
      ensures CarColor(colors, index) == Tuple(color)
    {
      WriteKeepsComplete(colors, "car_colors", colors["car_colors"], IntToDecimal(index), Tuple(color));
      colors := colors["car_colors" := colors["car_colors"][IntToDecimal(index) := Tuple(color)]];
    }

    /** `set_size`: writes the size, creating the sizes category if missing. */
    method SetSize(key: string, value: int)
      requires Valid()
      modifies this
      ensures Valid()
      ensures var sizes := if "sizes" in old(colors) then old(colors)["sizes"] else map[];
        colors == old(colors)["sizes" := sizes[key := Scalar(value)]]
      ensures Size(colors, key) == Scalar(value)
    {
      var sizes := if "sizes" in colors then colors["sizes"] else map[];
      WriteKeepsComplete(colors, "sizes", sizes, key, Scalar(value));
      colors := colors["sizes" := sizes[key := Scalar(value)]];
    }
  }
}
