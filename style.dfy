/**
 * The inline style of the target element, seen as a map from property name
 * to value, and the writes the spotlight controller makes to it: the six
 * defaults, the user's overrides, the composite background and the opacity.
 */
module StyleMap {

  datatype Option<+T> = None | Some(value: T)

  /** A value stored in the inline style.
      Text(s) is a literal string, Pixels(x) the pixel length `${x}px`,
      Numeral(n) the decimal rendering String(n) of a number. Formatting a
      number as text is not modelled; only which number was written. */
  datatype CssValue = Text(s: string) | Pixels(px: real) | Numeral(n: real)

  type Style = map<string, CssValue>

  const XKey := "--spotlight-x"
  const YKey := "--spotlight-y"
  const ColorKey := "--spotlight-color"
  const RadiusKey := "--spotlight-radius"
  const IntensityKey := "--spotlight-intensity"
  const BgKey := "--spotlight-bg"
  const BackgroundKey := "background"
  const OpacityKey := "opacity"

  /** The eight property names the controller uses are distinct. */
  lemma KeysDistinct()
    ensures XKey != YKey
    ensures |XKey| == |YKey| == 13 && |ColorKey| == 17 && |RadiusKey| == 18
    ensures |IntensityKey| == 21 && |BgKey| == 14 && |BackgroundKey| == 10 && |OpacityKey| == 7
  {
    assert XKey[12] != YKey[12];
  }

  /** The composite background; its CSS text is an opaque constant here. */
  const GradientBg := "radial-gradient(circle var(--spotlight-radius) at var(--spotlight-x) var(--spotlight-y), var(--spotlight-color), transparent), var(--spotlight-bg)"
  const OpacityValue := "var(--spotlight-intensity)"

  /** The DEFAULTS table, in its declaration (and iteration) order. */
  const Defaults: seq<(string, string)> := [
    (XKey, "50%"),
    (YKey, "50%"),
    (ColorKey, "rgba(255, 255, 255, 0.15)"),
    (RadiusKey, "300px"),
    (IntensityKey, "1"),
    (BgKey, "#1a1a2e")
  ]

  /** Options as the controller reads them. None stands for null/undefined;
      a string option is truthy when present and non-empty. */
  datatype Options = Options(
    color: Option<string>,
    radius: Option<string>,
    intensity: Option<real>,
    bg: Option<string>,
    smoothing: Option<real>)

  /** The empty options object `{}`. */
  const NoOptions := Options(None, None, None, None, None)

  predicate Truthy(v: Option<string>) {
    v.Some? && v.value != ""
  }

  /** The property names of a table of entries. */
  function KeysOf(entries: seq<(string, string)>): set<string> {
    set i | 0 <= i < |entries| :: entries[i].0
  }

  /** The style writes made by setting each entry in order, later entries winning. */
  function EntriesMap(entries: seq<(string, string)>): (m: Style)
    ensures m.Keys == KeysOf(entries)
    ensures |entries| > 0 ==> m[entries[|entries| - 1].0] == Text(entries[|entries| - 1].1)
  {
    if |entries| == 0 then map[]
    else
      var last := entries[|entries| - 1];
      var prefix := entries[..|entries| - 1];
      assert KeysOf(entries) == KeysOf(prefix) + {last.0} by {
        forall k | k in KeysOf(entries) ensures k in KeysOf(prefix) + {last.0} {
          var i :| 0 <= i < |entries| && entries[i].0 == k;
          if i < |entries| - 1 { assert prefix[i].0 == k; }
        }
        forall k | k in KeysOf(prefix) ensures k in KeysOf(entries) {
          var i :| 0 <= i < |prefix| && prefix[i].0 == k;
          assert entries[i].0 == k;
        }
      }
      EntriesMap(prefix)[last.0 := Text(last.1)]
  }

  /** One more loop iteration: setting entry i on top of the first i entries. */
  lemma EntriesMapStep(s: Style, entries: seq<(string, string)>, i: nat)
    requires i < |entries|
    ensures s + EntriesMap(entries[..i + 1]) == (s + EntriesMap(entries[..i]))[entries[i].0 := Text(entries[i].1)]
  {
    assert entries[..i + 1][..i] == entries[..i];
  }

  /** The DEFAULTS table as a style. */
  function DefaultStyle(): Style {
    map[XKey := Text("50%"),
        YKey := Text("50%"),
        ColorKey := Text("rgba(255, 255, 255, 0.15)"),
        RadiusKey := Text("300px"),
        IntensityKey := Text("1"),
        BgKey := Text("#1a1a2e")]
  }

  /** Setting the DEFAULTS entries one after another writes exactly DefaultStyle(). */
  lemma DefaultsWrites()
    ensures EntriesMap(Defaults) == DefaultStyle()
  {
    var d := Defaults;
    var m0: Style := map[];
    var m1 := m0[XKey := Text("50%")];
    var m2 := m1[YKey := Text("50%")];
    var m3 := m2[ColorKey := Text("rgba(255, 255, 255, 0.15)")];
    var m4 := m3[RadiusKey := Text("300px")];
    var m5 := m4[IntensityKey := Text("1")];
    var m6 := m5[BgKey := Text("#1a1a2e")];
    assert d[..1][..0] == [];
    assert EntriesMap(d[..1]) == m1;
    assert d[..2][..1] == d[..1];
    assert EntriesMap(d[..2]) == m2;
    assert d[..3][..2] == d[..2];
    assert EntriesMap(d[..3]) == m3;
    assert d[..4][..3] == d[..3];
    assert EntriesMap(d[..4]) == m4;
    assert d[..5][..4] == d[..4];
    assert EntriesMap(d[..5]) == m5;
    assert d[..6][..5] == d[..5];
    assert d[..6] == d;
    assert EntriesMap(d) == m6;
  }

  /** Every property the controller ever sets: the six defaults, background and opacity. */
  function ControllerKeys(): (ks: set<string>)
    ensures ks == {XKey, YKey, ColorKey, RadiusKey, IntensityKey, BgKey, BackgroundKey, OpacityKey}
  {
    DefaultsWrites();
    KeysOf(Defaults) + {BackgroundKey, OpacityKey}
  }

  /** The writes `applyOptions(o)` performs: colour, radius and bg only when
      truthy, intensity whenever it is not null/undefined (so 0 is written). */
  function OptionWrites(o: Options): (w: Style)
    ensures w.Keys <= {ColorKey, RadiusKey, IntensityKey, BgKey}
    ensures ColorKey in w <==> Truthy(o.color)
    ensures RadiusKey in w <==> Truthy(o.radius)
    ensures IntensityKey in w <==> o.intensity.Some?
    ensures BgKey in w <==> Truthy(o.bg)
    ensures ColorKey in w ==> w[ColorKey] == Text(o.color.value)
    ensures RadiusKey in w ==> w[RadiusKey] == Text(o.radius.value)
    ensures IntensityKey in w ==> w[IntensityKey] == Numeral(o.intensity.value)
    ensures BgKey in w ==> w[BgKey] == Text(o.bg.value)
  {
    var w0: Style := map[];
    var w1 := if Truthy(o.color) then w0[ColorKey := Text(o.color.value)] else w0;
    var w2 := if Truthy(o.radius) then w1[RadiusKey := Text(o.radius.value)] else w1;
    var w3 := if o.intensity.Some? then w2[IntensityKey := Numeral(o.intensity.value)] else w2;
    if Truthy(o.bg) then w3[BgKey := Text(o.bg.value)] else w3
  }

  /** A style override that leaves a given key as it was. */
  predicate KeepsKey(before: Style, after: Style, k: string) {
    (k in after <==> k in before) && (k in before ==> after[k] == before[k])
  }

  /** The inline style after construction, starting from `style0`: the
      defaults, then the user's overrides, then background and opacity.
      Every property the controller does not own is untouched. */
  function ActivatedStyle(style0: Style, o: Options): (r: Style)
    ensures r.Keys == style0.Keys + ControllerKeys()
    ensures forall k :: k !in ControllerKeys() ==> KeepsKey(style0, r, k)
  {
    var d, w := DefaultStyle(), OptionWrites(o);
    assert forall k :: k !in ControllerKeys() ==> k !in d && k !in w;
    (style0 + d + w)[BackgroundKey := Text(GradientBg)][OpacityKey := Text(OpacityValue)]
  }

  /** After construction the position properties hold their defaults and
      background and opacity hold the composite strings. */
  lemma ActivatedFixedValues(style0: Style, o: Options)
    ensures var r := ActivatedStyle(style0, o);
      && r[XKey] == Text("50%") && r[YKey] == Text("50%")
      && r[BackgroundKey] == Text(GradientBg) && r[OpacityKey] == Text(OpacityValue)
  {
    KeysDistinct();
    var w := OptionWrites(o);
    assert XKey !in w && YKey !in w;
  }

  /** After construction each option-controlled property holds the user's
      override when one was written and its default otherwise. */
  lemma ActivatedOptionValues(style0: Style, o: Options)
    ensures var r := ActivatedStyle(style0, o);
      && r[ColorKey] == (if Truthy(o.color) then Text(o.color.value) else Text("rgba(255, 255, 255, 0.15)"))
      && r[RadiusKey] == (if Truthy(o.radius) then Text(o.radius.value) else Text("300px"))
      && r[IntensityKey] == (if o.intensity.Some? then Numeral(o.intensity.value) else Text("1"))
      && r[BgKey] == (if Truthy(o.bg) then Text(o.bg.value) else Text("#1a1a2e"))
  {
    KeysDistinct();
    var d, w := DefaultStyle(), OptionWrites(o);
    var r := ActivatedStyle(style0, o);
    assert r[ColorKey] == if ColorKey in w then w[ColorKey] else d[ColorKey];
    assert r[RadiusKey] == if RadiusKey in w then w[RadiusKey] else d[RadiusKey];
    assert r[IntensityKey] == if IntensityKey in w then w[IntensityKey] else d[IntensityKey];
    assert r[BgKey] == if BgKey in w then w[BgKey] else d[BgKey];
  }

  /** Removing the controller's keys undoes construction on an element that
      had none of them, whatever options were given. */
  lemma ClearUndoesActivation(style0: Style, o: Options)
    requires style0.Keys !! ControllerKeys()
    ensures ActivatedStyle(style0, o) - ControllerKeys() == style0
  {
    var r := ActivatedStyle(style0, o) - ControllerKeys();
    forall k | k in r ensures k in style0 && r[k] == style0[k] {
      assert KeepsKey(style0, ActivatedStyle(style0, o), k);
    }
    forall k | k in style0 ensures k in r {
      assert KeepsKey(style0, ActivatedStyle(style0, o), k);
    }
  }

  /** Writes to controller keys made between construction and teardown (option
      updates, position updates) leave no trace once the keys are removed. */
  lemma ClearAbsorbsWrites(s: Style, w: Style)
    requires w.Keys <= ControllerKeys()
    ensures (s + w) - ControllerKeys() == s - ControllerKeys()
  {
    var a, b := (s + w) - ControllerKeys(), s - ControllerKeys();
    forall k | k in a ensures k in b && a[k] == b[k] {
      assert k !in w;
    }
  }

  /** A single write to a controller key leaves no trace once the keys are removed. */
  lemma ClearAbsorbsUpdate(s: Style, k: string, v: CssValue)
    requires k in ControllerKeys()
    ensures s[k := v] - ControllerKeys() == s - ControllerKeys()
  {
    assert s[k := v] == s + map[k := v];
    ClearAbsorbsWrites(s, map[k := v]);
  }

  /** `setOptions({color: c})` with a non-empty c changes the colour property
      and nothing else. */
  lemma ColorOnlyUpdate(s: Style, c: string)
    requires c != ""
    ensures s + OptionWrites(Options(Some(c), None, None, None, None)) == s[ColorKey := Text(c)]
  {
    var w := OptionWrites(Options(Some(c), None, None, None, None));
    assert w.Keys == {ColorKey};
  }

  /** Clearing the controller's keys is idempotent. */
  lemma ClearIdempotent(s: Style)
    ensures (s - ControllerKeys()) - ControllerKeys() == s - ControllerKeys()
  {
  }

  /** Intensity 0 is falsy in JavaScript but is still written, as "0". */
  lemma ZeroIntensityIsWritten(o: Options)
    requires o.intensity == Some(0.0)
    ensures OptionWrites(o)[IntensityKey] == Numeral(0.0)
  {
  }

  /** An empty colour string is falsy and leaves the colour as it was. */
  lemma EmptyColorIsSkipped(s: Style, o: Options)
    requires o.color == Some("")
    ensures KeepsKey(s, s + OptionWrites(o), ColorKey)
  {
  }
}
