/**
 * The spotlight controller: the element it borrows, the closure state of
 * `showcase` (rendered and target positions, the animating flag), the
 * queued animation frames and the mouse-move subscription, and the
 * operations that change them.
 */
module Showcase {
  import opened StyleMap
  import opened Easing

  /** The target element: its inline style and the `data-spotlight` attribute. */
  class Element {
    var style: Style
    var marked: bool

    constructor (style0: Style, marked0: bool)
      ensures style == style0 && marked == marked0
    {
      style, marked := style0, marked0;
    }
  }

  /** The first argument of `showcase`: absent or falsy, an element, or a
      truthy value that is not an element and so is read as the options. */
  datatype TargetArg = Omitted | ElementArg(e: Element) | OptionsArg(o: Options)

  /** Argument reinterpretation: a non-element first argument becomes the
      options (the second argument is then ignored) and the target falls back
      to the body; a missing options argument becomes `{}`. */
  function Resolve(body: Element, target: TargetArg, options: Option<Options>): (r: (Element, Options))
    ensures r.0 == if target.ElementArg? then target.e else body
    ensures target.OptionsArg? ==> r.1 == target.o
    ensures !target.OptionsArg? ==> r.1 == if options.Some? then options.value else NoOptions
  {
    var (t, o) := if target.OptionsArg? then (Omitted, Some(target.o)) else (target, options);
    var el := if t.ElementArg? then t.e else body;
    (el, if o.Some? then o.value else NoOptions)
  }

  class Spotlight {
    /** The environment guards tripped: every operation is a no-op. */
    const inert: bool
    const el: Element
    const smoothing: real

    var currentX: real
    var currentY: real
    var targetX: real
    var targetY: real
    var animating: bool
    /** Animation-frame callbacks (`tick`) requested and not yet run. */
    var pendingFrames: nat
    /** The mouse-move listener is registered on `el`. */
    var listening: bool

    /** At most one frame is ever queued. While the listener is registered a
        frame is queued exactly when `animating` is set; after teardown
        `animating` is clear but a frame may still be queued. */
    ghost predicate Valid()
      reads this
    {
      && pendingFrames <= 1
      && (animating ==> pendingFrames == 1)
      && (listening ==> (pendingFrames == 1 ==> animating))
      && (!listening ==> !animating)
      && (inert ==> !listening && pendingFrames == 0)
    }

    /** `showcase(target, options)` in an environment given by three flags:
        whether `window` and `document` exist and whether `(hover: none)` matches. */
    constructor (hasWindow: bool, hasDocument: bool, hoverNone: bool,
                 body: Element, target: TargetArg, options: Option<Options>)
      modifies Resolve(body, target, options).0
      ensures Valid()
      ensures inert == (!hasWindow || !hasDocument || hoverNone)
      ensures el == Resolve(body, target, options).0
      ensures inert ==> unchanged(el) && !listening
      ensures !inert ==> el.marked && listening
      ensures !inert ==> el.style == ActivatedStyle(old(Resolve(body, target, options).0.style), Resolve(body, target, options).1)
      ensures var o := Resolve(body, target, options).1;
        smoothing == if o.smoothing.Some? then o.smoothing.value else 0.15
      ensures currentX == 0.0 && currentY == 0.0 && targetX == 0.0 && targetY == 0.0
      ensures !animating && pendingFrames == 0
    {
      inert := !hasWindow || !hasDocument || hoverNone;
      var (target', opts) := Resolve(body, target, options);
      el := target';
      smoothing := if opts.smoothing.Some? then opts.smoothing.value else 0.15;
      currentX, currentY, targetX, targetY := 0.0, 0.0, 0.0, 0.0;
      animating, pendingFrames, listening := false, 0, false;
      new;
      if inert {
        return;
      }
      Activate(opts);
      listening := true;
    }

    /** The style writes of construction, in order: the attribute, the
        DEFAULTS loop, the user's options, background and opacity. */
    method Activate(opts: Options)
      modifies el
      ensures el.marked
      ensures el.style == ActivatedStyle(old(el.style), opts)
    {
      el.marked := true;
      WriteDefaults();
      ApplyOptions(opts);
      el.style := el.style[BackgroundKey := Text(GradientBg)];
      el.style := el.style[OpacityKey := Text(OpacityValue)];
    }

    /** The loop over DEFAULTS, setting each property in turn. */
    method WriteDefaults()
      modifies el
      ensures el.style == old(el.style) + DefaultStyle()
      ensures el.marked == old(el.marked)
    {
      for i := 0 to |Defaults|
        modifies el
        invariant el.style == old(el.style) + EntriesMap(Defaults[..i])
        invariant el.marked == old(el.marked)
      {
        EntriesMapStep(old(el.style), Defaults, i);
        el.style := el.style[Defaults[i].0 := Text(Defaults[i].1)];
      }
      assert Defaults[..|Defaults|] == Defaults;
      DefaultsWrites();
    }

    /** `applyOptions(o)`: the conditional writes of colour, radius, intensity and bg. */
    method ApplyOptions(o: Options)
      modifies el
      ensures el.style == old(el.style) + OptionWrites(o)
      ensures el.marked == old(el.marked)
    {
      ghost var w := OptionWrites(o);
      if Truthy(o.color) {
        el.style := el.style[ColorKey := Text(o.color.value)];
      }
      if Truthy(o.radius) {
        el.style := el.style[RadiusKey := Text(o.radius.value)];
      }
      if o.intensity.Some? {
        el.style := el.style[IntensityKey := Numeral(o.intensity.value)];
      }
      if Truthy(o.bg) {
        el.style := el.style[BgKey := Text(o.bg.value)];
      }
      KeysDistinct();
      assert el.style.Keys == (old(el.style) + w).Keys;
      forall k | k in el.style ensures el.style[k] == (old(el.style) + w)[k] {
        if k in w {
          assert k == ColorKey || k == RadiusKey || k == IntensityKey || k == BgKey;
        }
      }
    }

    /** The returned `setOptions(newOpts)`: applies the options to the live
        style, even after `destroy`; a no-op on an inert controller. Called on
        a live controller with no argument or `null`, it throws a TypeError
        (`thrown`) at the first property read, before any write. */
    method SetOptions(newOpts: Option<Options>) returns (thrown: bool)
      modifies el
      ensures thrown <==> !inert && newOpts.None?
      ensures inert || thrown ==> unchanged(el)
      ensures !inert && newOpts.Some? ==>
        el.style == old(el.style) + OptionWrites(newOpts.value) && el.marked == old(el.marked)
    {
      if inert {
        return false;
      }
      if newOpts.None? {
        return true;
      }
      ApplyOptions(newOpts.value);
      thrown := false;
    }

    /** `onMouseMove`: the new target is the pointer relative to the element's
        box; a frame is requested only when none is running. */
    method MouseMove(clientX: real, clientY: real, rectLeft: real, rectTop: real)
      requires Valid() && listening
      modifies this
      ensures Valid()
      ensures targetX == clientX - rectLeft && targetY == clientY - rectTop
      ensures animating && pendingFrames == 1
      ensures pendingFrames == if old(animating) then old(pendingFrames) else old(pendingFrames) + 1
      ensures currentX == old(currentX) && currentY == old(currentY) && listening
    {
      targetX := clientX - rectLeft;
      targetY := clientY - rectTop;
      if !animating {
        animating := true;
        pendingFrames := pendingFrames + 1;
      }
    }

    /** The queued `tick` callback runs: it consumes its frame, then either
        snaps to the target and stops, or eases toward it by `smoothing` and
        requests the next frame. Either way it writes both position properties. */
    method Tick()
      requires Valid() && pendingFrames > 0
      modifies this, el
      ensures Valid()
      ensures targetX == old(targetX) && targetY == old(targetY) && listening == old(listening)
      ensures Settled(old(targetX - currentX), old(targetY - currentY)) ==>
        currentX == targetX && currentY == targetY && !animating && pendingFrames == 0
      ensures !Settled(old(targetX - currentX), old(targetY - currentY)) ==>
        && currentX == Ease(old(currentX), targetX, smoothing)
        && currentY == Ease(old(currentY), targetY, smoothing)
        && animating == old(animating) && pendingFrames == 1
      ensures el.style == old(el.style)[XKey := Pixels(currentX)][YKey := Pixels(currentY)]
      ensures el.marked == old(el.marked)
      ensures 0.0 < smoothing <= 1.0 && !Settled(old(targetX - currentX), old(targetY - currentY)) ==>
        EasingFrames(currentX, currentY, targetX, targetY, smoothing) + 1
        == EasingFrames(old(currentX), old(currentY), targetX, targetY, smoothing)
    {
      pendingFrames := pendingFrames - 1;
      var dx := targetX - currentX;
      var dy := targetY - currentY;
      if Abs(dx) < 0.5 && Abs(dy) < 0.5 {
        currentX := targetX;
        currentY := targetY;
        el.style := el.style[XKey := Pixels(currentX)];
        el.style := el.style[YKey := Pixels(currentY)];
        animating := false;
        return;
      }
      currentX := currentX + dx * smoothing;
      currentY := currentY + dy * smoothing;
      el.style := el.style[XKey := Pixels(currentX)];
      el.style := el.style[YKey := Pixels(currentY)];
      pendingFrames := pendingFrames + 1;
    }

    /** The returned `destroy`: unsubscribes, clears `animating`, removes the
        attribute and every property the controller sets. A queued frame is
        not cancelled. A no-op on an inert controller. */
    method Destroy()
      requires Valid()
      modifies this, el
      ensures Valid()
      ensures inert ==> unchanged(this) && unchanged(el)
      ensures !inert ==> !listening && !animating && !el.marked
      ensures !inert ==> el.style == old(el.style) - ControllerKeys()
      ensures pendingFrames == old(pendingFrames)
      ensures currentX == old(currentX) && currentY == old(currentY)
      ensures targetX == old(targetX) && targetY == old(targetY)
    {
      if inert {
        return;
      }
      listening := false;
      animating := false;
      el.marked := false;
      for i := 0 to |Defaults|
        modifies el
        invariant el.style == old(el.style) - KeysOf(Defaults[..i])
        invariant !el.marked
      {
        assert KeysOf(Defaults[..i + 1]) == KeysOf(Defaults[..i]) + {Defaults[i].0} by {
          assert Defaults[..i + 1][i] == Defaults[i];
          forall k | k in KeysOf(Defaults[..i + 1]) ensures k in KeysOf(Defaults[..i]) + {Defaults[i].0} {
            var j :| 0 <= j < i + 1 && Defaults[..i + 1][j].0 == k;
            if j < i { assert Defaults[..i][j].0 == k; }
          }
          forall k | k in KeysOf(Defaults[..i]) ensures k in KeysOf(Defaults[..i + 1]) {
            var j :| 0 <= j < i && Defaults[..i][j].0 == k;
            assert Defaults[..i + 1][j].0 == k;
          }
        }
        el.style := el.style - {Defaults[i].0};
      }
      assert Defaults[..|Defaults|] == Defaults;
      el.style := el.style - {BackgroundKey};
      el.style := el.style - {OpacityKey};
    }
  }

  /** Teardown does not cancel a queued frame: after `destroy`, the frame that
      was already requested still writes `--spotlight-x` back onto the element. */
  method LateFrameAfterDestroy() returns (clearedByDestroy: bool, rewrittenByFrame: bool)
    ensures clearedByDestroy && rewrittenByFrame
  {
    var body := new Element(map[], false);
    var c := new Spotlight(true, true, false, body, Omitted, None);
    c.MouseMove(100.0, 0.0, 0.0, 0.0);
    c.Destroy();
    clearedByDestroy := XKey !in body.style && !body.marked && !c.listening;
    c.Tick();
    rewrittenByFrame := XKey in body.style && body.style[XKey] == Pixels(15.0);
  }

  /** `setOptions` after `destroy` still writes to the element. */
  method OptionsAfterDestroy() returns (color: Option<CssValue>)
    ensures color == Some(Text("red"))
  {
    var body := new Element(map[], false);
    var c := new Spotlight(true, true, false, body, Omitted, None);
    c.Destroy();
    var thrown := c.SetOptions(Some(Options(Some("red"), None, None, None, None)));
    color := if ColorKey in body.style then Some(body.style[ColorKey]) else None;
  }

  /** A whole lifecycle on an element that had none of the controller's
      properties: construction, a mouse move, a frame, an option update and
      teardown leave the element's style and attribute as they were. */
  method LifecycleRestores(style0: Style, o: Options, later: Options, x: real, y: real)
    returns (restored: bool)
    requires style0.Keys !! ControllerKeys()
    ensures restored
  {
    var el := new Element(style0, false);
    var c := new Spotlight(true, true, false, el, ElementArg(el), Some(o));
    ghost var s1 := el.style;
    c.MouseMove(x, y, 0.0, 0.0);
    c.Tick();
    ghost var s2 := el.style;
    ClearAbsorbsUpdate(s1, XKey, s2[XKey]);
    ClearAbsorbsUpdate(s1[XKey := s2[XKey]], YKey, s2[YKey]);
    var thrown := c.SetOptions(Some(later));
    ClearAbsorbsWrites(s2, OptionWrites(later));
    c.Destroy();
    ClearUndoesActivation(style0, o);
    restored := el.style == style0 && !el.marked && !c.listening;
  }

  /** Without a window or document, or on a touch-primary device, the element
      is left untouched, and the returned `setOptions` (with or without an
      argument) and `destroy` change nothing and do not throw. */
  method InertLeavesElement(hasWindow: bool, hasDocument: bool, hoverNone: bool,
                            style0: Style, marked0: bool, o: Options, later: Option<Options>)
    returns (untouched: bool)
    requires !hasWindow || !hasDocument || hoverNone
    ensures untouched
  {
    var el := new Element(style0, marked0);
    var c := new Spotlight(hasWindow, hasDocument, hoverNone, el, ElementArg(el), Some(o));
    var thrown := c.SetOptions(later);
    c.Destroy();
    untouched := el.style == style0 && el.marked == marked0 && !c.listening && c.pendingFrames == 0 && !thrown;
  }

  /** On a live controller `setOptions()` with no argument throws, and the
      element keeps the style it was given at construction. */
  method MissingOptionsThrow(style0: Style, o: Options) returns (thrown: bool, kept: bool)
    ensures thrown && kept
  {
    var el := new Element(style0, false);
    var c := new Spotlight(true, true, false, el, ElementArg(el), Some(o));
    thrown := c.SetOptions(None);
    kept := el.style == ActivatedStyle(style0, o) && el.marked;
  }
}
