/** Integer watermark placement: every branch of the planner, which of them can be reached, and what it returns. */
module Watermark {
  import opened Basics

  datatype Position = Center | TopLeft | TopRight | BottomLeft | BottomRight

  /** Percentages are bytes and pixels 32-bit in the source. */
  datatype Spec = Spec(position: Position, margin: nat, maxWidthPercent: nat, opacityPercent: nat)

  datatype Placement = Placement(x: int, y: int, width: nat, height: nat)

  datatype Error = InvalidPreset | MarginOverflow | NoDrawableArea | WidthDoesNotFit | HeightOverflow | HeightDoesNotFit

  predicate Words(bw: nat, bh: nat, ww: nat, wh: nat, spec: Spec) {
    bw <= U32_MAX && bh <= U32_MAX && ww <= U32_MAX && wh <= U32_MAX && spec.margin <= U32_MAX
  }

  predicate PresetOk(bw: nat, bh: nat, ww: nat, wh: nat, spec: Spec) {
    && bw > 0 && bh > 0 && ww > 0 && wh > 0
    && 1 <= spec.maxWidthPercent <= 50 && 1 <= spec.opacityPercent <= 100 && spec.margin <= 1024
  }

  /** `checked_sub` and `filter(> 0)`. */
  function Available(base: nat, doubled: nat): Option<nat> {
    if base > doubled then Some(base - doubled) else None
  }

  function PercentCap(bw: nat, percent: nat): nat { Max(bw * percent / 100, 1) }

  function HeightCap(ww: nat, wh: nat, availableHeight: nat): nat
    requires wh > 0
  {
    ww * availableHeight / wh
  }

  function Width(bw: nat, ww: nat, wh: nat, aw: nat, ah: nat, percent: nat): nat
    requires wh > 0
  {
    Min(Min(ww, aw), Min(PercentCap(bw, percent), HeightCap(ww, wh, ah)))
  }

  function Height(ww: nat, wh: nat, width: nat): nat
    requires ww > 0
  {
    Max(wh * width / ww, 1)
  }

  /** Coordinates are computed without bounds here; that none is negative is proved below. */
  function Anchor(bw: nat, bh: nat, width: nat, height: nat, spec: Spec): Placement {
    var right, bottom := bw - width - spec.margin, bh - height - spec.margin;
    match spec.position
    case Center => Placement((bw - width) / 2, (bh - height) / 2, width, height)
    case TopLeft => Placement(spec.margin, spec.margin, width, height)
    case TopRight => Placement(right, spec.margin, width, height)
    case BottomLeft => Placement(spec.margin, bottom, width, height)
    case BottomRight => Placement(right, bottom, width, height)
  }

  function Plan(bw: nat, bh: nat, ww: nat, wh: nat, spec: Spec): Result<Placement, Error> {
    if !PresetOk(bw, bh, ww, wh, spec) then Err(InvalidPreset)
    else if spec.margin * 2 > U32_MAX then Err(MarginOverflow)
    else
      match (Available(bw, spec.margin * 2), Available(bh, spec.margin * 2))
      case (Some(aw), Some(ah)) =>
        var width := Width(bw, ww, wh, aw, ah, spec.maxWidthPercent);
        if width == 0 || width > U32_MAX then Err(WidthDoesNotFit)
        else
          var height := Height(ww, wh, width);
          if height > U32_MAX then Err(HeightOverflow)
          else if height > ah then Err(HeightDoesNotFit)
          else Ok(Anchor(bw, bh, width, height, spec))
      case _ => Err(NoDrawableArea)
  }

  // ----- Arithmetic -----

  /** `x` is at most the quotient exactly when `x * c` is at most the product. */
  lemma QuotientBound(x: nat, n: nat, c: nat)
    requires c > 0
    ensures x <= n / c <==> x * c <= n
  {
    var q := n / c;
    assert n == c * q + n % c && c * q == q * c;
    if x <= q {
      MulMonotone(x, q, c);
    } else {
      MulMonotone(q + 1, x, c);
      assert (q + 1) * c == q * c + c;
    }
  }

  lemma ScaledHeightBounds(ww: nat, wh: nat, ah: nat, width: nat)
    requires ww > 0 && wh > 0 && width <= ww && width * wh <= ww * ah && ah > 0
    ensures Height(ww, wh, width) <= ah && Height(ww, wh, width) <= wh
  {
    var q := wh * width / ww;
    QuotientBound(q, wh * width, ww);
    MulMonotone(width, ww, wh);
    assert wh * width == width * wh && ww * ah == ah * ww && ww * wh == wh * ww;
    MulCancel(q, ah, ww);
    MulCancel(q, wh, ww);
  }

  lemma MulCancel(a: nat, b: nat, m: nat)
    requires m > 0 && a * m <= b * m
    ensures a <= b
  {
    assert (b + 1) * m == b * m + m;
    if a > b { MulMonotone(b + 1, a, m); }
  }

  // ----- The four caps -----

  /** A width allowed by the picture, the drawable area, the preset percentage and the scaled height. */
  predicate Allowed(w: nat, bw: nat, bh: nat, ww: nat, wh: nat, spec: Spec) {
    && w <= ww && w + 2 * spec.margin <= bw
    && (w <= 1 || w * 100 <= bw * spec.maxWidthPercent)
    && w * wh + ww * (2 * spec.margin) <= ww * bh
  }

  /** The planner's width is the largest allowed one: the allowed widths are exactly those up to it. */
  lemma WidthIsLargest(w: nat, bw: nat, bh: nat, ww: nat, wh: nat, spec: Spec)
    requires PresetOk(bw, bh, ww, wh, spec) && bw > 2 * spec.margin && bh > 2 * spec.margin
    ensures Allowed(w, bw, bh, ww, wh, spec) <==>
            w <= Width(bw, ww, wh, bw - 2 * spec.margin, bh - 2 * spec.margin, spec.maxWidthPercent)
  {
    var ah := bh - 2 * spec.margin;
    QuotientBound(w, bw * spec.maxWidthPercent, 100);
    QuotientBound(w, ww * ah, wh);
    Distribute(ww, ah, 2 * spec.margin);
  }

  lemma Distribute(a: nat, b: nat, c: nat)
    ensures a * (b + c) == a * b + a * c
  {
  }

  /** One pixel of width is allowed exactly when the scaled height leaves room for it. */
  lemma OnePixelAllowed(bw: nat, bh: nat, ww: nat, wh: nat, spec: Spec)
    requires PresetOk(bw, bh, ww, wh, spec) && bw > 2 * spec.margin && bh > 2 * spec.margin
    ensures Allowed(1, bw, bh, ww, wh, spec) <==> wh <= ww * (bh - 2 * spec.margin)
  {
    var ah := bh - 2 * spec.margin;
    Distribute(ww, ah, 2 * spec.margin);
  }

  /**
   * Beyond the preset and margin checks the planner fails exactly when the picture is too tall for
   * its width, and then always with the width error: the overflow and height-fit errors cannot occur.
   */
  lemma PlanFailsExactly(bw: nat, bh: nat, ww: nat, wh: nat, spec: Spec)
    requires Words(bw, bh, ww, wh, spec)
    ensures var r := Plan(bw, bh, ww, wh, spec);
            var m := 2 * spec.margin;
            var outOfRange := || bw == 0 || bh == 0 || ww == 0 || wh == 0 || spec.margin > 1024
                              || !(0 < spec.maxWidthPercent <= 50) || !(0 < spec.opacityPercent <= 100);
            && (r == Err(InvalidPreset) <==> outOfRange)
            && (r == Err(NoDrawableArea) <==> !outOfRange && (bw <= m || bh <= m))
            && (r == Err(WidthDoesNotFit) <==> !outOfRange && bw > m && bh > m && ww * (bh - m) < wh)
            && (r.Err? ==> r.error in {InvalidPreset, NoDrawableArea, WidthDoesNotFit})
  {
    var m := 2 * spec.margin;
    if PresetOk(bw, bh, ww, wh, spec) && bw > m && bh > m {
      var ah := bh - m;
      WidthIsLargest(1, bw, bh, ww, wh, spec);
      OnePixelAllowed(bw, bh, ww, wh, spec);
      var width := Width(bw, ww, wh, bw - m, ah, spec.maxWidthPercent);
      QuotientBound(width, ww * ah, wh);
      if width > 0 { ScaledHeightBounds(ww, wh, ah, width); }
    }
  }

  /** Placed inside the margins on every side, whatever the anchor. */
  predicate InsideMargins(p: Placement, bw: nat, bh: nat, margin: nat) {
    && margin <= p.x && p.x + p.width + margin <= bw
    && margin <= p.y && p.y + p.height + margin <= bh
  }

  /** Where each position puts the mark: flush with its margins, or centred to within one pixel. */
  predicate Anchored(p: Placement, position: Position, bw: nat, bh: nat, margin: nat) {
    var left, right, top, bottom := p.x, bw - p.x - p.width, p.y, bh - p.y - p.height;
    && (position in {TopLeft, BottomLeft} ==> left == margin)
    && (position in {TopRight, BottomRight} ==> right == margin)
    && (position in {TopLeft, TopRight} ==> top == margin)
    && (position in {BottomLeft, BottomRight} ==> bottom == margin)
    && (position == Center ==> 0 <= right - left <= 1 && 0 <= bottom - top <= 1)
  }

  lemma AnchorInside(bw: nat, bh: nat, width: nat, height: nat, spec: Spec)
    requires width + 2 * spec.margin <= bw && height + 2 * spec.margin <= bh
    ensures var p := Anchor(bw, bh, width, height, spec);
            InsideMargins(p, bw, bh, spec.margin) && Anchored(p, spec.position, bw, bh, spec.margin)
  {
  }

  /**
   * A successful plan stays inside the margins with no negative coordinate, lies in the corner or
   * the centre it was asked for, never enlarges the picture, uses the largest allowed width, and
   * keeps the aspect ratio rounded down but visible.
   */
  lemma PlanIsSound(bw: nat, bh: nat, ww: nat, wh: nat, spec: Spec)
    requires Words(bw, bh, ww, wh, spec) && Plan(bw, bh, ww, wh, spec).Ok?
    ensures var p := Plan(bw, bh, ww, wh, spec).value;
            && InsideMargins(p, bw, bh, spec.margin) && Anchored(p, spec.position, bw, bh, spec.margin)
            && 0 < p.width <= ww && 0 < p.height <= wh
            && (forall w: nat :: Allowed(w, bw, bh, ww, wh, spec) <==> w <= p.width)
            && (p.height == 1 || p.height * ww <= wh * p.width) && wh * p.width < (p.height + 1) * ww
  {
    PlanUnfold(bw, bh, ww, wh, spec);
    var m := 2 * spec.margin;
    var p := Plan(bw, bh, ww, wh, spec).value;
    forall w: nat
      ensures Allowed(w, bw, bh, ww, wh, spec) <==> w <= p.width
    {
      WidthIsLargest(w, bw, bh, ww, wh, spec);
    }
    HeightRounds(ww, wh, p.width);
    AnchorInside(bw, bh, p.width, p.height, spec);
  }

  lemma PlanUnfold(bw: nat, bh: nat, ww: nat, wh: nat, spec: Spec)
    requires Words(bw, bh, ww, wh, spec) && Plan(bw, bh, ww, wh, spec).Ok?
    ensures PresetOk(bw, bh, ww, wh, spec) && bw > 2 * spec.margin && bh > 2 * spec.margin
    ensures var p := Plan(bw, bh, ww, wh, spec).value;
            && p == Anchor(bw, bh, p.width, p.height, spec)
            && p.width == Width(bw, ww, wh, bw - 2 * spec.margin, bh - 2 * spec.margin, spec.maxWidthPercent)
            && p.height == Height(ww, wh, p.width)
            && 0 < p.width <= ww && p.width + 2 * spec.margin <= bw
            && 0 < p.height <= wh && p.height + 2 * spec.margin <= bh
  {
    PlanFailsExactly(bw, bh, ww, wh, spec);
    var ah := bh - 2 * spec.margin;
    var width := Width(bw, ww, wh, bw - 2 * spec.margin, ah, spec.maxWidthPercent);
    QuotientBound(width, ww * ah, wh);
    ScaledHeightBounds(ww, wh, ah, width);
  }

  lemma HeightRounds(ww: nat, wh: nat, width: nat)
    requires ww > 0
    ensures var h := Height(ww, wh, width); (h == 1 || h * ww <= wh * width) && wh * width < (h + 1) * ww
  {
    var q := wh * width / ww;
    QuotientBound(q, wh * width, ww);
    QuotientBound(q + 1, wh * width, ww);
    if q == 0 { assert wh * width < ww; assert 2 * ww == (1 + 1) * ww; }
  }
}
