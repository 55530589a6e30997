/** The pick-handle movement resolver of inputMovement (scripts/game.js:1005-1141) as a
    specification on values: clamping to the playable rectangle, locating the pick tip in the
    disk pack, stopping at the side of a disk it is not aligned with, and pushing the disk the
    tip is inside. The Game module's method is proved to compute exactly Move. */
module Input {
  import opened LockTypes

  /** clamp(low, x, high) = max(low, min(high, x)). */
  function Clamp(low: real, x: real, high: real): (r: real)
    ensures low <= high ==> low <= r <= high
    ensures low <= x <= high ==> r == x
    ensures x <= low ==> r == low
    ensures low <= high <= x ==> r == high
  {
    Max(low, Min(high, x))
  }

  /** Clamping twice is clamping once. */
  lemma ClampIdempotent(low: real, x: real, high: real)
    requires low <= high
    ensures Clamp(low, Clamp(low, x, high), high) == Clamp(low, x, high)
  {
  }

  /** [diskToLeft, diskToRight]: equal when the tip is inside a disk, neighbours when it is
      between them. */
  datatype Span = Span(left: int, right: int)

  /** The loop of determinePickTipPosition from disk i on: the first disk whose origin is within
      half a spacing of x decides; inside it when less than one disk width plus one away, else on
      the side the sign of the distance says. None when no disk is that close. */
  function TipPositionFrom(x: real, i: nat): (r: Option<Span>)
    requires i <= DiskCount
    decreases DiskCount - i
    ensures r.Some? ==> r.value.left <= r.value.right <= r.value.left + 1
    ensures r.Some? ==> i <= r.value.right <= DiskCount
  {
    if i == DiskCount then None
    else
      var distance := DiskOrigins[i] - x;
      if Abs(distance) <= DiskSpacing / 2.0 then
        if Abs(distance) - 1.0 < DiskWidth then Some(Span(i, i))
        else if distance < 0.0 then Some(Span(i, i + 1))
        else Some(Span(i - 1, i))
      else TipPositionFrom(x, i + 1)
  }

  /** determinePickTipPosition: [l, l] inside disk l, [l, l + 1] between disks l and l + 1. */
  function TipPosition(x: real): (r: Option<Span>)
    ensures r.Some? ==> r.value.left <= r.value.right <= r.value.left + 1 && r.value.right <= DiskCount
  {
    TipPositionFrom(x, 0)
  }

  /** The tip at x is inside disk k: less than a disk width plus one from its origin. */
  predicate InsideDisk(x: real, k: int)
  {
    0 <= k < DiskCount && Abs(DiskOrigins[k] - x) < DiskWidth + 1.0
  }

  /** The tip at x is in the gap between disks l and l + 1. */
  predicate BetweenDisks(x: real, l: int)
  {
    0 <= l && l + 1 < DiskCount
    && DiskOrigins[l] + DiskWidth + 1.0 <= x <= DiskOrigins[l + 1] - DiskWidth - 1.0
  }

  /** The span the tip is in, read off from x. */
  predicate SpanOf(x: real, s: Span)
  {
    if s.left == s.right then InsideDisk(x, s.left)
    else s.right == s.left + 1 && BetweenDisks(x, s.left)
  }

  lemma {:induction false} TipPositionFromSpan(x: real, i: nat)
    requires i < DiskCount && 0.0 <= x <= PickClampXHigh
    requires i > 0 ==> DiskOrigins[i] - DiskSpacing / 2.0 < x
    decreases DiskCount - i
    ensures TipPositionFrom(x, i).Some? && SpanOf(x, TipPositionFrom(x, i).value)
  {
    if Abs(DiskOrigins[i] - x) > DiskSpacing / 2.0 {
      DiskOriginsApart(i, DiskCount - 1);
      DiskOriginsApart(0, i);
      assert i + 1 < DiskCount;
      DiskOriginsApart(i, i + 1);
      TipPositionFromSpan(x, i + 1);
    } else {
      TipPositionAt(x, i);
    }
  }

  /** The disk whose origin is within half a spacing of x decides the span. */
  lemma TipPositionAt(x: real, i: nat)
    requires i < DiskCount && 0.0 <= x <= PickClampXHigh
    requires Abs(DiskOrigins[i] - x) <= DiskSpacing / 2.0
    ensures TipPositionFrom(x, i).Some? && SpanOf(x, TipPositionFrom(x, i).value)
  {
    DiskOriginsSpaced();
  }

  /** On the playable x range the tip is always somewhere in the pack: inside disk l
      ([l, l]) or between two neighbours ([l, l + 1]), with 0 <= l <= r <= 9. */
  lemma TipPositionSpan(x: real)
    requires PickClampXLow <= x <= PickClampXHigh
    ensures TipPosition(x).Some? && SpanOf(x, TipPosition(x).value)
    ensures 0 <= TipPosition(x).value.left <= TipPosition(x).value.right < DiskCount
    ensures TipPosition(x).value.right <= TipPosition(x).value.left + 1
  {
    TipPositionFromSpan(x, 0);
  }

  /** The places are disjoint, so the span of x is the only one that fits. */
  lemma SpanUnique(x: real, s: Span, t: Span)
    requires SpanOf(x, s) && SpanOf(x, t)
    ensures s == t
  {
    DiskOriginsSpaced();
  }

  /** The pick tip at height y cannot enter a disk whose position is more than the pick tip
      slop away. */
  predicate Misaligned(d: Disk, y: real)
  {
    Abs(d.position - y) > PickTipSlop
  }

  /** The rightward loop: the first disk from i up to hi the tip cannot enter. */
  function BlockRight(disks: seq<Disk>, y: real, i: int, hi: int): (r: Option<nat>)
    requires 0 <= i && hi < |disks|
    decreases hi + 1 - i
    ensures r.Some? ==> i <= r.value <= hi && Misaligned(disks[r.value], y)
    ensures r.Some? ==> forall k :: i <= k < r.value ==> !Misaligned(disks[k], y)
    ensures r.None? ==> forall k :: i <= k <= hi ==> !Misaligned(disks[k], y)
  {
    if i > hi then None
    else if Misaligned(disks[i], y) then Some(i)
    else BlockRight(disks, y, i + 1, hi)
  }

  /** The leftward loop: the first disk from i down to lo the tip cannot enter. */
  function BlockLeft(disks: seq<Disk>, y: real, i: int, lo: int): (r: Option<nat>)
    requires 0 <= lo && i < |disks|
    decreases i + 1 - lo
    ensures r.Some? ==> lo <= r.value <= i && Misaligned(disks[r.value], y)
    ensures r.Some? ==> forall k :: r.value < k <= i ==> !Misaligned(disks[k], y)
    ensures r.None? ==> forall k :: lo <= k <= i ==> !Misaligned(disks[k], y)
  {
    if i < lo then None
    else if Misaligned(disks[i], y) then Some(i)
    else BlockLeft(disks, y, i - 1, lo)
  }

  /** The x the pick ends at when it moves from `from` towards the clamped `to` at height y:
      moving right it stops one past the left edge of the first misaligned disk it would cross,
      moving left one past the right edge. */
  function ResolveX(disks: seq<Disk>, y: real, from: real, to: real): real
    requires |disks| == DiskCount
    requires PickClampXLow <= from <= PickClampXHigh && PickClampXLow <= to <= PickClampXHigh
  {
    TipPositionSpan(from);
    TipPositionSpan(to);
    var s := TipPosition(from).value;
    var e := TipPosition(to).value;
    if s.left < e.left then StopRight(disks, y, s.left, e.left, to)
    else if s.right > e.right then StopLeft(disks, y, s.right, e.right, to)
    else to
  }

  /** Moving right from span [start, _] to span [end, _]: the first disk after start, up to
      end, the tip cannot enter stops it one past its left edge. */
  function StopRight(disks: seq<Disk>, y: real, start: int, end: int, to: real): (r: real)
    requires |disks| == DiskCount && 0 <= start && end < DiskCount
    ensures r <= to
    ensures BlockRight(disks, y, start + 1, end).None? ==> r == to
  {
    match BlockRight(disks, y, start + 1, end)
    case Some(i) => Min(to, DiskOrigins[i] - DiskWidth - 1.0)
    case None => to
  }

  /** Moving left from span [_, start] to span [_, end]: the first disk before start, down to
      end, the tip cannot enter stops it one past its right edge. */
  function StopLeft(disks: seq<Disk>, y: real, start: int, end: int, to: real): (r: real)
    requires |disks| == DiskCount && 0 <= end && start <= DiskCount
    ensures to <= r
    ensures BlockLeft(disks, y, start - 1, end).None? ==> r == to
  {
    match BlockLeft(disks, y, start - 1, end)
    case Some(i) => Max(DiskOrigins[i] + DiskWidth + 1.0, to)
    case None => to
  }

  /** The y-axis step with the tip at x: inside a disk, the pick is stopped a pick tip slop past
      the disk's position or bound in the direction of travel, and the disk is nudged to within
      the slop of the pick. Between disks nothing stops it. */
  function PushY(disks: seq<Disk>, x: real, y: real, dy: real): (r: (seq<Disk>, real))
    requires |disks| == DiskCount && PickClampXLow <= x <= PickClampXHigh
    ensures |r.0| == DiskCount
  {
    TipPositionSpan(x);
    var e := TipPosition(x).value;
    if e.left == e.right then
      var d := disks[e.left];
      var ny := if dy > 0.0 then Min(y, Max(d.position, d.bounds.upper) + PickTipSlop)
        else Max(y, Min(d.position, d.bounds.lower) - PickTipSlop);
      (disks[e.left := d.(position := Clamp(ny - PickTipSlop, d.position, ny + PickTipSlop))], ny)
    else (disks, y)
  }

  /** The pick and the disks after one movement. */
  datatype Motion = Motion(disks: seq<Disk>, offset: Offset)

  /** The offset is inside the playable rectangle and every disk inside the band the pick can
      push it to. */
  predicate Playable(disks: seq<Disk>, offset: Offset)
  {
    && |disks| == DiskCount
    && PickClampXLow <= offset.x <= PickClampXHigh
    && PickClampYLow <= offset.y <= PickClampYHigh
    && forall k :: 0 <= k < |disks| ==> PositionLow <= disks[k].position <= PositionHigh
  }

  /** The tip is never inside a disk it is not aligned with. */
  predicate TipAligned(disks: seq<Disk>, offset: Offset)
  {
    forall k :: 0 <= k < |disks| && InsideDisk(offset.x, k) ==> !Misaligned(disks[k], offset.y)
  }

  /** inputMovement(dx, dy) in the "main" state. */
  function Move(disks: seq<Disk>, offset: Offset, dx: real, dy: real): (m: Motion)
    requires Playable(disks, offset)
    ensures |m.disks| == DiskCount
  {
    if dx == 0.0 && dy == 0.0 then Motion(disks, offset)
    else
      var cx := Clamp(PickClampXLow, offset.x + dx, PickClampXHigh);
      var cy := Clamp(PickClampYLow, offset.y + dy, PickClampYHigh);
      var nx := if dx != 0.0 then ResolveX(disks, offset.y, offset.x, cx) else cx;
      var x := if dx != 0.0 then nx else offset.x;
      ResolveXInRange(disks, offset.y, offset.x, cx);
      if dy != 0.0 then
        var p := PushY(disks, nx, cy, dy);
        Motion(p.0, Offset(x, p.1))
      else Motion(disks, Offset(x, offset.y))
  }

  /** ResolveX read off from the two spans the caller has computed. */
  lemma ResolveXBySpans(disks: seq<Disk>, y: real, from: real, to: real, s: Span, e: Span)
    requires |disks| == DiskCount
    requires PickClampXLow <= from <= PickClampXHigh && PickClampXLow <= to <= PickClampXHigh
    requires TipPosition(from) == Some(s) && TipPosition(to) == Some(e)
    ensures 0 <= s.left && s.right <= DiskCount && 0 <= e.right && e.left < DiskCount
    ensures ResolveX(disks, y, from, to) ==
      if s.left < e.left then StopRight(disks, y, s.left, e.left, to)
      else if s.right > e.right then StopLeft(disks, y, s.right, e.right, to)
      else to
  {
    TipPositionSpan(from);
    TipPositionSpan(to);
  }

  /** The resolved x stays in the playable range and is never further than the clamped target;
      a blocked move stops in the gap before the blocking disk. */
  lemma ResolveXInRange(disks: seq<Disk>, y: real, from: real, to: real)
    requires |disks| == DiskCount
    requires PickClampXLow <= from <= PickClampXHigh && PickClampXLow <= to <= PickClampXHigh
    ensures PickClampXLow <= ResolveX(disks, y, from, to) <= PickClampXHigh
  {
    TipPositionSpan(from);
    TipPositionSpan(to);
    var s := TipPosition(from).value;
    var e := TipPosition(to).value;
    if s.left < e.left {
      StopRightInRange(disks, y, s.left, e.left, to);
    } else if s.right > e.right {
      StopLeftInRange(disks, y, s.right, e.right, to);
    }
  }

  lemma StopRightInRange(disks: seq<Disk>, y: real, start: int, end: int, to: real)
    requires |disks| == DiskCount && 0 <= start && end < DiskCount
    requires PickClampXLow <= to <= PickClampXHigh
    ensures PickClampXLow <= StopRight(disks, y, start, end, to) <= to
  {
    var b := BlockRight(disks, y, start + 1, end);
    if b.Some? {
      DiskOriginsApart(0, b.value);
    }
  }

  lemma StopLeftInRange(disks: seq<Disk>, y: real, start: int, end: int, to: real)
    requires |disks| == DiskCount && 0 <= end && start < DiskCount
    requires PickClampXLow <= to <= PickClampXHigh
    ensures to <= StopLeft(disks, y, start, end, to) <= PickClampXHigh
  {
    var b := BlockLeft(disks, y, start - 1, end);
    if b.Some? {
      DiskOriginsApart(b.value, DiskCount - 1);
    }
  }

  /** A place in the pack is inside a disk or between two, never both: the tip is inside disk k
      exactly when the tip position is [k, k]. */
  lemma InsideIffTip(x: real, k: int)
    requires PickClampXLow <= x <= PickClampXHigh
    ensures InsideDisk(x, k) <==> TipPosition(x) == Some(Span(k, k))
  {
    TipPositionSpan(x);
    if InsideDisk(x, k) {
      SpanUnique(x, Span(k, k), TipPosition(x).value);
    }
  }

  /** The y-axis step keeps the pick in its y range and every disk in the band, changes no
      gates or bounds, and moves no disk but the one the tip is inside, which ends within the
      pick tip slop of the pick. */
  lemma PushYFacts(disks: seq<Disk>, x: real, y: real, dy: real)
    requires |disks| == DiskCount && PickClampXLow <= x <= PickClampXHigh
    requires PickClampYLow <= y <= PickClampYHigh
    requires forall k :: 0 <= k < |disks| ==> PositionLow <= disks[k].position <= PositionHigh
    ensures var r := PushY(disks, x, y, dy);
      && |r.0| == DiskCount && PickClampYLow <= r.1 <= PickClampYHigh
      && (forall k :: 0 <= k < DiskCount ==> PositionLow <= r.0[k].position <= PositionHigh)
      && (forall k :: 0 <= k < DiskCount ==> r.0[k].gates == disks[k].gates && r.0[k].bounds == disks[k].bounds)
      && (forall k :: 0 <= k < DiskCount && r.0[k].position != disks[k].position ==> InsideDisk(x, k))
      && (forall k :: 0 <= k < DiskCount && InsideDisk(x, k) ==> !Misaligned(r.0[k], r.1))
  {
    TipPositionSpan(x);
    var e := TipPosition(x).value;
    forall k | 0 <= k < DiskCount
      ensures InsideDisk(x, k) <==> e == Span(k, k)
    {
      InsideIffTip(x, k);
    }
  }

  /** Moving right, the pick stops at the left side of the first disk it would cross that it
      is not aligned with, so it ends left of every such disk. */
  lemma ResolveXStopsRight(disks: seq<Disk>, y: real, from: real, to: real, s: Span, e: Span)
    requires |disks| == DiskCount
    requires PickClampXLow <= from <= PickClampXHigh && PickClampXLow <= to <= PickClampXHigh
    requires TipPosition(from) == Some(s) && TipPosition(to) == Some(e) && s.left < e.left
    ensures forall i :: s.left < i <= e.left && Misaligned(disks[i], y) ==>
      ResolveX(disks, y, from, to) <= DiskOrigins[i] - DiskWidth - 1.0
  {
    TipPositionSpan(from);
    TipPositionSpan(to);
    var b := BlockRight(disks, y, s.left + 1, e.left);
    if b.Some? {
      StopsBeforeRight(disks, y, s, e, b.value, to);
    }
  }

  /** Moving left, symmetrically: the pick ends right of every disk it would cross that it is
      not aligned with. */
  lemma ResolveXStopsLeft(disks: seq<Disk>, y: real, from: real, to: real, s: Span, e: Span)
    requires |disks| == DiskCount
    requires PickClampXLow <= from <= PickClampXHigh && PickClampXLow <= to <= PickClampXHigh
    requires TipPosition(from) == Some(s) && TipPosition(to) == Some(e)
    requires s.left >= e.left && s.right > e.right
    ensures forall i :: e.right <= i < s.right && Misaligned(disks[i], y) ==>
      ResolveX(disks, y, from, to) >= DiskOrigins[i] + DiskWidth + 1.0
  {
    TipPositionSpan(from);
    TipPositionSpan(to);
    var b := BlockLeft(disks, y, s.right - 1, e.right);
    if b.Some? {
      StopsBeforeLeft(disks, y, s, e, b.value, to);
    }
  }

  /** The pick only ends inside a disk it is not aligned with if it started inside that disk. */
  lemma ResolveXEntersAligned(disks: seq<Disk>, y: real, from: real, to: real)
    requires |disks| == DiskCount
    requires PickClampXLow <= from <= PickClampXHigh && PickClampXLow <= to <= PickClampXHigh
    ensures forall k :: (0 <= k < DiskCount && InsideDisk(ResolveX(disks, y, from, to), k)
      && Misaligned(disks[k], y)) ==> InsideDisk(from, k)
  {
    TipPositionSpan(from);
    TipPositionSpan(to);
    var s := TipPosition(from).value;
    var e := TipPosition(to).value;
    if s.left < e.left {
      EntersRight(disks, y, from, to, s, e);
    } else if s.right > e.right {
      EntersLeft(disks, y, from, to, s, e);
    } else {
      EntersSame(disks, y, from, to, s, e);
    }
  }

  lemma EntersSame(disks: seq<Disk>, y: real, from: real, to: real, s: Span, e: Span)
    requires |disks| == DiskCount
    requires PickClampXLow <= from <= PickClampXHigh && PickClampXLow <= to <= PickClampXHigh
    requires TipPosition(from) == Some(s) && TipPosition(to) == Some(e)
    requires SpanOf(from, s) && SpanOf(to, e) && s.left >= e.left && s.right <= e.right
    ensures ResolveX(disks, y, from, to) == to
    ensures forall k :: 0 <= k < DiskCount && InsideDisk(to, k) ==> InsideDisk(from, k)
  {
    forall k | 0 <= k < DiskCount && InsideDisk(to, k)
      ensures InsideDisk(from, k)
    {
      SpanUnique(to, Span(k, k), e);
    }
  }

  lemma EntersRight(disks: seq<Disk>, y: real, from: real, to: real, s: Span, e: Span)
    requires |disks| == DiskCount
    requires PickClampXLow <= from <= PickClampXHigh && PickClampXLow <= to <= PickClampXHigh
    requires TipPosition(from) == Some(s) && TipPosition(to) == Some(e) && SpanOf(to, e)
    requires 0 <= s.left < e.left && e.left <= e.right <= e.left + 1 && e.right < DiskCount
    ensures forall k :: 0 <= k < DiskCount && InsideDisk(ResolveX(disks, y, from, to), k) ==>
      !Misaligned(disks[k], y)
  {
    var b := BlockRight(disks, y, s.left + 1, e.left);
    var rx := ResolveX(disks, y, from, to);
    if b.Some? {
      StopsBeforeRight(disks, y, s, e, b.value, to);
      forall k | 0 <= k < DiskCount
        ensures !InsideDisk(rx, k)
      {
        BetweenNotInside(rx, b.value - 1, k);
      }
    } else {
      forall k | 0 <= k < DiskCount && InsideDisk(to, k)
        ensures !Misaligned(disks[k], y)
      {
        SpanUnique(to, Span(k, k), e);
      }
    }
  }

  lemma EntersLeft(disks: seq<Disk>, y: real, from: real, to: real, s: Span, e: Span)
    requires |disks| == DiskCount
    requires PickClampXLow <= from <= PickClampXHigh && PickClampXLow <= to <= PickClampXHigh
    requires TipPosition(from) == Some(s) && TipPosition(to) == Some(e) && SpanOf(to, e)
    requires s.left >= e.left && s.right > e.right && s.right < DiskCount
    requires 0 <= e.left <= e.right <= e.left + 1
    ensures forall k :: 0 <= k < DiskCount && InsideDisk(ResolveX(disks, y, from, to), k) ==>
      !Misaligned(disks[k], y)
  {
    var b := BlockLeft(disks, y, s.right - 1, e.right);
    var rx := ResolveX(disks, y, from, to);
    if b.Some? {
      StopsBeforeLeft(disks, y, s, e, b.value, to);
      forall k | 0 <= k < DiskCount
        ensures !InsideDisk(rx, k)
      {
        BetweenNotInside(rx, b.value, k);
      }
    } else {
      forall k | 0 <= k < DiskCount && InsideDisk(to, k)
        ensures !Misaligned(disks[k], y)
      {
        SpanUnique(to, Span(k, k), e);
      }
    }
  }

  /** A point in a gap is inside no disk. */
  lemma BetweenNotInside(x: real, l: int, k: int)
    requires BetweenDisks(x, l)
    ensures !InsideDisk(x, k)
  {
    DiskOriginsSpaced();
  }

  /** The right-moving stop: with blocker i, the pick ends in the gap just left of disk i,
      left of every later blocked disk too. */
  lemma StopsBeforeRight(disks: seq<Disk>, y: real, s: Span, e: Span, i: nat, to: real)
    requires 0 <= s.left < i <= e.left < DiskCount && e.right <= e.left + 1 && e.left <= e.right
    requires SpanOf(to, e)
    ensures Min(to, DiskOrigins[i] - DiskWidth - 1.0) == DiskOrigins[i] - DiskWidth - 1.0
    ensures BetweenDisks(DiskOrigins[i] - DiskWidth - 1.0, i - 1)
    ensures forall k :: i <= k < DiskCount ==> DiskOrigins[i] <= DiskOrigins[k]
  {
    DiskOriginsSpaced();
  }

  /** The left-moving stop, symmetrically. */
  lemma StopsBeforeLeft(disks: seq<Disk>, y: real, s: Span, e: Span, i: nat, to: real)
    requires 0 <= e.right <= i < s.right < DiskCount && e.left <= e.right <= e.left + 1 && 0 <= e.left
    requires SpanOf(to, e)
    ensures Max(DiskOrigins[i] + DiskWidth + 1.0, to) == DiskOrigins[i] + DiskWidth + 1.0
    ensures BetweenDisks(DiskOrigins[i] + DiskWidth + 1.0, i)
    ensures forall k :: 0 <= k <= i ==> DiskOrigins[k] <= DiskOrigins[i]
  {
    DiskOriginsSpaced();
  }

  /** inputMovement keeps the pick in the playable rectangle and every disk in the band, and
      changes no disk's gates or bounds. */
  lemma MoveKeepsPlayable(disks: seq<Disk>, offset: Offset, dx: real, dy: real)
    requires Playable(disks, offset)
    ensures var m := Move(disks, offset, dx, dy);
      && Playable(m.disks, m.offset)
      && forall k :: 0 <= k < DiskCount ==>
        m.disks[k].gates == disks[k].gates && m.disks[k].bounds == disks[k].bounds
  {
    var cx := Clamp(PickClampXLow, offset.x + dx, PickClampXHigh);
    var cy := Clamp(PickClampYLow, offset.y + dy, PickClampYHigh);
    ResolveXInRange(disks, offset.y, offset.x, cx);
    var nx := if dx != 0.0 then ResolveX(disks, offset.y, offset.x, cx) else cx;
    PushYFacts(disks, nx, cy, dy);
  }

  /** At most one disk moves: the one the tip ends inside, on a y movement, and it ends within
      the pick tip slop of the pick. */
  lemma MoveMovesOnlyTipDisk(disks: seq<Disk>, offset: Offset, dx: real, dy: real)
    requires Playable(disks, offset)
    ensures var m := Move(disks, offset, dx, dy);
      forall k :: 0 <= k < DiskCount && m.disks[k].position != disks[k].position ==>
        dy != 0.0 && InsideDisk(m.offset.x, k) && !Misaligned(m.disks[k], m.offset.y)
    ensures var m := Move(disks, offset, dx, dy);
      forall j, k :: 0 <= j < k < DiskCount && m.disks[j].position != disks[j].position ==>
        m.disks[k].position == disks[k].position
  {
    var m := Move(disks, offset, dx, dy);
    var cx := Clamp(PickClampXLow, offset.x + dx, PickClampXHigh);
    var cy := Clamp(PickClampYLow, offset.y + dy, PickClampYHigh);
    ResolveXInRange(disks, offset.y, offset.x, cx);
    var nx := if dx != 0.0 then ResolveX(disks, offset.y, offset.x, cx) else cx;
    PushYFacts(disks, nx, cy, dy);
    forall j, k | 0 <= j < k < DiskCount && m.disks[j].position != disks[j].position
      ensures m.disks[k].position == disks[k].position
    {
      if m.disks[k].position != disks[k].position {
        SpanUnique(nx, Span(j, j), Span(k, k));
      }
    }
  }

  /** The tip never ends inside a disk it is not aligned with: it cannot enter one sideways,
      and the disk it is inside is pushed along with it. */
  lemma MoveKeepsTipAligned(disks: seq<Disk>, offset: Offset, dx: real, dy: real)
    requires Playable(disks, offset) && TipAligned(disks, offset)
    ensures var m := Move(disks, offset, dx, dy); TipAligned(m.disks, m.offset)
  {
    var cx := Clamp(PickClampXLow, offset.x + dx, PickClampXHigh);
    var cy := Clamp(PickClampYLow, offset.y + dy, PickClampYHigh);
    ResolveXInRange(disks, offset.y, offset.x, cx);
    ResolveXEntersAligned(disks, offset.y, offset.x, cx);
    var nx := if dx != 0.0 then ResolveX(disks, offset.y, offset.x, cx) else cx;
    PushYFacts(disks, nx, cy, dy);
  }

  /** Moving sideways, the pick does not pass a disk it is not aligned with: moving right it ends
      left of every such disk between where it started and where it was going, moving left right
      of every such disk. */
  lemma MoveStopsAtMisaligned(disks: seq<Disk>, offset: Offset, dx: real, dy: real, s: Span, e: Span)
    requires Playable(disks, offset) && dx != 0.0
    requires TipPosition(offset.x) == Some(s)
    requires TipPosition(Clamp(PickClampXLow, offset.x + dx, PickClampXHigh)) == Some(e)
    ensures s.left < e.left ==>
      forall i :: s.left < i <= e.left && i < DiskCount && Misaligned(disks[i], offset.y) ==>
      Move(disks, offset, dx, dy).offset.x <= DiskOrigins[i] - DiskWidth - 1.0
    ensures s.left >= e.left && s.right > e.right ==>
      forall i :: 0 <= e.right <= i < s.right && Misaligned(disks[i], offset.y) ==>
        Move(disks, offset, dx, dy).offset.x >= DiskOrigins[i] + DiskWidth + 1.0
  {
    var cx := Clamp(PickClampXLow, offset.x + dx, PickClampXHigh);
    var cy := Clamp(PickClampYLow, offset.y + dy, PickClampYHigh);
    ResolveXInRange(disks, offset.y, offset.x, cx);
    TipPositionSpan(offset.x);
    TipPositionSpan(cx);
    if s.left < e.left {
      ResolveXStopsRight(disks, offset.y, offset.x, cx, s, e);
    } else if s.right > e.right {
      ResolveXStopsLeft(disks, offset.y, offset.x, cx, s, e);
    }
  }

  /** determinePickTipPosition as the loop it is: the first disk origin within half a spacing
      of the offset decides the span. */
  method DeterminePickTipPosition(offset: real) returns (r: Option<Span>)
    ensures r == TipPosition(offset)
  {
    var i := 0;
    while i < |DiskOrigins|
      invariant 0 <= i <= DiskCount
      invariant TipPositionFrom(offset, i) == TipPosition(offset)
    {
      var distance := DiskOrigins[i] - offset;
      if Abs(distance) <= DiskSpacing / 2.0 {
        if Abs(distance) - 1.0 < DiskWidth {
          return Some(Span(i, i));
        } else if distance < 0.0 {
          // Math.sign(distance) === -1: the tip is right of disk i
          return Some(Span(i, i + 1));
        } else {
          return Some(Span(i - 1, i));
        }
      }
      i := i + 1;
    }
    return None;
  }

  /** Where the pick may be and whether it sits in a disk it is aligned with depend on the
      disks' positions alone. */
  lemma PositionsDecidePlay(a: seq<Disk>, b: seq<Disk>, offset: Offset)
    requires |a| == |b| && forall k :: 0 <= k < |a| ==> a[k].position == b[k].position
    ensures Playable(a, offset) == Playable(b, offset)
    ensures TipAligned(a, offset) == TipAligned(b, offset)
  {
  }
}
