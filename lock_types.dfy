/** The data model of the disk-detainer lock: gate kinds, disks, their movement bounds and
    the fixed geometry of the pack (scripts/game.js:85-101). */
module LockTypes {

  datatype Option<+T> = None | Some(value: T)

  /** What is cut into a disk at one gate slot (NO_GATE, FALSE_GATE, TRUE_GATE). */
  datatype Gate = NoGate | FalseGate | TrueGate

  /** A disk's range of motion under tension, stored as the pair [upper, lower]. */
  datatype Bounds = Bounds(upper: real, lower: real)

  /** One disk of the pack: its gate pattern, its rotation and its bounds. */
  datatype Disk = Disk(gates: seq<Gate>, position: real, bounds: Bounds)

  /** The game's state string: "wait", "main", "ending", "end". */
  datatype GameState = Wait | Main | Ending | End

  /** The pick handle offset, the pair [x, y]. */
  datatype Offset = Offset(x: real, y: real)

  const DiskCount: nat := 10
  const GateCount: nat := 6

  const CoreRotationUntensioned: real := 5.0
  const CoreRotationDefault: real := -2.0
  const CoreRotationFalseSet: real := -10.0
  const CoreRotationOpen: real := -75.0

  /** Playable rectangle of the pick handle offset: x in [0, 183], y in [-165, -5]. */
  const PickClampXLow: real := 0.0
  const PickClampXHigh: real := 183.0
  const PickClampYLow: real := -165.0
  const PickClampYHigh: real := -5.0

  const PickHandleOffsetDefault: Offset := Offset(0.0, -160.0)

  /** Disk positions as x-offsets of the pick handle. */
  const DiskOrigins: seq<real> := [2.0, 22.0, 42.0, 62.0, 82.0, 102.0, 122.0, 142.0, 162.0, 182.0]
  const DiskSpacing: real := 20.0
  const DiskDefaultBounds: Bounds := Bounds(-5.0, -165.0)
  /** Gate positions as y-offsets of the pick handle. */
  const GateOrigins: seq<real> := [-160.0, -130.0, -100.0, -70.0, -40.0, -10.0]
  const DiskWidth: real := 8.0
  const PickTipSlop: real := 8.0
  const GateFalseBindingSlop: real := 8.0
  const GateTrueBindingSlop: real := 16.0

  /** Disk positions stay inside this band: the pick's y range widened by the pick tip slop. */
  const PositionLow: real := -173.0
  const PositionHigh: real := 3.0

  function Abs(x: real): real { if x < 0.0 then -x else x }
  function Min(a: real, b: real): real { if a <= b then a else b }
  function Max(a: real, b: real): real { if a >= b then a else b }

  /** The disk origins are evenly spaced, DiskSpacing apart, starting at 2. */
  function Origin(i: int): real { 2.0 + DiskSpacing * (i as real) }

  lemma DiskOriginsSpaced()
    ensures forall i :: 0 <= i < DiskCount ==> DiskOrigins[i] == Origin(i)
  {
  }

  /** Disk origins further apart in the pack are further apart on the x axis: by a spacing per
      disk between them. */
  lemma DiskOriginsApart(i: int, j: int)
    requires 0 <= i <= j < DiskCount
    ensures DiskOrigins[j] - DiskOrigins[i] == DiskSpacing * ((j - i) as real)
  {
    DiskOriginsSpaced();
  }

  /** A disk as the game builds it: one slot per gate origin. */
  predicate WellFormed(d: Disk) { |d.gates| == GateCount }

  /** The ten distinct values 0..9, in any order. */
  ghost predicate IsPermutation(s: seq<nat>)
  {
    && |s| == DiskCount
    && (forall i :: 0 <= i < |s| ==> s[i] < DiskCount)
    && (forall i, j :: 0 <= i < j < |s| ==> s[i] != s[j])
    && (forall d :: 0 <= d < DiskCount ==> d in s)
  }

  /** In a sequence without repeats, the first occurrence of s[j] is j itself. */
  lemma IndexOfDistinct(s: seq<nat>, j: nat)
    requires j < |s|
    requires forall a, b :: 0 <= a < b < |s| ==> s[a] != s[b]
    ensures IndexOf(s, s[j]) == j
  {
  }

  /** The binding order before shuffling: [0, 1, ..., 9]. */
  function Identity(): (r: seq<nat>)
    ensures |r| == DiskCount && forall i :: 0 <= i < DiskCount ==> r[i] == i
  {
    seq(DiskCount, i => i)
  }

  /** The position at which `x` occurs in a binding order. */
  function IndexOf(s: seq<nat>, x: nat): (r: nat)
    requires x in s
    ensures r < |s| && s[r] == x
    ensures forall k :: 0 <= k < r ==> s[k] != x
  {
    if s[0] == x then 0 else 1 + IndexOf(s[1..], x)
  }
}
