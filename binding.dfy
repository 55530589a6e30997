/** The binding solver of scripts/game.js:192-290 as a specification: which gate each disk is
    aligned with, which disk binds, the bounds every disk receives and the rotation the core may
    reach. The imperative solver in the Game module is proved to compute exactly this. */
module Binding {
  import opened LockTypes

  /** Gate slot k of disk d is cut and within the true-binding slop of the disk's position.
      Slots past the sixth have no gate origin and never align. */
  predicate GateAligned(d: Disk, k: nat)
  {
    k < |d.gates| && k < GateCount && d.gates[k] != NoGate
    && Abs(GateOrigins[k] - d.position) <= GateTrueBindingSlop
  }

  /** findTrueSlopToGate: the lowest-index cut gate within the true slop, if any. */
  function FindTrueSlopToGate(d: Disk): (r: Option<nat>)
    ensures r.Some? ==> GateAligned(d, r.value)
    ensures r.Some? ==> forall k :: 0 <= k < r.value ==> !GateAligned(d, k)
    ensures r.None? ==> forall k :: 0 <= k < |d.gates| ==> !GateAligned(d, k)
  {
    FindFrom(d, 0)
  }

  function FindFrom(d: Disk, i: nat): (r: Option<nat>)
    requires i <= |d.gates|
    decreases |d.gates| - i
    ensures r.Some? ==> i <= r.value && GateAligned(d, r.value)
    ensures r.Some? ==> forall k :: i <= k < r.value ==> !GateAligned(d, k)
    ensures r.None? ==> forall k :: i <= k < |d.gates| ==> !GateAligned(d, k)
  {
    if i == |d.gates| then None
    else if GateAligned(d, i) then Some(i)
    else FindFrom(d, i + 1)
  }

  /** The disk sits between gates: no cut gate is within the true slop. */
  predicate Unaligned(d: Disk) { FindTrueSlopToGate(d).None? }

  /** The slot of the gate an aligned disk sits on. */
  function AlignedGate(d: Disk): (g: nat)
    requires !Unaligned(d)
    ensures g < |d.gates| && g < GateCount && d.gates[g] != NoGate
  {
    FindTrueSlopToGate(d).value
  }

  /** The disk's aligned gate is a false gate. */
  predicate OnFalseGate(d: Disk)
  {
    var g := FindTrueSlopToGate(d);
    g.Some? && d.gates[g.value] == FalseGate
  }

  /** The disk's aligned gate is the true gate. */
  predicate OnTrueGate(d: Disk)
  {
    var g := FindTrueSlopToGate(d);
    g.Some? && d.gates[g.value] == TrueGate
  }

  /** An aligned disk is on a false gate or on the true gate. */
  lemma AlignedOnFalseOrTrue(d: Disk)
    requires !Unaligned(d)
    ensures OnFalseGate(d) != OnTrueGate(d)
  {
  }

  /** What the solver is given: ten disks and two binding orders that are permutations. */
  ghost predicate BindInputs(disks: seq<Disk>, o1: seq<nat>, o2: seq<nat>)
  {
    |disks| == DiskCount && IsPermutation(o1) && IsPermutation(o2)
  }

  /** The first position at or after k in order o whose disk is unaligned. */
  function FirstUnalignedFrom(disks: seq<Disk>, o: seq<nat>, k: nat): (r: Option<nat>)
    requires forall i :: 0 <= i < |o| ==> o[i] < |disks|
    requires k <= |o|
    decreases |o| - k
    ensures r.Some? ==> k <= r.value < |o| && Unaligned(disks[o[r.value]])
    ensures r.Some? ==> forall j :: k <= j < r.value ==> !Unaligned(disks[o[j]])
    ensures r.None? ==> forall j :: k <= j < |o| ==> !Unaligned(disks[o[j]])
  {
    if k == |o| then None
    else if Unaligned(disks[o[k]]) then Some(k)
    else FirstUnalignedFrom(disks, o, k + 1)
  }

  /** The position in bindingOrder1 of the disk that binds in the first pass. */
  function FirstUnaligned(disks: seq<Disk>, o: seq<nat>): (r: Option<nat>)
    requires forall i :: 0 <= i < |o| ==> o[i] < |disks|
    ensures r.Some? ==> r.value < |o| && Unaligned(disks[o[r.value]])
    ensures r.Some? ==> forall j :: 0 <= j < r.value ==> !Unaligned(disks[o[j]])
    ensures r.None? ==> forall j :: 0 <= j < |o| ==> !Unaligned(disks[o[j]])
  {
    FirstUnalignedFrom(disks, o, 0)
  }

  /** The first position at or after k in order o whose disk is on a false gate. */
  function FirstFalseFrom(disks: seq<Disk>, o: seq<nat>, k: nat): (r: Option<nat>)
    requires forall i :: 0 <= i < |o| ==> o[i] < |disks|
    requires k <= |o|
    decreases |o| - k
    ensures r.Some? ==> k <= r.value < |o| && OnFalseGate(disks[o[r.value]])
    ensures r.Some? ==> forall j :: k <= j < r.value ==> !OnFalseGate(disks[o[j]])
    ensures r.None? ==> forall j :: k <= j < |o| ==> !OnFalseGate(disks[o[j]])
  {
    if k == |o| then None
    else if OnFalseGate(disks[o[k]]) then Some(k)
    else FirstFalseFrom(disks, o, k + 1)
  }

  /** The position in bindingOrder2 of the disk that gets the false-set slop. */
  function FirstFalse(disks: seq<Disk>, o: seq<nat>): (r: Option<nat>)
    requires forall i :: 0 <= i < |o| ==> o[i] < |disks|
    ensures r.Some? ==> r.value < |o| && OnFalseGate(disks[o[r.value]])
    ensures r.Some? ==> forall j :: 0 <= j < r.value ==> !OnFalseGate(disks[o[j]])
    ensures r.None? ==> forall j :: 0 <= j < |o| ==> !OnFalseGate(disks[o[j]])
  {
    FirstFalseFrom(disks, o, 0)
  }

  /** The false-set slop of the disk at position i of bindingOrder2: R = 0.5 and
      X = (10 - i) / 10, so the slop shrinks from 8 towards 4 further down the order. */
  function FalseSlop(i: nat): (r: real)
    requires i < DiskCount
    ensures 4.4 <= r <= GateFalseBindingSlop
    ensures i == 0 ==> r == GateFalseBindingSlop
  {
    var R := 0.5;
    var X := ((DiskCount - i) as real) / (DiskCount as real);
    ((1.0 - R) * X + R) * GateFalseBindingSlop
  }

  /** A later position in bindingOrder2 never gets more slop than an earlier one. */
  lemma FalseSlopDecreasing(i: nat, j: nat)
    requires i <= j < DiskCount
    ensures FalseSlop(j) <= FalseSlop(i)
  {
    assert ((DiskCount - j) as real) <= ((DiskCount - i) as real);
  }

  /** Bounds centred on gate g's origin, `slop` above and below. */
  function AroundGate(g: nat, slop: real): (r: Bounds)
    requires g < GateCount
    ensures r.upper - r.lower == 2.0 * slop
    ensures r.upper - GateOrigins[g] == slop
  {
    Bounds(GateOrigins[g] + slop, GateOrigins[g] - slop)
  }

  /** The bounds the solver gives disk d. */
  function BoundsFor(disks: seq<Disk>, o1: seq<nat>, o2: seq<nat>, d: nat): (r: Bounds)
    requires BindInputs(disks, o1, o2) && d < DiskCount
    ensures r.lower <= r.upper
  {
    var disk := disks[d];
    match FirstUnaligned(disks, o1)
    case Some(u) =>
      var r := IndexOf(o1, d);
      if r < u then AroundGate(FindTrueSlopToGate(disk).value, GateTrueBindingSlop)
      else if r == u then Bounds(disk.position, disk.position)
      else DiskDefaultBounds
    case None =>
      var r := IndexOf(o2, d);
      var g := FindTrueSlopToGate(disk).value;
      if FirstFalse(disks, o2) == Some(r) then AroundGate(g, FalseSlop(r))
      else AroundGate(g, GateTrueBindingSlop)
  }

  /** The rotation recalculateDiskBinds returns. */
  function BindRotation(disks: seq<Disk>, o1: seq<nat>, o2: seq<nat>): real
    requires BindInputs(disks, o1, o2)
  {
    if FirstUnaligned(disks, o1).Some? then CoreRotationDefault
    else if FirstFalse(disks, o2).Some? then CoreRotationFalseSet
    else CoreRotationOpen
  }

  datatype BindResult = BindResult(rotation: real, disks: seq<Disk>)

  /** The whole effect of recalculateDiskBinds: the returned rotation and the disks with their
      new bounds. Only bounds change. */
  function Binds(disks: seq<Disk>, o1: seq<nat>, o2: seq<nat>): (r: BindResult)
    requires BindInputs(disks, o1, o2)
    ensures |r.disks| == DiskCount
    ensures forall d :: 0 <= d < DiskCount ==>
      r.disks[d].gates == disks[d].gates && r.disks[d].position == disks[d].position
  {
    BindResult(BindRotation(disks, o1, o2),
      seq(DiskCount, d requires 0 <= d < DiskCount => disks[d].(bounds := BoundsFor(disks, o1, o2, d))))
  }

  /** Scanning order o one position further: the first false-set disk is at position i exactly
      when none came before and the disk at i is on a false gate. */
  lemma FirstFalseStep(disks: seq<Disk>, o: seq<nat>, i: nat)
    requires forall k :: 0 <= k < |o| ==> o[k] < |disks|
    requires i < |o|
    ensures var r := FirstFalse(disks, o);
      (r == Some(i)) <==> (!(r.Some? && r.value < i) && OnFalseGate(disks[o[i]]))
    ensures var r := FirstFalse(disks, o);
      (r.Some? && r.value < i + 1) <==> ((r.Some? && r.value < i) || OnFalseGate(disks[o[i]]))
  {
  }

  /** Disk d of the result is disk d with the bounds the solver gives it. */
  lemma BindsAt(disks: seq<Disk>, o1: seq<nat>, o2: seq<nat>, d: nat)
    requires BindInputs(disks, o1, o2) && d < DiskCount
    ensures Binds(disks, o1, o2).disks[d] == disks[d].(bounds := BoundsFor(disks, o1, o2, d))
  {
  }

  /** First pass: when the disk at position u of bindingOrder1 is the first one between gates,
      the core stays at the default rotation, that disk is held where it is, every disk before it
      is held within the true slop of its lowest aligned gate, and every disk after it is free. */
  lemma {:induction false} FirstPassBinds(disks: seq<Disk>, o1: seq<nat>, o2: seq<nat>, u: nat)
    requires BindInputs(disks, o1, o2)
    requires u < DiskCount && Unaligned(disks[o1[u]])
    requires forall j :: 0 <= j < u ==> !Unaligned(disks[o1[j]])
    ensures Binds(disks, o1, o2).rotation == CoreRotationDefault
    ensures Binds(disks, o1, o2).disks[o1[u]].bounds == Bounds(disks[o1[u]].position, disks[o1[u]].position)
    ensures forall j :: 0 <= j < u ==>
      var g := FindTrueSlopToGate(disks[o1[j]]);
      g.Some? && Binds(disks, o1, o2).disks[o1[j]].bounds == AroundGate(g.value, GateTrueBindingSlop)
    ensures forall k :: u < k < DiskCount ==> Binds(disks, o1, o2).disks[o1[k]].bounds == DiskDefaultBounds
  {
    FirstUnalignedAt(disks, o1, u);
    var r := Binds(disks, o1, o2);
    IndexOfDistinct(o1, u);
    assert r.disks[o1[u]].bounds == BoundsFor(disks, o1, o2, o1[u]);
    forall j | 0 <= j < u
      ensures var g := FindTrueSlopToGate(disks[o1[j]]);
        g.Some? && r.disks[o1[j]].bounds == AroundGate(g.value, GateTrueBindingSlop)
    {
      IndexOfDistinct(o1, j);
      assert r.disks[o1[j]].bounds == BoundsFor(disks, o1, o2, o1[j]);
    }
    forall k | u < k < DiskCount
      ensures r.disks[o1[k]].bounds == DiskDefaultBounds
    {
      IndexOfDistinct(o1, k);
      assert r.disks[o1[k]].bounds == BoundsFor(disks, o1, o2, o1[k]);
    }
  }

  /** The disk at position j of bindingOrder1, when the first pass stops at position u. */
  lemma FirstPassAt(disks: seq<Disk>, o1: seq<nat>, o2: seq<nat>, u: nat, j: nat)
    requires BindInputs(disks, o1, o2)
    requires u < DiskCount && FirstUnaligned(disks, o1) == Some(u) && j < DiskCount
    ensures j < u ==> FindTrueSlopToGate(disks[o1[j]]).Some?
    ensures Binds(disks, o1, o2).disks[o1[j]] == disks[o1[j]].(bounds :=
      if j < u then AroundGate(FindTrueSlopToGate(disks[o1[j]]).value, GateTrueBindingSlop)
      else if j == u then Bounds(disks[o1[j]].position, disks[o1[j]].position)
      else DiskDefaultBounds)
  {
    IndexOfDistinct(o1, j);
    BindsAt(disks, o1, o2, o1[j]);
  }

  /** The first unaligned position is the u the caller knows about. */
  lemma FirstUnalignedAt(disks: seq<Disk>, o: seq<nat>, u: nat)
    requires forall i :: 0 <= i < |o| ==> o[i] < |disks|
    requires u < |o| && Unaligned(disks[o[u]])
    requires forall j :: 0 <= j < u ==> !Unaligned(disks[o[j]])
    ensures FirstUnaligned(disks, o) == Some(u)
  {
  }

  /** With every disk aligned, the first pass finds no binder. */
  lemma NoneUnaligned(disks: seq<Disk>, o: seq<nat>)
    requires forall i :: 0 <= i < |o| ==> o[i] < |disks|
    requires forall d :: 0 <= d < |disks| ==> !Unaligned(disks[d])
    ensures FirstUnaligned(disks, o).None?
  {
  }

  /** Second pass, reached only when every disk is aligned: the first disk of bindingOrder2
      on a false gate gets the shrinking false slop and the core false-sets; every other disk
      is held within the true slop of its aligned gate. With no disk on a false gate, the core
      opens. */
  lemma {:induction false} SecondPassBinds(disks: seq<Disk>, o1: seq<nat>, o2: seq<nat>)
    requires BindInputs(disks, o1, o2)
    requires forall d :: 0 <= d < DiskCount ==> !Unaligned(disks[d])
    ensures FirstFalse(disks, o2).Some? ==> Binds(disks, o1, o2).rotation == CoreRotationFalseSet
    ensures FirstFalse(disks, o2).None? ==> Binds(disks, o1, o2).rotation == CoreRotationOpen
    ensures forall i :: 0 <= i < DiskCount ==>
      var g := AlignedGate(disks[o2[i]]);
      Binds(disks, o1, o2).disks[o2[i]].bounds ==
        if FirstFalse(disks, o2) == Some(i) then AroundGate(g, FalseSlop(i))
        else AroundGate(g, GateTrueBindingSlop)
  {
    NoneUnaligned(disks, o1);
    forall i | 0 <= i < DiskCount
      ensures var g := AlignedGate(disks[o2[i]]);
        Binds(disks, o1, o2).disks[o2[i]].bounds ==
          if FirstFalse(disks, o2) == Some(i) then AroundGate(g, FalseSlop(i))
          else AroundGate(g, GateTrueBindingSlop)
    {
      SecondPassAt(disks, o1, o2, i);
    }
  }

  lemma SecondPassAt(disks: seq<Disk>, o1: seq<nat>, o2: seq<nat>, i: nat)
    requires BindInputs(disks, o1, o2) && i < DiskCount
    requires forall d :: 0 <= d < DiskCount ==> !Unaligned(disks[d])
    ensures var g := AlignedGate(disks[o2[i]]);
      Binds(disks, o1, o2).disks[o2[i]] == disks[o2[i]].(bounds :=
        if FirstFalse(disks, o2) == Some(i) then AroundGate(g, FalseSlop(i))
        else AroundGate(g, GateTrueBindingSlop))
  {
    NoneUnaligned(disks, o1);
    IndexOfDistinct(o2, i);
    BindsAt(disks, o1, o2, o2[i]);
  }

  /** Every disk of a binding order appears at some position: the first pass finds a binder
      exactly when some disk is between gates. */
  lemma FirstUnalignedIffSome(disks: seq<Disk>, o: seq<nat>)
    requires |disks| == DiskCount && IsPermutation(o)
    ensures FirstUnaligned(disks, o).Some? <==> exists d :: 0 <= d < DiskCount && Unaligned(disks[d])
  {
    if d :| 0 <= d < DiskCount && Unaligned(disks[d]) {
      var j := IndexOf(o, d);
      assert Unaligned(disks[o[j]]);
    }
  }

  /** Likewise the second pass finds a false-set disk exactly when some disk is on a false gate. */
  lemma FirstFalseIffSome(disks: seq<Disk>, o: seq<nat>)
    requires |disks| == DiskCount && IsPermutation(o)
    ensures FirstFalse(disks, o).Some? <==> exists d :: 0 <= d < DiskCount && OnFalseGate(disks[d])
  {
    if d :| 0 <= d < DiskCount && OnFalseGate(disks[d]) {
      var j := IndexOf(o, d);
      assert OnFalseGate(disks[o[j]]);
    }
  }

  /** The rotation the solver returns depends only on where the disks are, not on either
      binding order: default when some disk is between gates, open when every disk is on its
      true gate, and false-set otherwise. */
  lemma RotationClassified(disks: seq<Disk>, o1: seq<nat>, o2: seq<nat>)
    requires BindInputs(disks, o1, o2)
    ensures Binds(disks, o1, o2).rotation == CoreRotationDefault <==>
      exists d :: 0 <= d < DiskCount && Unaligned(disks[d])
    ensures Binds(disks, o1, o2).rotation == CoreRotationOpen <==>
      forall d :: 0 <= d < DiskCount ==> OnTrueGate(disks[d])
    ensures Binds(disks, o1, o2).rotation == CoreRotationFalseSet <==>
      (forall d :: 0 <= d < DiskCount ==> !Unaligned(disks[d]))
      && exists d :: 0 <= d < DiskCount && OnFalseGate(disks[d])
  {
    FirstUnalignedIffSome(disks, o1);
    FirstFalseIffSome(disks, o2);
    forall d | 0 <= d < DiskCount && !Unaligned(disks[d])
      ensures OnFalseGate(disks[d]) != OnTrueGate(disks[d])
    {
      AlignedOnFalseOrTrue(disks[d]);
    }
  }

  /** Every disk's bounds are a proper range, upper at or above lower. */
  lemma BoundsOrdered(disks: seq<Disk>, o1: seq<nat>, o2: seq<nat>, d: nat)
    requires BindInputs(disks, o1, o2) && d < DiskCount
    ensures Binds(disks, o1, o2).disks[d].bounds.lower <= Binds(disks, o1, o2).disks[d].bounds.upper
  {
  }

  /** A disk held with the true slop around its aligned gate is inside its own bounds, so the
      solver never pushes a disk out of the range it allows. */
  lemma TrueSlopContainsPosition(d: Disk)
    requires !Unaligned(d)
    ensures var b := AroundGate(FindTrueSlopToGate(d).value, GateTrueBindingSlop);
      b.lower <= d.position <= b.upper
  {
  }

  /** No two cut gates sit in adjacent slots. */
  predicate NoAdjacentCuts(gates: seq<Gate>)
  {
    forall k :: 0 <= k < |gates| - 1 ==> gates[k] == NoGate || gates[k + 1] == NoGate
  }

  /** On a disk without adjacent cuts, the aligned gate is the only cut gate within the true
      slop: gate origins are 30 apart, so two gates within 16 of one position are neighbours. */
  lemma AlignedGateUnique(d: Disk, k: nat)
    requires NoAdjacentCuts(d.gates) && GateAligned(d, k)
    ensures FindTrueSlopToGate(d) == Some(k)
  {
    var g := FindTrueSlopToGate(d);
    assert g.Some?;
    if g.value < k {
      GateOriginsApart(g.value, k);
      assert false;
    }
  }

  /** Gate origins are 30 apart slot by slot, so slots further than one apart are at least 60
      apart. */
  lemma GateOriginsApart(i: nat, j: nat)
    requires i < j < GateCount
    ensures j > i + 1 ==> GateOrigins[j] - GateOrigins[i] >= 60.0
    ensures GateOrigins[j] - GateOrigins[i] >= 30.0
  {
  }

  /** Two packs of disks that differ at most in their bounds. */
  predicate SameGatesAndPositions(a: seq<Disk>, b: seq<Disk>)
  {
    |a| == |b| && forall k :: 0 <= k < |a| ==> a[k].gates == b[k].gates && a[k].position == b[k].position
  }

  /** The aligned gate depends on the gates and the position only. */
  lemma AlignmentIgnoresBounds(a: Disk, b: Disk)
    requires a.gates == b.gates && a.position == b.position
    ensures FindTrueSlopToGate(a) == FindTrueSlopToGate(b)
  {
    forall k: nat
      ensures GateAligned(a, k) == GateAligned(b, k)
    {
    }
  }

  lemma FirstUnalignedSame(a: seq<Disk>, b: seq<Disk>, o: seq<nat>)
    requires |a| == |b| && forall i :: 0 <= i < |o| ==> o[i] < |a|
    requires forall k :: 0 <= k < |a| ==> Unaligned(a[k]) == Unaligned(b[k])
    ensures FirstUnaligned(a, o) == FirstUnaligned(b, o)
  {
  }

  lemma FirstFalseSame(a: seq<Disk>, b: seq<Disk>, o: seq<nat>)
    requires |a| == |b| && forall i :: 0 <= i < |o| ==> o[i] < |a|
    requires forall k :: 0 <= k < |a| ==> OnFalseGate(a[k]) == OnFalseGate(b[k])
    ensures FirstFalse(a, o) == FirstFalse(b, o)
  {
  }

  /** The solver reads only the gates and positions of the disks, never their old bounds. */
  lemma {:induction false} BindsIgnoresBounds(a: seq<Disk>, b: seq<Disk>, o1: seq<nat>, o2: seq<nat>)
    requires BindInputs(a, o1, o2) && SameGatesAndPositions(a, b)
    ensures BindInputs(b, o1, o2) && Binds(a, o1, o2) == Binds(b, o1, o2)
  {
    forall k | 0 <= k < DiskCount
      ensures FindTrueSlopToGate(a[k]) == FindTrueSlopToGate(b[k])
    {
      AlignmentIgnoresBounds(a[k], b[k]);
    }
    FirstUnalignedSame(a, b, o1);
    FirstFalseSame(a, b, o2);
    var ra, rb := Binds(a, o1, o2), Binds(b, o1, o2);
    forall d | 0 <= d < DiskCount
      ensures ra.disks[d] == rb.disks[d]
    {
      BindsAt(a, o1, o2, d);
      BindsAt(b, o1, o2, d);
    }
  }

  /** Recalculating the binds a second time, with nothing moved, changes nothing. */
  lemma BindsIdempotent(disks: seq<Disk>, o1: seq<nat>, o2: seq<nat>)
    requires BindInputs(disks, o1, o2)
    ensures BindInputs(Binds(disks, o1, o2).disks, o1, o2)
    ensures Binds(Binds(disks, o1, o2).disks, o1, o2) == Binds(disks, o1, o2)
  {
    BindsIgnoresBounds(Binds(disks, o1, o2).disks, disks, o1, o2);
  }
}
