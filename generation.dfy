/** Lock generation inside initGame (scripts/game.js:293-449): the gate pattern table and
    makeDisk, the Knuth shuffle of a binding order, the rejection-sampled bitting, and dealing
    the ten disks. Each operation is a method drawing from a SeededRandom, proved against a
    function of the generator state it starts from. */
module Generation {
  import opened LockTypes
  import opened Random
  import Binding

  const O: Gate := NoGate
  const H: Gate := FalseGate
  const U: Gate := TrueGate

  /** gatePattern[t]: the four gate arrangements of a disk whose true gate is slot t. */
  const GatePattern: seq<seq<seq<Gate>>> := [
    [[U, O, H, O, H, O], [U, O, H, O, O, O], [U, O, O, O, H, O], [U, O, O, H, O, H]],
    [[O, U, O, H, O, H], [O, U, O, H, O, O], [O, U, O, O, O, H], [O, U, O, O, H, O]],
    [[H, O, U, O, H, O], [H, O, U, O, O, O], [O, O, U, O, H, O], [O, O, U, O, O, H]],
    [[O, H, O, U, O, H], [O, H, O, U, O, O], [O, O, O, U, O, H], [H, O, O, U, O, O]],
    [[H, O, H, O, U, O], [H, O, O, O, U, O], [O, O, H, O, U, O], [O, H, O, O, U, O]],
    [[O, H, O, H, O, U], [O, H, O, O, O, U], [O, O, O, H, O, U], [H, O, H, O, O, U]]
  ]

  const PatternsPerGate: nat := 4

  /** The gates have exactly one true gate, in slot t. */
  predicate TrueGateOnlyAt(gates: seq<Gate>, t: nat)
  {
    t < |gates| && gates[t] == TrueGate
    && forall s :: 0 <= s < |gates| && s != t ==> gates[s] != TrueGate
  }

  predicate HasFalseGate(gates: seq<Gate>)
  {
    exists s :: 0 <= s < |gates| && gates[s] == FalseGate
  }

  /** Every row of the table has six slots, its one true gate in slot t, no two cut gates in
      adjacent slots, and at least one false gate. */
  lemma PatternRow(t: nat, k: nat)
    requires t < GateCount && k < PatternsPerGate
    ensures |GatePattern| == GateCount && |GatePattern[t]| == PatternsPerGate
    ensures |GatePattern[t][k]| == GateCount
    ensures TrueGateOnlyAt(GatePattern[t][k], t)
    ensures Binding.NoAdjacentCuts(GatePattern[t][k])
    ensures HasFalseGate(GatePattern[t][k])
  {
    var row := GatePattern[t][k];
    assert row[FalseWitness[t][k]] == FalseGate;
  }

  /** For each row of the table, one slot holding a false gate. */
  const FalseWitness: seq<seq<nat>> := [
    [2, 2, 4, 3], [3, 3, 5, 4], [0, 0, 4, 5], [1, 1, 5, 0], [0, 0, 2, 1], [1, 1, 3, 0]
  ]

  /** The gates of the spinner disk: no gate but the true one, in slot t. */
  function SpinnerGates(t: nat): (r: seq<Gate>)
    requires t < GateCount
    ensures |r| == GateCount && TrueGateOnlyAt(r, t) && !HasFalseGate(r)
    ensures Binding.NoAdjacentCuts(r)
  {
    [O, O, O, O, O, O][t := U]
  }

  /** makeDisk(t, noFalses) run from generator state x: the disk and the state afterwards.
      A spinner takes no draw; any other disk takes one draw to pick its row. */
  function MakeDiskFrom(t: nat, noFalses: bool, x: bv32): (r: (Disk, bv32))
    requires t < GateCount
  {
    if noFalses then (Disk(SpinnerGates(t), GateOrigins[0], DiskDefaultBounds), x)
    else
      var y := XorShift(x);
      (Disk(GatePattern[t][RandIndex(Word(y), PatternsPerGate)], GateOrigins[0], DiskDefaultBounds), y)
  }

  /** What every disk makeDisk builds looks like: six slots, its one true gate at slot t, no
      adjacent cuts, a false gate exactly when it is not the spinner, at the first gate's
      position and with the default bounds. */
  lemma MakeDiskShape(t: nat, noFalses: bool, x: bv32)
    requires t < GateCount
    ensures var d := MakeDiskFrom(t, noFalses, x).0;
      && WellFormed(d) && TrueGateOnlyAt(d.gates, t) && Binding.NoAdjacentCuts(d.gates)
      && (HasFalseGate(d.gates) <==> !noFalses)
      && d.position == GateOrigins[0] && d.bounds == DiskDefaultBounds
    ensures noFalses ==> MakeDiskFrom(t, noFalses, x).1 == x
    ensures !noFalses ==> MakeDiskFrom(t, noFalses, x).1 == XorShift(x)
  {
    if !noFalses {
      var y := XorShift(x);
      PatternRow(t, RandIndex(Word(y), PatternsPerGate));
    }
  }

  /** makeDisk: draws `Math.floor(random() * 4)` for the row unless the disk is the spinner. */
  method MakeDisk(rand: SeededRandom, t: nat, noFalses: bool) returns (d: Disk)
    requires t < GateCount
    modifies rand
    ensures (d, rand.state) == MakeDiskFrom(t, noFalses, old(rand.state))
  {
    var gates: seq<Gate>;
    if noFalses {
      gates := [O, O, O, O, O, O];
      gates := gates[t := U];
      assert gates == SpinnerGates(t);
    } else {
      var x := rand.RandInt();
      var k := RandIndex(Word(x), PatternsPerGate);
      gates := GatePattern[t][k];
    }
    d := Disk(gates, GateOrigins[0], DiskDefaultBounds);
  }

  /** s with the entries at i and j exchanged. */
  function Swap(s: seq<nat>, i: nat, j: nat): (r: seq<nat>)
    requires i < |s| && j < |s|
    ensures |r| == |s| && r[i] == s[j] && r[j] == s[i]
    ensures forall k :: 0 <= k < |s| && k != i && k != j ==> r[k] == s[k]
  {
    s[i := s[j]][j := s[i]]
  }

  /** The Knuth shuffle's passes i, i-1, ..., 1 run from state x: each pass draws
      j = floor(random() * (i + 1)) and swaps entries i and j. */
  function ShuffleFrom(s: seq<nat>, x: bv32, i: nat): (r: (seq<nat>, bv32))
    requires i < |s|
    decreases i
    ensures |r.0| == |s|
  {
    if i == 0 then (s, x)
    else
      var y := XorShift(x);
      var j := RandIndex(Word(y), i + 1);
      ShuffleFrom(Swap(s, i, j), y, i - 1)
  }

  /** One pass of the shuffle, unfolded. */
  lemma ShuffleStep(s: seq<nat>, x: bv32, i: nat)
    requires 0 < i < |s|
    ensures ShuffleFrom(s, x, i) ==
      ShuffleFrom(Swap(s, i, RandIndex(Word(XorShift(x)), i + 1)), XorShift(x), i - 1)
  {
  }

  /** The shuffled sequence on all of s, from state x. */
  function Shuffled(s: seq<nat>, x: bv32): (r: (seq<nat>, bv32))
    ensures |r.0| == |s|
  {
    if |s| == 0 then (s, x) else ShuffleFrom(s, x, |s| - 1)
  }

  /** Swapping two entries of a permutation of 0..9 leaves a permutation. */
  lemma SwapPermutation(s: seq<nat>, i: nat, j: nat)
    requires IsPermutation(s) && i < |s| && j < |s|
    ensures IsPermutation(Swap(s, i, j))
    ensures multiset(Swap(s, i, j)) == multiset(s)
  {
    var r := Swap(s, i, j);
    forall d | 0 <= d < DiskCount
      ensures d in r
    {
      assert d in s;
      var k :| 0 <= k < |s| && s[k] == d;
      if k == i {
        assert r[j] == d;
      } else if k == j {
        assert r[i] == d;
      } else {
        assert r[k] == d;
      }
    }
    assert r == s[i := s[j]][j := s[i]];
  }

  /** The shuffle only exchanges entries, so it keeps the multiset of values, and a
      permutation of 0..9 stays one. */
  lemma {:induction false} ShufflePermutes(s: seq<nat>, x: bv32, i: nat)
    requires i < |s|
    decreases i
    ensures |ShuffleFrom(s, x, i).0| == |s|
    ensures multiset(ShuffleFrom(s, x, i).0) == multiset(s)
    ensures IsPermutation(s) ==> IsPermutation(ShuffleFrom(s, x, i).0)
  {
    if i > 0 {
      var y := XorShift(x);
      var j := RandIndex(Word(y), i + 1);
      var t := Swap(s, i, j);
      assert multiset(t) == multiset(s) by {
        assert t == s[i := s[j]][j := s[i]];
      }
      if IsPermutation(s) {
        SwapPermutation(s, i, j);
      }
      ShufflePermutes(t, y, i - 1);
    }
  }

  /** Entries past index i are never touched by passes i, i-1, ..., 1. */
  lemma {:induction false} ShuffleKeepsTail(s: seq<nat>, x: bv32, i: nat)
    requires i < |s|
    decreases i
    ensures |ShuffleFrom(s, x, i).0| == |s|
    ensures ShuffleFrom(s, x, i).0[i + 1..] == s[i + 1..]
  {
    if i > 0 {
      var y := XorShift(x);
      var j := RandIndex(Word(y), i + 1);
      var t := Swap(s, i, j);
      ShuffleKeepsTail(t, y, i - 1);
      assert t[i + 1..] == s[i + 1..];
      assert ShuffleFrom(t, y, i - 1).0[i..][1..] == t[i..][1..];
    }
  }

  /** The identity order shuffled is a permutation of 0..9. */
  lemma ShuffledIdentity(x: bv32)
    ensures IsPermutation(Shuffled(Identity(), x).0)
  {
    IdentityIsPermutation();
    ShufflePermutes(Identity(), x, DiskCount - 1);
  }

  lemma IdentityIsPermutation()
    ensures IsPermutation(Identity())
  {
    forall d | 0 <= d < DiskCount
      ensures d in Identity()
    {
      assert Identity()[d] == d;
    }
  }

  /** shuffleArray: Knuth shuffle in place, each pass swapping arr[i] with an arr[j], j <= i. */
  method ShuffleArray(rand: SeededRandom, arr: array<nat>)
    modifies rand, arr
    ensures (arr[..], rand.state) == Shuffled(old(arr[..]), old(rand.state))
  {
    if arr.Length == 0 {
      return;
    }
    ghost var s0 := arr[..];
    ghost var x0 := rand.state;
    var i := arr.Length - 1;
    while i > 0
      invariant 0 <= i < arr.Length
      invariant ShuffleFrom(arr[..], rand.state, i) == ShuffleFrom(s0, x0, arr.Length - 1)
      decreases i
    {
      ghost var before := arr[..];
      ghost var x0 := rand.state;
      var x := rand.RandInt();
      var j := RandIndex(Word(x), i + 1);
      ShuffleStep(before, x0, i);
      arr[i], arr[j] := arr[j], arr[i];
      assert arr[..] == Swap(before, i, j);
      i := i - 1;
    }
  }

  /** The bitting template: entries 0, 1 and 9 are fixed at 0, 5 and 0, the rest are drawn. */
  const BittingTemplate: seq<Option<nat>> :=
    [Some(0), Some(5), None, None, None, None, None, None, None, Some(0)]

  const BittingLength: nat := 10
  const CutDepths: nat := 6

  /** The fill loop's first n passes from state x: every empty entry below n receives
      floor(random() * 6), in index order. */
  function FillPrefix(t: seq<Option<nat>>, x: bv32, n: nat): (r: (seq<Option<nat>>, bv32))
    requires n <= |t|
    ensures |r.0| == |t|
    ensures forall k :: 0 <= k < n ==> r.0[k].Some?
    ensures forall k :: 0 <= k < n && t[k].Some? ==> r.0[k] == t[k]
    ensures forall k :: 0 <= k < n && t[k].None? ==> r.0[k].value < CutDepths
    ensures forall k :: n <= k < |t| ==> r.0[k] == t[k]
  {
    if n == 0 then (t, x)
    else
      var p := FillPrefix(t, x, n - 1);
      if p.0[n - 1].None? then
        var y := XorShift(p.1);
        (p.0[n - 1 := Some(RandIndex(Word(y), CutDepths))], y)
      else p
  }

  /** The entries of a filled bitting. */
  function Values(b: seq<Option<nat>>): (r: seq<nat>)
    requires forall k :: 0 <= k < |b| ==> b[k].Some?
    ensures |r| == |b| && forall k :: 0 <= k < |b| ==> b[k] == Some(r[k])
  {
    seq(|b|, k requires 0 <= k < |b| => b[k].value)
  }

  /** One pass of the do-while from state x: the filled bitting and the state afterwards. */
  function Attempt(x: bv32): (r: (seq<nat>, bv32))
    ensures |r.0| == BittingLength
  {
    var p := FillPrefix(BittingTemplate, x, BittingLength);
    (Values(p.0), p.1)
  }

  /** The same cut never appears three times in a row. */
  predicate NoTriple(b: seq<nat>)
  {
    forall i :: 1 <= i < |b| - 1 ==> !(b[i - 1] == b[i] && b[i] == b[i + 1])
  }

  /** The generator state after k rejected attempts. */
  function AttemptState(x: bv32, k: nat): bv32
  {
    if k == 0 then x else Attempt(AttemptState(x, k - 1)).1
  }

  /** Attempt k from x is the first one that is valid. */
  ghost predicate FirstValidAt(x: bv32, k: nat)
  {
    && NoTriple(Attempt(AttemptState(x, k)).0)
    && forall j :: 0 <= j < k ==> !NoTriple(Attempt(AttemptState(x, j)).0)
  }

  /** Some attempt from x is valid, so the do-while ends. The xorshift stream would have to avoid
      every valid bitting forever for this to fail; that is assumed of the callers' states. */
  ghost predicate BittingReachable(x: bv32)
  {
    exists k: nat :: NoTriple(Attempt(AttemptState(x, k)).0)
  }

  /** generateValidBitting run from state x returns b and leaves state y. */
  ghost predicate GeneratedBy(x: bv32, b: seq<nat>, y: bv32)
  {
    exists k: nat :: FirstValidAt(x, k) && Attempt(AttemptState(x, k)) == (b, y)
  }

  /** Every attempt has ten entries in 0..5, with 0, 5 and 0 at entries 0, 1 and 9. */
  lemma AttemptShape(x: bv32)
    ensures var b := Attempt(x).0;
      && |b| == BittingLength && b[0] == 0 && b[1] == 5 && b[9] == 0
      && forall k :: 0 <= k < |b| ==> b[k] < CutDepths
  {
    var p := FillPrefix(BittingTemplate, x, BittingLength);
    forall k | 0 <= k < BittingLength
      ensures p.0[k].value < CutDepths
    {
      if BittingTemplate[k].Some? {
        assert p.0[k] == BittingTemplate[k];
      }
    }
  }

  /** The bitting generateValidBitting returns has ten cuts in 0..5, starts 0, 5, ends 0 and
      never repeats a cut three times in a row. */
  lemma GeneratedShape(x: bv32, b: seq<nat>, y: bv32)
    requires GeneratedBy(x, b, y)
    ensures |b| == BittingLength && b[0] == 0 && b[1] == 5 && b[9] == 0
    ensures forall k :: 0 <= k < |b| ==> b[k] < CutDepths
    ensures NoTriple(b)
  {
    var k: nat :| FirstValidAt(x, k) && Attempt(AttemptState(x, k)) == (b, y);
    AttemptShape(AttemptState(x, k));
  }

  /** The do-while is deterministic: from one state there is only one result. */
  lemma GeneratedByUnique(x: bv32, b1: seq<nat>, y1: bv32, b2: seq<nat>, y2: bv32)
    requires GeneratedBy(x, b1, y1) && GeneratedBy(x, b2, y2)
    ensures b1 == b2 && y1 == y2
  {
    var k1: nat :| FirstValidAt(x, k1) && Attempt(AttemptState(x, k1)) == (b1, y1);
    var k2: nat :| FirstValidAt(x, k2) && Attempt(AttemptState(x, k2)) == (b2, y2);
    assert k1 == k2;
  }

  /** One more attempt of the do-while: rejected, it moves the state on to the next attempt's;
      accepted, it is the first valid one. */
  lemma AttemptAdvances(x0: bv32, tries: nat, b: seq<nat>, y: bv32, valid: bool)
    requires forall j :: 0 <= j < tries ==> !NoTriple(Attempt(AttemptState(x0, j)).0)
    requires Attempt(AttemptState(x0, tries)) == (b, y)
    requires valid <==> NoTriple(b)
    ensures !valid ==> forall j :: 0 <= j < tries + 1 ==> !NoTriple(Attempt(AttemptState(x0, j)).0)
    ensures !valid ==> y == AttemptState(x0, tries + 1)
    ensures valid ==> FirstValidAt(x0, tries)
  {
    if !valid {
      forall j | 0 <= j < tries + 1
        ensures !NoTriple(Attempt(AttemptState(x0, j)).0)
      {
        if j == tries {
          assert Attempt(AttemptState(x0, j)).0 == b;
        }
      }
    }
  }

  /** The first half of generateValidBitting's do-while: the template's empty entries filled
      in index order with floor(random() * 6). */
  method FillTemplate(rand: SeededRandom) returns (bitting: seq<nat>)
    modifies rand
    ensures (bitting, rand.state) == Attempt(old(rand.state))
  {
    ghost var start := rand.state;
    var filling := BittingTemplate;
    var i := 0;
    while i < |filling|
      invariant 0 <= i <= |BittingTemplate|
      invariant (filling, rand.state) == FillPrefix(BittingTemplate, start, i)
    {
      if filling[i].None? {
        var x := rand.RandInt();
        var cut := RandIndex(Word(x), CutDepths);
        filling := filling[i := Some(cut)];
      }
      i := i + 1;
    }
    bitting := Values(filling);
  }

  /** The second half: the scan for a cut repeated three times in a row, stopping at the
      first one. */
  method CheckBitting(bitting: seq<nat>) returns (isValid: bool)
    ensures isValid <==> NoTriple(bitting)
  {
    isValid := true;
    var i := 1;
    while i < |bitting| - 1
      invariant 1 <= i
      invariant i <= |bitting| - 1 || |bitting| < 2
      invariant isValid <==>
        forall k :: 1 <= k < i && k < |bitting| - 1 ==> !(bitting[k - 1] == bitting[k] && bitting[k] == bitting[k + 1])
    {
      if bitting[i - 1] == bitting[i] && bitting[i] == bitting[i + 1] {
        isValid := false;
        break;
      }
      i := i + 1;
    }
  }

  /** One pass of the do-while. */
  method BittingAttempt(rand: SeededRandom) returns (bitting: seq<nat>, isValid: bool)
    modifies rand
    ensures (bitting, rand.state) == Attempt(old(rand.state))
    ensures isValid <==> NoTriple(bitting)
  {
    bitting := FillTemplate(rand);
    isValid := CheckBitting(bitting);
  }

  /** generateValidBitting: attempt after attempt until one is valid. */
  method GenerateValidBitting(rand: SeededRandom) returns (bitting: seq<nat>)
    requires BittingReachable(rand.state)
    modifies rand
    ensures GeneratedBy(old(rand.state), bitting, rand.state)
  {
    ghost var x0 := rand.state;
    ghost var goal: nat :| NoTriple(Attempt(AttemptState(x0, goal)).0);
    ghost var tries: nat := 0;
    var isValid := false;
    bitting := [];
    while !isValid
      invariant tries <= goal + 1 && (!isValid ==> tries <= goal)
      invariant !isValid ==> forall j :: 0 <= j < tries ==> !NoTriple(Attempt(AttemptState(x0, j)).0)
      invariant !isValid ==> rand.state == AttemptState(x0, tries)
      invariant isValid ==>
        tries > 0 && FirstValidAt(x0, tries - 1) && Attempt(AttemptState(x0, tries - 1)) == (bitting, rand.state)
      decreases goal + 1 - tries
    {
      bitting, isValid := BittingAttempt(rand);
      AttemptAdvances(x0, tries, bitting, rand.state, isValid);
      tries := tries + 1;
    }
    assert FirstValidAt(x0, tries - 1) && Attempt(AttemptState(x0, tries - 1)) == (bitting, rand.state);
  }

  /** The first n disks dealt from bitting b, starting at state x: disks 0..8 are ordinary and
      disk 9 is the spinner. */
  function DealPrefix(b: seq<nat>, x: bv32, n: nat): (r: (seq<Disk>, bv32))
    requires n <= |b| == BittingLength
    requires forall k :: 0 <= k < |b| ==> b[k] < GateCount
    ensures |r.0| == n
  {
    if n == 0 then ([], x)
    else
      var p := DealPrefix(b, x, n - 1);
      var q := MakeDiskFrom(b[n - 1], n - 1 == BittingLength - 1, p.1);
      (p.0 + [q.0], q.1)
  }

  /** The ten disks dealt from b: disk i has its one true gate at slot b[i], no adjacent cuts,
      a false gate exactly when it is not the last (the spinner), and starts at the first gate
      with the default bounds. */
  lemma {:induction false} DealtDisks(b: seq<nat>, x: bv32, n: nat)
    requires n <= |b| == BittingLength
    requires forall k :: 0 <= k < |b| ==> b[k] < GateCount
    ensures forall i :: 0 <= i < n ==>
      var d := DealPrefix(b, x, n).0[i];
      && WellFormed(d) && TrueGateOnlyAt(d.gates, b[i]) && Binding.NoAdjacentCuts(d.gates)
      && (HasFalseGate(d.gates) <==> i != BittingLength - 1)
      && d.position == GateOrigins[0] && d.bounds == DiskDefaultBounds
  {
    if n > 0 {
      DealtDisks(b, x, n - 1);
      var p := DealPrefix(b, x, n - 1);
      MakeDiskShape(b[n - 1], n - 1 == BittingLength - 1, p.1);
      assert DealPrefix(b, x, n).0 == p.0 + [MakeDiskFrom(b[n - 1], n - 1 == BittingLength - 1, p.1).0];
    }
  }

  /** The deal that initGame performs: ordinary disks for entries 0..8, the spinner for 9. */
  method DealDisks(rand: SeededRandom, bitting: seq<nat>) returns (disks: seq<Disk>)
    requires |bitting| == BittingLength
    requires forall k :: 0 <= k < |bitting| ==> bitting[k] < GateCount
    modifies rand
    ensures (disks, rand.state) == DealPrefix(bitting, old(rand.state), BittingLength)
  {
    ghost var x0 := rand.state;
    disks := [];
    var i := 0;
    while i < |bitting| - 1
      invariant 0 <= i <= |bitting| - 1
      invariant (disks, rand.state) == DealPrefix(bitting, x0, i)
    {
      var d := MakeDisk(rand, bitting[i], false);
      disks := disks + [d];
      i := i + 1;
    }
    var spinner := MakeDisk(rand, bitting[|bitting| - 1], true);
    disks := disks + [spinner];
  }

  /** Where a fresh deal leaves the core: the disk for entry 1 (cut 5) starts at the first
      gate's origin, where its pattern has either no gate (so it is between gates) or a false
      gate. So the solver never reports the lock open right after initGame. */
  lemma {:induction false} InitNeverOpens(b: seq<nat>, x: bv32, o1: seq<nat>, o2: seq<nat>)
    requires |b| == BittingLength && b[1] == 5
    requires forall k :: 0 <= k < |b| ==> b[k] < GateCount
    requires IsPermutation(o1) && IsPermutation(o2)
    ensures Binding.Binds(DealPrefix(b, x, BittingLength).0, o1, o2).rotation != CoreRotationOpen
  {
    var disks := DealPrefix(b, x, BittingLength).0;
    DealtDisks(b, x, BittingLength);
    var d := disks[1];
    assert d == DealPrefix(b, x, 2).0[1] by {
      DealPrefixStable(b, x, 2, BittingLength);
    }
    var p := DealPrefix(b, x, 1);
    var y := XorShift(p.1);
    var k := RandIndex(Word(y), PatternsPerGate);
    assert d.gates == GatePattern[5][k];
    assert d.gates[0] != TrueGate;
    assert !Binding.OnTrueGate(d) by {
      if Binding.FindTrueSlopToGate(d).Some? {
        var g := Binding.FindTrueSlopToGate(d).value;
        assert Binding.GateAligned(d, g);
        assert g == 0;
      }
    }
    Binding.RotationClassified(disks, o1, o2);
  }

  /** Dealing more disks does not change the ones already dealt. */
  lemma {:induction false} DealPrefixStable(b: seq<nat>, x: bv32, m: nat, n: nat)
    requires m <= n <= |b| == BittingLength
    requires forall k :: 0 <= k < |b| ==> b[k] < GateCount
    ensures DealPrefix(b, x, n).0[..m] == DealPrefix(b, x, m).0
    decreases n
  {
    if m < n {
      DealPrefixStable(b, x, m, n - 1);
      assert DealPrefix(b, x, n).0[..n - 1] == DealPrefix(b, x, n - 1).0;
    } else {
      assert DealPrefix(b, x, n).0[..m] == DealPrefix(b, x, n).0;
    }
  }
}
