/** The game's state record `gameData` (scripts/game.js:26-153) as a class, with the engine's
    operations as methods on it: the binding solver, initGame's reset and generation, the
    movement and tension inputs, the core-rotation and fade animations and the win text. */
module Game {
  import opened LockTypes
  import opened Random
  import opened Binding
  import opened Generation
  import opened Input

  /** The animations gameData.activeAnimations can hold. */
  datatype Animation = CutawayPan | CoreRotationUpdate | FadeOut

  const PickingPositionDefault: Offset := Offset(70.0, 155.0)
  const RotateStepPerMs: real := 0.15
  const FadeStepPerMs: real := 0.8
  const FadeMax: real := 200.0

  /** The fields initGame resets, in the order it resets them. */
  datatype Setup = Setup(gameState: GameState, tensionReleased: bool, startTime: Option<real>,
    endTime: Option<real>, endFade: real, pickingPosition: Offset, pickHandleOffset: Offset,
    coreRotationTarget: real, randomSeed: int, cheater: bool, showCutaway: bool,
    screenText: map<string, string>, activeAnimations: set<Animation>)

  /** What initGame resets them to, with randomSeed s: playing, tension applied, no times, no
      fade, the pick and its handle at their defaults, the rotation target at the default, no
      cheater, no cutaway, no text and no animation. */
  function InitialSetup(s: int): (r: Setup)
    ensures r.gameState == Main && r.randomSeed == s
  {
    Setup(Main, false, None, None, 0.0, PickingPositionDefault, PickHandleOffsetDefault,
      CoreRotationDefault, s, false, false, map[], {})
  }

  /** One frame of coreRotationUpdate: a step of at most `step` from cur towards target. */
  function StepToward(cur: real, target: real, step: real): real
  {
    if cur > target then Max(cur - step, target) else Min(cur + step, target)
  }

  /** The step never overshoots the target, moves at most `step`, and lands on the target
      exactly when the target was at most a step away; otherwise it is `step` closer. */
  lemma StepTowardFacts(cur: real, target: real, step: real)
    requires step >= 0.0
    ensures var r := StepToward(cur, target, step);
      && Min(cur, target) <= r <= Max(cur, target)
      && Abs(r - cur) <= step
      && (r == target <==> Abs(target - cur) <= step)
      && (r != target ==> Abs(target - r) == Abs(target - cur) - step)
  {
  }

  /** The rotation after n frames of the same step. */
  function StepsToward(cur: real, target: real, step: real, n: nat): real
    decreases n
  {
    if n == 0 then cur else StepsToward(StepToward(cur, target, step), target, step, n - 1)
  }

  /** With a positive step, the core reaches its target within as many frames as the distance
      takes at that step, and then stays there. */
  lemma {:induction false} StepsReachTarget(cur: real, target: real, step: real, n: nat)
    requires step > 0.0 && (n as real) * step >= Abs(target - cur)
    ensures StepsToward(cur, target, step, n) == target
    decreases n
  {
    if n > 0 {
      var next := StepToward(cur, target, step);
      StepTowardFacts(cur, target, step);
      if next == target {
        StepsStayAtTarget(target, step, n - 1);
      } else {
        assert ((n - 1) as real) * step == (n as real) * step - step;
        StepsReachTarget(next, target, step, n - 1);
      }
    }
  }

  lemma {:induction false} StepsStayAtTarget(target: real, step: real, n: nat)
    requires step >= 0.0
    ensures StepsToward(target, target, step, n) == target
    decreases n
  {
    if n > 0 {
      assert StepToward(target, target, step) == target;
      StepsStayAtTarget(target, step, n - 1);
    }
  }

  /** `disk.gates.indexOf(TRUE_GATE)`: the first slot holding the true gate, or -1. */
  function TrueGateIndex(gates: seq<Gate>): (r: int)
    ensures -1 <= r < |gates|
    ensures r >= 0 ==> gates[r] == TrueGate && forall k :: 0 <= k < r ==> gates[k] != TrueGate
    ensures r == -1 ==> forall k :: 0 <= k < |gates| ==> gates[k] != TrueGate
  {
    if |gates| == 0 then -1
    else if gates[0] == TrueGate then 0
    else
      var r := TrueGateIndex(gates[1..]);
      if r == -1 then -1 else r + 1
  }

  /** The decimal digit for d in 0..9. */
  function Digit(d: nat): (c: char)
    requires d < 10
    ensures '0' <= c <= '9'
  {
    ('0' as int + d) as char
  }

  /** JavaScript's decimal rendering of an integer, as string concatenation produces it. */
  function NumberText(n: int): (s: string)
    decreases if n < 0 then 1 - n else n
  {
    if n < 0 then "-" + NumberText(-n)
    else if n < 10 then [Digit(n)]
    else NumberText(n / 10) + [Digit(n % 10)]
  }

  /** The digits appended for each disk, in pack order. */
  function BittingDigits(disks: seq<Disk>): string
  {
    if |disks| == 0 then ""
    else BittingDigits(disks[..|disks| - 1]) + NumberText(TrueGateIndex(disks[|disks| - 1].gates))
  }

  /** The bitting string of addWinText: "0" followed by each disk's true-gate slot. */
  function BittingText(disks: seq<Disk>): (s: string)
    ensures |s| >= 1 && s[0] == '0'
  {
    "0" + BittingDigits(disks)
  }

  /** Reading a bitting string back: every character after the first as a digit. */
  function ParseBitting(s: string): (b: seq<int>)
    requires |s| >= 1
    ensures |b| == |s| - 1
  {
    seq(|s| - 1, i requires 0 <= i < |s| - 1 => s[i + 1] as int - '0' as int)
  }

  /** For disks whose true gates sit at single-digit slots b[0..], the digits are one per disk. */
  lemma {:induction false} BittingDigitsOf(disks: seq<Disk>, b: seq<nat>)
    requires |disks| == |b|
    requires forall i :: 0 <= i < |b| ==> b[i] < GateCount && TrueGateOnlyAt(disks[i].gates, b[i])
    ensures |BittingDigits(disks)| == |b|
    ensures forall i :: 0 <= i < |b| ==> BittingDigits(disks)[i] == Digit(b[i])
  {
    if |disks| > 0 {
      var n := |disks| - 1;
      BittingDigitsOf(disks[..n], b[..n]);
      assert TrueGateIndex(disks[n].gates) == b[n];
    }
  }

  /** The win screen shows the lock's bitting: eleven characters, a "0" and then disk i's
      true-gate slot at position i + 1, so reading the string back gives the bitting. */
  lemma WinBittingRoundTrip(disks: seq<Disk>, b: seq<nat>)
    requires |disks| == |b|
    requires forall i :: 0 <= i < |b| ==> b[i] < GateCount && TrueGateOnlyAt(disks[i].gates, b[i])
    ensures |BittingText(disks)| == |b| + 1 && BittingText(disks)[0] == '0'
    ensures ParseBitting(BittingText(disks)) == b
  {
    BittingDigitsOf(disks, b);
    var s := BittingText(disks);
    forall i | 0 <= i < |b|
      ensures ParseBitting(s)[i] == b[i]
    {
      assert s[i + 1] == Digit(b[i]);
    }
  }

  /** What initGame's `randomSeed || generateSeed()` gives: an absent or zero seed is replaced
      by the fresh seed. */
  function EffectiveSeed(seed: Option<int>, generated: bv32): (r: int)
    ensures generated != 0 ==> r != 0
    ensures seed.Some? && seed.value != 0 ==> r == seed.value
  {
    if seed.None? || seed.value == 0 then generated as int else seed.value
  }

  /** The deal initGame makes from generator state x: the two shuffled binding orders, then the
      bitting and the disks, then the solver's bounds and rotation. */
  datatype Deal = Deal(order1: seq<nat>, order2: seq<nat>, bitting: seq<nat>, dealt: seq<Disk>, bound: BindResult)

  /** The generator state once both binding orders are shuffled. */
  function StateAfterShuffles(x: bv32): bv32
  {
    Shuffled(Identity(), Shuffled(Identity(), x).1).1
  }

  /** Some valid bitting is the first one. */
  lemma {:induction false} FirstValidExists(x: bv32, k: nat)
    requires NoTriple(Attempt(AttemptState(x, k)).0)
    ensures exists m: nat :: m <= k && FirstValidAt(x, m)
  {
    if !FirstValidAt(x, k) {
      var j :| 0 <= j < k && NoTriple(Attempt(AttemptState(x, j)).0);
      FirstValidExists(x, j);
    }
  }

  /** The bitting generateValidBitting returns from state x, and the state it leaves. */
  ghost function BittingFrom(x: bv32): (r: (seq<nat>, bv32))
    requires BittingReachable(x)
    ensures GeneratedBy(x, r.0, r.1)
    ensures |r.0| == BittingLength && forall k :: 0 <= k < |r.0| ==> r.0[k] < CutDepths
  {
    var k: nat :| NoTriple(Attempt(AttemptState(x, k)).0);
    FirstValidExists(x, k);
    var m: nat :| m <= k && FirstValidAt(x, m);
    AttemptShape(AttemptState(x, m));
    Attempt(AttemptState(x, m))
  }

  /** The disks dealt from state x: the bitting generateValidBitting returns, then a disk per
      cut, drawing on from where the bitting left the state. */
  ghost function DealtFrom(x: bv32): seq<Disk>
    requires BittingReachable(x)
  {
    var (b, y) := BittingFrom(x);
    DealPrefix(b, y, BittingLength).0
  }

  ghost function DealFrom(x: bv32): Deal
    requires BittingReachable(StateAfterShuffles(x))
  {
    var (o1, x1) := Shuffled(Identity(), x);
    var (o2, x2) := Shuffled(Identity(), x1);
    ShuffledIdentity(x);
    ShuffledIdentity(x1);
    var dealt := DealtFrom(x2);
    Deal(o1, o2, BittingFrom(x2).0, dealt, Binds(dealt, o1, o2))
  }

  /** generateValidBitting and then the dealing loop of initGame, on one generator. */
  method DealFromBitting(rand: SeededRandom) returns (dealt: seq<Disk>)
    requires BittingReachable(rand.state)
    modifies rand
    ensures dealt == DealtFrom(old(rand.state))
  {
    ghost var x := rand.state;
    var bitting := GenerateValidBitting(rand);
    GeneratedByUnique(x, bitting, rand.state, BittingFrom(x).0, BittingFrom(x).1);
    dealt := DealDisks(rand, bitting);
  }

  /** What initGame builds: two permutations of 0..9 as binding orders; ten disks, disk i with its
      one true gate at slot bitting[i], false gates on every disk but the last, all at the first
      gate's position; the solver's bounds on them; and never an open core. */
  lemma DealShape(x: bv32)
    requires BittingReachable(StateAfterShuffles(x))
    ensures var d := DealFrom(x);
      && IsPermutation(d.order1) && IsPermutation(d.order2)
      && |d.bitting| == BittingLength && NoTriple(d.bitting)
      && |d.bound.disks| == DiskCount
      && (forall i :: 0 <= i < DiskCount ==>
        var disk := d.bound.disks[i];
        && WellFormed(disk) && TrueGateOnlyAt(disk.gates, d.bitting[i])
        && (HasFalseGate(disk.gates) <==> i != DiskCount - 1)
        && disk.position == GateOrigins[0])
      && d.bound.rotation != CoreRotationOpen
  {
    var d := DealFrom(x);
    var x1 := Shuffled(Identity(), x).1;
    var x2 := Shuffled(Identity(), x1).1;
    ShuffledIdentity(x);
    ShuffledIdentity(x1);
    GeneratedShape(x2, d.bitting, BittingFrom(x2).1);
    DealtDisks(d.bitting, BittingFrom(x2).1, BittingLength);
    InitNeverOpens(d.bitting, BittingFrom(x2).1, d.order1, d.order2);
  }

  /** A game started from a nonzero seed (modulo 2^32) depends on nothing else: neither the
      fresh seed nor the fallback matter, so two games with that seed are dealt alike. */
  lemma SeedDecidesDeal(s: int, g1: bv32, f1: bv32, g2: bv32, f2: bv32)
    requires s % TwoTo32 != 0 && f1 != 0 && f2 != 0
    ensures SeedState(EffectiveSeed(Some(s), g1), f1) == SeedState(EffectiveSeed(Some(s), g2), f2)
  {
    assert s != 0;
    assert EffectiveSeed(Some(s), g1) == s == EffectiveSeed(Some(s), g2);
  }

  /** The pick at its default offset is inside the first disk only. */
  lemma DefaultTipInsideFirstDisk(k: int)
    requires InsideDisk(PickHandleOffsetDefault.x, k)
    ensures k == 0
  {
    DiskOriginsSpaced();
  }

  /** A fresh deal has two permutations as binding orders and every disk at the first gate's
      origin, so the pick at its default offset is playable and aligned with the one disk it
      is in. */
  lemma DealPlayable(x: bv32)
    requires BittingReachable(StateAfterShuffles(x))
    ensures IsPermutation(DealFrom(x).order1) && IsPermutation(DealFrom(x).order2)
    ensures Playable(DealFrom(x).dealt, PickHandleOffsetDefault)
    ensures TipAligned(DealFrom(x).dealt, PickHandleOffsetDefault)
  {
    DealShape(x);
    var d := DealFrom(x);
    var ds := d.bound.disks;
    forall k | 0 <= k < |ds| && InsideDisk(PickHandleOffsetDefault.x, k)
      ensures !Misaligned(ds[k], PickHandleOffsetDefault.y)
    {
      DefaultTipInsideFirstDisk(k);
    }
    PositionsDecidePlay(d.dealt, ds, PickHandleOffsetDefault);
  }

  /** The solver moves no disk, so it keeps the pick playable and aligned. */
  lemma BindsKeepPlay(disks: seq<Disk>, o1: seq<nat>, o2: seq<nat>, offset: Offset)
    requires BindInputs(disks, o1, o2)
    ensures Playable(Binds(disks, o1, o2).disks, offset) == Playable(disks, offset)
    ensures TipAligned(Binds(disks, o1, o2).disks, offset) == TipAligned(disks, offset)
  {
    PositionsDecidePlay(disks, Binds(disks, o1, o2).disks, offset);
  }

  /** A pass over binding order o that has visited its first n positions: the disks visited
      so far hold their final value from b, the others their value from d0. */
  ghost predicate VisitedThrough(ds: seq<Disk>, d0: seq<Disk>, b: seq<Disk>, o: seq<nat>, n: nat)
  {
    && |ds| == DiskCount && |d0| == DiskCount && |b| == DiskCount && IsPermutation(o)
    && forall d :: 0 <= d < DiskCount ==> ds[d] == if IndexOf(o, d) < n then b[d] else d0[d]
  }

  /** Visiting position n of the order: its disk is still untouched, and giving it its final
      value extends the visited prefix by one. */
  lemma VisitNext(ds: seq<Disk>, d0: seq<Disk>, b: seq<Disk>, o: seq<nat>, n: nat)
    requires VisitedThrough(ds, d0, b, o, n) && n < DiskCount
    ensures ds[o[n]] == d0[o[n]]
    ensures VisitedThrough(ds[o[n] := b[o[n]]], d0, b, o, n + 1)
  {
    IndexOfDistinct(o, n);
    var ds' := ds[o[n] := b[o[n]]];
    forall d | 0 <= d < DiskCount
      ensures ds'[d] == if IndexOf(o, d) < n + 1 then b[d] else d0[d]
    {
      if d != o[n] {
        assert IndexOf(o, d) != n;
      }
    }
  }

  /** A pass that has visited the whole order has produced b. */
  lemma VisitedAll(ds: seq<Disk>, d0: seq<Disk>, b: seq<Disk>, o: seq<nat>)
    requires VisitedThrough(ds, d0, b, o, DiskCount)
    ensures ds == b
  {
    forall d | 0 <= d < DiskCount
      ensures ds[d] == b[d]
    {
      assert IndexOf(o, d) < DiskCount;
    }
  }

  /** The pack with tension released: every disk back to the default bounds. */
  function WithDefaultBounds(disks: seq<Disk>): (r: seq<Disk>)
    ensures SameGatesAndPositions(disks, r)
    ensures forall k :: 0 <= k < |r| ==> r[k].bounds == DiskDefaultBounds
  {
    seq(|disks|, k requires 0 <= k < |disks| => disks[k].(bounds := DiskDefaultBounds))
  }

  /** Releasing tension and reapplying it, with nothing moved in between, gives the same disks
      and rotation as the binds had before. */
  lemma ReleaseThenReapply(disks: seq<Disk>, o1: seq<nat>, o2: seq<nat>)
    requires BindInputs(disks, o1, o2)
    ensures BindInputs(WithDefaultBounds(disks), o1, o2)
    ensures Binds(WithDefaultBounds(disks), o1, o2) == Binds(disks, o1, o2)
  {
    BindsIgnoresBounds(disks, WithDefaultBounds(disks), o1, o2);
  }

  /** The content of each win screen text addWinText sets, by key; "endCheater" only for a
      cheater. The pick time text is not part of this model. */
  function WinScreen(screen: map<string, string>, disks: seq<Disk>, cheater: bool): (r: map<string, string>)
    ensures r.Keys == screen.Keys + {"endOpen", "endBitting", "endRestart"} + (if cheater then {"endCheater"} else {})
    ensures r["endOpen"] == "Open!" && r["endRestart"] == "Click or tap to restart"
    ensures r["endBitting"] == "Bitting: " + BittingText(disks)
    ensures cheater ==> r["endCheater"] == "... But you cheated! Try again without cutaway?"
    ensures forall k :: k in screen && k !in {"endOpen", "endBitting", "endRestart", "endCheater"} ==> r[k] == screen[k]
    ensures !cheater && "endCheater" in screen ==> r["endCheater"] == screen["endCheater"]
  {
    var m := screen["endOpen" := "Open!"]["endBitting" := "Bitting: " + BittingText(disks)];
    var m' := if cheater then m["endCheater" := "... But you cheated! Try again without cutaway?"] else m;
    m'["endRestart" := "Click or tap to restart"]
  }

  class GameData {
    var gameState: GameState
    var tensionReleased: bool
    var startTime: Option<real>
    var endTime: Option<real>
    var endFade: real
    var pickingPosition: Offset
    var pickHandleOffset: Offset
    var coreRotation: real
    var coreRotationTarget: real
    var disks: seq<Disk>
    const bindingOrder1: array<nat>
    const bindingOrder2: array<nat>
    var randomSeed: int
    var cheater: bool
    var showCutaway: bool
    var activeAnimations: set<Animation>
    /** dramatic-pause timers set by coreRotationUpdate that have not fired yet */
    var pendingFadeTimers: nat
    /** the content of each screen text entry */
    var screenText: map<string, string>

    /** The binding orders are two separate arrays (never aliased), each a permutation of 0..9; while a game is on there are
        ten disks; and with ten disks, the pick is in its rectangle, the disks in their band, and
        the tip never inside a disk it is not aligned with. */
    ghost predicate Valid()
      reads this`gameState, this`disks, this`pickHandleOffset, bindingOrder1, bindingOrder2
    {
      && bindingOrder1 != bindingOrder2
      && IsPermutation(bindingOrder1[..]) && IsPermutation(bindingOrder2[..])
      && (gameState == Main || gameState == Ending ==> |disks| == DiskCount)
      && (|disks| == DiskCount ==> Playable(disks, pickHandleOffset) && TipAligned(disks, pickHandleOffset))
    }

    /** The record as the page loads it: waiting, no disks, identity binding orders. */
    constructor ()
      ensures Valid() && gameState == Wait && disks == []
      ensures bindingOrder1[..] == Identity() && bindingOrder2[..] == Identity()
      ensures pickHandleOffset == PickHandleOffsetDefault && pickingPosition == PickingPositionDefault
      ensures coreRotation == 0.0 && coreRotationTarget == 0.0 && !tensionReleased
      ensures startTime.None? && endTime.None? && endFade == 0.0 && randomSeed == -1
      ensures !cheater && !showCutaway && activeAnimations == {} && pendingFadeTimers == 0
      ensures screenText == map[]
    {
      gameState := Wait;
      tensionReleased := false;
      startTime := None;
      endTime := None;
      endFade := 0.0;
      pickingPosition := PickingPositionDefault;
      pickHandleOffset := PickHandleOffsetDefault;
      coreRotation := 0.0;
      coreRotationTarget := 0.0;
      disks := [];
      var o1 := new nat[DiskCount](i => i);
      var o2 := new nat[DiskCount](i => i);
      bindingOrder1 := o1;
      bindingOrder2 := o2;
      randomSeed := -1;
      cheater := false;
      showCutaway := false;
      activeAnimations := {};
      pendingFadeTimers := 0;
      screenText := map[];
      new;
      assert bindingOrder1[..] == Identity();
      assert bindingOrder2[..] == Identity();
      IdentityIsPermutation();
    }

    /** The fields initGame resets, as one value. */
    function SetupFields(): Setup
      reads this`gameState, this`tensionReleased, this`startTime, this`endTime, this`endFade
      reads this`pickingPosition, this`pickHandleOffset, this`coreRotationTarget, this`randomSeed
      reads this`cheater, this`showCutaway, this`screenText, this`activeAnimations
    {
      Setup(gameState, tensionReleased, startTime, endTime, endFade, pickingPosition,
        pickHandleOffset, coreRotationTarget, randomSeed, cheater, showCutaway, screenText,
        activeAnimations)
    }

    /** The binding orders, disks and rotation are the deal from generator state x. */
    ghost predicate HoldsDeal(x: bv32)
      requires BittingReachable(StateAfterShuffles(x))
      reads this`disks, this`coreRotation, bindingOrder1, bindingOrder2
    {
      var deal := DealFrom(x);
      && bindingOrder1[..] == deal.order1 && bindingOrder2[..] == deal.order2
      && disks == deal.bound.disks && coreRotation == deal.bound.rotation
    }

    /** initGame: takes the given seed (or the fresh one), resets every field of the record,
        then deals a new lock from a generator seeded with it. The deal is the one DealFrom
        describes. */
    method InitGame(seed: Option<int>, generated: bv32, fallback: bv32)
      requires bindingOrder1 != bindingOrder2 && fallback != 0
      requires bindingOrder1.Length == bindingOrder2.Length == DiskCount
      requires BittingReachable(StateAfterShuffles(SeedState(EffectiveSeed(seed, generated), fallback)))
      modifies this, bindingOrder1, bindingOrder2
      ensures Valid()
      ensures HoldsDeal(SeedState(EffectiveSeed(seed, generated), fallback))
      ensures SetupFields() == InitialSetup(EffectiveSeed(seed, generated))
      ensures pendingFadeTimers == old(pendingFadeTimers)
    {
      var s := EffectiveSeed(seed, generated);
      var rand := new SeededRandom(s, fallback);
      DealLock(rand, SeedState(EffectiveSeed(seed, generated), fallback));
      ResetFields(s);
    }

    /** The record fields initGame resets. The lock (binding orders, disks, rotation) and the
        pending timers are left alone, so after a playable deal the record is valid. */
    method ResetFields(s: int)
      modifies this`gameState, this`tensionReleased, this`startTime, this`endTime, this`endFade
      modifies this`pickingPosition, this`pickHandleOffset, this`coreRotationTarget, this`randomSeed
      modifies this`cheater, this`showCutaway, this`screenText, this`activeAnimations
      ensures disks == old(disks) && coreRotation == old(coreRotation)
      ensures SetupFields() == InitialSetup(s)
      ensures pendingFadeTimers == old(pendingFadeTimers)
    {
      ResetPlay();
      ResetPick(s);
      ResetView();
    }

    /** Playing again, tension applied, no times and no fade. */
    method ResetPlay()
      modifies this`gameState, this`tensionReleased, this`startTime, this`endTime, this`endFade
      ensures gameState == Main && !tensionReleased && startTime.None? && endTime.None? && endFade == 0.0
    {
      gameState := Main;
      tensionReleased := false;
      startTime := None;
      endTime := None;
      endFade := 0.0;
    }

    /** The pick, its handle and the rotation target at their defaults, and the seed recorded. */
    method ResetPick(s: int)
      modifies this`pickingPosition, this`pickHandleOffset, this`coreRotationTarget, this`randomSeed
      ensures pickingPosition == PickingPositionDefault && pickHandleOffset == PickHandleOffsetDefault
      ensures coreRotationTarget == CoreRotationDefault && randomSeed == s
    {
      pickingPosition := PickingPositionDefault;
      pickHandleOffset := PickHandleOffsetDefault;
      coreRotationTarget := CoreRotationDefault;
      randomSeed := s;
    }

    /** No cheater, no cutaway, no text and no animation. */
    method ResetView()
      modifies this`cheater, this`showCutaway, this`screenText, this`activeAnimations
      ensures !cheater && !showCutaway && screenText == map[] && activeAnimations == {}
    {
      cheater := false;
      showCutaway := false;
      screenText := map[];
      activeAnimations := {};
    }

    /** The deal of initGame from generator rand: the draws, then the solver's bounds. */
    method DealLock(rand: SeededRandom, ghost x0: bv32)
      requires bindingOrder1 != bindingOrder2
      requires bindingOrder1.Length == bindingOrder2.Length == DiskCount
      requires rand.state == x0 && BittingReachable(StateAfterShuffles(x0))
      modifies rand, bindingOrder1, bindingOrder2, this`disks, this`coreRotation
      ensures HoldsDeal(x0)
      ensures IsPermutation(bindingOrder1[..]) && IsPermutation(bindingOrder2[..])
      ensures |disks| == DiskCount
      ensures Playable(disks, PickHandleOffsetDefault) && TipAligned(disks, PickHandleOffsetDefault)
      ensures pendingFadeTimers == old(pendingFadeTimers)
    {
      disks := DrawLock(rand);
      BindsKeepPlay(disks, bindingOrder1[..], bindingOrder2[..], PickHandleOffsetDefault);
      coreRotation := RecalculateDiskBinds();
    }

    /** The draws of initGame, in order: the reset orders shuffled one after the other, the
        bitting and the disks. */
    method DrawLock(rand: SeededRandom) returns (dealt: seq<Disk>)
      requires bindingOrder1 != bindingOrder2
      requires bindingOrder1.Length == bindingOrder2.Length == DiskCount
      requires BittingReachable(StateAfterShuffles(rand.state))
      modifies rand, bindingOrder1, bindingOrder2
      ensures bindingOrder1[..] == DealFrom(old(rand.state)).order1
      ensures bindingOrder2[..] == DealFrom(old(rand.state)).order2
      ensures dealt == DealFrom(old(rand.state)).dealt
      ensures IsPermutation(bindingOrder1[..]) && IsPermutation(bindingOrder2[..])
      ensures Playable(dealt, PickHandleOffsetDefault) && TipAligned(dealt, PickHandleOffsetDefault)
    {
      DealPlayable(rand.state);
      ResetOrders();
      ShuffleArray(rand, bindingOrder1);
      ShuffleArray(rand, bindingOrder2);
      dealt := DealFromBitting(rand);
    }

    /** The reset loop of initGame: both binding orders back to 0..9. */
    method ResetOrders()
      requires bindingOrder1 != bindingOrder2
      requires bindingOrder1.Length == bindingOrder2.Length == DiskCount
      modifies bindingOrder1, bindingOrder2
      ensures bindingOrder1[..] == Identity() && bindingOrder2[..] == Identity()
    {
      var i := 0;
      while i < bindingOrder1.Length
        invariant 0 <= i <= DiskCount
        invariant forall k :: 0 <= k < i ==> bindingOrder1[k] == k && bindingOrder2[k] == k
      {
        bindingOrder1[i] := i;
        bindingOrder2[i] := i;
        i := i + 1;
      }
      assert bindingOrder1[..] == Identity();
      assert bindingOrder2[..] == Identity();
    }

    /** recalculateDiskBinds: sets every disk's bounds and returns the rotation the core may
        reach, exactly as the Binding specification says. The first pass walks bindingOrder1
        recording each disk's aligned gate and stops at the first disk between gates. */
    method RecalculateDiskBinds() returns (rotation: real)
      requires BindInputs(disks, bindingOrder1[..], bindingOrder2[..])
      modifies this`disks
      ensures rotation == Binds(old(disks), bindingOrder1[..], bindingOrder2[..]).rotation
      ensures disks == Binds(old(disks), bindingOrder1[..], bindingOrder2[..]).disks
    {
      var alignedGates: seq<Option<nat>> := [None, None, None, None, None, None, None, None, None, None];
      var i := 0;
      while i < bindingOrder1.Length
        invariant 0 <= i <= DiskCount && |alignedGates| == DiskCount
        invariant forall j :: 0 <= j < i ==>
          alignedGates[bindingOrder1[j]] == FindTrueSlopToGate(disks[bindingOrder1[j]])
          && !Unaligned(disks[bindingOrder1[j]])
      {
        var di := bindingOrder1[i];
        var disk := disks[di];
        alignedGates := alignedGates[di := FindTrueSlopToGate(disk)];
        if alignedGates[di].None? {
          HoldFirstBinder(alignedGates, i);
          return CoreRotationDefault;
        }
        i := i + 1;
      }
      forall d | 0 <= d < DiskCount
        ensures alignedGates[d] == FindTrueSlopToGate(disks[d]) && !Unaligned(disks[d])
      {
        var j := IndexOf(bindingOrder1[..], d);
      }
      rotation := SecondPass(alignedGates);
    }

    /** The first pass ending at position u of bindingOrder1, whose disk is between gates: the
        disks before it are held around their aligned gates, it is held where it is, and the
        disks after it are set free. */
    method HoldFirstBinder(alignedGates: seq<Option<nat>>, u: nat)
      requires BindInputs(disks, bindingOrder1[..], bindingOrder2[..]) && |alignedGates| == DiskCount
      requires u < DiskCount && Unaligned(disks[bindingOrder1[u]])
      requires forall j :: 0 <= j < u ==>
        alignedGates[bindingOrder1[j]] == FindTrueSlopToGate(disks[bindingOrder1[j]])
        && !Unaligned(disks[bindingOrder1[j]])
      modifies this`disks
      ensures Binds(old(disks), bindingOrder1[..], bindingOrder2[..]).rotation == CoreRotationDefault
      ensures disks == Binds(old(disks), bindingOrder1[..], bindingOrder2[..]).disks
    {
      ghost var d0 := disks;
      ghost var o1 := bindingOrder1[..];
      ghost var B := Binds(d0, o1, bindingOrder2[..]);
      FirstUnalignedAt(d0, o1, u);
      var ds := disks;
      var j := 0;
      while j < u
        invariant 0 <= j <= u && VisitedThrough(ds, d0, B.disks, o1, j)
      {
        var dj := bindingOrder1[j];
        FirstPassAt(d0, o1, bindingOrder2[..], u, j);
        VisitNext(ds, d0, B.disks, o1, j);
        var targetCenter := GateOrigins[alignedGates[dj].value];
        var nd := ds[dj].(bounds := Bounds(targetCenter + GateTrueBindingSlop, targetCenter - GateTrueBindingSlop));
        assert nd == B.disks[dj];
        ds := ds[dj := nd];
        j := j + 1;
      }
      var di := bindingOrder1[u];
      FirstPassAt(d0, o1, bindingOrder2[..], u, u);
      VisitNext(ds, d0, B.disks, o1, u);
      var disk := ds[di];
      ds := ds[di := disk.(bounds := Bounds(disk.position, disk.position))];
      var k := u + 1;
      while k < bindingOrder1.Length
        invariant u + 1 <= k <= DiskCount && VisitedThrough(ds, d0, B.disks, o1, k)
      {
        var dk := bindingOrder1[k];
        FirstPassAt(d0, o1, bindingOrder2[..], u, k);
        VisitNext(ds, d0, B.disks, o1, k);
        var nd := ds[dk].(bounds := DiskDefaultBounds);
        assert nd == B.disks[dk];
        ds := ds[dk := nd];
        k := k + 1;
      }
      VisitedAll(ds, d0, B.disks, o1);
      disks := ds;
      FirstPassBinds(d0, o1, bindingOrder2[..], u);
    }

    /** The second pass, with every disk aligned: walking bindingOrder2, the first disk on a
        false gate gets the shrinking false slop and every other disk the true slop; the core
        false-sets if such a disk was found and opens otherwise. */
    method SecondPass(alignedGates: seq<Option<nat>>) returns (rotation: real)
      requires BindInputs(disks, bindingOrder1[..], bindingOrder2[..]) && |alignedGates| == DiskCount
      requires forall d :: 0 <= d < DiskCount ==>
        alignedGates[d] == FindTrueSlopToGate(disks[d]) && !Unaligned(disks[d])
      modifies this`disks
      ensures rotation == Binds(old(disks), bindingOrder1[..], bindingOrder2[..]).rotation
      ensures disks == Binds(old(disks), bindingOrder1[..], bindingOrder2[..]).disks
    {
      ghost var d0 := disks;
      ghost var o2 := bindingOrder2[..];
      ghost var B := Binds(d0, bindingOrder1[..], o2);
      var ds := disks;
      var falseFound := false;
      var i := 0;
      while i < bindingOrder2.Length
        invariant 0 <= i <= DiskCount && VisitedThrough(ds, d0, B.disks, o2, i)
        invariant falseFound <==> FirstFalse(d0, o2).Some? && FirstFalse(d0, o2).value < i
      {
        var di := bindingOrder2[i];
        SecondPassAt(d0, bindingOrder1[..], o2, i);
        FirstFalseStep(d0, o2, i);
        VisitNext(ds, d0, B.disks, o2, i);
        var disk := ds[di];
        var g := alignedGates[di].value;
        var targetCenter := GateOrigins[g];
        assert disk == d0[o2[i]] && g == AlignedGate(disk);
        assert OnFalseGate(disk) <==> disk.gates[g] == FalseGate;
        if disk.gates[g] == FalseGate && !falseFound {
          // R = 0.5 and X = (length - i) / length, as FalseSlop defines them
          assert FirstFalse(d0, o2) == Some(i);
          var slop := FalseSlop(i);
          var nd := disk.(bounds := Bounds(targetCenter + slop, targetCenter - slop));
          assert nd == B.disks[di];
          ds := ds[di := nd];
          falseFound := true;
        } else {
          assert FirstFalse(d0, o2) != Some(i);
          var nd := disk.(bounds := Bounds(targetCenter + GateTrueBindingSlop, targetCenter - GateTrueBindingSlop));
          assert nd == B.disks[di];
          ds := ds[di := nd];
        }
        i := i + 1;
      }
      VisitedAll(ds, d0, B.disks, o2);
      disks := ds;
      SecondPassBinds(d0, bindingOrder1[..], o2);
      rotation := if falseFound then CoreRotationFalseSet else CoreRotationOpen;
    }

    /** The X block of inputMovement: moving from the current tip x towards the clamped nox0,
        the first disk on the way the tip is not aligned with stops it at its edge. */
    method ClampMovementX(nox0: real) returns (nox: real)
      requires Playable(disks, pickHandleOffset) && PickClampXLow <= nox0 <= PickClampXHigh
      ensures nox == ResolveX(disks, pickHandleOffset.y, pickHandleOffset.x, nox0)
    {
      nox := nox0;
      TipPositionSpan(pickHandleOffset.x);
      TipPositionSpan(nox0);
      var startDiskPos := DeterminePickTipPosition(pickHandleOffset.x);
      var endDiskPos := DeterminePickTipPosition(nox);
      var s, e := startDiskPos.value, endDiskPos.value;
      ResolveXBySpans(disks, pickHandleOffset.y, pickHandleOffset.x, nox0, s, e);
      if s.left < e.left {
        nox := ClampRight(s.left, e.left, nox);
      } else if s.right > e.right {
        nox := ClampLeft(s.right, e.right, nox);
      }
    }

    /** Moving right from span [start, _] to span [end, _]: the first disk after start, up to
        end, that the tip is not aligned with stops it one past its left edge. */
    method ClampRight(start: int, end: int, nox0: real) returns (nox: real)
      requires |disks| == DiskCount && 0 <= start && end < DiskCount
      ensures nox == StopRight(disks, pickHandleOffset.y, start, end, nox0)
    {
      nox := nox0;
      var i := start + 1;
      while i <= end
        invariant start + 1 <= i && (i <= end + 1 || i == start + 1) && nox == nox0
        invariant BlockRight(disks, pickHandleOffset.y, start + 1, end) == BlockRight(disks, pickHandleOffset.y, i, end)
      {
        var targetYPosition := disks[i].position;
        if Abs(targetYPosition - pickHandleOffset.y) > PickTipSlop {
          // the tip is not aligned and stops at the disk's left edge
          nox := Min(nox, DiskOrigins[i] - DiskWidth - 1.0);
          break;
        }
        i := i + 1;
      }
    }

    /** Moving left from span [_, start] to span [_, end]: the first disk before start, down to
        end, that the tip is not aligned with stops it one past its right edge. */
    method ClampLeft(start: int, end: int, nox0: real) returns (nox: real)
      requires |disks| == DiskCount && 0 <= end && start <= DiskCount
      ensures nox == StopLeft(disks, pickHandleOffset.y, start, end, nox0)
    {
      nox := nox0;
      var i := start - 1;
      while i >= end
        invariant i <= start - 1 && (end - 1 <= i || i == start - 1) && nox == nox0
        invariant BlockLeft(disks, pickHandleOffset.y, start - 1, end) == BlockLeft(disks, pickHandleOffset.y, i, end)
      {
        var targetYPosition := disks[i].position;
        if Abs(targetYPosition - pickHandleOffset.y) > PickTipSlop {
          // the tip is not aligned and stops at the disk's right edge
          nox := Max(DiskOrigins[i] + DiskWidth + 1.0, nox);
          break;
        }
        i := i - 1;
      }
    }

    /** The Y block of inputMovement: with the tip at nox inside a disk, the pick stops a slop
        past the disk's position or bound and the disk is nudged to within the slop of it. */
    method ClampMovementY(nox: real, noy0: real, movementY: real) returns (noy: real)
      requires |disks| == DiskCount && PickClampXLow <= nox <= PickClampXHigh
      modifies this`disks
      ensures (disks, noy) == PushY(old(disks), nox, noy0, movementY)
    {
      noy := noy0;
      TipPositionSpan(nox);
      var endDiskPos := DeterminePickTipPosition(nox);
      var e := endDiskPos.value;
      if e.left == e.right {
        var disk := disks[e.left];
        if movementY > 0.0 {
          noy := Min(noy, Max(disk.position, disk.bounds.upper) + PickTipSlop);
        } else {
          noy := Max(noy, Min(disk.position, disk.bounds.lower) - PickTipSlop);
        }
        disks := disks[e.left := disk.(position := Clamp(noy - PickTipSlop, disk.position, noy + PickTipSlop))];
      }
    }

    /** inputMovement: ignored outside the "main" state; starts the clock; a zero movement
        changes nothing more; otherwise the pick and the disks move as Move says, and the pick
        stays playable and never inside a disk it is not aligned with. */
    method InputMovement(movementX: real, movementY: real, now: real)
      requires Valid()
      modifies this`startTime, this`pickHandleOffset, this`disks
      ensures Valid()
      ensures gameState != Main ==>
        startTime == old(startTime) && disks == old(disks) && pickHandleOffset == old(pickHandleOffset)
      ensures gameState == Main ==>
        startTime == (if old(startTime).None? then Some(now) else old(startTime))
      ensures gameState == Main ==>
        Motion(disks, pickHandleOffset) == Move(old(disks), old(pickHandleOffset), movementX, movementY)
    {
      if gameState != Main {
        return;
      }
      if startTime.None? {
        startTime := Some(now);
      }
      if movementX == 0.0 && movementY == 0.0 {
        return;
      }
      ApplyMovement(movementX, movementY);
    }

    /** The nonzero movement of inputMovement: clamp to the playable rectangle, then stop at
        the side of a disk the tip cannot enter, then push the disk the tip is inside. */
    method ApplyMovement(movementX: real, movementY: real)
      requires Valid() && gameState == Main
      modifies this`pickHandleOffset, this`disks
      ensures Valid()
      ensures Motion(disks, pickHandleOffset) == Move(old(disks), old(pickHandleOffset), movementX, movementY)
    {
      ghost var d0, p0 := disks, pickHandleOffset;
      var nox := pickHandleOffset.x + movementX;
      var noy := pickHandleOffset.y + movementY;
      nox := Clamp(PickClampXLow, nox, PickClampXHigh);
      noy := Clamp(PickClampYLow, noy, PickClampYHigh);
      if movementX != 0.0 {
        nox := ClampMovementX(nox);
        ResolveXInRange(d0, p0.y, p0.x, Clamp(PickClampXLow, p0.x + movementX, PickClampXHigh));
        pickHandleOffset := pickHandleOffset.(x := nox);
      }
      if movementY != 0.0 {
        noy := ClampMovementY(nox, noy, movementY);
        pickHandleOffset := pickHandleOffset.(y := noy);
      }
      MoveKeepsPlayable(d0, p0, movementX, movementY);
      MoveKeepsTipAligned(d0, p0, movementX, movementY);
    }

    /** inputTension: ignored outside the "main" state; starts the clock; a change of the
        tension flag either frees every disk and turns the core back, or reruns the solver and,
        on an open core, stamps the end time and moves to "ending". Disks never move. */
    method InputTension(released: bool, now: real)
      requires Valid()
      modifies this`startTime, this`tensionReleased, this`coreRotationTarget, this`disks
      modifies this`endTime, this`gameState, this`activeAnimations
      ensures Valid()
      ensures old(gameState) != Main ==>
        && startTime == old(startTime) && tensionReleased == old(tensionReleased)
        && coreRotationTarget == old(coreRotationTarget) && disks == old(disks)
        && endTime == old(endTime) && gameState == old(gameState)
        && activeAnimations == old(activeAnimations)
      ensures old(gameState) == Main ==>
        && startTime == (if old(startTime).None? then Some(now) else old(startTime))
        && tensionReleased == released
      ensures old(gameState) == Main && released == old(tensionReleased) ==>
        && coreRotationTarget == old(coreRotationTarget) && disks == old(disks)
        && endTime == old(endTime) && gameState == Main
        && activeAnimations == old(activeAnimations)
      ensures old(gameState) == Main && released && !old(tensionReleased) ==>
        && coreRotationTarget == CoreRotationUntensioned && disks == WithDefaultBounds(old(disks))
        && endTime == old(endTime) && gameState == Main
        && activeAnimations == old(activeAnimations) + {CoreRotationUpdate}
      ensures old(gameState) == Main && !released && old(tensionReleased) ==>
        && coreRotationTarget == Binds(old(disks), bindingOrder1[..], bindingOrder2[..]).rotation
        && disks == Binds(old(disks), bindingOrder1[..], bindingOrder2[..]).disks
        && (if coreRotationTarget == CoreRotationOpen then gameState == Ending && endTime == Some(now)
            else gameState == Main && endTime == old(endTime))
        && activeAnimations == old(activeAnimations) + {CoreRotationUpdate}
    {
      if gameState != Main {
        return;
      }
      if startTime.None? {
        startTime := Some(now);
      }
      if tensionReleased != released {
        tensionReleased := released;
        if tensionReleased {
          ReleaseTension();
        } else {
          ReapplyTension(now);
        }
        activeAnimations := activeAnimations + {CoreRotationUpdate};
      }
    }

    /** Tension released: the core turns back and every disk is freed to the default bounds. */
    method ReleaseTension()
      requires Valid()
      modifies this`coreRotationTarget, this`disks
      ensures Valid()
      ensures coreRotationTarget == CoreRotationUntensioned && disks == WithDefaultBounds(old(disks))
    {
      ghost var d0 := disks;
      coreRotationTarget := CoreRotationUntensioned;
      var ds := disks;
      var i := 0;
      while i < |ds|
        invariant 0 <= i <= |ds| == |d0|
        invariant forall k :: 0 <= k < |ds| ==>
          ds[k] == if k < i then d0[k].(bounds := DiskDefaultBounds) else d0[k]
      {
        ds := ds[i := ds[i].(bounds := DiskDefaultBounds)];
        i := i + 1;
      }
      disks := ds;
      PositionsDecidePlay(d0, disks, pickHandleOffset);
    }

    /** Tension reapplied: the solver sets the target rotation and the bounds; an open core
        stamps the end time and moves the game to "ending". */
    method ReapplyTension(now: real)
      requires Valid() && gameState == Main
      modifies this`coreRotationTarget, this`disks, this`endTime, this`gameState
      ensures Valid()
      ensures coreRotationTarget == Binds(old(disks), bindingOrder1[..], bindingOrder2[..]).rotation
      ensures disks == Binds(old(disks), bindingOrder1[..], bindingOrder2[..]).disks
      ensures if coreRotationTarget == CoreRotationOpen then gameState == Ending && endTime == Some(now)
        else gameState == Main && endTime == old(endTime)
    {
      ghost var d0 := disks;
      coreRotationTarget := RecalculateDiskBinds();
      PositionsDecidePlay(d0, disks, pickHandleOffset);
      if coreRotationTarget == CoreRotationOpen {
        endTime := Some(now);
        gameState := Ending;
      }
    }

    /** One frame of animations.coreRotationUpdate: a step of 0.15 per millisecond towards the
        target; it stops once there, and an open core schedules the fade-out timer. */
    method CoreRotationUpdateFrame(msSincePrevFrame: real) returns (loop: bool)
      requires Valid()
      modifies this`coreRotation, this`pendingFadeTimers
      ensures Valid()
      ensures coreRotation == StepToward(old(coreRotation), coreRotationTarget, RotateStepPerMs * msSincePrevFrame)
      ensures loop <==> coreRotation != coreRotationTarget
      ensures pendingFadeTimers ==
        if !loop && coreRotation == CoreRotationOpen then old(pendingFadeTimers) + 1 else old(pendingFadeTimers)
    {
      var rotateStep := 0.15 * msSincePrevFrame;
      if coreRotation > coreRotationTarget {
        coreRotation := Max(coreRotation - rotateStep, coreRotationTarget);
      } else {
        coreRotation := Min(coreRotation + rotateStep, coreRotationTarget);
      }
      if coreRotation == coreRotationTarget {
        if coreRotation == CoreRotationOpen {
          // setTimeout(..., 600): the timer later adds fadeOut
          pendingFadeTimers := pendingFadeTimers + 1;
        }
        return false;
      }
      return true;
    }

    /** The dramatic-pause timer firing: it starts the fade-out. */
    method FadeTimerFires()
      requires Valid() && pendingFadeTimers > 0
      modifies this`pendingFadeTimers, this`activeAnimations
      ensures Valid()
      ensures pendingFadeTimers == old(pendingFadeTimers) - 1
      ensures activeAnimations == old(activeAnimations) + {FadeOut}
    {
      pendingFadeTimers := pendingFadeTimers - 1;
      activeAnimations := activeAnimations + {FadeOut};
    }

    /** One frame of animations.fadeOut: the fade grows by 0.8 per millisecond up to 200; at
        200 the game is over and the win text is shown. */
    method FadeOutFrame(msSincePrevFrame: real) returns (loop: bool)
      requires Valid()
      modifies this`endFade, this`gameState, this`screenText
      ensures Valid()
      ensures endFade == Min(old(endFade) + FadeStepPerMs * msSincePrevFrame, FadeMax)
      ensures loop <==> endFade != FadeMax
      ensures !loop ==> gameState == End && screenText == WinScreen(old(screenText), disks, cheater)
      ensures loop ==> gameState == old(gameState) && screenText == old(screenText)
    {
      var fadeStep := 0.8 * msSincePrevFrame;
      var fadeMax := 200.0;
      endFade := Min(endFade + fadeStep, fadeMax);
      if endFade == fadeMax {
        gameState := End;
        AddWinText();
        return false;
      }
      return true;
    }

    /** addWinText, without the pick time text. */
    method AddWinText()
      modifies this`screenText
      ensures screenText == WinScreen(old(screenText), disks, cheater)
    {
      screenText := screenText["endOpen" := "Open!"];
      var bitting := BittingString();
      screenText := screenText["endBitting" := "Bitting: " + bitting];
      if cheater {
        screenText := screenText["endCheater" := "... But you cheated! Try again without cutaway?"];
      }
      screenText := screenText["endRestart" := "Click or tap to restart"];
    }

    /** The bitting loop of addWinText: "0", then each disk's `gates.indexOf(2)` in turn. */
    method BittingString() returns (bitting: string)
      ensures bitting == BittingText(disks)
    {
      bitting := "0";
      var i := 0;
      while i < |disks|
        invariant 0 <= i <= |disks|
        invariant bitting == "0" + BittingDigits(disks[..i])
      {
        assert disks[..i + 1][..i] == disks[..i];
        bitting := bitting + NumberText(TrueGateIndex(disks[i].gates));
        i := i + 1;
      }
      assert disks[..i] == disks;
    }
  }
}
