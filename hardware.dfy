/**
 * The AI-readiness check (part1/examples/hardware_check.py): the Apple
 * Silicon test, the readiness score, the band it is reported in and the
 * recommendation printed after it. The processor and machine strings and
 * the memory size in GB are inputs; reading them from the system is not
 * modelled.
 */
module Hardware {
  import opened Text

  const Arm: string := "arm"

  /** `is_apple_silicon` (line 27): the processor is exactly `"arm"`, or the lower-cased machine name contains `"arm"`. */
  predicate IsAppleSilicon(processor: string, machine: string) {
    processor == Arm || Contains(Lower(machine), Arm)
  }

  lemma LowerIdempotent(s: string)
    ensures Lower(Lower(s)) == Lower(s)
  {
  }

  /** Only the machine name is compared without regard to case. */
  lemma MachineCaseIgnored(processor: string, machine: string)
    ensures IsAppleSilicon(processor, machine) == IsAppleSilicon(processor, Lower(machine))
  {
    LowerIdempotent(machine);
  }

  /** The three characters of `machine` from `i` spell `arm` in any case. */
  predicate ArmAt(machine: string, i: int) {
    0 <= i <= |machine| - 3 && Lower(machine[i..i + 3]) == Arm
  }

  /**
   * Apple Silicon exactly when the processor is `"arm"` or some three
   * consecutive characters of the machine name spell `arm` in any case
   * (`"ARM64"`, `"arm64"` and `"Arm"` all do).
   */
  lemma ArmMachineIsAppleSilicon(processor: string, machine: string)
    ensures IsAppleSilicon(processor, machine) <==> processor == Arm || exists i :: ArmAt(machine, i)
  {
    var low := Lower(machine);
    forall i | 0 <= i <= |machine| - 3
      ensures OccursAt(low, Arm, i) <==> ArmAt(machine, i)
    {
      assert low[i..i + 3] == Lower(machine[i..i + 3]);
    }
  }

  /** The memory tier added to the base score of 50 (lines 58-67). */
  function MemoryTier(memoryGb: real): nat {
    if memoryGb >= 128.0 then 50
    else if memoryGb >= 64.0 then 40
    else if memoryGb >= 32.0 then 30
    else if memoryGb >= 16.0 then 20
    else if memoryGb >= 8.0 then 10
    else 0
  }

  /** `get_ai_readiness_score` (lines 47-69). */
  function ReadinessScore(isSilicon: bool, memoryGb: real): (score: nat)
    ensures !isSilicon ==> score == 0
    ensures isSilicon ==> 50 <= score <= 100
    ensures score in {0, 50, 60, 70, 80, 90, 100}
  {
    if !isSilicon then 0 else 50 + MemoryTier(memoryGb)
  }

  /** More memory never lowers the score. */
  lemma ScoreMonotone(isSilicon: bool, m1: real, m2: real)
    requires m1 <= m2
    ensures ReadinessScore(isSilicon, m1) <= ReadinessScore(isSilicon, m2)
  {
  }

  /** Each score step is reached exactly at its memory threshold. */
  lemma ScoreThresholds(memoryGb: real)
    ensures ReadinessScore(true, memoryGb) >= 60 <==> memoryGb >= 8.0
    ensures ReadinessScore(true, memoryGb) >= 70 <==> memoryGb >= 16.0
    ensures ReadinessScore(true, memoryGb) >= 80 <==> memoryGb >= 32.0
    ensures ReadinessScore(true, memoryGb) >= 90 <==> memoryGb >= 64.0
    ensures ReadinessScore(true, memoryGb) == 100 <==> memoryGb >= 128.0
  {
  }

  /** The assessment printed for a score (lines 92-109). */
  datatype Band = Excellent | VeryGood | Good | Moderate | Limited | Incompatible

  function BandOf(score: int): (b: Band)
    ensures b == Incompatible <==> score <= 0
  {
    if score >= 80 then Excellent
    else if score >= 60 then VeryGood
    else if score >= 40 then Good
    else if score >= 20 then Moderate
    else if score > 0 then Limited
    else Incompatible
  }

  /**
   * The band a machine is reported in: the Moderate and Limited bands are
   * never reached, and a machine below 8 GB still rates as Good.
   */
  lemma BandOfReadiness(isSilicon: bool, memoryGb: real)
    ensures var b := BandOf(ReadinessScore(isSilicon, memoryGb));
      && b != Moderate && b != Limited
      && (b == Incompatible <==> !isSilicon)
      && (b == Good <==> isSilicon && memoryGb < 8.0)
      && (b == VeryGood <==> isSilicon && 8.0 <= memoryGb < 32.0)
      && (b == Excellent <==> isSilicon && memoryGb >= 32.0)
  {
  }

  /** The recommendation printed after the score (lines 113-122). */
  datatype Advice = UpgradeToSilicon | LimitedMemory | UseQuantized | NoAdvice

  function Recommend(isSilicon: bool, memoryGb: real): Advice {
    if !isSilicon then UpgradeToSilicon
    else if memoryGb < 8.0 then LimitedMemory
    else if memoryGb < 16.0 then UseQuantized
    else NoAdvice
  }

  /** The recommendation is decided by the score alone. */
  lemma RecommendFollowsScore(isSilicon: bool, memoryGb: real)
    ensures var s := ReadinessScore(isSilicon, memoryGb);
      && (Recommend(isSilicon, memoryGb) == UpgradeToSilicon <==> s == 0)
      && (Recommend(isSilicon, memoryGb) == LimitedMemory <==> s == 50)
      && (Recommend(isSilicon, memoryGb) == UseQuantized <==> s == 60)
      && (Recommend(isSilicon, memoryGb) == NoAdvice <==> s >= 70)
  {
  }
}
