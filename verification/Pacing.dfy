/**
 The arithmetic of the two pacing paths: fractional frame credit on the legacy path, the
 present gate on the low-latency path. Rates are reals, times are nanoseconds.
 */
module Pacing {
  import opened Numbers

  // ---------------------------------------------------------------- frame credit

  const OCCUPANCY_CORRECTION_PER_FRAME := 0.01
  const MAXIMUM_OCCUPANCY_CORRECTION := 0.08

  /** How many frames a draw should consume on average, corrected towards the wanted depth. */
  function FramesPerDraw(base: real, depthError: real): real {
    var framesPerDraw :=
      base + Clamp(depthError * OCCUPANCY_CORRECTION_PER_FRAME, -MAXIMUM_OCCUPANCY_CORRECTION,
        MAXIMUM_OCCUPANCY_CORRECTION);
    if framesPerDraw < 0.0 then 0.0 else framesPerDraw
  }

  /** The correction: a hundredth of a frame for each queued frame too many or too few, for eight of
      them at most; a draw never asks for less than nothing. */
  lemma OccupancyCorrection(base: real, depthError: real)
    requires 0.0 <= base
    ensures depthError == 0.0 ==> FramesPerDraw(base, depthError) == base
    ensures 0.0 < depthError <= 8.0 ==> FramesPerDraw(base, depthError) == base + depthError / 100.0
    ensures 8.0 <= depthError ==> FramesPerDraw(base, depthError) == base + 8.0 / 100.0
    ensures -8.0 <= depthError < 0.0 ==> FramesPerDraw(base, depthError) == PositivePart(base + depthError / 100.0)
    ensures depthError <= -8.0 ==> FramesPerDraw(base, depthError) == PositivePart(base - 8.0 / 100.0)
  {
  }

  /** The whole frames that a credit grants. */
  function Whole(credit: real): nat
    requires 0.0 <= credit
  {
    credit.Floor
  }

  /** The credit left after granting them. */
  function Rest(credit: real): real
    requires 0.0 <= credit
  {
    credit - Whole(credit) as real
  }

  ghost predicate Rates(rates: seq<real>) {
    forall i :: 0 <= i < |rates| ==> 0.0 <= rates[i]
  }

  function Total(rates: seq<real>): real {
    if rates == [] then 0.0 else Total(rates[..|rates| - 1]) + rates[|rates| - 1]
  }

  lemma {:induction false} TotalIsNotNegative(rates: seq<real>)
    requires Rates(rates)
    ensures 0.0 <= Total(rates)
  {
    if rates != [] {
      TotalIsNotNegative(rates[..|rates| - 1]);
    }
  }

  /** The product, added up. */
  function Times(x: real, n: nat): real {
    if n == 0 then 0.0 else Times(x, n - 1) + x
  }

  lemma {:induction false} TimesIsProduct(x: real, n: nat)
    ensures Times(x, n) == x * n as real
  {
    if n > 0 {
      TimesIsProduct(x, n - 1);
    }
  }

  lemma {:induction false} TotalIsAtLeast(rates: seq<real>, low: real)
    requires forall i :: 0 <= i < |rates| ==> low <= rates[i]
    ensures Times(low, |rates|) <= Total(rates)
  {
    if rates != [] {
      TotalIsAtLeast(rates[..|rates| - 1], low);
    }
  }

  lemma {:induction false} TotalIsAtMost(rates: seq<real>, high: real)
    requires forall i :: 0 <= i < |rates| ==> rates[i] <= high
    ensures Total(rates) <= Times(high, |rates|)
  {
    if rates != [] {
      TotalIsAtMost(rates[..|rates| - 1], high);
    }
  }

  /** The credit after a stretch of draws that take the credit branch with these rates. */
  function CreditAfter(credit: real, rates: seq<real>): (r: real)
    requires 0.0 <= credit < 1.0 && Rates(rates)
    ensures 0.0 <= r < 1.0
  {
    if rates == [] then credit
    else Rest(CreditAfter(credit, rates[..|rates| - 1]) + rates[|rates| - 1])
  }

  /** The whole frames granted over such a stretch. */
  function Granted(credit: real, rates: seq<real>): nat
    requires 0.0 <= credit < 1.0 && Rates(rates)
  {
    if rates == [] then 0
    else
      var before := rates[..|rates| - 1];
      Granted(credit, before) + Whole(CreditAfter(credit, before) + rates[|rates| - 1])
  }

  /** Credit pacing does not drift: over any stretch the frames granted are the floor of the
      starting credit plus all the requested rates, and the credit left is the remainder. */
  lemma {:induction false} CreditDoesNotDrift(credit: real, rates: seq<real>)
    requires 0.0 <= credit < 1.0 && Rates(rates)
    ensures Granted(credit, rates) as real + CreditAfter(credit, rates) == credit + Total(rates)
    ensures Granted(credit, rates) == (credit + Total(rates)).Floor
    ensures Abs(Granted(credit, rates) as real - Total(rates)) < 1.0
  {
    if rates != [] {
      CreditDoesNotDrift(credit, rates[..|rates| - 1]);
    }
  }

  // ---------------------------------------------------------------- the present gate

  const SAFETY_MS := 1.0
  const MIN_LEAD_MS := 1.5
  const MAX_LEAD_MS := 8.0
  const DEFAULT_LEAD_MS := 3.0
  const JITTER_MULTIPLIER := 1.5
  const MAX_JITTER_MS := 8.0

  function PositivePart(x: real): real {
    if x < 0.0 then 0.0 else x
  }

  /** The lead without jitter: 3 ms as long as nothing has been measured, else the measured costs and
      a margin of 1 ms, within 1.5 and 8 ms. So a costlier draw is never presented later. */
  lemma LeadFollowsCosts(render: real, submit: real, jitterMs: real)
    ensures PresentGateLeadMs(render, submit, false, 0.0) == 3.0
    ensures 0.0 <= render && 0.0 <= submit && 0.5 <= render + submit <= 7.0 ==>
              PresentGateLeadMs(render, submit, true, 0.0) == render + submit + 1.0
    ensures 7.0 <= render && 0.0 <= submit ==> PresentGateLeadMs(render, submit, true, 0.0) == 8.0
    ensures render <= 0.0 && submit <= 0.0 ==> PresentGateLeadMs(render, submit, true, 0.0) == 1.5
    ensures 0.0 <= jitterMs <= 8.0 ==> forall have ::
              PresentGateLeadMs(render, submit, have, jitterMs)
              == PresentGateLeadMs(render, submit, have, 0.0) + 1.5 * jitterMs
    ensures 8.0 <= jitterMs ==> forall have ::
              PresentGateLeadMs(render, submit, have, jitterMs) == PresentGateLeadMs(render, submit, have, 0.0) + 12.0
  {
  }

  lemma LeadGrowsWithCosts(render: real, submit: real, moreRender: real, moreSubmit: real, jitterMs: real)
    requires render <= moreRender && submit <= moreSubmit
    ensures PresentGateLeadMs(render, submit, true, jitterMs) <=
            PresentGateLeadMs(moreRender, moreSubmit, true, jitterMs)
  {
  }

  function ClampPresentLeadMs(renderP95Ms: real, gpuSubmitP95Ms: real, haveSamples: bool): real {
    if !haveSamples then DEFAULT_LEAD_MS
    else Clamp(PositivePart(renderP95Ms) + PositivePart(gpuSubmitP95Ms) + SAFETY_MS, MIN_LEAD_MS, MAX_LEAD_MS)
  }

  function PresentGateLeadMs(renderP95Ms: real, gpuSubmitP95Ms: real, haveSamples: bool, jitterMs: real): (lead: real)
    ensures MIN_LEAD_MS <= lead <= MAX_LEAD_MS + JITTER_MULTIPLIER * MAX_JITTER_MS
  {
    ClampPresentLeadMs(renderP95Ms, gpuSubmitP95Ms, haveSamples)
      + JITTER_MULTIPLIER * Clamp(PositivePart(jitterMs), 0.0, MAX_JITTER_MS)
  }

  /** The gate in nanoseconds: 3 ms and one and a half times the jitter, as long as nothing has been
      measured. */
  lemma GateIsLead(render: real, submit: real, have: bool, jitterNs: real)
    ensures GateNs(render, submit, have, jitterNs) ==
            (1000000.0 * PresentGateLeadMs(render, submit, have, jitterNs / 1000000.0)).Floor
    ensures 0.0 <= jitterNs <= 8000000.0 ==>
              GateNs(render, submit, false, jitterNs) == (3000000.0 + 1.5 * jitterNs).Floor
  {
  }

  /** The gate in nanoseconds. */
  function GateNs(renderP95Ms: real, gpuSubmitP95Ms: real, haveSamples: bool, jitterNs: real): (gate: int)
    ensures 1_500_000 <= gate <= 20_000_000
  {
    (PositivePart(PresentGateLeadMs(renderP95Ms, gpuSubmitP95Ms, haveSamples, jitterNs / 1000000.0)) * 1000000.0).Floor
  }
}
