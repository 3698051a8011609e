/**
 What the legacy pace amounts to over many draws: frames go out at the rate at which they come in,
 a queue that is too deep drains and one that is too shallow fills up.
 */
module FramePacing {
  import opened FrameQueue
  import opened Numbers
  import opened Pacing

  /** The average draw interval moves a sixteenth of the way to the latest one, and never past it. */
  lemma AverageFollowsInterval(average: nat, interval: nat)
    requires average > 0
    ensures
      var next := AverageInterval(average, interval);
      && 0 <= 15 * average + interval - 16 * next < 16
      && Min(average, interval) <= next <= Max(average, interval)
  {
  }

  /** The base rate turns the time of a draw into the frames that arrive in it. */
  lemma BaseRateIsRatio(arrival: ArrivalClock, average: nat)
    requires HasRates(arrival, average)
    ensures BaseRate(arrival, average) * arrival.frameInterval as real == average as real
    ensures average == arrival.frameInterval ==> BaseRate(arrival, average) == 1.0
  {
  }

  /** The frames due over a stretch of draws that find these depths. */
  function DueTotal(depths: seq<nat>, target: nat, limit: nat, arrival: ArrivalClock, average: nat, credit: real): nat
    requires 0.0 <= credit
  {
    if depths == [] then 0
    else
      var left := CreditLeft(depths[0], target, arrival, average, credit);
      CreditStays(depths[0], target, arrival, average, credit);
      DueFrames(depths[0], target, limit, arrival, average, credit)
        + DueTotal(depths[1..], target, limit, arrival, average, left)
  }

  lemma CreditStays(depth: nat, target: nat, arrival: ArrivalClock, average: nat, credit: real)
    requires 0.0 <= credit
    ensures 0.0 <= CreditLeft(depth, target, arrival, average, credit)
    ensures credit < 1.0 ==> CreditLeft(depth, target, arrival, average, credit) < 1.0
  {
  }

  /** One draw on credit: what is due and what is left make up what there was and what is wanted. */
  lemma DueOnCredit(depth: nat, target: nat, limit: nat, arrival: ArrivalClock, average: nat, credit: real)
    requires 0.0 <= credit < 1.0 && UsesCredit(depth, target, arrival, average)
    requires BaseRate(arrival, average) + 1.08 <= limit as real
    ensures DueFrames(depth, target, limit, arrival, average, credit) as real
            + CreditLeft(depth, target, arrival, average, credit)
         == credit + WantedRate(depth, target, arrival, average)
  {
    OccupancyCorrection(BaseRate(arrival, average), depth as real - (target + 1) as real);
  }

  /** What the draws ask for. */
  function Wanted(depths: seq<nat>, target: nat, arrival: ArrivalClock, average: nat): (rates: seq<real>)
    requires HasRates(arrival, average)
    ensures |rates| == |depths|
  {
    seq(|depths|, i requires 0 <= i < |depths| => WantedRate(depths[i], target, arrival, average))
  }

  ghost predicate OnCredit(depths: seq<nat>, target: nat, arrival: ArrivalClock, average: nat) {
    forall i :: 0 <= i < |depths| ==> UsesCredit(depths[i], target, arrival, average)
  }

  /** On credit the frames due are what the draws ask for, less than a frame apart. */
  lemma {:induction false} DueIsWanted(depths: seq<nat>, target: nat, limit: nat, arrival: ArrivalClock, average: nat,
                                       credit: real)
    requires 0.0 <= credit < 1.0 && HasRates(arrival, average) && OnCredit(depths, target, arrival, average)
    requires BaseRate(arrival, average) + 1.08 <= limit as real
    ensures
      var due := DueTotal(depths, target, limit, arrival, average, credit) as real;
      var wanted := credit + Total(Wanted(depths, target, arrival, average));
      wanted - 1.0 < due <= wanted
    decreases |depths|
  {
    if depths != [] {
      assert UsesCredit(depths[0], target, arrival, average);
      DueOnCredit(depths[0], target, limit, arrival, average, credit);
      CreditStays(depths[0], target, arrival, average, credit);
      DueIsWanted(depths[1..], target, limit, arrival, average,
                  CreditLeft(depths[0], target, arrival, average, credit));
      var rates := Wanted(depths, target, arrival, average);
      assert rates[1..] == Wanted(depths[1..], target, arrival, average);
      TotalFromFront(rates);
    }
  }

  lemma {:induction false} TotalFromFront(rates: seq<real>)
    requires rates != []
    ensures Total(rates) == rates[0] + Total(rates[1..])
    decreases |rates|
  {
    if |rates| > 1 {
      var front := rates[..|rates| - 1];
      TotalFromFront(front);
      assert rates[1..][..|rates| - 2] == front[1..];
    }
  }

  /** Rates of at least so much, or at most, for `n` draws. */
  lemma AtLeast(rates: seq<real>, n: nat, low: real, credit: real, due: real)
    requires |rates| == n && credit + Total(rates) - 1.0 < due
    requires forall i :: 0 <= i < |rates| ==> low <= rates[i]
    ensures credit + Times(low, n) - 1.0 < due
  {
    TotalIsAtLeast(rates, low);
  }

  lemma AtMost(rates: seq<real>, n: nat, high: real, credit: real, due: real)
    requires |rates| == n && due <= credit + Total(rates)
    requires forall i :: 0 <= i < |rates| ==> rates[i] <= high
    ensures due <= credit + Times(high, n)
  {
    TotalIsAtMost(rates, high);
  }

  /** All these depths lie on one side of the wanted one. */
  ghost predicate Deep(depths: seq<nat>, target: nat) {
    forall i :: 0 <= i < |depths| ==> depths[i] > target + 1
  }

  ghost predicate Shallow(depths: seq<nat>, target: nat) {
    forall i :: 0 <= i < |depths| ==> depths[i] < target + 1
  }

  /** Where the queue is too deep a draw asks for at least a hundredth of a frame more than arrives in
      it, so over the draws more frames go out than come in. */
  lemma DeepQueueDrains(depths: seq<nat>, target: nat, limit: nat, arrival: ArrivalClock, average: nat, credit: real,
                        base: real)
    requires 0.0 <= credit < 1.0 && HasRates(arrival, average) && Deep(depths, target)
    requires base <= BaseRate(arrival, average) && BaseRate(arrival, average) + 1.08 <= limit as real
    ensures DueTotal(depths, target, limit, arrival, average, credit) as real
         > credit + Times(base + 0.01, |depths|) - 1.0
  {
    forall i | 0 <= i < |depths|
      ensures base + 0.01 <= WantedRate(depths[i], target, arrival, average)
    {
      OccupancyCorrection(BaseRate(arrival, average), depths[i] as real - (target + 1) as real);
    }
    DueIsWanted(depths, target, limit, arrival, average, credit);
    AtLeast(Wanted(depths, target, arrival, average), |depths|, base + 0.01, credit,
            DueTotal(depths, target, limit, arrival, average, credit) as real);
  }

  /** And where it is too shallow it asks for at least a hundredth less, down to nothing. */
  lemma ShallowQueueFills(depths: seq<nat>, target: nat, limit: nat, arrival: ArrivalClock, average: nat, credit: real,
                          base: real)
    requires 0.0 <= credit < 1.0 && HasRates(arrival, average) && Shallow(depths, target)
    requires 0.01 <= base && BaseRate(arrival, average) <= base && BaseRate(arrival, average) + 1.08 <= limit as real
    ensures DueTotal(depths, target, limit, arrival, average, credit) as real
         <= credit + Times(base - 0.01, |depths|)
  {
    forall i | 0 <= i < |depths|
      ensures 0.0 <= WantedRate(depths[i], target, arrival, average) <= base - 0.01
    {
      OccupancyCorrection(BaseRate(arrival, average), depths[i] as real - (target + 1) as real);
    }
    DueIsWanted(depths, target, limit, arrival, average, credit);
    AtMost(Wanted(depths, target, arrival, average), |depths|, base - 0.01, credit,
           DueTotal(depths, target, limit, arrival, average, credit) as real);
  }

  /** At matching clocks: a hundred draws from too deep a queue take more than a hundred frames, from
      too shallow a one fewer. */
  lemma MatchingClocks(depths: seq<nat>, target: nat, limit: nat, arrival: ArrivalClock, average: nat, credit: real)
    requires 0.0 <= credit < 1.0 && HasRates(arrival, average) && average == arrival.frameInterval
    requires |depths| >= 100 && limit >= 3
    ensures Deep(depths, target) ==> DueTotal(depths, target, limit, arrival, average, credit) > |depths|
    ensures Shallow(depths, target) ==> DueTotal(depths, target, limit, arrival, average, credit) < |depths|
  {
    BaseRateIsRatio(arrival, average);
    TimesIsProduct(1.01, |depths|);
    TimesIsProduct(0.99, |depths|);
    if Deep(depths, target) {
      DeepQueueDrains(depths, target, limit, arrival, average, credit, 1.0);
    }
    if Shallow(depths, target) {
      ShallowQueueFills(depths, target, limit, arrival, average, credit, 1.0);
    }
  }

  /** At the wanted depth frames go out as they come in, less than one frame apart ... */
  lemma WantedDepthKeepsPace(depths: seq<nat>, target: nat, limit: nat, arrival: ArrivalClock, average: nat,
                             credit: real, low: real, high: real)
    requires 0.0 <= credit < 1.0 && HasRates(arrival, average) && !(0.98 <= BaseRate(arrival, average) <= 1.02)
    requires low <= BaseRate(arrival, average) <= high && BaseRate(arrival, average) + 1.08 <= limit as real
    requires forall i :: 0 <= i < |depths| ==> depths[i] == target + 1
    ensures
      credit + Times(low, |depths|) - 1.0
      < DueTotal(depths, target, limit, arrival, average, credit) as real
      <= credit + Times(high, |depths|)
  {
    forall i | 0 <= i < |depths|
      ensures low <= WantedRate(depths[i], target, arrival, average) <= high
    {
      OccupancyCorrection(BaseRate(arrival, average), 0.0);
    }
    var due := DueTotal(depths, target, limit, arrival, average, credit) as real;
    DueIsWanted(depths, target, limit, arrival, average, credit);
    AtLeast(Wanted(depths, target, arrival, average), |depths|, low, credit, due);
    AtMost(Wanted(depths, target, arrival, average), |depths|, high, credit, due);
  }

  /** ... and one at each draw while the clocks match within two percent; that clears the credit. */
  lemma MatchingClocksTakeOne(target: nat, limit: nat, arrival: ArrivalClock, average: nat, credit: real)
    requires 0.0 <= credit && HasRates(arrival, average) && 0.98 <= BaseRate(arrival, average) <= 1.02
    ensures DueFrames(target + 1, target, limit, arrival, average, credit) == 1
    ensures CreditLeft(target + 1, target, arrival, average, credit) == 0.0
  {
  }

  /** Until both clocks have a rate a draw takes a frame exactly if more than the target are queued. */
  lemma WithoutRates(depth: nat, target: nat, limit: nat, arrival: ArrivalClock, average: nat, credit: real)
    requires 0.0 <= credit && !HasRates(arrival, average)
    ensures DueFrames(depth, target, limit, arrival, average, credit) == (if depth > target then 1 else 0)
    ensures CreditLeft(depth, target, arrival, average, credit) == credit
  {
  }
}
