/** Packet loss per interval, from the cumulative counters that ping prints. */
module Ping {
  import opened Wrappers

  /** One statistics line: cumulative counters since the process started. */
  datatype PingStats = PingStats(rcvd: nat, sent: nat, latency: Option<real>)

  datatype PingTelemetry = PingTelemetry(reachable: bool, latency: real, loss: nat)

  function SaturatingSub(a: nat, b: nat): nat { if a < b then 0 else a - b }

  function Ceil(x: real): (c: int)
    ensures x <= c as real < x + 1.0
  {
    -((-x).Floor)
  }

  lemma ScaledRatio(s: nat, r: nat, x: real)
    requires s > 0 && x == 100.0 - (r as real / s as real) * 100.0
    ensures x * s as real == (100 * s - 100 * r) as real
  {
    var q := r as real / s as real;
    assert q * s as real == r as real;
    assert x * s as real == 100.0 * s as real - 100.0 * (q * s as real);
  }

  lemma ScaleBy(s: nat, p: int, n: int, x: real)
    requires s > 0 && x * s as real == n as real
    requires x <= p as real < x + 1.0
    ensures n <= p * s < n + s
  {
    IntProduct(p, s);
    Between(x, p as real, s as real, n as real);
  }

  lemma Between(x: real, p: real, s: real, n: real)
    requires s > 0.0 && x <= p < x + 1.0 && x * s == n
    ensures n <= p * s < n + s
  {
    var low, high := p - x, x + 1.0 - p;
    assert low * s >= 0.0 && high * s > 0.0;
    assert low * s == p * s - n;
    assert high * s == n + s - p * s;
  }

  lemma IntProduct(p: int, s: nat)
    ensures (p * s) as real == p as real * s as real
  {
    if s > 0 {
      IntProduct(p, s - 1);
      assert p * s == p * (s - 1) + p;
      assert p as real * s as real == p as real * (s - 1) as real + p as real;
    }
  }

  lemma FactorBelow(p: int, k: int, s: nat)
    requires s > 0 && p * s < (k + 1) * s
    ensures p <= k
  {
  }

  function Min(a: int, b: int): int { if a < b then a else b }

  /** The loss of an interval in percent: the least whole percentage that covers every packet missing from it. */
  function CalculateLossPercent(sent: nat, rcvd: nat): (p: nat)
    ensures p <= 100
    ensures rcvd >= sent ==> p == 0
    ensures rcvd < sent ==> 100 * (sent - rcvd) <= p * sent < 100 * (sent - rcvd) + sent
    ensures p == 100 <==> 100 * rcvd < sent
  {
    if sent == 0 || rcvd >= sent then 0
    else
      var loss := 100.0 - (rcvd as real / sent as real) * 100.0;
      var ceiled := Ceil(loss);
      ScaledRatio(sent, rcvd, loss);
      ScaleBy(sent, ceiled, 100 * sent - 100 * rcvd, loss);
      LossBounds(sent, rcvd, ceiled);
      Min(ceiled, 100)
  }

  lemma {:induction false} LossBounds(sent: nat, rcvd: nat, p: int)
    requires rcvd < sent && 100 * (sent - rcvd) <= p * sent < 100 * (sent - rcvd) + sent
    ensures 1 <= p <= 100
    ensures p == 100 <==> 100 * rcvd < sent
  {
    FactorBelow(p, 100, sent);
    FactorBelow(0, p - 1, sent);
    if 100 * rcvd < sent {
      FactorBelow(99, p - 1, sent);
    } else {
      FactorBelow(p, 99, sent);
    }
  }

  // --- a whole run of one ping process ---

  /** The packets one interval accounts for. */
  datatype Delta = Delta(sent: nat, rcvd: nat)

  function LastSent(lines: seq<PingStats>): nat { if lines == [] then 0 else lines[|lines| - 1].sent }

  function LastRcvd(lines: seq<PingStats>): nat { if lines == [] then 0 else lines[|lines| - 1].rcvd }

  function Deltas(lines: seq<PingStats>): (ds: seq<Delta>)
    ensures |ds| == |lines|
  {
    if lines == [] then []
    else
      var before, line := lines[..|lines| - 1], lines[|lines| - 1];
      Deltas(before) + [Delta(SaturatingSub(line.sent, LastSent(before)), SaturatingSub(line.rcvd, LastRcvd(before)))]
  }

  lemma DeltasAppend(lines: seq<PingStats>, line: PingStats)
    ensures Deltas(lines + [line]) ==
              Deltas(lines) + [Delta(SaturatingSub(line.sent, LastSent(lines)), SaturatingSub(line.rcvd, LastRcvd(lines)))]
  {
    assert (lines + [line])[..|lines|] == lines;
  }

  /** The reading a line gives for its interval. */
  predicate Reads(reading: PingTelemetry, line: PingStats, d: Delta) {
    && reading.loss == CalculateLossPercent(d.sent, d.rcvd)
    && (reading.reachable <==> line.latency.Some? && d.sent <= 100 * d.rcvd)
    && reading.latency == (if line.latency.Some? then line.latency.value else 0.0)
  }

  predicate AllRead(readings: seq<PingTelemetry>, lines: seq<PingStats>) {
    && |readings| == |lines|
    && forall i | 0 <= i < |lines| :: Reads(readings[i], lines[i], Deltas(lines)[i])
  }

  /** The previous counters of one ping process. */
  class PingSensor {
    var prevSent: nat
    var prevRcvd: nat

    constructor ()
      ensures prevSent == prevRcvd == 0
    {
      prevSent, prevRcvd := 0, 0;
    }

    method ComputeReading(line: PingStats) returns (reading: PingTelemetry)
      modifies this
      ensures prevSent == line.sent && prevRcvd == line.rcvd
      ensures Reads(reading, line,
                    Delta(SaturatingSub(line.sent, old(prevSent)), SaturatingSub(line.rcvd, old(prevRcvd))))
    {
      var deltaSent := SaturatingSub(line.sent, prevSent);
      var deltaRcvd := SaturatingSub(line.rcvd, prevRcvd);
      prevSent := line.sent;
      prevRcvd := line.rcvd;
      var loss := CalculateLossPercent(deltaSent, deltaRcvd);
      reading := PingTelemetry(line.latency.Some? && loss < 100,
                               if line.latency.Some? then line.latency.value else 0.0, loss);
    }

    /** The lines of one process, read until it ends. */
    method ReadAll(lines: seq<PingStats>) returns (readings: seq<PingTelemetry>)
      requires prevSent == prevRcvd == 0
      modifies this
      ensures AllRead(readings, lines)
      ensures prevSent == LastSent(lines) && prevRcvd == LastRcvd(lines)
    {
      readings := [];
      var i := 0;
      while i < |lines|
        invariant 0 <= i <= |lines|
        invariant AllRead(readings, lines[..i])
        invariant prevSent == LastSent(lines[..i]) && prevRcvd == LastRcvd(lines[..i])
      {
        var reading := ComputeReading(lines[i]);
        DeltasAppend(lines[..i], lines[i]);
        assert lines[..i + 1] == lines[..i] + [lines[i]];
        readings := readings + [reading];
        i := i + 1;
      }
      assert lines[..i] == lines;
    }
  }

  function SumSent(ds: seq<Delta>): nat { if ds == [] then 0 else SumSent(ds[..|ds| - 1]) + ds[|ds| - 1].sent }

  function SumRcvd(ds: seq<Delta>): nat { if ds == [] then 0 else SumRcvd(ds[..|ds| - 1]) + ds[|ds| - 1].rcvd }

  /** Packets an interval is short of, summed. */
  function Missing(ds: seq<Delta>): nat {
    if ds == [] then 0 else Missing(ds[..|ds| - 1]) + SaturatingSub(ds[|ds| - 1].sent, ds[|ds| - 1].rcvd)
  }

  /** The reported percentages, each weighted by the packets of its interval. */
  function Weighted(ds: seq<Delta>): nat {
    if ds == [] then 0
    else
      var d := ds[|ds| - 1];
      Weighted(ds[..|ds| - 1]) + CalculateLossPercent(d.sent, d.rcvd) * d.sent
  }

  /** Counters that are never taken back. */
  predicate Ascending(lines: seq<PingStats>) {
    |lines| > 0 ==>
      var before, line := lines[..|lines| - 1], lines[|lines| - 1];
      LastSent(before) <= line.sent && LastRcvd(before) <= line.rcvd && Ascending(before)
  }

  /**
    * The intervals add up to at least the final counters, and to exactly them
    * if and only if neither counter ever went back.
    */
  lemma {:induction false} DeltasTelescope(lines: seq<PingStats>)
    ensures SumSent(Deltas(lines)) >= LastSent(lines) && SumRcvd(Deltas(lines)) >= LastRcvd(lines)
    ensures Ascending(lines) <==>
            SumSent(Deltas(lines)) == LastSent(lines) && SumRcvd(Deltas(lines)) == LastRcvd(lines)
  {
    if lines != [] {
      var before := lines[..|lines| - 1];
      DeltasTelescope(before);
      assert Deltas(lines)[..|lines| - 1] == Deltas(before);
    }
  }

  lemma IntervalLoss(d: Delta)
    ensures var w := CalculateLossPercent(d.sent, d.rcvd) * d.sent;
            100 * SaturatingSub(d.sent, d.rcvd) <= w <= 100 * SaturatingSub(d.sent, d.rcvd) + d.sent
    ensures d.sent > 0 ==> CalculateLossPercent(d.sent, d.rcvd) * d.sent < 100 * SaturatingSub(d.sent, d.rcvd) + d.sent
  {
  }

  /**
    * Over any run the weighted percentages cover every missing packet and, once
    * anything was sent, overstate them by less than one percent of what was sent.
    */
  lemma {:induction false} LossIsTight(ds: seq<Delta>)
    ensures 100 * Missing(ds) <= Weighted(ds)
    ensures if SumSent(ds) == 0 then Weighted(ds) == 0 else Weighted(ds) < 100 * Missing(ds) + SumSent(ds)
  {
    if ds != [] {
      LossIsTight(ds[..|ds| - 1]);
      IntervalLoss(ds[|ds| - 1]);
    }
  }

  lemma {:induction false} MissingCovers(ds: seq<Delta>)
    ensures Missing(ds) >= SumSent(ds) - SumRcvd(ds)
    ensures (forall i | 0 <= i < |ds| :: ds[i].rcvd <= ds[i].sent) ==> Missing(ds) == SumSent(ds) - SumRcvd(ds)
  {
    if ds != [] {
      MissingCovers(ds[..|ds| - 1]);
    }
  }

  /**
    * Against the final counters alone: the weighted percentages never understate
    * the packets the process has lost, and are within one percent of them when
    * no interval received more than it sent.
    */
  lemma {:induction false} LossAgainstFinalCounters(lines: seq<PingStats>)
    requires Ascending(lines)
    ensures 100 * (LastSent(lines) - LastRcvd(lines)) <= Weighted(Deltas(lines))
    ensures LastSent(lines) > 0 && (forall i | 0 <= i < |lines| :: Deltas(lines)[i].rcvd <= Deltas(lines)[i].sent) ==>
              Weighted(Deltas(lines)) < 100 * (LastSent(lines) - LastRcvd(lines)) + LastSent(lines)
  {
    DeltasTelescope(lines);
    LossIsTight(Deltas(lines));
    MissingCovers(Deltas(lines));
  }
}
