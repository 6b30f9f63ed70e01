/** The picker's scores and winner, counted on the probe results themselves. */
module Scoring {
  import opened Types
  import opened Pick

  // ---------- one list of results ----------

  predicate Target(r: ProbeResult) { !r.control }

  predicate Passing(r: ProbeResult) { !r.control && r.ok }

  /** A target that failed with a blocking signature. */
  predicate Blocked(r: ProbeResult) { !r.control && !r.ok && r.signature }

  predicate Control(r: ProbeResult) { r.control }

  predicate ControlPassing(r: ProbeResult) { r.control && r.ok }

  /** The places of the results with a property. */
  function At(rs: seq<ProbeResult>, p: ProbeResult -> bool): set<int> { set i | 0 <= i < |rs| && p(rs[i]) }

  lemma AtStep(rs: seq<ProbeResult>, p: ProbeResult -> bool)
    requires |rs| > 0
    ensures |At(rs, p)| == |At(rs[..|rs| - 1], p)| + if p(rs[|rs| - 1]) then 1 else 0
  {
    var n := |rs| - 1;
    assert At(rs, p) == At(rs[..n], p) + if p(rs[n]) then {n} else {};
  }

  /** What the score counts: all targets, those that passed and those that were blocked,
      the controls and the controls that passed. */
  lemma {:induction false} ScoreCounts(rs: seq<ProbeResult>)
    ensures var s := Counted(rs);
      && s.targets == |At(rs, Target)| && s.passed == |At(rs, Passing)| && s.blocked == |At(rs, Blocked)|
      && s.controlTotal == |At(rs, Control)| && s.controlPassed == |At(rs, ControlPassing)|
    decreases |rs|
  {
    if |rs| > 0 {
      ScoreCounts(rs[..|rs| - 1]);
      AtStep(rs, Target);
      AtStep(rs, Passing);
      AtStep(rs, Blocked);
      AtStep(rs, Control);
      AtStep(rs, ControlPassing);
    }
  }

  /** The first byte, or the handshake where there is none; 0 when neither was timed. */
  function LatencyOf(r: ProbeResult): int { if r.firstByte > 0 then r.firstByte else if r.tlsTime > 0 then r.tlsTime else 0 }

  predicate Timed(r: ProbeResult) { !r.control && r.ok && LatencyOf(r) > 0 }

  /** The latencies of the results at the given places, in their order; all timed ones. */
  predicate LatencyPlaces(rs: seq<ProbeResult>, at: seq<int>, latencies: seq<int>) {
    && |at| == |latencies| && (forall i, j :: 0 <= i < j < |at| ==> at[i] < at[j])
    && (forall k :: 0 <= k < |at| ==> 0 <= at[k] < |rs| && latencies[k] == LatencyOf(rs[at[k]]))
    && forall i :: 0 <= i < |rs| ==> (Timed(rs[i]) <==> i in at)
  }

  lemma LatencyPlacesStep(front: seq<ProbeResult>, r: ProbeResult, at: seq<int>, latencies: seq<int>)
    requires LatencyPlaces(front, at, latencies)
    ensures Timed(r) ==> LatencyPlaces(front + [r], at + [|front|], latencies + [LatencyOf(r)])
    ensures !Timed(r) ==> LatencyPlaces(front + [r], at, latencies)
  {
  }

  /** The latencies are those of the passing targets that were timed, in order. */
  lemma {:induction false} LatenciesAre(rs: seq<ProbeResult>) returns (at: seq<int>)
    ensures LatencyPlaces(rs, at, Latencies(rs))
    decreases |rs|
  {
    at := [];
    if |rs| > 0 {
      var n := |rs| - 1;
      at := LatenciesAre(rs[..n]);
      LatencyPlacesStep(rs[..n], rs[n], at, Latencies(rs[..n]));
      assert rs[..n] + [rs[n]] == rs;
      if Timed(rs[n]) { at := at + [n]; }
    }
  }

  // ---------- a candidate's trial ----------

  function PassedIn(rounds: seq<Option<seq<ProbeResult>>>): nat {
    if |rounds| == 0 then 0
    else
      var last := rounds[|rounds| - 1];
      PassedIn(rounds[..|rounds| - 1]) + if last.Some? then |At(last.value, Passing)| else 0
  }

  function BlockedIn(rounds: seq<Option<seq<ProbeResult>>>): nat {
    if |rounds| == 0 then 0
    else
      var last := rounds[|rounds| - 1];
      BlockedIn(rounds[..|rounds| - 1]) + if last.Some? then |At(last.value, Blocked)| else 0
  }

  lemma {:induction false} CountedJoin(a: seq<ProbeResult>, b: seq<ProbeResult>)
    ensures var s, x, y := Counted(a + b), Counted(a), Counted(b);
      && s.passed == x.passed + y.passed && s.blocked == x.blocked + y.blocked
      && s.controlTotal == x.controlTotal + y.controlTotal && s.controlPassed == x.controlPassed + y.controlPassed
    decreases |b|
  {
    if |b| == 0 {
      assert a + b == a;
    } else {
      var n := |b| - 1;
      assert (a + b)[..|a + b| - 1] == a + b[..n];
      CountedJoin(a, b[..n]);
    }
  }

  lemma {:induction false} RoundsCount(rounds: seq<Option<seq<ProbeResult>>>)
    ensures Counted(Flat(rounds)).passed == PassedIn(rounds) && Counted(Flat(rounds)).blocked == BlockedIn(rounds)
    decreases |rounds|
  {
    if |rounds| > 0 {
      var n := |rounds| - 1;
      var last := if rounds[n].Some? then rounds[n].value else [];
      RoundsCount(rounds[..n]);
      CountedJoin(Flat(rounds[..n]), last);
      ScoreCounts(last);
      if rounds[n].None? { assert At([], Passing) == {} && At([], Blocked) == {}; }
    }
  }

  /** In every round some control probe passed, unless there are none. */
  predicate ControlsHeld(rounds: seq<Option<seq<ProbeResult>>>) {
    forall r :: 0 <= r < |rounds| && rounds[r].Some? ==>
      (forall i :: 0 <= i < |rounds[r].value| ==> !rounds[r].value[i].control) ||
      (exists i :: 0 <= i < |rounds[r].value| && rounds[r].value[i].control && rounds[r].value[i].ok)
  }

  lemma ValidRound(rs: seq<ProbeResult>)
    ensures Valid(Counted(rs)) <==>
      (forall i :: 0 <= i < |rs| ==> !rs[i].control) || (exists i :: 0 <= i < |rs| && rs[i].control && rs[i].ok)
  {
    ScoreCounts(rs);
    if At(rs, Control) == {} {
      forall i | 0 <= i < |rs| ensures !rs[i].control { assert i !in At(rs, Control); }
    } else {
      var i :| i in At(rs, Control);
      assert rs[i].control;
    }
    if At(rs, ControlPassing) != {} {
      var i :| i in At(rs, ControlPassing);
      assert rs[i].control && rs[i].ok;
    } else {
      forall i | 0 <= i < |rs| ensures !(rs[i].control && rs[i].ok) { assert i !in At(rs, ControlPassing); }
    }
  }

  lemma SteadyIsHeld(rounds: seq<Option<seq<ProbeResult>>>)
    ensures Steady(rounds) <==> ControlsHeld(rounds)
  {
    forall r | 0 <= r < |rounds| && rounds[r].Some?
      ensures Valid(Counted(rounds[r].value)) <==>
        (forall i :: 0 <= i < |rounds[r].value| ==> !rounds[r].value[i].control) ||
        (exists i :: 0 <= i < |rounds[r].value| && rounds[r].value[i].control && rounds[r].value[i].ok)
    {
      ValidRound(rounds[r].value);
    }
  }

  /** A round's own score, nothing for one that did not run. */
  function RoundScore(round: Option<seq<ProbeResult>>): Score { Counted(if round.Some? then round.value else []) }

  /** No round counts more controls than the total, which some round does count to. */
  predicate ControlBounds(rounds: seq<Option<seq<ProbeResult>>>, s: Score) {
    && (forall r :: 0 <= r < |rounds| ==>
          RoundScore(rounds[r]).controlTotal <= s.controlTotal && RoundScore(rounds[r]).controlPassed <= s.controlPassed)
    && (s.controlTotal > 0 ==> exists r :: 0 <= r < |rounds| && RoundScore(rounds[r]).controlTotal > 0)
  }

  lemma BoundsStep(front: seq<Option<seq<ProbeResult>>>, last: Option<seq<ProbeResult>>, s: Score, t: Score)
    requires ControlBounds(front, s)
    requires t.controlTotal == s.controlTotal + RoundScore(last).controlTotal
    requires t.controlPassed == s.controlPassed + RoundScore(last).controlPassed
    ensures ControlBounds(front + [last], t)
  {
    var rounds := front + [last];
    assert rounds[|front|] == last;
    if s.controlTotal > 0 {
      var r :| 0 <= r < |front| && RoundScore(front[r]).controlTotal > 0;
      assert rounds[r] == front[r];
    }
  }

  function TotalScore(rounds: seq<Option<seq<ProbeResult>>>): Score { Counted(Flat(rounds)) }

  lemma RoundAdds(front: seq<Option<seq<ProbeResult>>>, last: Option<seq<ProbeResult>>)
    ensures var s, t := TotalScore(front), TotalScore(front + [last]);
      && t.controlTotal == s.controlTotal + RoundScore(last).controlTotal
      && t.controlPassed == s.controlPassed + RoundScore(last).controlPassed
  {
    assert (front + [last])[..|front|] == front;
    CountedJoin(Flat(front), if last.Some? then last.value else []);
  }

  /** Totals of the controls grow with every round. */
  lemma {:induction false} ControlTotals(rounds: seq<Option<seq<ProbeResult>>>)
    ensures ControlBounds(rounds, TotalScore(rounds))
    decreases |rounds|
  {
    if |rounds| > 0 {
      var front, last := rounds[..|rounds| - 1], rounds[|rounds| - 1];
      assert rounds == front + [last];
      ControlTotals(front);
      RoundAdds(front, last);
      BoundsStep(front, last, TotalScore(front), TotalScore(rounds));
    }
  }

  lemma ValidTrial(o: Opts, t: Trial)
    ensures Valid(TrialScore(o, t)) <==> ControlsHeld(t.rounds)
  {
    SteadyIsHeld(t.rounds);
    ControlTotals(t.rounds);
    if Steady(t.rounds) {
      if Counted(Flat(t.rounds)).controlTotal > 0 {
        var r :| 0 <= r < |t.rounds| && RoundScore(t.rounds[r]).controlTotal > 0;
        assert Valid(RoundScore(t.rounds[r]));
      }
    } else {
      var r :| 0 <= r < |t.rounds| && t.rounds[r].Some? && !Valid(Counted(t.rounds[r].value));
      assert RoundScore(t.rounds[r]).controlTotal > 0;
    }
  }

  // ---------- the winner ----------

  /** Candidate j was tried and measured, with its controls up. */
  predicate MeasuredAt(o: Opts, trials: seq<Trial>, upto: int, j: int)
    requires |trials| == |o.candidates| && 0 <= j < |trials|
  {
    var t := trials[j];
    && j < upto && !(o.skipUnsupported && !o.candidates[j].supported)
    && !t.cancelled && t.activates && t.settles && AllRan(t.rounds) && ControlsHeld(t.rounds)
  }

  function MedianOf(o: Opts, t: Trial): int { o.median(Latencies(Flat(t.rounds))) }

  /** More targets passed; as many, and fewer blocked; as many of both, and a lower
      latency, where none known counts as the highest. */
  predicate NoWorse(o: Opts, a: Trial, b: Trial) {
    || PassedIn(a.rounds) > PassedIn(b.rounds)
    || (PassedIn(a.rounds) == PassedIn(b.rounds) && BlockedIn(a.rounds) < BlockedIn(b.rounds))
    || (PassedIn(a.rounds) == PassedIn(b.rounds) && BlockedIn(a.rounds) == BlockedIn(b.rounds)
        && (MedianOf(o, b) == 0 || (MedianOf(o, a) != 0 && MedianOf(o, a) <= MedianOf(o, b))))
  }

  lemma RowIsMeasured(o: Opts, trials: seq<Trial>, original: string, rows: seq<Row>, upto: int, j: int)
    requires |trials| == |o.candidates| && 0 <= j < |trials| && RowsUpTo(o, trials, original, rows, upto)
    ensures rows[j].Measured? <==> MeasuredAt(o, trials, upto, j)
    ensures rows[j].Measured? ==> rows[j].score == TrialScore(o, trials[j])
  {
    ValidTrial(o, trials[j]);
  }

  lemma NotBetterIsNoWorse(o: Opts, a: Trial, b: Trial)
    requires ControlsHeld(a.rounds) && ControlsHeld(b.rounds) && !Better(TrialScore(o, b), TrialScore(o, a))
    ensures NoWorse(o, a, b)
  {
    ValidTrial(o, a);
    ValidTrial(o, b);
    RoundsCount(a.rounds);
    RoundsCount(b.rounds);
  }

  /** Main result, on the trials alone: the winner of a sweep was measured and passed some
      target, and no measured candidate passed more, or as many with fewer blocked, or as
      many of both at a lower known latency; no winner means that no measured candidate
      passed any. */
  lemma WinnerFromTrials(o: Opts, trials: seq<Trial>, res: Report, upto: int)
    requires |trials| == |o.candidates| && TableRight(o, trials, res, upto)
    ensures match res.best
            case Some(b) =>
              && b < |trials| && MeasuredAt(o, trials, upto, b) && PassedIn(trials[b].rounds) > 0
              && forall j :: 0 <= j < |trials| && MeasuredAt(o, trials, upto, j) ==> NoWorse(o, trials[b], trials[j])
            case None =>
              forall j :: 0 <= j < |trials| && MeasuredAt(o, trials, upto, j) ==> PassedIn(trials[j].rounds) == 0
  {
    forall j | 0 <= j < |trials|
      ensures res.rows[j].Measured? <==> MeasuredAt(o, trials, upto, j)
      ensures res.rows[j].Measured? ==> res.rows[j].score == TrialScore(o, trials[j])
      ensures TrialScore(o, trials[j]).passed == PassedIn(trials[j].rounds)
    {
      RowIsMeasured(o, trials, res.original, res.rows, upto, j);
      RoundsCount(trials[j].rounds);
    }
    match res.best {
      case Some(b) =>
        forall j | 0 <= j < |trials| && MeasuredAt(o, trials, upto, j) ensures NoWorse(o, trials[b], trials[j]) {
          NotBetterIsNoWorse(o, trials[b], trials[j]);
        }
      case None =>
    }
  }
}
