/** The strategy picker: what runs when it returns, and which candidate wins. The
    probes, the daemon and cancellation are arbitrary inputs. */
module Pick {
  import opened Types

  // ---------- scores ----------

  datatype ProbeResult = ProbeResult(control: bool, ok: bool, firstByte: int, tlsTime: int, signature: bool)

  datatype Score = Score(targets: nat, passed: nat, blocked: nat, controlTotal: nat, controlPassed: nat, latency: int)

  predicate Valid(s: Score) { s.controlTotal == 0 || s.controlPassed > 0 }

  predicate Perfect(s: Score) { Valid(s) && s.targets > 0 && s.passed == s.targets }

  /** Validity, then targets passed, then fewer blocked, then lower latency, where an
      unknown (zero) latency comes last. */
  predicate Better(s: Score, other: Score) {
    if Valid(s) != Valid(other) then Valid(s)
    else if s.passed != other.passed then s.passed > other.passed
    else if s.blocked != other.blocked then s.blocked < other.blocked
    else if s.latency != other.latency then s.latency != 0 && (other.latency == 0 || s.latency < other.latency)
    else false
  }

  /** Better is a strict weak order: candidates fall into ranked classes of ties. */
  lemma BetterIsStrictWeakOrder(a: Score, b: Score, c: Score)
    ensures !Better(a, a)
    ensures Better(a, b) ==> !Better(b, a)
    ensures Better(a, b) && Better(b, c) ==> Better(a, c)
    ensures Better(a, c) ==> Better(a, b) || Better(b, c)
  {
  }

  /** What a result list counts up to. */
  function Counted(rs: seq<ProbeResult>): (s: Score)
    ensures s.passed + s.blocked <= s.targets && s.targets + s.controlTotal == |rs| && s.controlPassed <= s.controlTotal
  {
    if |rs| == 0 then Score(0, 0, 0, 0, 0, 0)
    else
      var s, r := Counted(rs[..|rs| - 1]), rs[|rs| - 1];
      if r.control then s.(controlTotal := s.controlTotal + 1, controlPassed := s.controlPassed + if r.ok then 1 else 0)
      else s.(targets := s.targets + 1, passed := s.passed + (if r.ok then 1 else 0),
              blocked := s.blocked + if !r.ok && r.signature then 1 else 0)
  }

  /** The latencies of the target probes that passed. */
  function Latencies(rs: seq<ProbeResult>): seq<int> {
    if |rs| == 0 then []
    else
      var front, r := Latencies(rs[..|rs| - 1]), rs[|rs| - 1];
      if r.control || !r.ok then front
      else if r.firstByte > 0 then front + [r.firstByte]
      else if r.tlsTime > 0 then front + [r.tlsTime]
      else front
  }

  function Scored(rs: seq<ProbeResult>, median: seq<int> -> int): Score { Counted(rs).(latency := median(Latencies(rs))) }

  method ScoreResults(rs: seq<ProbeResult>, median: seq<int> -> int) returns (s: Score)
    ensures s == Scored(rs, median)
  {
    s := Score(0, 0, 0, 0, 0, 0);
    var ttfb: seq<int> := [];
    for i := 0 to |rs|
      invariant s == Counted(rs[..i]) && ttfb == Latencies(rs[..i])
    {
      var r := rs[i];
      assert rs[..i + 1][..i] == rs[..i];
      if r.control {
        s := s.(controlTotal := s.controlTotal + 1);
        if r.ok {
          s := s.(controlPassed := s.controlPassed + 1);
        }
        continue;
      }
      s := s.(targets := s.targets + 1);
      if r.ok {
        s := s.(passed := s.passed + 1);
        if r.firstByte > 0 {
          ttfb := ttfb + [r.firstByte];
        } else if r.tlsTime > 0 {
          ttfb := ttfb + [r.tlsTime];
        }
      } else if r.signature {
        s := s.(blocked := s.blocked + 1);
      }
    }
    assert rs[..|rs|] == rs;
    s := s.(latency := median(ttfb));
  }

  // ---------- the sweep's inputs ----------

  datatype Strategy = Strategy(name: string, supported: bool)

  /** `controls` says of each probe whether it is a control probe; `readable` whether
      the daemon names its active strategy. */
  datatype Opts = Opts(
    candidates: seq<Strategy>, controls: seq<bool>, rounds: nat, skipUnsupported: bool, noEarlyStop: bool, readable: bool,
    median: seq<int> -> int)

  /** What the outside world does while one candidate is tried. A round is None when
      the probes could not run. */
  datatype Trial = Trial(
    cancelled: bool, activates: bool, settles: bool, rounds: seq<Option<seq<ProbeResult>>>, reactivates: bool, recovers: bool)

  predicate SameFlags(a: seq<ProbeResult>, flags: seq<bool>) {
    |a| == |flags| && forall i :: 0 <= i < |a| ==> a[i].control == flags[i]
  }

  /** One result for every probe, in every round that ran. */
  predicate WellRun(o: Opts, t: Trial) {
    |t.rounds| == o.rounds && forall r :: 0 <= r < o.rounds && t.rounds[r].Some? ==> SameFlags(t.rounds[r].value, o.controls)
  }

  predicate AllRan(rounds: seq<Option<seq<ProbeResult>>>) { forall r :: 0 <= r < |rounds| ==> rounds[r].Some? }

  /** All rounds' results in order. */
  function Flat(rounds: seq<Option<seq<ProbeResult>>>): seq<ProbeResult> {
    if |rounds| == 0 then []
    else
      var last := rounds[|rounds| - 1];
      Flat(rounds[..|rounds| - 1]) + if last.Some? then last.value else []
  }

  predicate Steady(rounds: seq<Option<seq<ProbeResult>>>) {
    forall r :: 0 <= r < |rounds| && rounds[r].Some? ==> Valid(Counted(rounds[r].value))
  }

  function TrialScore(o: Opts, t: Trial): Score {
    var s := Scored(Flat(t.rounds), o.median);
    if Steady(t.rounds) then s else s.(controlPassed := 0)
  }

  /** A row of the table. */
  datatype Row = Untried | Skipped | Excluded(breaksTraffic: bool) | Measured(score: Score)

  predicate PassedOver(o: Opts, i: nat)
    requires i < |o.candidates|
  {
    !o.candidates[i].supported && o.skipUnsupported
  }

  /** The row of a candidate the sweep got to. */
  function RowOf(o: Opts, i: nat, t: Trial, original: string): Row
    requires i < |o.candidates|
  {
    if PassedOver(o, i) || t.cancelled || !t.activates || !t.settles || !AllRan(t.rounds) then Skipped
    else if Valid(TrialScore(o, t)) then Measured(TrialScore(o, t))
    else Excluded(original != "" && original != o.candidates[i].name && t.reactivates && t.recovers)
  }

  // ---------- the daemon ----------

  class Client {
    var active: string

    constructor (name: string)
      ensures active == name
    {
      active := name;
    }

    /** A call that fails leaves the running strategy alone. */
    method Activate(name: string, works: bool) returns (ok: bool)
      modifies this
      ensures ok == works && active == if works then name else old(active)
    {
      if works {
        active := name;
      }
      ok := works;
    }
  }

  // ---------- the sweep ----------

  /** `best` is the winner's index; `activated` is "" until something was activated. */
  datatype Report = Report(
    best: Option<nat>, rows: seq<Row>, original: string, restored: bool, activated: string,
    stoppedEarly: bool, aborted: bool)

  /** The report names what is running: the original until something was activated. */
  predicate Truthful(active: string, initial: string, activated: string) {
    active == if activated == "" then initial else activated
  }

  /** Rows follow the trials; rows from `upto` on are still untried. */
  predicate RowsUpTo(o: Opts, trials: seq<Trial>, original: string, rows: seq<Row>, upto: int)
    requires |trials| == |o.candidates|
  {
    && |rows| == |trials| && 0 <= upto <= |trials|
    && forall i :: 0 <= i < |trials| ==> rows[i] == if i < upto then RowOf(o, i, trials[i], original) else Untried
  }

  /** b is the first best of the measured rows: none beats it, and it beats every
      earlier one. */
  predicate IsBest(rows: seq<Row>, b: nat) {
    && b < |rows| && rows[b].Measured?
    && (forall j :: 0 <= j < |rows| && rows[j].Measured? ==> !Better(rows[j].score, rows[b].score))
    && (forall j :: 0 <= j < b && rows[j].Measured? ==> Better(rows[b].score, rows[j].score))
  }

  predicate BestOf(rows: seq<Row>, best: Option<nat>) {
    match best
    case None => forall j :: 0 <= j < |rows| ==> !rows[j].Measured?
    case Some(b) => IsBest(rows, b)
  }

  predicate AllValid(rows: seq<Row>) { forall j :: 0 <= j < |rows| && rows[j].Measured? ==> Valid(rows[j].score) }

  /** The winner is reported only when it passed a target probe. */
  function Announced(rows: seq<Row>, best: Option<nat>): (r: Option<nat>)
    requires BestOf(rows, best) && AllValid(rows)
    ensures r.Some? ==> IsBest(rows, r.value) && rows[r.value].score.passed > 0
    ensures r.None? ==> forall j :: 0 <= j < |rows| && rows[j].Measured? ==> rows[j].score.passed == 0
  {
    if best.Some? && rows[best.value].score.passed > 0 then best else None
  }

  lemma NextBest(rows: seq<Row>, best: Option<nat>, i: nat, score: Score)
    requires i < |rows| && (forall j :: i <= j < |rows| ==> rows[j] == Untried) && BestOf(rows, best)
    ensures best.None? || Better(score, rows[best.value].score) ==> BestOf(rows[i := Measured(score)], Some(i))
    ensures best.Some? && !Better(score, rows[best.value].score) ==> BestOf(rows[i := Measured(score)], best)
  {
    var now := rows[i := Measured(score)];
    forall j | 0 <= j < |rows| && rows[j].Measured? && best.Some?
      ensures Better(score, rows[best.value].score) ==> !Better(rows[j].score, score) && Better(score, rows[j].score)
    {
      BetterIsStrictWeakOrder(rows[j].score, score, rows[best.value].score);
      BetterIsStrictWeakOrder(score, rows[j].score, rows[best.value].score);
    }
    BetterIsStrictWeakOrder(score, score, score);
  }

  method Restore(client: Client, original: string, activated: string, restored: bool, works: bool, ghost initial: string)
    returns (activated': string, restored': bool)
    requires Truthful(client.active, initial, activated) && (original == "" || original == initial)
    modifies client
    ensures Truthful(client.active, initial, activated')
    ensures original != "" && works ==> client.active == original
    ensures original == "" ==> activated' == activated
  {
    activated', restored' := activated, restored;
    if original == "" || original == activated {
      return;
    }
    var ok := client.Activate(original, works);
    if ok {
      restored', activated' := true, original;
    }
  }

  lemma RoundStep(rounds: seq<Option<seq<ProbeResult>>>, r: nat)
    requires r < |rounds| && rounds[r].Some?
    ensures Flat(rounds[..r + 1]) == Flat(rounds[..r]) + rounds[r].value
    ensures AllRan(rounds[..r + 1]) <==> AllRan(rounds[..r])
    ensures Steady(rounds[..r + 1]) <==> Steady(rounds[..r]) && Valid(Counted(rounds[r].value))
  {
    var now, was := rounds[..r + 1], rounds[..r];
    assert now[..r] == was;
    assert forall i :: 0 <= i < r ==> now[i] == was[i];
    assert now[r] == rounds[r];
  }

  /** Runs the probe rounds, stopping at one that cannot run. */
  method RunRounds(o: Opts, t: Trial) returns (results: seq<ProbeResult>, ran: bool, steady: bool)
    ensures ran <==> AllRan(t.rounds)
    ensures ran ==> results == Flat(t.rounds) && (steady <==> Steady(t.rounds))
  {
    results, steady := [], true;
    for r := 0 to |t.rounds|
      invariant AllRan(t.rounds[..r]) && results == Flat(t.rounds[..r]) && (steady <==> Steady(t.rounds[..r]))
    {
      if t.rounds[r].None? {
        return results, false, steady;
      }
      RoundStep(t.rounds, r);
      results := results + t.rounds[r].value;
      var s := ScoreResults(t.rounds[r].value, o.median);
      if !Valid(s) {
        steady := false;
      }
    }
    assert t.rounds[..|t.rounds|] == t.rounds;
    ran := true;
  }

  method Measure(o: Opts, t: Trial) returns (s: Score, ran: bool)
    ensures ran <==> AllRan(t.rounds)
    ensures ran ==> s == TrialScore(o, t)
  {
    var results, steady;
    results, ran, steady := RunRounds(o, t);
    s := ScoreResults(results, o.median);
    if !steady {
      s := s.(controlPassed := 0);
    }
  }

  /** The candidate ends the sweep: cancelled before it, while it settled or while
      it was probed. */
  predicate Aborts(o: Opts, i: nat, t: Trial)
    requires i < |o.candidates|
  {
    t.cancelled || (!PassedOver(o, i) && t.activates && (!t.settles || !AllRan(t.rounds)))
  }

  // ---------- measurements are comparable ----------

  lemma {:induction false} FlatFlags(a: seq<Option<seq<ProbeResult>>>, b: seq<Option<seq<ProbeResult>>>, flags: seq<bool>)
    requires |a| == |b| && AllRan(a) && AllRan(b)
    requires forall r :: 0 <= r < |a| ==> SameFlags(a[r].value, flags) && SameFlags(b[r].value, flags)
    ensures |Flat(a)| == |Flat(b)| && forall i :: 0 <= i < |Flat(a)| ==> Flat(a)[i].control == Flat(b)[i].control
  {
    if |a| > 0 { FlatFlags(a[..|a| - 1], b[..|b| - 1], flags); }
  }

  lemma {:induction false} TargetsByFlags(a: seq<ProbeResult>, b: seq<ProbeResult>)
    requires |a| == |b| && forall i :: 0 <= i < |a| ==> a[i].control == b[i].control
    ensures Counted(a).targets == Counted(b).targets
  {
    if |a| > 0 { TargetsByFlags(a[..|a| - 1], b[..|b| - 1]); }
  }

  /** Every candidate that is measured is measured against the same targets. */
  lemma SameTargets(o: Opts, a: Trial, b: Trial)
    requires WellRun(o, a) && WellRun(o, b) && AllRan(a.rounds) && AllRan(b.rounds)
    ensures TrialScore(o, a).targets == TrialScore(o, b).targets
    ensures TrialScore(o, a).passed <= TrialScore(o, a).targets
  {
    FlatFlags(a.rounds, b.rounds, o.controls);
    TargetsByFlags(Flat(a.rounds), Flat(b.rounds));
  }

  predicate NoPerfect(rows: seq<Row>) { forall j :: 0 <= j < |rows| && rows[j].Measured? ==> !Perfect(rows[j].score) }

  /** A perfect score beats every measured row before it, when none was perfect. */
  lemma PerfectIsBest(o: Opts, trials: seq<Trial>, original: string, rows: seq<Row>, i: nat, score: Score)
    requires |trials| == |o.candidates| && i < |trials| && RowsUpTo(o, trials, original, rows, i)
    requires forall k :: 0 <= k < |trials| ==> WellRun(o, trials[k])
    requires RowOf(o, i, trials[i], original) == Measured(score) && Perfect(score) && NoPerfect(rows)
    ensures forall j :: 0 <= j < |rows| && rows[j].Measured? ==> Better(score, rows[j].score)
  {
    forall j | 0 <= j < |rows| && rows[j].Measured? ensures Better(score, rows[j].score) {
      assert rows[j] == RowOf(o, j, trials[j], original);
      SameTargets(o, trials[j], trials[i]);
    }
  }

  /** One candidate: activate, settle, measure; a measurement without controls is
      checked again under the original strategy. Cut short, the original is restored. */
  method Try(client: Client, o: Opts, i: nat, t: Trial, original: string, activated: string, restored: bool, restoreWorks: bool,
             ghost initial: string)
    returns (row: Row, aborted: bool, activated': string, restored': bool)
    requires i < |o.candidates| && o.candidates[i].name != ""
    requires Truthful(client.active, initial, activated) && (original == "" || original == initial)
    modifies client
    ensures Truthful(client.active, initial, activated')
    ensures row == RowOf(o, i, t, original) && (aborted <==> Aborts(o, i, t))
    ensures aborted && original != "" ==> client.active == original || !restoreWorks
  {
    row, aborted, activated', restored' := Skipped, false, activated, restored;
    if t.cancelled {
      aborted := true;
      activated', restored' := Restore(client, original, activated', restored', restoreWorks, initial);
      return;
    }
    if PassedOver(o, i) {
      return;
    }
    var ok := client.Activate(o.candidates[i].name, t.activates);
    if !ok {
      return;
    }
    activated' := o.candidates[i].name;
    if !t.settles {
      aborted := true;
      activated', restored' := Restore(client, original, activated', restored', restoreWorks, initial);
      return;
    }
    var score, ran := Measure(o, t);
    if !ran {
      aborted := true;
      activated', restored' := Restore(client, original, activated', restored', restoreWorks, initial);
      return;
    }
    if !Valid(score) {
      row := Excluded(false);
      if original != "" && original != o.candidates[i].name {
        var back := client.Activate(original, t.reactivates);
        if back {
          activated', restored', row := original, true, Excluded(t.recovers);
        }
      }
      return;
    }
    row := Measured(score);
  }

  /** The last word: the winner if there is one, the original otherwise. */
  method Conclude(client: Client, o: Opts, winner: Option<nat>, original: string, activated: string, restored: bool,
                  restoreWorks: bool, winnerWorks: bool, ghost initial: string)
    returns (activated': string, restored': bool)
    requires winner.Some? ==> winner.value < |o.candidates| && o.candidates[winner.value].name != ""
    requires Truthful(client.active, initial, activated) && (original == "" || original == initial)
    modifies client
    ensures Truthful(client.active, initial, activated')
    ensures winner.Some? ==> client.active == o.candidates[winner.value].name || !winnerWorks
    ensures winner.None? && original != "" ==> client.active == original || !restoreWorks
  {
    activated', restored' := activated, restored;
    if winner.None? {
      activated', restored' := Restore(client, original, activated, restored, restoreWorks, initial);
    } else if activated != o.candidates[winner.value].name {
      var ok := client.Activate(o.candidates[winner.value].name, winnerWorks);
      if ok {
        activated' := o.candidates[winner.value].name;
      }
    }
  }

  // ---------- the whole sweep ----------

  /** The table while the sweep goes on: rows 0..upto are filled in. */
  predicate Going(o: Opts, trials: seq<Trial>, original: string, rows: seq<Row>, best: Option<nat>, upto: int)
    requires |trials| == |o.candidates|
  {
    && RowsUpTo(o, trials, original, rows, upto) && BestOf(rows, best) && AllValid(rows)
    && (forall k :: 0 <= k < upto ==> !Aborts(o, k, trials[k]))
    && (o.noEarlyStop || NoPerfect(rows))
  }

  /** The table when the sweep ended: cut short exactly where a trial aborts, stopped
      early exactly at the first perfect score, complete otherwise. */
  predicate Ended(o: Opts, trials: seq<Trial>, original: string, rows: seq<Row>, best: Option<nat>, early: bool, aborted: bool, upto: int)
    requires |trials| == |o.candidates|
  {
    && RowsUpTo(o, trials, original, rows, upto) && BestOf(rows, best) && AllValid(rows)
    && (forall k :: 0 <= k < (if aborted then upto - 1 else upto) ==> !Aborts(o, k, trials[k]))
    && (aborted ==> upto > 0 && Aborts(o, upto - 1, trials[upto - 1]))
    && (early ==> !aborted && !o.noEarlyStop && upto > 0 && best == Some(upto - 1) && Perfect(rows[upto - 1].score))
    && (!early && !aborted ==> upto == |trials| && (o.noEarlyStop || NoPerfect(rows)))
  }

  /** The table one candidate further on. */
  lemma NextRow(o: Opts, trials: seq<Trial>, original: string, rows: seq<Row>, best: Option<nat>, i: int)
    requires |trials| == |o.candidates| && 0 <= i < |trials| && Going(o, trials, original, rows, best, i)
    ensures var row := RowOf(o, i, trials[i], original); var now := rows[i := row];
      && RowsUpTo(o, trials, original, now, i + 1) && AllValid(now)
      && (!row.Measured? ==> BestOf(now, best))
      && (row.Measured? && (best.None? || Better(row.score, rows[best.value].score)) ==> BestOf(now, Some(i)))
      && (row.Measured? && best.Some? && !Better(row.score, rows[best.value].score) ==> BestOf(now, best))
  {
    var row := RowOf(o, i, trials[i], original);
    var now := rows[i := row];
    assert RowsUpTo(o, trials, original, now, i + 1);
    assert AllValid(now);
    if row.Measured? {
      NextBest(rows, best, i, row.score);
    } else if best.Some? {
      assert forall j :: 0 <= j < |now| && now[j].Measured? ==> rows[j] == now[j];
    }
  }

  lemma StillGoing(o: Opts, trials: seq<Trial>, original: string, rows: seq<Row>, now: seq<Row>, best: Option<nat>, i: int)
    requires |trials| == |o.candidates| && 0 <= i < |trials| && |rows| == |trials|
    requires (forall k :: 0 <= k < i ==> !Aborts(o, k, trials[k])) && !Aborts(o, i, trials[i])
    requires |now| == |rows| && (o.noEarlyStop || (NoPerfect(rows) && !(now[i].Measured? && Perfect(now[i].score))))
    requires RowsUpTo(o, trials, original, now, i + 1) && AllValid(now) && BestOf(now, best)
    requires forall j :: 0 <= j < |rows| && j != i ==> now[j] == rows[j]
    ensures Going(o, trials, original, now, best, i + 1)
  {
  }

  /** The sweep proper. */
  method TryAll(client: Client, o: Opts, trials: seq<Trial>, original: string, restoreWorks: bool, ghost initial: string)
    returns (rows: seq<Row>, best: Option<nat>, early: bool, aborted: bool, activated: string, restored: bool, ghost upto: nat)
    requires |trials| == |o.candidates| && forall i :: 0 <= i < |trials| ==> WellRun(o, trials[i])
    requires forall i :: 0 <= i < |o.candidates| ==> o.candidates[i].name != ""
    requires client.active == initial && (original == "" || original == initial)
    modifies client
    ensures Truthful(client.active, initial, activated)
    ensures aborted && original != "" ==> client.active == original || !restoreWorks
    ensures Ended(o, trials, original, rows, best, early, aborted, upto)
  {
    activated, restored, best, early, aborted, upto := "", false, None, false, false, 0;
    rows := seq(|trials|, _ => Untried);
    for i := 0 to |trials|
      invariant Truthful(client.active, initial, activated)
      invariant upto == i && !early && !aborted && Going(o, trials, original, rows, best, i)
    {
      var row;
      row, aborted, activated, restored := Try(client, o, i, trials[i], original, activated, restored, restoreWorks, initial);
      upto := i + 1;
      ghost var was := rows;
      NextRow(o, trials, original, rows, best, i);
      rows := rows[i := row];
      if aborted {
        return;
      }
      if row.Measured? && (best.None? || Better(row.score, rows[best.value].score)) {
        best := Some(i);
      }
      if row.Measured? && Perfect(row.score) && !o.noEarlyStop {
        PerfectIsBest(o, trials, original, was, i, row.score);
        early := true;
        return;
      }
      StillGoing(o, trials, original, was, rows, best, i);
    }
  }

  /** The table a sweep reports: every row follows its trial; the winner is the first
      best and passed something, and none is reported only if nothing passed; the sweep
      was cut short exactly where a trial aborts, and stopped early only at a perfect
      winner. */
  predicate TableRight(o: Opts, trials: seq<Trial>, res: Report, upto: int)
    requires |trials| == |o.candidates|
  {
    && RowsUpTo(o, trials, res.original, res.rows, upto)
    && (match res.best
        case Some(b) => IsBest(res.rows, b) && res.rows[b].score.passed > 0
        case None => forall j :: 0 <= j < |res.rows| && res.rows[j].Measured? ==> res.rows[j].score.passed == 0)
    && (forall k :: 0 <= k < (if res.aborted then upto - 1 else upto) ==> !Aborts(o, k, trials[k]))
    && (res.aborted ==> upto > 0 && Aborts(o, upto - 1, trials[upto - 1]))
    && (res.stoppedEarly ==> !o.noEarlyStop && res.best.Some? && res.best.value == upto - 1 && Perfect(res.rows[upto - 1].score))
    && (!res.stoppedEarly && !res.aborted ==> upto == |trials| && (o.noEarlyStop || NoPerfect(res.rows)))
  }

  /** Main result: on every exit, whatever the daemon, the probes and cancellation do,
      the report names the strategy that is running; it is the winner when one is
      reported, the original when the sweep was cut short or nothing passed, and
      anything else only because that last activation failed. */
  method Sweep(client: Client, o: Opts, trials: seq<Trial>, restoreWorks: bool, winnerWorks: bool)
    returns (res: Report, ghost upto: nat)
    requires |trials| == |o.candidates| && forall i :: 0 <= i < |trials| ==> WellRun(o, trials[i])
    requires forall i :: 0 <= i < |o.candidates| ==> o.candidates[i].name != ""
    modifies client
    ensures res.original == if o.readable then old(client.active) else ""
    ensures Truthful(client.active, old(client.active), res.activated)
    ensures !res.aborted && res.best.Some? ==>
              res.best.value < |o.candidates| && (client.active == o.candidates[res.best.value].name || !winnerWorks)
    ensures (res.aborted || res.best.None?) && res.original != "" ==> client.active == res.original || !restoreWorks
    ensures TableRight(o, trials, res, upto)
  {
    ghost var initial := client.active;
    var original := if o.readable then client.active else "";
    var rows, best, early, aborted, activated, restored;
    rows, best, early, aborted, activated, restored, upto := TryAll(client, o, trials, original, restoreWorks, initial);
    var winner := Announced(rows, best);
    if !aborted {
      activated, restored := Conclude(client, o, winner, original, activated, restored, restoreWorks, winnerWorks, initial);
    }
    res := Report(winner, rows, original, restored, activated, early, aborted);
  }
}
