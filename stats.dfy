/** Outcome counts and rates behind each pitch map.

    The take-on, pass, progressive-pass, forward-pass, aerial and tackle maps
    split their table into Successful and Unsuccessful rows, count each part
    and show a success rate. The clearance, recovery and interception maps
    count only the Successful rows, and the received-pass map shows only its
    table's length. A percentage is part / whole * 100, and 0 when the whole
    is 0 (the dashboard catches the division by zero). Rates are exact reals
    here; the dashboard rounds them to two decimals for display. */
module Stats {
  import opened Events
  import opened Tables

  const Successful: string := "Successful"
  const Unsuccessful: string := "Unsuccessful"
  const PenaltyShootout: string := "PenaltyShootout"
  /** Shots are only counted from the attacking half. */
  const ShotMinX: real := 50.0

  /** part / whole * 100, or 0 when whole is 0. */
  function Percent(part: nat, whole: nat): (r: real)
    ensures whole == 0 ==> r == 0.0
    ensures whole > 0 ==> r * (whole as real) == 100.0 * (part as real)
    ensures part <= whole ==> 0.0 <= r <= 100.0
  {
    if whole == 0 then 0.0 else (part as real) / (whole as real) * 100.0
  }

  /** The success rate of a split with `success` successes and `fail`
      failures: in [0, 100]; 0 exactly when nothing succeeded; 100 exactly
      when something succeeded and nothing failed. */
  function SuccessRate(success: nat, fail: nat): (r: real)
    ensures 0.0 <= r <= 100.0
    ensures success + fail == 0 ==> r == 0.0
    ensures success + fail > 0 ==> r * ((success + fail) as real) == 100.0 * (success as real)
    ensures r == 0.0 <==> success == 0
    ensures r == 100.0 <==> success > 0 && fail == 0
  {
    PercentExtremes(success, success + fail);
    Percent(success, success + fail)
  }

  lemma PercentExtremes(part: nat, whole: nat)
    requires part <= whole
    ensures Percent(part, whole) == 0.0 <==> part == 0 || whole == 0
    ensures Percent(part, whole) == 100.0 <==> 0 < part == whole
  {
    if whole == 0 {
      return;
    }
    var r, w := Percent(part, whole), whole as real;
    assert r * w == 100.0 * (part as real);
    if r == 100.0 {
      assert 100.0 * w == 100.0 * (part as real);
    }
    if part == whole {
      assert (r - 100.0) * w == 0.0;
    }
    if r == 0.0 {
      assert 0.0 * w == 0.0;
    }
  }

  /** More successes out of the same number of attempts never lower a rate. */
  lemma PercentMonotone(p1: nat, p2: nat, whole: nat)
    requires p1 <= p2
    ensures Percent(p1, whole) <= Percent(p2, whole)
  {
    if whole > 0 {
      var w, q := whole as real, ((p2 - p1) as real) / (whole as real);
      assert q >= 0.0;
      assert Percent(p2, whole) - Percent(p1, whole) == q * 100.0;
    }
  }

  /** A table split into its successful and its unsuccessful rows, with the
      success rate shown on the map. */
  datatype OutcomeSummary = OutcomeSummary(successes: seq<Event>, failures: seq<Event>, rate: real)

  function Summarize(table: seq<Event>): (r: OutcomeSummary)
    ensures forall e :: e in r.successes <==> e in table && e.outcome == Some(Successful)
    ensures forall e :: e in r.failures <==> e in table && e.outcome == Some(Unsuccessful)
    ensures IsSubsequence(r.successes, table) && IsSubsequence(r.failures, table)
    ensures |r.successes| + |r.failures| <= |table|
    ensures r.rate == SuccessRate(|r.successes|, |r.failures|)
    ensures 0.0 <= r.rate <= 100.0
  {
    var s := Select(table, OutcomeIs(Successful));
    var f := Select(table, OutcomeIs(Unsuccessful));
    OutcomeCountsBounded(table, Successful, Unsuccessful);
    SelectIsSubsequence(table, OutcomeIs(Successful));
    SelectIsSubsequence(table, OutcomeIs(Unsuccessful));
    OutcomeSummary(s, f, SuccessRate(|s|, |f|))
  }

  /** Each Successful row is counted among the successes as often as it
      occurs in the table, and likewise each Unsuccessful row among the
      failures; no other row is counted. */
  lemma SummarizeCounts(table: seq<Event>, e: Event)
    ensures multiset(Summarize(table).successes)[e] == if e.outcome == Some(Successful) then multiset(table)[e] else 0
    ensures multiset(Summarize(table).failures)[e] == if e.outcome == Some(Unsuccessful) then multiset(table)[e] else 0
  {
    SelectCounts(table, OutcomeIs(Successful), e);
    SelectCounts(table, OutcomeIs(Unsuccessful), e);
  }

  /** The shot map's numbers: goals, saved and missed shots among the
      player's events outside the penalty shootout and in the attacking half,
      their total, and the conversion rate goals / total * 100. */
  datatype ShotSummary = ShotSummary(goals: seq<Event>, saved: seq<Event>, missed: seq<Event>, total: nat, conversion: real)

  predicate CountsAsShotOf(e: Event, typeName: string, playerEvents: seq<Event>)
  {
    e in playerEvents && e.period != Some(PenaltyShootout) && e.x >= ShotMinX && e.typeName == typeName
  }

  /** The player's events the shot map looks at: outside the penalty
      shootout and in the attacking half. */
  function ShotCandidates(playerEvents: seq<Event>): (r: seq<Event>)
    ensures forall e :: e in r <==> e in playerEvents && e.period != Some(PenaltyShootout) && e.x >= ShotMinX
  {
    var m := And(PeriodIsNot(PenaltyShootout), XAtLeast(ShotMinX));
    assert forall e :: Holds(m, e) <==> e.period != Some(PenaltyShootout) && e.x >= ShotMinX;
    Select(playerEvents, m)
  }

  function ShotMap(playerEvents: seq<Event>): (r: ShotSummary)
    ensures forall e :: e in r.goals <==> CountsAsShotOf(e, "Goal", playerEvents)
    ensures forall e :: e in r.saved <==> CountsAsShotOf(e, "SavedShot", playerEvents)
    ensures forall e :: e in r.missed <==> CountsAsShotOf(e, "MissedShots", playerEvents)
    ensures r.total == |r.goals| + |r.saved| + |r.missed|
    ensures r.total <= |playerEvents|
    ensures 0.0 <= r.conversion <= 100.0
    ensures r.total == 0 ==> r.conversion == 0.0
    ensures r.conversion == Percent(|r.goals|, r.total)
  {
    var shots := ShotCandidates(playerEvents);
    var goals := Select(shots, TypeIs("Goal"));
    var saved := Select(shots, TypeIs("SavedShot"));
    var missed := Select(shots, TypeIs("MissedShots"));
    TypeCountsBounded(shots, "Goal", "SavedShot", "MissedShots");
    var total := |goals| + |saved| + |missed|;
    ShotSummary(goals, saved, missed, total, Percent(|goals|, total))
  }

  /** Each eligible goal, saved shot and missed shot is counted as often as
      it occurs among the player's events; no other row is counted. */
  lemma ShotMapCounts(playerEvents: seq<Event>, e: Event)
    ensures var eligible := e.period != Some(PenaltyShootout) && e.x >= ShotMinX;
      && multiset(ShotMap(playerEvents).goals)[e] == (if eligible && e.typeName == "Goal" then multiset(playerEvents)[e] else 0)
      && multiset(ShotMap(playerEvents).saved)[e] == (if eligible && e.typeName == "SavedShot" then multiset(playerEvents)[e] else 0)
      && multiset(ShotMap(playerEvents).missed)[e] == (if eligible && e.typeName == "MissedShots" then multiset(playerEvents)[e] else 0)
  {
    var m := And(PeriodIsNot(PenaltyShootout), XAtLeast(ShotMinX));
    SelectCounts(playerEvents, m, e);
    var shots := ShotCandidates(playerEvents);
    SelectCounts(shots, TypeIs("Goal"), e);
    SelectCounts(shots, TypeIs("SavedShot"), e);
    SelectCounts(shots, TypeIs("MissedShots"), e);
  }

  /** Everything the dashboard counts for one player of one season. The
      clearance, recovery and interception maps show only their successful
      rows, so only those counts are kept. */
  datatype Report = Report(
    shots: ShotSummary,
    takeOns: OutcomeSummary,
    passes: OutcomeSummary,
    progressivePasses: OutcomeSummary,
    forwardPasses: OutcomeSummary,
    aerials: OutcomeSummary,
    tackles: OutcomeSummary,
    clearances: nat,
    recoveries: nat,
    interceptions: nat,
    received: nat)

  /** Every percentage shown lies in [0, 100], and the progressive and
      forward passes are drawn from the player's passes, so each of their
      outcome counts is at most the matching pass count. */
  function PlayerReport(all: seq<Event>, player: string): (r: Report)
    ensures 0.0 <= r.shots.conversion <= 100.0
    ensures && 0.0 <= r.takeOns.rate <= 100.0 && 0.0 <= r.passes.rate <= 100.0
            && 0.0 <= r.progressivePasses.rate <= 100.0 && 0.0 <= r.forwardPasses.rate <= 100.0
            && 0.0 <= r.aerials.rate <= 100.0 && 0.0 <= r.tackles.rate <= 100.0
    ensures && |r.progressivePasses.successes| <= |r.passes.successes|
            && |r.progressivePasses.failures| <= |r.passes.failures|
            && |r.forwardPasses.successes| <= |r.passes.successes|
            && |r.forwardPasses.failures| <= |r.passes.failures|
  {
    var passing := KindEvents(all, player, Pass);
    NarrowedSplitBounded(passing, Progressive);
    NarrowedSplitBounded(passing, EndXBeyond(1.0));
    Report(
      ShotMap(PlayerEvents(all, player)),
      Summarize(KindEvents(all, player, TakeOn)),
      Summarize(passing),
      Summarize(ProgressivePasses(passing)),
      Summarize(ForwardPasses(passing)),
      Summarize(KindEvents(all, player, Aerial)),
      Summarize(KindEvents(all, player, Tackle)),
      |Summarize(KindEvents(all, player, Clearance)).successes|,
      |Summarize(KindEvents(all, player, BallRecovery)).successes|,
      |Summarize(KindEvents(all, player, Interception)).successes|,
      |ReceivedPasses(all, player)|)
  }

  /** The outcome split of a narrowed table has no more successes and no
      more failures than the split of the whole table. */
  lemma NarrowedSplitBounded(table: seq<Event>, m: Mask)
    ensures |Summarize(Select(table, m)).successes| <= |Summarize(table).successes|
    ensures |Summarize(Select(table, m)).failures| <= |Summarize(table).failures|
  {
    SelectNarrowed(table, m, OutcomeIs(Successful));
    SelectNarrowed(table, m, OutcomeIs(Unsuccessful));
  }

  /** A player with no events in the table gets empty maps: every count is
      0 and so is every rate (the received-pass count depends on recipients
      only and is not covered). */
  lemma NoEventsNoCounts(all: seq<Event>, player: string)
    requires forall e :: e in all ==> e.playerName != Some(player)
    ensures var r := PlayerReport(all, player);
      && r.shots.total == 0 && r.shots.conversion == 0.0
      && r.clearances == 0 && r.recoveries == 0 && r.interceptions == 0
      && |r.passes.successes| + |r.passes.failures| == 0 && r.passes.rate == 0.0
      && |r.progressivePasses.successes| + |r.progressivePasses.failures| == 0 && r.progressivePasses.rate == 0.0
      && |r.forwardPasses.successes| + |r.forwardPasses.failures| == 0 && r.forwardPasses.rate == 0.0
      && |r.takeOns.successes| + |r.takeOns.failures| == 0 && r.takeOns.rate == 0.0
      && |r.aerials.successes| + |r.aerials.failures| == 0 && r.aerials.rate == 0.0
      && |r.tackles.successes| + |r.tackles.failures| == 0 && r.tackles.rate == 0.0
  {
    SelectNone(all, PlayerIs(player));
    forall k: Kind ensures KindEvents(all, player, k) == [] {
      SelectNone(all, And(PlayerIs(player), TypeIs(TypeName(k))));
    }
  }
}
