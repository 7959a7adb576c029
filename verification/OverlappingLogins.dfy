/** Why the bound on password guesses is one about serial runs: login takes no row lock, so wrong attempts
    that have loaded the same counter count as one (src/auth/service.py). */
module OverlappingLogins {
  import opened Prelude
  import opened Accounts
  import opened Operations
  import opened LockoutTheorems

  /** A wrong attempt that decides on the counter it loaded, and commits to the row of now. */
  function LateFailure(row: Lockout, loaded: Lockout, now: Time): Lockout {
    var counted := Failure(loaded, now);
    Lockout(Flushed(row.failed, loaded.failed, counted.failed),
            Flushed(row.lockedUntil, loaded.lockedUntil, counted.lockedUntil))
  }

  // With nothing in between, that is the failure of the serial model.
  lemma UndisturbedIsFailure(lockout: Lockout, now: Time)
    ensures LateFailure(lockout, lockout, now) == Failure(lockout, now)
  {
  }

  /** An attempt that loaded its counter before others were counted takes the counter back. */
  lemma StaleAttemptForgetsOthers(row: Lockout, loaded: Lockout, now: Time)
    ensures LateFailure(row, loaded, now).failed == loaded.failed + 1
  {
  }

  // Attempts that have all loaded the same counter commit at these moments.
  function LateFailures(row: Lockout, loaded: Lockout, commits: seq<Time>): Lockout
    decreases |commits|
  {
    if commits == [] then row else LateFailures(LateFailure(row, loaded, commits[0]), loaded, commits[1..])
  }

  lemma {:induction false} LateFailuresCountOnce(row: Lockout, loaded: Lockout, commits: seq<Time>)
    requires commits != [] && (row == loaded || exists before :: row == Failure(loaded, before))
    requires forall t | t in commits :: MayGuess(loaded, t)
    ensures LateFailures(row, loaded, commits) == Failure(loaded, commits[|commits| - 1])
    decreases |commits|
  {
    assert commits[0] in commits;
    var row1 := LateFailure(row, loaded, commits[0]);
    assert row1 == Failure(loaded, commits[0]);
    if |commits| == 1 {
      assert commits[1..] == [];
    } else {
      LateFailuresCountOnce(row1, loaded, commits[1..]);
    }
  }

  /** However many wrong attempts overlap, they are counted as one: the last to commit. */
  lemma OverlappingGuessesCountOnce(loaded: Lockout, commits: seq<Time>)
    requires commits != [] && forall t | t in commits :: MayGuess(loaded, t)
    ensures LateFailures(loaded, loaded, commits) == Failure(loaded, commits[|commits| - 1])
  {
    LateFailuresCountOnce(loaded, loaded, commits);
  }

  // ----- Rounds of overlapping attempts -----

  // Attempts that load the counter at one moment; each has its password evaluated and commits later.
  datatype Round = Round(start: Time, commits: seq<Time>)

  predicate IsRound(round: Round, width: nat) {
    0 < |round.commits| <= width
    && forall t | t in round.commits :: round.start <= t <= round.commits[|round.commits| - 1]
  }

  // Rounds of at most `width` wrong attempts follow each other between now and end, none of them locked out.
  predicate RoundsFit(lockout: Lockout, now: Time, rounds: seq<Round>, width: nat, end: Time)
    decreases |rounds|
  {
    now <= end
    && (rounds == []
        || var round := rounds[0];
           IsRound(round, width) && now <= round.start && MayGuess(lockout, round.start)
           && RoundsFit(LateFailures(lockout, lockout, round.commits), round.commits[|round.commits| - 1],
                        rounds[1..], width, end))
  }

  function Guesses(rounds: seq<Round>): nat {
    if rounds == [] then 0 else |rounds[0].commits| + Guesses(rounds[1..])
  }

  lemma RoundUsesAllowance(lockout: Lockout, now: Time, round: Round, width: nat, end: Time)
    requires IsRound(round, width) && now <= round.start && MayGuess(lockout, round.start)
    requires round.commits[|round.commits| - 1] <= end
    ensures var last := round.commits[|round.commits| - 1];
            now <= last
            && 1 + Allowance(LateFailures(lockout, lockout, round.commits), last, end) <= Allowance(lockout, now, end)
  {
    var last := round.commits[|round.commits| - 1];
    assert last in round.commits;
    OverlappingGuessesCountOnce(lockout, round.commits);
    GuessUsesAllowance(lockout, last, end);
    WaitingKeepsAllowance(lockout, now, last, end);
  }

  lemma {:induction false} TimesIsMonotone(width: nat, a: nat, b: nat)
    requires a <= b
    ensures width * a <= width * b
  {
    if width == 0 {
    } else {
      TimesIsMonotone(width - 1, a, b);
    }
  }

  lemma OneMoreRound(width: nat, rest: nat, allowance: nat)
    requires 1 + rest <= allowance
    ensures width + width * rest <= width * allowance
  {
    TimesIsMonotone(width, 1 + rest, allowance);
  }

  lemma {:induction false} RoundsFitAllowance(
    lockout: Lockout, now: Time, rounds: seq<Round>, width: nat, end: Time)
    requires RoundsFit(lockout, now, rounds, width, end)
    ensures Guesses(rounds) <= width * Allowance(lockout, now, end)
    decreases |rounds|
  {
    if rounds == [] {
    } else {
      var round := rounds[0];
      var last := round.commits[|round.commits| - 1];
      var after := LateFailures(lockout, lockout, round.commits);
      RoundsFitAllowance(after, last, rounds[1..], width, end);
      RoundUsesAllowance(lockout, now, round, width, end);
      OneMoreRound(width, Allowance(after, last, end), Allowance(lockout, now, end));
    }
  }

  /** Wrong attempts that come in rounds of at most n overlapping ones get at most n times the guesses of the
      serial bound. */
  lemma RoundsAreBounded(
    lockout: Lockout, now: Time, rounds: seq<Round>, width: nat, end: Time, minutes: nat)
    requires RoundsFit(lockout, now, rounds, width, end) && end <= now + minutes * 60
    ensures Guesses(rounds) <= width * (5 + minutes / 15)
  {
    RoundsFitAllowance(lockout, now, rounds, width, end);
    AllowanceInMinutes(lockout, now, end, minutes);
    TimesIsMonotone(width, Allowance(lockout, now, end), 5 + minutes / 15);
  }
}
