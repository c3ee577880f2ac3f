/**
 What an unbroken life (`CtcNetwork.Life`) means for the list of events itself, without mention of phases.
 `CtcSystem.EveryRunKeepsItsPromises` shows that in every run every task's life is unbroken.
 */
module CtcLife {
  import opened CtcNetwork

  /** A commit sends the task to `to`: by submission or by redirection. */
  ghost predicate CommitsTo(e: Event, to: nat) {
    (e.Submitted? || e.Redirected?) && e.to == to
  }

  /** A life that is unbroken now was never broken. */
  lemma {:induction false} PrefixLives(log: seq<Event>, n: nat)
    requires Life(log) != Broken && n <= |log|
    ensures Life(log[..n]) != Broken
    decreases |log|
  {
    if n < |log| {
      PrefixLives(log[..|log| - 1], n);
      assert log[..|log| - 1][..n] == log[..n];
    } else {
      assert log[..n] == log;
    }
  }

  /** Event `n` is one the life allowed at that point. */
  lemma {:induction false} PhaseAt(log: seq<Event>, n: nat)
    requires Life(log) != Broken && n < |log|
    ensures Life(log[..n + 1]) == Advance(Life(log[..n]), log[n]) != Broken
  {
    PrefixLives(log, n + 1);
    assert log[..n + 1][..n] == log[..n];
  }

  /**
   The callback is started only where the commit just before it pointed: so at most once per commit, on no
   other thread, and never for a commit that was cancelled.
   */
  lemma StartFollowsItsCommit(log: seq<Event>, i: nat)
    requires Life(log) != Broken && i < |log| && log[i].Started?
    ensures i > 0 && CommitsTo(log[i - 1], log[i].at)
  {
    PhaseAt(log, i);
    if i > 0 { PhaseAt(log, i - 1); }
  }

  /** A cancel that wins takes the place of the start: nothing but the return to the submitter can follow. */
  lemma CancelPreventsStart(log: seq<Event>, i: nat)
    requires Life(log) != Broken && i < |log| && log[i].Cancelled?
    ensures i > 0 && (log[i - 1].Submitted? || log[i - 1].Redirected?)
    ensures i + 1 < |log| ==> log[i + 1] == Returned(log[i].who)
  {
    PhaseAt(log, i);
    if i > 0 { PhaseAt(log, i - 1); }
    if i + 1 < |log| { PhaseAt(log, i + 1); }
  }

  /** Position of the submission that the events before `n` belong to. */
  ghost function LastSubmit(log: seq<Event>, n: nat): (r: nat)
    requires n <= |log| && Life(log) != Broken && (PrefixLives(log, n); Life(log[..n]) != AtHome)
    ensures r < n && log[r].Submitted?
    ensures forall k :: r < k < n ==> !log[k].Submitted? && !log[k].Returned?
    ensures
      match Life(log[..n])
      case Pending(f, _) => f == log[r].who
      case Executing(f, _) => f == log[r].who
      case Ended(f) => f == log[r].who
      case _ => false
    decreases n
  {
    PrefixLives(log, n);
    assert n > 0;
    PhaseAt(log, n - 1);
    if log[n - 1].Submitted? then n - 1 else LastSubmit(log, n - 1)
  }

  /** Every return answers exactly one submission, and goes to the thread that made it. */
  lemma ReturnAnswersSubmit(log: seq<Event>, i: nat)
    requires Life(log) != Broken && i < |log| && log[i].Returned?
    ensures exists j :: 0 <= j < i && log[j].Submitted? && log[j].who == log[i].at
              && forall k :: j < k < i ==> !log[k].Submitted? && !log[k].Returned?
  {
    PhaseAt(log, i);
    var j := LastSubmit(log, i);
    assert log[j].Submitted? && log[j].who == log[i].at;
  }

  ghost function Commits(log: seq<Event>): nat {
    if log == [] then 0
    else Commits(log[..|log| - 1]) + (if log[|log| - 1].Submitted? || log[|log| - 1].Redirected? then 1 else 0)
  }

  ghost function Outcomes(log: seq<Event>): nat {
    if log == [] then 0
    else Outcomes(log[..|log| - 1]) + (if log[|log| - 1].Started? || log[|log| - 1].Cancelled? then 1 else 0)
  }

  ghost function Submits(log: seq<Event>): nat {
    if log == [] then 0 else Submits(log[..|log| - 1]) + (if log[|log| - 1].Submitted? then 1 else 0)
  }

  ghost function Returns(log: seq<Event>): nat {
    if log == [] then 0 else Returns(log[..|log| - 1]) + (if log[|log| - 1].Returned? then 1 else 0)
  }

  /** Conservation: every commit is started or cancelled exactly once, every submission returned exactly once. */
  lemma {:induction false} CommitsAreConserved(log: seq<Event>)
    requires Life(log) != Broken
    ensures Commits(log) == Outcomes(log) + (if Life(log).Pending? then 1 else 0)
    ensures Submits(log) == Returns(log) + (if Life(log).AtHome? then 0 else 1)
  {
    if log != [] {
      PrefixLives(log, |log| - 1);
      CommitsAreConserved(log[..|log| - 1]);
    }
  }
}
