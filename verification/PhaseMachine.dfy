/** The phase table and state machine of `schemas/lifecycle.py`. */
module PhaseMachine {
  import opened Basics

  datatype Phase =
    | Bootstrap | Ingest | Assemble | Compact | AfterTurn | PrepareSubagentSpawn | OnSubagentEnded | Dispose

  /** `VALID_TRANSITIONS`, with None for the machine that has not started. */
  function Allowed(current: Option<Phase>): set<Phase> {
    match current
    case None => {Bootstrap}
    case Some(Bootstrap) => {Ingest, Dispose}
    case Some(Ingest) => {Ingest, Assemble, Compact, AfterTurn, PrepareSubagentSpawn, Dispose}
    case Some(Assemble) => {Ingest, Compact, AfterTurn, PrepareSubagentSpawn, Dispose}
    case Some(Compact) => {Ingest, Assemble, AfterTurn, Dispose}
    case Some(AfterTurn) => {Ingest, Dispose}
    case Some(PrepareSubagentSpawn) => {OnSubagentEnded, Ingest, Dispose}
    case Some(OnSubagentEnded) => {Ingest, AfterTurn, Dispose}
    case Some(Dispose) => {}
  }

  function Last(path: seq<Phase>): Option<Phase> {
    if path == [] then None else Some(path[|path| - 1])
  }

  /** A path from None along the table. */
  ghost predicate IsPath(path: seq<Phase>) {
    forall i :: 0 <= i < |path| ==> path[i] in Allowed(Last(path[..i]))
  }

  /** The path after one attempt: a refused phase changes nothing. */
  function Attempt(path: seq<Phase>, to: Phase): seq<Phase> {
    if to in Allowed(Last(path)) then path + [to] else path
  }

  function Run(attempts: seq<Phase>): seq<Phase> {
    if attempts == [] then [] else Attempt(Run(attempts[..|attempts| - 1]), attempts[|attempts| - 1])
  }

  class LifecycleStateMachine {
    var currentPhase: Option<Phase>
    var history: seq<Phase>

    /** History plus the current phase. */
    function Path(): seq<Phase>
      reads this
    {
      if currentPhase.None? then history else history + [currentPhase.value]
    }

    ghost predicate Valid()
      reads this
    {
      (currentPhase.None? ==> history == []) && IsPath(Path())
    }

    constructor ()
      ensures Valid() && Path() == []
    {
      currentPhase, history := None, [];
    }

    /** Answers None for a transition made, or the refused pair. */
    method Transition(to: Phase) returns (error: Option<(Option<Phase>, Phase)>)
      requires Valid()
      modifies this
      ensures Valid() && Path() == Attempt(old(Path()), to)
      ensures error == if to in Allowed(Last(old(Path()))) then None else Some((Last(old(Path())), to))
      ensures error.Some? ==> unchanged(this)
    {
      if to !in Allowed(currentPhase) {
        return Some((currentPhase, to));
      }
      ghost var path := Path();
      AttemptKeepsPath(path, to);
      if currentPhase.Some? {
        history := history + [currentPhase.value];
      }
      currentPhase := Some(to);
      assert Path() == path + [to];
      error := None;
    }

    method CanTransition(to: Phase) returns (yes: bool)
      requires Valid()
      ensures yes == (Attempt(Path(), to) != Path())
    {
      yes := to in Allowed(currentPhase);
    }
  }

  lemma AttemptKeepsPath(path: seq<Phase>, to: Phase)
    requires IsPath(path)
    ensures IsPath(Attempt(path, to))
  {
    var next := Attempt(path, to);
    forall i | 0 <= i < |next| ensures next[i] in Allowed(Last(next[..i])) {
      if i < |path| { assert next[..i] == path[..i]; } else { assert next[..i] == path; }
    }
  }

  /** Whatever is attempted, the record is a valid path. */
  lemma {:induction false} RunsArePaths(attempts: seq<Phase>)
    ensures IsPath(Run(attempts))
  {
    if attempts != [] {
      var n := |attempts| - 1;
      RunsArePaths(attempts[..n]);
      AttemptKeepsPath(Run(attempts[..n]), attempts[n]);
    }
  }

  /** And the valid paths are exactly the attempts that are taken as they stand. */
  lemma {:induction false} PathsAreRuns(path: seq<Phase>)
    ensures IsPath(path) <==> Run(path) == path
  {
    if path != [] {
      var n := |path| - 1;
      PathsAreRuns(path[..n]);
      assert path == path[..n] + [path[n]];
      RunLength(path[..n]);
      if IsPath(path) {
        assert forall i :: 0 <= i < n ==> path[..n][..i] == path[..i];
        assert path[n] in Allowed(Last(path[..n]));
      }
      if Run(path) == path {
        assert Run(path)[..|path| - 1] == path[..n];
        RunsArePaths(path);
      }
    }
  }

  lemma {:induction false} RunLength(attempts: seq<Phase>)
    ensures |Run(attempts)| <= |attempts|
  {
    if attempts != [] { RunLength(attempts[..|attempts| - 1]); }
  }

  function Count(path: seq<Phase>, phase: Phase): nat {
    if path == [] then 0
    else Count(path[..|path| - 1], phase) + if path[|path| - 1] == phase then 1 else 0
  }

  /** Phases in which an ingest has not been answered by an after-turn yet. */
  predicate TurnOpen(path: seq<Phase>) {
    path != [] && path[|path| - 1] !in {Bootstrap, AfterTurn, Dispose}
  }

  /** In every run an after-turn answers an ingest of its own. */
  lemma {:induction false} TurnsFollowIngests(path: seq<Phase>)
    requires IsPath(path)
    ensures Count(path, AfterTurn) + (if TurnOpen(path) then 1 else 0) <= Count(path, Ingest)
  {
    if path != [] {
      var n := |path| - 1;
      assert forall i :: 0 <= i < n ==> path[..n][..i] == path[..i];
      TurnsFollowIngests(path[..n]);
      assert path[n] in Allowed(Last(path[..n]));
    }
  }

  lemma TableFacts(current: Option<Phase>, to: Phase)
    requires to in Allowed(current)
    ensures current.None? <==> to == Bootstrap
    ensures current != Some(Dispose)
    ensures to == OnSubagentEnded ==> current == Some(PrepareSubagentSpawn)
  {
  }

  lemma PositionShape(path: seq<Phase>, i: nat)
    requires IsPath(path) && i < |path|
    ensures i == 0 <==> path[i] == Bootstrap
    ensures i > 0 ==> path[i - 1] != Dispose
    ensures path[i] == OnSubagentEnded ==> i > 0 && path[i - 1] == PrepareSubagentSpawn
  {
    TableFacts(Last(path[..i]), path[i]);
  }

  lemma PrefixCounts(path: seq<Phase>, n: nat)
    requires IsPath(path) && n <= |path|
    ensures Count(path[..n], AfterTurn) <= Count(path[..n], Ingest)
  {
    assert forall i :: 0 <= i < n ==> path[..n][..i] == path[..i];
    TurnsFollowIngests(path[..n]);
  }

  /** The shape of every run. */
  lemma RunShape(attempts: seq<Phase>)
    ensures var path := Run(attempts);
            && (path != [] ==> path[0] == Bootstrap)
            && (forall i :: 0 < i < |path| ==> path[i] != Bootstrap)
            && (forall i :: 0 <= i < |path| - 1 ==> path[i] != Dispose)
            && (forall i :: 0 <= i < |path| && path[i] == OnSubagentEnded ==> i > 0 && path[i - 1] == PrepareSubagentSpawn)
            && (forall n :: 0 <= n <= |path| ==> Count(path[..n], AfterTurn) <= Count(path[..n], Ingest))
  {
    RunsArePaths(attempts);
    ShapeOfPaths(Run(attempts));
  }

  lemma ShapeOfPaths(path: seq<Phase>)
    requires IsPath(path)
    ensures path != [] ==> path[0] == Bootstrap
    ensures forall i :: 0 < i < |path| ==> path[i] != Bootstrap
    ensures forall i :: 0 <= i < |path| - 1 ==> path[i] != Dispose
    ensures forall i :: 0 <= i < |path| && path[i] == OnSubagentEnded ==> i > 0 && path[i - 1] == PrepareSubagentSpawn
    ensures forall n :: 0 <= n <= |path| ==> Count(path[..n], AfterTurn) <= Count(path[..n], Ingest)
  {
    forall i | 0 <= i < |path|
      ensures i == 0 <==> path[i] == Bootstrap
      ensures path[i] == OnSubagentEnded ==> i > 0 && path[i - 1] == PrepareSubagentSpawn
    {
      PositionShape(path, i);
    }
    forall i | 0 <= i < |path| - 1 ensures path[i] != Dispose { PositionShape(path, i + 1); }
    forall n | 0 <= n <= |path| ensures Count(path[..n], AfterTurn) <= Count(path[..n], Ingest) { PrefixCounts(path, n); }
  }

  /** The table read from its targets: where each phase can be entered from. */
  lemma EnteredFrom(current: Option<Phase>, to: Phase)
    ensures to in Allowed(current) <==>
              match to
              case Bootstrap => current.None?
              case Ingest => current.Some? && current.value != Dispose
              case Assemble => current in {Some(Ingest), Some(Compact)}
              case Compact => current in {Some(Ingest), Some(Assemble)}
              case AfterTurn => current in {Some(Ingest), Some(Assemble), Some(Compact), Some(OnSubagentEnded)}
              case PrepareSubagentSpawn => current in {Some(Ingest), Some(Assemble)}
              case OnSubagentEnded => current == Some(PrepareSubagentSpawn)
              case Dispose => current.Some? && current.value != Dispose
  {
  }
}
