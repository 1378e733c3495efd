/** The daemon's run protocol (cmd/healthd/main.go): roles on their own
    goroutines, the first fatal error or a signal brings everything down. */
module FailFast {
  import opened Logs

  /** How a role's Run returned. Only an error other than cancellation is fatal. */
  datatype Exit = Clean | ContextCanceled | Fatal(error: string)

  /** What run reports: the failing role and its error. */
  datatype RunError = RunError(role: string, error: string)

  /** A role's goroutine: running, holding a fatal error it has yet to record,
      about to cancel the context, or done. */
  datatype RoleState = Running | Failing(error: string) | Cancelling | Stopped

  datatype MainState = Serving | Draining | Returned(result: Option<RunError>)

  datatype Daemon = Daemon(
    roles: seq<RoleState>,
    signalled: bool,
    cancelled: bool,
    fatalErr: Option<RunError>,
    main: MainState,
    exits: seq<Option<Exit>>,   // how each role returned, once it has
    recorded: seq<RunError>)    // the fatal errors, in the order the mutex saw them

  datatype Move = Signal | RoleReturns(id: nat, exit: Exit) | Record(id: nat) | CancelContext(id: nat) | MainWakes | MainReturns

  function Start(n: nat): Daemon {
    Daemon(seq(n, _ => Running), false, false, None, Serving, seq(n, _ => None), [])
  }

  predicate ContextDone(d: Daemon) {
    d.signalled || d.cancelled
  }

  /** One atomic step; a move that is not enabled does nothing. */
  function Step(names: seq<string>, d: Daemon, mv: Move): Daemon
    requires |names| == |d.roles| == |d.exits|
  {
    match mv
    case Signal => d.(signalled := true)
    case RoleReturns(id, exit) =>
      if id < |d.roles| && d.roles[id] == Running then
        d.(exits := d.exits[id := Some(exit)],
           roles := d.roles[id := if exit.Fatal? then Failing(exit.error) else Stopped])
      else d
    case Record(id) =>
      if id < |d.roles| && d.roles[id].Failing? then
        var e := RunError(names[id], d.roles[id].error);
        d.(fatalErr := if d.fatalErr.None? then Some(e) else d.fatalErr,
           recorded := d.recorded + [e],
           roles := d.roles[id := Cancelling])
      else d
    case CancelContext(id) =>
      if id < |d.roles| && d.roles[id] == Cancelling then d.(cancelled := true, roles := d.roles[id := Stopped]) else d
    case MainWakes =>
      if d.main == Serving && ContextDone(d) then d.(main := Draining) else d
    case MainReturns =>
      if d.main == Draining && (forall i :: 0 <= i < |d.roles| ==> d.roles[i] == Stopped)
      then d.(main := Returned(d.fatalErr)) else d
  }

  function Exec(names: seq<string>, moves: seq<Move>): (d: Daemon)
    ensures |d.roles| == |d.exits| == |names|
  {
    if moves == [] then Start(|names|)
    else Step(names, Exec(names, moves[..|moves| - 1]), moves[|moves| - 1])
  }

  /** What a role's exit says about its goroutine and the recorded errors. */
  predicate RoleOk(names: seq<string>, d: Daemon, id: nat)
    requires id < |names| == |d.roles| == |d.exits|
  {
    match d.roles[id]
    case Running => d.exits[id].None?
    case Failing(e) => d.exits[id] == Some(Fatal(e))
    case Cancelling => d.exits[id].Some? && d.exits[id].value.Fatal? && RunError(names[id], d.exits[id].value.error) in d.recorded
    case Stopped =>
      && d.exits[id].Some?
      && (d.exits[id].value.Fatal? ==> RunError(names[id], d.exits[id].value.error) in d.recorded)
  }

  predicate CameFrom(names: seq<string>, d: Daemon, e: RunError, id: nat)
    requires |names| == |d.exits|
  {
    id < |names| && d.exits[id] == Some(Fatal(e.error)) && names[id] == e.role
  }

  /** Some role really returned this error. */
  ghost predicate HasOrigin(names: seq<string>, d: Daemon, e: RunError)
    requires |names| == |d.exits|
  {
    exists i: nat :: CameFrom(names, d, e, i)
  }

  ghost predicate Sound(names: seq<string>, d: Daemon)
    requires |names| == |d.roles| == |d.exits|
  {
    && (forall i :: 0 <= i < |names| ==> RoleOk(names, d, i))
    && d.fatalErr == (if d.recorded == [] then None else Some(d.recorded[0]))
    && (forall k :: 0 <= k < |d.recorded| ==> HasOrigin(names, d, d.recorded[k]))
    && (d.cancelled ==> d.recorded != [])
    && (d.main != Serving ==> ContextDone(d))
    && (d.main.Returned? ==>
          && d.main.result == d.fatalErr
          && forall i :: 0 <= i < |d.roles| ==> d.roles[i] == Stopped)
  }

  lemma OriginsKept(names: seq<string>, d: Daemon, mv: Move, k: nat)
    requires |names| == |d.roles| == |d.exits| && Sound(names, d)
    requires k < |Step(names, d, mv).recorded|
    ensures HasOrigin(names, Step(names, d, mv), Step(names, d, mv).recorded[k])
  {
    var d' := Step(names, d, mv);
    if k < |d.recorded| {
      var i: nat :| CameFrom(names, d, d.recorded[k], i);
      assert RoleOk(names, d, i);
      assert CameFrom(names, d', d'.recorded[k], i);
    } else {
      assert RoleOk(names, d, mv.id);
      assert CameFrom(names, d', d'.recorded[k], mv.id);
    }
  }

  lemma MainStep(names: seq<string>, d: Daemon, mv: Move)
    requires |names| == |d.roles| == |d.exits| && Sound(names, d)
    ensures var d' := Step(names, d, mv);
            && (d'.cancelled ==> d'.recorded != [])
            && (d'.main != Serving ==> ContextDone(d'))
            && (d'.main.Returned? ==>
                  && d'.main.result == d'.fatalErr
                  && forall i :: 0 <= i < |d'.roles| ==> d'.roles[i] == Stopped)
  {
    hide HasOrigin, CameFrom;
    if mv.CancelContext? && mv.id < |names| {
      assert RoleOk(names, d, mv.id);
    }
  }

  lemma StepSound(names: seq<string>, d: Daemon, mv: Move)
    requires |names| == |d.roles| == |d.exits| && Sound(names, d)
    ensures Sound(names, Step(names, d, mv))
  {
    hide HasOrigin, CameFrom;
    var d' := Step(names, d, mv);
    forall i | 0 <= i < |names| ensures RoleOk(names, d', i) {
      assert RoleOk(names, d, i);
    }
    forall k | 0 <= k < |d'.recorded| ensures HasOrigin(names, d', d'.recorded[k]) {
      OriginsKept(names, d, mv, k);
    }
    MainStep(names, d, mv);
  }

  lemma {:induction false} AlwaysSound(names: seq<string>, moves: seq<Move>)
    ensures Sound(names, Exec(names, moves))
  {
    if moves != [] {
      hide Step, Sound;
      AlwaysSound(names, moves[..|moves| - 1]);
      StepSound(names, Exec(names, moves[..|moves| - 1]), moves[|moves| - 1]);
    }
  }

  /** Signals and exits are those that were scheduled, and no others. */
  lemma {:induction false} OnlyWhatHappened(names: seq<string>, moves: seq<Move>)
    ensures var d := Exec(names, moves);
            && (d.signalled <==> Signal in moves)
            && forall i :: 0 <= i < |names| && d.exits[i].Some? ==> RoleReturns(i, d.exits[i].value) in moves
  {
    if moves != [] {
      hide Exec;
      var init, mv := moves[..|moves| - 1], moves[|moves| - 1];
      OnlyWhatHappened(names, init);
      assert moves == init + [mv];
      ExecPush(names, init, mv);
    }
  }

  /** When run returns, every role has stopped; it reports an error exactly when
      some role failed fatally, and then the first one that was recorded, which
      is a real role's own error. It only returns after a signal or a failure. */
  lemma RunReturns(names: seq<string>, moves: seq<Move>)
    requires Exec(names, moves).main.Returned?
    ensures var d := Exec(names, moves); var result := d.main.result;
            && (forall i :: 0 <= i < |names| ==> d.roles[i] == Stopped && d.exits[i].Some?)
            && (result.Some? <==> exists i :: 0 <= i < |names| && d.exits[i].value.Fatal?)
            && (result.Some? ==> d.recorded != [] && result.value == d.recorded[0])
            && (result.Some? ==> HasOrigin(names, d, result.value))
            && (result.None? ==> Signal in moves)
  {
    hide Exec;
    AlwaysSound(names, moves);
    OnlyWhatHappened(names, moves);
    var d := Exec(names, moves);
    forall i | 0 <= i < |names| ensures d.roles[i] == Stopped && d.exits[i].Some? {
      assert RoleOk(names, d, i);
    }
    if d.main.result.Some? {
      var i: nat :| CameFrom(names, d, d.recorded[0], i);
      assert 0 <= i < |names| && d.exits[i].value.Fatal?;
    }
    if i :| 0 <= i < |names| && d.exits[i].value.Fatal? {
      assert RoleOk(names, d, i);
    }
  }

  lemma ExecPush(names: seq<string>, moves: seq<Move>, mv: Move)
    ensures Exec(names, moves + [mv]) == Step(names, Exec(names, moves), mv)
  {
    hide Step;
    assert (moves + [mv])[..|moves|] == moves;
  }

  /** A recorded error is never overwritten, and a return value never changes. */
  lemma {:induction false} FirstErrorSticks(names: seq<string>, moves: seq<Move>, more: seq<Move>)
    ensures var d, e := Exec(names, moves), Exec(names, moves + more);
            && d.recorded <= e.recorded
            && (d.fatalErr.Some? ==> e.fatalErr == d.fatalErr)
            && (d.main.Returned? ==> e.main == d.main)
  {
    hide Exec;
    if more == [] {
      assert moves + more == moves;
    } else {
      var init, mv := more[..|more| - 1], more[|more| - 1];
      FirstErrorSticks(names, moves, init);
      assert moves + more == (moves + init) + [mv];
      ExecPush(names, moves + init, mv);
    }
  }

  /** Roles that all stop without a fatal error do not end the daemon: without a
      signal it keeps waiting, whatever else is scheduled. */
  lemma CleanStopsKeepServing(names: seq<string>, moves: seq<Move>)
    requires Signal !in moves && forall mv :: mv in moves && mv.RoleReturns? ==> !mv.exit.Fatal?
    ensures Exec(names, moves).main == Serving
  {
    hide Exec;
    AlwaysSound(names, moves);
    OnlyWhatHappened(names, moves);
    var d := Exec(names, moves);
    assert d.recorded == [];
  }

  /** How far a failed role has got: error held, error recorded, context
      cancelled, main goroutine no longer serving. */
  predicate Reached(d: Daemon, id: nat, stage: nat) {
    && id < |d.roles|
    && match d.roles[id]
       case Running => false
       case Failing(_) => stage == 0
       case Cancelling => stage <= 1 && d.fatalErr.Some?
       case Stopped =>
         && d.fatalErr.Some? && d.cancelled
         && (stage >= 3 ==> d.main != Serving)
  }

  /** The move that takes a role past a stage. */
  predicate Advances(mv: Move, id: nat, stage: nat) {
    match mv
    case Record(i) => i == id && stage == 0
    case CancelContext(i) => i == id && stage == 1
    case MainWakes => stage == 2
    case _ => false
  }

  lemma StageStep(names: seq<string>, d: Daemon, mv: Move, id: nat, stage: nat)
    requires |names| == |d.roles| == |d.exits| && Reached(d, id, stage)
    ensures Reached(Step(names, d, mv), id, stage)
    ensures Advances(mv, id, stage) ==> Reached(Step(names, d, mv), id, stage + 1)
  {
  }

  lemma {:induction false} StageKept(names: seq<string>, moves: seq<Move>, more: seq<Move>, id: nat, stage: nat)
    requires Reached(Exec(names, moves), id, stage)
    ensures Reached(Exec(names, moves + more), id, stage)
  {
    hide Exec, Step, Reached;
    if more == [] {
      assert moves + more == moves;
    } else {
      var init, mv := more[..|more| - 1], more[|more| - 1];
      StageKept(names, moves, init, id, stage);
      assert moves + more == (moves + init) + [mv];
      ExecPush(names, moves + init, mv);
      StageStep(names, Exec(names, moves + init), mv, id, stage);
    }
  }

  lemma StageAdvances(names: seq<string>, moves: seq<Move>, others: seq<Move>, mv: Move, id: nat, stage: nat)
    requires Reached(Exec(names, moves), id, stage) && Advances(mv, id, stage)
    ensures Reached(Exec(names, moves + others + [mv]), id, stage + 1)
  {
    hide Exec, Step, Reached, Advances;
    StageKept(names, moves, others, id, stage);
    ExecPush(names, moves + others, mv);
    StageStep(names, Exec(names, moves + others), mv, id, stage);
  }

  /** Fail fast: once a role has failed, any continuation in which it records
      its error, cancels the context and the main goroutine then gets its turn,
      among any other moves, takes the daemon out of service without a signal
      and with an error to report. */
  lemma FailureBringsDown(names: seq<string>, moves: seq<Move>, id: nat, a: seq<Move>, b: seq<Move>, c: seq<Move>,
                          rest: seq<Move>)
    requires id < |names| && Exec(names, moves).roles[id].Failing?
    ensures var d := Exec(names, moves + a + [Record(id)] + b + [CancelContext(id)] + c + [MainWakes] + rest);
            d.main != Serving && d.fatalErr.Some? && d.cancelled
  {
    hide Exec;
    var recorded := moves + a + [Record(id)];
    var cancelled := recorded + b + [CancelContext(id)];
    var woken := cancelled + c + [MainWakes];
    StageAdvances(names, moves, a, Record(id), id, 0);
    StageAdvances(names, recorded, b, CancelContext(id), id, 1);
    StageAdvances(names, cancelled, c, MainWakes, id, 2);
    StageKept(names, woken, rest, id, 3);
  }

  /** A role that returns stops, at once unless its error is fatal, and then after
      it has recorded that error and cancelled the context. */
  lemma RoleStops(names: seq<string>, moves: seq<Move>, id: nat, exit: Exit, a: seq<Move>, b: seq<Move>, rest: seq<Move>)
    requires id < |names| && Exec(names, moves).roles[id] == Running
    ensures Exec(names, moves + [RoleReturns(id, exit)]).roles[id] == Stopped <==> !exit.Fatal?
    ensures var d := Exec(names, moves + [RoleReturns(id, exit)] + a + [Record(id)] + b + [CancelContext(id)] + rest);
            && d.roles[id] == Stopped && d.exits[id] == Some(exit)
            && (exit.Fatal? ==> RunError(names[id], exit.error) in d.recorded && d.cancelled)
  {
    hide Exec, Reached;
    var returned := moves + [RoleReturns(id, exit)];
    var recorded := returned + a + [Record(id)];
    var cancelled := recorded + b + [CancelContext(id)];
    ExecPush(names, moves, RoleReturns(id, exit));
    ExitKept(names, returned, a + [Record(id)] + b + [CancelContext(id)] + rest, id);
    assert returned + (a + [Record(id)] + b + [CancelContext(id)] + rest) == cancelled + rest;
    AlwaysSound(names, cancelled + rest);
    assert RoleOk(names, Exec(names, cancelled + rest), id);
    if exit.Fatal? {
      HeldIsFirstStage(Exec(names, returned), id);
      StageAdvances(names, returned, a, Record(id), id, 0);
      StageAdvances(names, recorded, b, CancelContext(id), id, 1);
      StageKept(names, cancelled, rest, id, 2);
      LastStages(Exec(names, cancelled + rest), id);
    }
  }

  lemma HeldIsFirstStage(d: Daemon, id: nat)
    requires id < |d.roles| && d.roles[id].Failing?
    ensures Reached(d, id, 0)
  {
  }

  lemma LastStages(d: Daemon, id: nat)
    requires Reached(d, id, 2)
    ensures d.roles[id] == Stopped && d.cancelled
  {
  }

  /** How a role returned is never forgotten, and a stopped role stays stopped. */
  lemma {:induction false} ExitKept(names: seq<string>, moves: seq<Move>, more: seq<Move>, id: nat)
    requires id < |names| && Exec(names, moves).exits[id].Some?
    requires Exec(names, moves).roles[id] != Running
    ensures var d, e := Exec(names, moves), Exec(names, moves + more);
            && e.exits[id] == d.exits[id] && e.roles[id] != Running
            && (d.roles[id] == Stopped ==> e.roles[id] == Stopped)
  {
    hide Exec;
    if more == [] {
      assert moves + more == moves;
    } else {
      var init, mv := more[..|more| - 1], more[|more| - 1];
      ExitKept(names, moves, init, id);
      assert moves + more == (moves + init) + [mv];
      ExecPush(names, moves + init, mv);
    }
  }

  /** Once told to stop, a daemon stays told, and once out of service it stays out. */
  lemma {:induction false} NoWayBack(names: seq<string>, moves: seq<Move>, more: seq<Move>)
    ensures var d, e := Exec(names, moves), Exec(names, moves + more);
            && (d.signalled ==> e.signalled)
            && (d.main != Serving ==> e.main != Serving)
  {
    hide Exec;
    if more == [] {
      assert moves + more == moves;
    } else {
      var init, mv := more[..|more| - 1], more[|more| - 1];
      NoWayBack(names, moves, init);
      assert moves + more == (moves + init) + [mv];
      ExecPush(names, moves + init, mv);
    }
  }

  /** Graceful stop: after a signal, whenever it comes and whatever happens
      around it, the main goroutine leaves service at its next turn. */
  lemma SignalBringsDown(names: seq<string>, before: seq<Move>, a: seq<Move>, rest: seq<Move>)
    ensures Exec(names, before + [Signal] + a + [MainWakes] + rest).main != Serving
  {
    hide Exec;
    ExecPush(names, before, Signal);
    NoWayBack(names, before + [Signal], a);
    ExecPush(names, before + [Signal] + a, MainWakes);
    NoWayBack(names, before + [Signal] + a + [MainWakes], rest);
  }

  /** Once out of service and with every role stopped, the daemon returns at its
      next turn, and what it reports is decided by how the roles returned. */
  lemma ShutdownCompletes(names: seq<string>, moves: seq<Move>)
    requires var d := Exec(names, moves); d.main != Serving && forall i :: 0 <= i < |names| ==> d.roles[i] == Stopped
    ensures var d := Exec(names, moves + [MainReturns]);
            && d.main.Returned?
            && d.exits == Exec(names, moves).exits
            && (d.main.result.None? <==> forall i :: 0 <= i < |names| ==> d.exits[i].Some? && !d.exits[i].value.Fatal?)
  {
    hide Exec;
    ExecPush(names, moves, MainReturns);
    AlwaysSound(names, moves);
    RunReturns(names, moves + [MainReturns]);
  }
}
