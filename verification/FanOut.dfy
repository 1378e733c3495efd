/** Concurrent deliveries of one alert: every channel retries on its own
    goroutine while the context may be cancelled at any moment
    (internal/notify/dispatcher.go). */
module FanOut {
  import opened Logs
  import opened Delivery

  /** Where a delivery's loop stands: about to check the context, about to call
      the channel, waiting between attempts, or done. */
  datatype Phase = Checking | Calling | Waiting | Finished(result: Result)

  datatype Job = Job(attempt: nat, calls: nat, phase: Phase)

  const NEW_JOB := Job(1, 0, Checking)

  /** One step of a delivery. `timer` says whether the wait's timer has fired
      and is taken; with neither timer nor cancellation a wait goes on. */
  function Advance(max: nat, outcome: Script, done: bool, timer: bool, j: Job): Job {
    match j.phase
    case Checking => j.(phase := if done then Finished(Cancelled) else Calling)
    case Calling =>
      var err := SafeNotify(outcome(j.attempt));
      j.(calls := j.calls + 1,
         phase := if err.None? then Finished(Delivered)
                  else if j.attempt < max then Waiting
                  else Finished(Exhausted(err.value)))
    case Waiting =>
      if timer then j.(attempt := j.attempt + 1, phase := Checking)
      else if done then j.(phase := Finished(Cancelled))
      else j
    case Finished(_) => j
  }

  /** The shared context and all deliveries. */
  datatype World = World(done: bool, jobs: seq<Job>)

  datatype Move = Cancel | Turn(id: nat, timer: bool)

  function Step(max: nat, scripts: seq<Script>, w: World, mv: Move): World
    requires |scripts| == |w.jobs|
  {
    match mv
    case Cancel => w.(done := true)
    case Turn(id, timer) =>
      if id >= |w.jobs| then w
      else w.(jobs := w.jobs[id := Advance(max, scripts[id], w.done, timer, w.jobs[id])])
  }

  function Begin(n: nat): World {
    World(false, seq(n, _ => NEW_JOB))
  }

  /** Any interleaving of the deliveries and of the cancellation. */
  function Exec(max: nat, scripts: seq<Script>, moves: seq<Move>): (w: World)
    ensures |w.jobs| == |scripts|
  {
    if moves == [] then Begin(|scripts|)
    else Step(max, scripts, Exec(max, scripts, moves[..|moves| - 1]), moves[|moves| - 1])
  }

  lemma ExecPush(max: nat, scripts: seq<Script>, moves: seq<Move>, mv: Move)
    ensures Exec(max, scripts, moves + [mv]) == Step(max, scripts, Exec(max, scripts, moves), mv)
  {
    hide Step;
    assert (moves + [mv])[..|moves|] == moves;
  }

  // ----- what one delivery has done so far -----

  /** Every attempt before the current one was made and failed; the phase says
      whether the current one was made, and how the delivery ended. */
  ghost predicate Sound(max: nat, outcome: Script, done: bool, j: Job) {
    && 1 <= j.attempt <= max
    && (forall i :: 1 <= i < j.attempt ==> !outcome(i).Accepted?)
    && match j.phase
       case Checking => j.calls == j.attempt - 1
       case Calling => j.calls == j.attempt - 1
       case Waiting => j.calls == j.attempt < max && !outcome(j.calls).Accepted?
       case Finished(Delivered) => j.calls == j.attempt && outcome(j.calls).Accepted?
       case Finished(Exhausted(e)) => j.calls == j.attempt == max && IsErrorOf(e, outcome(max))
       case Finished(Cancelled) =>
         && done && j.calls < max
         && (j.calls == j.attempt - 1 || j.calls == j.attempt)
         && (j.calls > 0 ==> !outcome(j.calls).Accepted?)
  }

  lemma {:induction false} AlwaysSound(max: nat, scripts: seq<Script>, moves: seq<Move>, id: nat)
    requires max >= 1 && id < |scripts|
    ensures var w := Exec(max, scripts, moves); Sound(max, scripts[id], w.done, w.jobs[id])
  {
    if moves != [] {
      AlwaysSound(max, scripts, moves[..|moves| - 1], id);
    }
  }

  /** Exactly min(first success, limit) calls for a delivery that ended without
      cancellation, whatever its siblings did; one that was cancelled made fewer
      calls, all of them failed. */
  lemma ExactCalls(max: nat, scripts: seq<Script>, moves: seq<Move>, id: nat)
    requires max >= 1 && id < |scripts|
    requires Exec(max, scripts, moves).jobs[id].phase.Finished?
    ensures var w := Exec(max, scripts, moves);
            var j, first := w.jobs[id], FirstAccepted(scripts[id], 1, max);
            && (!w.done ==> j.phase.result != Cancelled)
            && (j.phase.result == Delivered <==> j.calls > 0 && scripts[id](j.calls).Accepted?)
            && (forall i :: 1 <= i < j.calls ==> !scripts[id](i).Accepted?)
            && (j.phase.result == Delivered ==> j.calls == first <= max)
            && (j.phase.result.Exhausted? ==>
                  j.calls == max < first && IsErrorOf(j.phase.result.lastError, scripts[id](max)))
            && (j.phase.result == Cancelled ==> j.calls < first && j.calls < max)
            && MadeExactly(scripts[id], i => j.phase.result == Cancelled && i > j.calls, max, j.calls)
  {
    hide Exec;
    AlwaysSound(max, scripts, moves, id);
  }

  // ----- isolation -----

  /** The moves delivery `id` can notice: its own turns and the cancellation. */
  function Visible(moves: seq<Move>, id: nat): seq<Move> {
    if moves == [] then []
    else Visible(moves[..|moves| - 1], id)
         + if moves[|moves| - 1] == Cancel || moves[|moves| - 1].id == id then [moves[|moves| - 1]] else []
  }

  /** Isolation: a delivery goes the same way whatever its siblings' outcomes
      and however they are scheduled. */
  lemma {:induction false} Isolation(max: nat, scripts: seq<Script>, others: seq<Script>, moves: seq<Move>, id: nat)
    requires id < |scripts| == |others| && scripts[id] == others[id]
    ensures var w, alone := Exec(max, scripts, moves), Exec(max, others, Visible(moves, id));
            w.done == alone.done && w.jobs[id] == alone.jobs[id]
  {
    hide Exec, Advance;
    if moves == [] {
      SameStart(max, scripts, others, id);
      assert Visible(moves, id) == moves;
    } else {
      var init, mv := moves[..|moves| - 1], moves[|moves| - 1];
      Isolation(max, scripts, others, init, id);
      assert moves == init + [mv];
      ExecPush(max, scripts, init, mv);
      if mv == Cancel || mv.id == id {
        ExecPush(max, others, Visible(init, id), mv);
      } else {
        assert Visible(moves, id) == Visible(init, id);
      }
    }
  }

  lemma SameStart(max: nat, scripts: seq<Script>, others: seq<Script>, id: nat)
    requires id < |scripts| == |others|
    ensures var w, v := Exec(max, scripts, []), Exec(max, others, []);
            w.done == v.done && w.jobs[id] == v.jobs[id] == NEW_JOB
  {
  }

  // ----- cancellation -----

  /** Once the context is done a delivery makes at most the call that had
      already passed its check. */
  lemma {:induction false} NoCallAfterCancellation(max: nat, scripts: seq<Script>, before: seq<Move>, after: seq<Move>, id: nat)
    requires id < |scripts|
    ensures var at, w := Exec(max, scripts, before + [Cancel]), Exec(max, scripts, before + [Cancel] + after);
            && w.done
            && w.jobs[id].calls + (if w.jobs[id].phase == Calling then 1 else 0) <=
               at.jobs[id].calls + (if at.jobs[id].phase == Calling then 1 else 0)
  {
    hide Exec;
    if after == [] {
      ExecPush(max, scripts, before, Cancel);
      assert before + [Cancel] + after == before + [Cancel];
    } else {
      var init, mv := after[..|after| - 1], after[|after| - 1];
      NoCallAfterCancellation(max, scripts, before, init, id);
      assert before + [Cancel] + after == before + [Cancel] + init + [mv];
      ExecPush(max, scripts, before + [Cancel] + init, mv);
    }
  }

  /** How many turns a delivery still has once the context is done. */
  function TurnsLeft(phase: Phase): nat {
    match phase
    case Finished(_) => 0
    case Checking => 1
    case Waiting => 2
    case Calling => 3
  }

  /** All turns of a delivery, whether or not its timer has fired. */
  function AnyTurns(moves: seq<Move>, id: nat): nat {
    if moves == [] then 0
    else AnyTurns(moves[..|moves| - 1], id) + if moves[|moves| - 1].Turn? && moves[|moves| - 1].id == id then 1 else 0
  }

  /** After a cancellation three turns end any delivery, however long its timer
      would still have run: it may finish a call, be woken and check once more. */
  lemma {:induction false} CancellationEndsDelivery(max: nat, scripts: seq<Script>, before: seq<Move>, after: seq<Move>,
                                                    id: nat)
    requires id < |scripts|
    ensures var w := Exec(max, scripts, before + [Cancel] + after);
            && w.done
            && (w.jobs[id].phase.Finished? || TurnsLeft(w.jobs[id].phase) + AnyTurns(after, id) <= 3)
    ensures AnyTurns(after, id) >= 3 ==> Exec(max, scripts, before + [Cancel] + after).jobs[id].phase.Finished?
  {
    hide Exec;
    if after == [] {
      ExecPush(max, scripts, before, Cancel);
      assert before + [Cancel] + after == before + [Cancel];
    } else {
      var init, mv := after[..|after| - 1], after[|after| - 1];
      CancellationEndsDelivery(max, scripts, before, init, id);
      assert before + [Cancel] + after == before + [Cancel] + init + [mv];
      ExecPush(max, scripts, before + [Cancel] + init, mv);
    }
  }

  // ----- progress -----

  /** How many turns a delivery still needs at most. */
  function Rank(max: nat, j: Job): int {
    match j.phase
    case Finished(_) => 0
    case Checking => 3 * (max - j.attempt) + 3
    case Calling => 3 * (max - j.attempt) + 2
    case Waiting => 3 * (max - j.attempt) + 1
  }

  /** The turns of a delivery in which it is not left waiting for its timer. */
  function Turns(moves: seq<Move>, id: nat): nat {
    if moves == [] then 0
    else Turns(moves[..|moves| - 1], id) + if moves[|moves| - 1] == Turn(id, true) then 1 else 0
  }

  lemma TurnsPush(moves: seq<Move>, mv: Move, id: nat)
    ensures Turns(moves + [mv], id) == Turns(moves, id) + if mv == Turn(id, true) then 1 else 0
  {
    assert (moves + [mv])[..|moves|] == moves;
  }

  lemma AdvanceRank(max: nat, outcome: Script, done: bool, timer: bool, j: Job)
    requires Sound(max, outcome, done, j)
    ensures Rank(max, Advance(max, outcome, done, timer, j)) <= Rank(max, j)
    ensures timer && !j.phase.Finished? ==> Rank(max, Advance(max, outcome, done, timer, j)) < Rank(max, j)
  {
  }

  lemma {:induction false} RankFalls(max: nat, scripts: seq<Script>, moves: seq<Move>, id: nat)
    requires max >= 1 && id < |scripts|
    ensures var j := Exec(max, scripts, moves).jobs[id];
            j.phase.Finished? || Rank(max, j) + Turns(moves, id) <= 3 * max
  {
    if moves != [] {
      hide Advance, Rank, Sound;
      var init, mv := moves[..|moves| - 1], moves[|moves| - 1];
      assert moves == init + [mv];
      RankFalls(max, scripts, init, id);
      AlwaysSound(max, scripts, init, id);
      TurnsPush(init, mv, id);
      ExecPush(max, scripts, init, mv);
      if mv.Turn? && mv.id == id {
        var w := Exec(max, scripts, init);
        AdvanceRank(max, scripts[id], w.done, mv.timer, w.jobs[id]);
        if w.jobs[id].phase.Finished? {
          FinishedStays(max, scripts[id], w.done, mv.timer, w.jobs[id]);
        }
      }
    }
  }

  lemma FinishedStays(max: nat, outcome: Script, done: bool, timer: bool, j: Job)
    requires j.phase.Finished?
    ensures Advance(max, outcome, done, timer, j) == j
  {
  }

  /** No sibling can hold a delivery up: after 3 * max turns of its own it has
      finished, even if every other delivery fails, panics or never moves. */
  lemma EveryDeliveryFinishes(max: nat, scripts: seq<Script>, moves: seq<Move>, id: nat)
    requires max >= 1 && id < |scripts| && Turns(moves, id) >= 3 * max
    ensures Exec(max, scripts, moves).jobs[id].phase.Finished?
  {
    hide Exec;
    RankFalls(max, scripts, moves, id);
    AlwaysSound(max, scripts, moves, id);
  }
}
